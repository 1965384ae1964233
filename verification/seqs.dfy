/** Small facts about appending to a sequence, stated for any element type. */
module Seqs {

  /** The parts of a sequence with one element appended. */
  lemma Snoc<T>(s: seq<T>, init: seq<T>, x: T)
    requires s == init + [x]
    ensures |s| == |init| + 1 && s[..|init|] == init && s[|init|] == x
    ensures forall k :: 0 <= k < |init| ==> s[k] == init[k]
    ensures forall y :: y in s <==> y in init || y == x
  {
  }

  /** Appending block after head + before gives head + after, when after extends before by block. */
  lemma AppendAfter<T>(out: seq<T>, block: seq<T>, head: seq<T>, before: seq<T>, after: seq<T>)
    requires out == head + before && after == before + block
    ensures out + block == head + after
  {
  }

  /** A sequence is what precedes index i, the element at i and what follows. */
  lemma Around<T>(s: seq<T>, i: nat)
    requires i < |s|
    ensures s == s[..i] + [s[i]] + s[i + 1..]
  {
  }

  /** The parts of a sequence made of two leading elements, a middle and two trailing elements. */
  lemma Framed<T>(s: seq<T>, h1: T, h2: T, mid: seq<T>, t1: T, t2: T)
    requires s == [h1, h2] + mid + [t1, t2]
    ensures |s| == |mid| + 4 && s[0] == h1 && s[1] == h2 && s[|s| - 2] == t1 && s[|s| - 1] == t2
    ensures s[2..|s| - 2] == mid
    ensures forall k :: 0 <= k < |mid| ==> s[k + 2] == mid[k]
  {
  }

  /** f applied to every element of xs, in order. */
  function Map<A, B>(xs: seq<A>, f: A -> B): (ys: seq<B>)
    ensures |ys| == |xs|
  {
    if xs == [] then [] else Map(xs[..|xs| - 1], f) + [f(xs[|xs| - 1])]
  }

  lemma {:induction false} MapAt<A, B>(xs: seq<A>, f: A -> B)
    ensures forall k :: 0 <= k < |xs| ==> Map(xs, f)[k] == f(xs[k])
  {
    if xs != [] {
      var n := |xs| - 1;
      MapAt(xs[..n], f);
      Snoc(Map(xs, f), Map(xs[..n], f), f(xs[n]));
      Snoc(xs, xs[..n], xs[n]);
    }
  }

  lemma MapAppend<A, B>(xs: seq<A>, x: A, f: A -> B)
    ensures Map(xs + [x], f) == Map(xs, f) + [f(x)]
  {
    assert (xs + [x])[..|xs|] == xs;
  }
}
