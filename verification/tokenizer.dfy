/**
 * `tokenize` of aggregator.cpp: the line is read through a string stream; one
 * getline up to ':' yields the kind tag, then getline up to ',' is repeated
 * while it succeeds, each success yielding one field.
 */
module Tokenizer {
  import Seqs

  /** Index of the first c in s, or |s| when there is none. */
  function IndexOf(s: string, c: char): (i: nat)
    ensures i <= |s|
    ensures c !in s[..i]
    ensures i < |s| ==> s[i] == c
  {
    if s == [] then 0
    else if s[0] == c then 0
    else 1 + IndexOf(s[1..], c)
  }

  /** The text a stream built from `line.data()` sees: everything before the first NUL. */
  function CStr(line: string): (s: string)
    ensures |s| <= |line| && s == line[..|s|]
    ensures '\0' !in s
    ensures |s| < |line| ==> line[|s|] == '\0'
  {
    line[..IndexOf(line, '\0')]
  }

  /**
   * Repeated getline with delimiter delim on s: each call yields the text up to
   * the next delim (consuming it), and a call fails only when nothing is left, so
   * a final delim produces no empty piece.
   */
  function Split(s: string, delim: char): (parts: seq<string>)
    ensures parts == [] <==> s == []
    decreases |s|
  {
    if s == [] then []
    else
      var i := IndexOf(s, delim);
      if i == |s| then [s] else [s[..i]] + Split(s[i + 1..], delim)
  }

  /** The tokens `tokenize` returns for a line: the kind tag, then the fields. */
  function Tokens(line: string): (tokens: seq<string>)
    ensures |tokens| >= 1
  {
    var s := CStr(line);
    var k := IndexOf(s, ':');
    [s[..k]] + (if k == |s| then [] else Split(s[k + 1..], ','))
  }

  /** `JoinWith(parts, sep)` glues the parts with sep between neighbours. */
  function JoinWith(parts: seq<string>, sep: char): string
  {
    if parts == [] then []
    else if |parts| == 1 then parts[0]
    else parts[0] + [sep] + JoinWith(parts[1..], sep)
  }

  /**
   * One std::getline(stream, token, delim) from position pos of s: ok tells
   * whether it succeeded, token is what it stored, next where the stream stands after.
   */
  method GetLine(s: string, pos: nat, delim: char) returns (ok: bool, token: string, next: nat)
    requires pos <= |s|
    ensures ok <==> pos < |s|
    ensures pos <= next <= |s|
    ensures delim !in token
    ensures s[pos..next] == token + [delim] || (s[pos..next] == token && next == |s|)
  {
    ok := pos < |s|;
    token := [];
    var j := pos;
    while j < |s| && s[j] != delim
      invariant pos <= j <= |s|
      invariant token == s[pos..j]
      invariant delim !in token
    {
      token := token + [s[j]];
      j := j + 1;
    }
    next := if j < |s| then j + 1 else j;
  }

  /** The first occurrence is determined by the prefix before it. */
  lemma IndexOfAt(s: string, c: char, i: nat)
    requires i <= |s| && c !in s[..i] && (i < |s| ==> s[i] == c)
    ensures IndexOf(s, c) == i
  {
  }

  /** One successful getline step peels one field off the fields still to be read. */
  lemma SplitStep(s: string, pos: nat, delim: char, token: string, next: nat)
    requires pos < |s| && pos <= next <= |s| && delim !in token
    requires s[pos..next] == token + [delim] || (s[pos..next] == token && next == |s|)
    ensures Split(s[pos..], delim) == [token] + Split(s[next..], delim)
  {
    var rest := s[pos..];
    assert rest == s[pos..next] + s[next..];
    if s[pos..next] == token + [delim] {
      assert rest == token + [delim] + s[next..];
      assert rest[..|token|] == token;
      IndexOfAt(rest, delim, |token|);
      assert rest[|token| + 1..] == s[next..];
    } else {
      assert rest == token;
      IndexOfAt(rest, delim, |token|);
    }
  }

  method Tokenize(line: string) returns (tokens: seq<string>)
    ensures tokens == Tokens(line)
  {
    var s := CStr(line);
    var _, tag, pos := GetLine(s, 0, ':');
    tokens := [tag];
    TagStep(line, tag, pos);
    var ok, token, next := GetLine(s, pos, ',');
    while ok
      invariant pos <= |s|
      invariant ok <==> pos < |s|
      invariant pos <= next <= |s| && ',' !in token
      invariant ok ==> s[pos..next] == token + [','] || (s[pos..next] == token && next == |s|)
      invariant tokens + Split(s[pos..], ',') == Tokens(line)
      decreases |s| - pos
    {
      SplitStep(s, pos, ',', token, next);
      tokens := tokens + [token];
      pos := next;
      ok, token, next := GetLine(s, pos, ',');
    }
  }

  /** The getline up to ':' yields the tag and leaves the fields still to be read. */
  lemma TagStep(line: string, tag: string, pos: nat)
    requires pos <= |CStr(line)| && ':' !in tag
    requires CStr(line)[0..pos] == tag + [':'] || (CStr(line)[0..pos] == tag && pos == |CStr(line)|)
    ensures [tag] + Split(CStr(line)[pos..], ',') == Tokens(line)
  {
    var s := CStr(line);
    assert s == s[0..pos] + s[pos..];
    assert s[..|tag|] == tag;
    IndexOfAt(s, ':', |tag|);
    if pos == |s| {
      assert s[pos..] == [];
    } else {
      assert pos == |tag| + 1;
    }
  }

  /** A line without NUL is seen whole by the stream. */
  lemma CStrWithoutNul(line: string)
    requires '\0' !in line
    ensures CStr(line) == line
  {
    IndexOfAt(line, '\0', |line|);
  }

  /** Number of c characters in s. */
  function Count(s: string, c: char): nat
  {
    if s == [] then 0 else (if s[0] == c then 1 else 0) + Count(s[1..], c)
  }

  /** Splitting on delim yields no piece that contains delim, and no piece holds a character absent from s. */
  lemma {:induction false} SplitNoDelim(s: string, delim: char, x: char)
    ensures forall i :: 0 <= i < |Split(s, delim)| ==> delim !in Split(s, delim)[i]
    ensures x !in s ==> forall i :: 0 <= i < |Split(s, delim)| ==> x !in Split(s, delim)[i]
    decreases |s|
  {
    if s != [] {
      var i := IndexOf(s, delim);
      if i < |s| {
        SplitNoDelim(s[i + 1..], delim, x);
        assert x !in s ==> x !in s[i + 1..] by {
          if x in s[i + 1..] {
            var k :| 0 <= k < |s[i + 1..]| && s[i + 1..][k] == x;
            assert s[i + 1 + k] == x;
          }
        }
        assert x !in s ==> x !in s[..i] by {
          if x in s[..i] {
            var k :| 0 <= k < i && s[..i][k] == x;
            assert s[k] == x;
          }
        }
      }
    }
  }

  /**
   * Each ',' ends one field and a non-empty tail after the last ',' is one more
   * field, so a trailing ',' (or an empty remainder) adds nothing.
   */
  lemma {:induction false} SplitFieldsCount(s: string)
    ensures |Split(s, ',')| == Count(s, ',') + (if s == [] || s[|s| - 1] == ',' then 0 else 1)
    decreases |s|
  {
    if s != [] {
      var i := IndexOf(s, ',');
      CountSplit(s, i);
      CountAbsent(s[..i]);
      if i < |s| {
        SplitFieldsCount(s[i + 1..]);
        assert s[i..][1..] == s[i + 1..];
        assert Count(s[i..], ',') == 1 + Count(s[i + 1..], ',');
        if s[i + 1..] != [] {
          assert s[i + 1..][|s[i + 1..]| - 1] == s[|s| - 1];
        }
      } else {
        assert s[..i] == s;
      }
    }
  }

  /** Count distributes over a split point. */
  lemma {:induction false} CountSplit(s: string, i: nat)
    requires i <= |s|
    ensures Count(s, ',') == Count(s[..i], ',') + Count(s[i..], ',')
  {
    if i > 0 {
      CountSplit(s[1..], i - 1);
      assert s[1..][..i - 1] == s[..i][1..];
      assert s[1..][i - 1..] == s[i..];
    } else {
      assert s[..0] == [];
      assert s[0..] == s;
    }
  }

  /** A string with no ',' counts none. */
  lemma {:induction false} CountAbsent(s: string)
    requires ',' !in s
    ensures Count(s, ',') == 0
  {
    if s != [] {
      assert s[1..] <= s[1..];
      assert forall k :: 0 <= k < |s[1..]| ==> s[1..][k] == s[k + 1];
      CountAbsent(s[1..]);
    }
  }

  /** Joining the fields with ',' gives the remainder back, unless it ends in ','. */
  lemma {:induction false} JoinSplitFields(s: string)
    requires s == [] || s[|s| - 1] != ','
    ensures JoinWith(Split(s, ','), ',') == s
    decreases |s|
  {
    if s != [] {
      var i := IndexOf(s, ',');
      if i < |s| {
        var rest := s[i + 1..];
        SplitAtComma(s, i);
        JoinSplitFields(rest);
        JoinCons(s[..i], Split(rest, ','), ',');
      }
    }
  }

  /** At the first ',' (index i) the line is the first field, ',' and a non-empty rest ending like the line. */
  lemma SplitAtComma(s: string, i: nat)
    requires i == IndexOf(s, ',') && i < |s| && s[|s| - 1] != ','
    ensures Split(s, ',') == [s[..i]] + Split(s[i + 1..], ',')
    ensures s == s[..i] + [','] + s[i + 1..]
    ensures var rest := s[i + 1..]; rest != [] && rest[|rest| - 1] != ','
  {
    Seqs.Around(s, i);
    var rest := s[i + 1..];
    assert rest[|rest| - 1] == s[|s| - 1];
  }

  /** Joining a head before at least one more part puts sep between them. */
  lemma JoinCons(head: string, tail: seq<string>, sep: char)
    requires |tail| >= 1
    ensures JoinWith([head] + tail, sep) == head + [sep] + JoinWith(tail, sep)
  {
    assert ([head] + tail)[1..] == tail;
  }

  /** A trailing ',' after a non-empty last field adds no empty field. */
  lemma {:induction false} SplitFieldsTrailingComma(s: string)
    requires s != [] && s[|s| - 1] != ','
    ensures Split(s + [','], ',') == Split(s, ',')
    decreases |s|
  {
    var t := s + [','];
    var i := IndexOf(s, ',');
    assert t[..|s|] == s;
    if i < |s| {
      IndexOfAt(t, ',', i);
      assert t[i + 1..] == s[i + 1..] + [','];
      assert t[..i] == s[..i];
      SplitFieldsTrailingComma(s[i + 1..]);
    } else {
      IndexOfAt(t, ',', |s|);
      assert t[|s| + 1..] == [];
    }
  }

  /** tokenize always yields a tag; without ':' the whole line is that tag. */
  lemma TokensWithoutColon(line: string)
    requires ':' !in line && '\0' !in line
    ensures Tokens(line) == [line]
  {
    CStrWithoutNul(line);
    IndexOfAt(line, ':', |line|);
  }

  /** The tag holds no ':', no field holds ',' and no token holds a NUL. */
  lemma TokensShape(line: string)
    ensures ':' !in Tokens(line)[0]
    ensures forall i :: 1 <= i < |Tokens(line)| ==> ',' !in Tokens(line)[i]
    ensures forall i :: 0 <= i < |Tokens(line)| ==> '\0' !in Tokens(line)[i]
  {
    var s := CStr(line);
    var k := IndexOf(s, ':');
    var fields := if k == |s| then [] else Split(s[k + 1..], ',');
    var tokens := Tokens(line);
    assert tokens == [s[..k]] + fields;
    NotInSlice(s, '\0', 0, k);
    assert s[0..k] == s[..k];
    if k < |s| {
      NotInSlice(s, '\0', k + 1, |s|);
      assert s[k + 1..|s|] == s[k + 1..];
      SplitNoDelim(s[k + 1..], ',', '\0');
    }
    forall i | 1 <= i < |tokens|
      ensures ',' !in tokens[i] && '\0' !in tokens[i]
    {
      assert tokens[i] == fields[i - 1];
    }
  }

  /**
   * With a ':' present, no NUL and no trailing ',', the tag, a ':' and the fields
   * joined by ',' rebuild the line.
   */
  lemma TokensRoundTrip(line: string)
    requires '\0' !in line && ':' in line && line[|line| - 1] != ','
    ensures var t := Tokens(line); t[0] + [':'] + JoinWith(t[1..], ',') == line
  {
    var k := IndexOf(line, ':');
    var rest := line[k + 1..];
    TokensWithoutNul(line, k);
    RebuildLine(line, k, Split(rest, ','));
    JoinSplitFields(rest);
  }

  /** The tag, a ':' and the rest after the first ':' make up the line. */
  lemma RebuildLine(line: string, k: nat, fields: seq<string>)
    requires k < |line| && line[k] == ':' && line[|line| - 1] != ','
    ensures ([line[..k]] + fields)[0] == line[..k] && ([line[..k]] + fields)[1..] == fields
    ensures var rest := line[k + 1..]; (rest == [] || rest[|rest| - 1] != ',') && line == line[..k] + [':'] + rest
  {
    var rest := line[k + 1..];
    assert rest == [] || rest[|rest| - 1] == line[|line| - 1];
  }

  /** A character absent from s is absent from every slice of s. */
  lemma NotInSlice(s: string, c: char, i: nat, j: nat)
    requires i <= j <= |s| && c !in s
    ensures c !in s[i..j]
  {
    forall k | 0 <= k < j - i
      ensures s[i..j][k] != c
    {
      assert s[i..j][k] == s[i + k];
    }
  }

  /** A line whose fields end in a non-empty one tokenizes the same with a ',' appended. */
  lemma TokensTrailingComma(line: string)
    requires '\0' !in line && ':' in line && line[|line| - 1] != ','
    requires IndexOf(line, ':') < |line| - 1
    ensures Tokens(line + [',']) == Tokens(line)
  {
    var k := IndexOf(line, ':');
    AppendComma(line, k);
    TokensWithoutNul(line, k);
    TokensWithoutNul(line + [','], k);
    SplitFieldsTrailingComma(line[k + 1..]);
  }

  /** Appending ',' keeps the line free of NUL, keeps its first ':' and extends the rest after it. */
  lemma AppendComma(line: string, k: nat)
    requires '\0' !in line && k == IndexOf(line, ':') && k < |line|
    ensures '\0' !in line + [','] && IndexOf(line + [','], ':') == k
    ensures (line + [','])[..k] == line[..k] && (line + [','])[k + 1..] == line[k + 1..] + [',']
  {
    var t := line + [','];
    Seqs.Snoc(t, line, ',');
    assert t[..k] == line[..k];
    IndexOfAt(t, ':', k);
  }

  /** Without NUL, Tokens cuts the line at its first ':' (k) and splits the rest at ','. */
  lemma TokensWithoutNul(line: string, k: nat)
    requires '\0' !in line && k == IndexOf(line, ':') && k < |line|
    ensures Tokens(line) == [line[..k]] + Split(line[k + 1..], ',')
  {
    CStrWithoutNul(line);
  }
}
