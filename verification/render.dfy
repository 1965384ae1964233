/**
 * The report renderer: `operator<<` for Banner in request.h writes one banner
 * block, `serialize` in aggregator.cpp wraps all blocks in a Banners element.
 * Output is a sequence of lines (each written with std::endl). Both walk
 * unordered maps, whose iteration order is unspecified: the loops below pick any
 * remaining key, and the ghost results record the order that was taken.
 */
module Render {
  import opened Outcome
  import opened Request
  import opened Numbers
  import Tokenizer
  import Seqs

  const BannersOpen: string := "<Banners>"
  const BannersClose: string := "</Banners>"
  const EventsOpen: string := "        <Events>"
  const EventsClose: string := "        </Events>"
  const BannerClose: string := "    </Banner>"
  const HeaderPrefix: string := "    <Banner id=\""
  const EventPrefix: string := "            <Event id=\""
  const EventSuffix: string := "</Event>"

  /** s lists every element of keys exactly once. */
  ghost predicate Enumerates<T(!new)>(s: seq<T>, keys: set<T>)
  {
    && (forall i, j :: 0 <= i < j < |s| ==> s[i] != s[j])
    && (forall x :: x in s <==> x in keys)
  }

  /**
   * The banner's header line. The id goes into the attribute unescaped; the
   * revenue is formatted by fmt, which stands for `{:1.3f}` (floating-point
   * formatting is not modelled).
   */
  function HeaderLine(b: Banner, fmt: real -> string): (line: string)
    ensures |line| > |HeaderPrefix| + |b.banner_id|
    ensures line[..|HeaderPrefix|] == HeaderPrefix
    ensures line[|HeaderPrefix|..|HeaderPrefix| + |b.banner_id|] == b.banner_id
  {
    HeaderPrefix + b.banner_id + "\" revenues=\"" + fmt(b.price) + "\">"
  }

  /** One event entry: its id and its frequency, both in decimal. */
  function EventLine(id: int, freq: int): (line: string)
    ensures |line| > |EventPrefix| + |EventSuffix|
    ensures line[..|EventPrefix|] == EventPrefix
    ensures line[|line| - |EventSuffix|..] == EventSuffix
  {
    EventPrefix + Decimal(id) + "\">" + Decimal(freq) + EventSuffix
  }

  /** The event lines for the ids in the order given. */
  function EventLines(ids: seq<int>, events: map<int, int>): seq<string>
  {
    Seqs.Map(ids, id => EventLine(id, Freq(events, id)))
  }

  /** The block `operator<<` writes when it visits the events in the order ids. */
  function BannerLines(b: Banner, ids: seq<int>, fmt: real -> string): (lines: seq<string>)
    ensures |lines| == |ids| + 4
    ensures lines[0] == HeaderLine(b, fmt) && lines[1] == EventsOpen
    ensures lines[|lines| - 2] == EventsClose && lines[|lines| - 1] == BannerClose
  {
    var lines := [HeaderLine(b, fmt), EventsOpen] + EventLines(ids, b.events) + [EventsClose, BannerClose];
    Seqs.Framed(lines, HeaderLine(b, fmt), EventsOpen, EventLines(ids, b.events), EventsClose, BannerClose);
    lines
  }


  /** The next key an unordered-map iteration visits: any key not yet visited. */
  method AnyKey<K>(todo: set<K>) returns (k: K)
    requires todo != {}
    ensures k in todo
  {
    k :| k in todo;
  }

  /** `operator<<(stream, banner)`. */
  method WriteBanner(b: Banner, fmt: real -> string) returns (lines: seq<string>, ghost ids: seq<int>)
    ensures Enumerates(ids, b.events.Keys)
    ensures lines == BannerLines(b, ids, fmt)
    ensures |lines| >= 4 && lines[0] == HeaderLine(b, fmt) && lines[|lines| - 1] == BannerClose
  {
    lines := [HeaderLine(b, fmt), EventsOpen];
    ids := [];
    var todo := b.events.Keys;
    ghost var done: set<int> := {};
    while todo != {}
      invariant done !! todo && done + todo == b.events.Keys
      invariant Enumerates(ids, done)
      invariant lines == [HeaderLine(b, fmt), EventsOpen] + EventLines(ids, b.events)
      decreases todo
    {
      var e := AnyKey(todo);
      EnumeratesAppend(ids, done, e);
      WriteEventStep(b, fmt, ids, e, lines);
      lines := lines + [EventLine(e, b.events[e])];
      ids := ids + [e];
      todo, done := todo - {e}, done + {e};
    }
    CloseBlock(b, ids, fmt, lines);
    lines := lines + [EventsClose, BannerClose];
  }

  /** Writing the line of one more visited event extends the block written so far. */
  lemma WriteEventStep(b: Banner, fmt: real -> string, ids: seq<int>, e: int, lines: seq<string>)
    requires e in b.events
    requires lines == [HeaderLine(b, fmt), EventsOpen] + EventLines(ids, b.events)
    ensures lines + [EventLine(e, b.events[e])] == [HeaderLine(b, fmt), EventsOpen] + EventLines(ids + [e], b.events)
  {
    EventLinesAppend(ids, b.events, e);
    Seqs.AppendAfter(lines, [EventLine(e, b.events[e])], [HeaderLine(b, fmt), EventsOpen],
      EventLines(ids, b.events), EventLines(ids + [e], b.events));
  }

  /** Closing the Events and Banner elements completes the block, one line per event plus four. */
  lemma CloseBlock(b: Banner, ids: seq<int>, fmt: real -> string, lines: seq<string>)
    requires Enumerates(ids, b.events.Keys)
    requires lines == [HeaderLine(b, fmt), EventsOpen] + EventLines(ids, b.events)
    ensures lines + [EventsClose, BannerClose] == BannerLines(b, ids, fmt)
    ensures |lines| + 2 == |b.events| + 4
  {
    EnumeratesCard(ids, b.events.Keys);
  }

  /** Visiting one more event adds its line at the end. */
  lemma EventLinesAppend(ids: seq<int>, events: map<int, int>, e: int)
    requires e in events
    ensures EventLines(ids + [e], events) == EventLines(ids, events) + [EventLine(e, events[e])]
  {
    Seqs.MapAppend(ids, e, id => EventLine(id, Freq(events, id)));
  }

  /** `serialize(banners)`. */
  method Serialize(banners: Banners, fmt: real -> string)
    returns (out: seq<string>, ghost order: seq<string>, ghost idOrders: seq<seq<int>>)
    ensures Enumerates(order, banners.Keys)
    ensures EventOrders(banners, order, idOrders)
    ensures out == [BannersOpen] + Blocks(banners, order, idOrders, fmt) + [BannersClose]
    ensures banners == map[] ==> out == [BannersOpen, BannersClose]
  {
    out := [BannersOpen];
    order, idOrders := [], [];
    var todo := banners.Keys;
    ghost var done: set<string> := {};
    while todo != {}
      invariant done !! todo && done + todo == banners.Keys
      invariant Enumerates(order, done)
      invariant EventOrders(banners, order, idOrders)
      invariant out == [BannersOpen] + Blocks(banners, order, idOrders, fmt)
      decreases todo
    {
      var key := AnyKey(todo);
      var block, ids := WriteBanner(banners[key], fmt);
      SerializeStep(banners, fmt, order, idOrders, done, key, ids, out, block);
      out := out + block;
      order, idOrders := order + [key], idOrders + [ids];
      todo, done := todo - {key}, done + {key};
    }
    out := out + [BannersClose];
  }

  /** Visiting one more, unvisited key extends an enumeration. */
  lemma EnumeratesAppend<T(!new)>(s: seq<T>, keys: set<T>, x: T)
    requires Enumerates(s, keys) && x !in keys
    ensures Enumerates(s + [x], keys + {x})
  {
  }

  /** idOrders[k] is an order in which the events of banner order[k] are visited. */
  ghost predicate EventOrders(banners: Banners, order: seq<string>, idOrders: seq<seq<int>>)
  {
    && |idOrders| == |order|
    && forall k :: 0 <= k < |order| ==> Enumerates(idOrders[k], BannerAt(banners, order[k]).events.Keys)
  }

  lemma EventOrdersAppend(banners: Banners, order: seq<string>, idOrders: seq<seq<int>>, key: string, ids: seq<int>)
    requires EventOrders(banners, order, idOrders)
    requires key in banners && Enumerates(ids, banners[key].events.Keys)
    ensures EventOrders(banners, order + [key], idOrders + [ids])
  {
    forall k | 0 <= k < |order| + 1
      ensures Enumerates((idOrders + [ids])[k], BannerAt(banners, (order + [key])[k]).events.Keys)
    {
      if k < |order| {
        assert (idOrders + [ids])[k] == idOrders[k] && (order + [key])[k] == order[k];
      }
    }
  }

  /** The blocks of the banners in order, each with its events in the matching order. */
  function Blocks(banners: Banners, order: seq<string>, idOrders: seq<seq<int>>, fmt: real -> string): (blocks: seq<string>)
    requires |idOrders| == |order|
    ensures blocks == [] <==> order == []
    ensures order != [] ==> blocks[|blocks| - 1] == BannerClose
  {
    if order == [] then []
    else
      var n := |order| - 1;
      Blocks(banners, order[..n], idOrders[..n], fmt) + BannerLines(BannerAt(banners, order[n]), idOrders[n], fmt)
  }

  /** One pass of the serialize loop keeps its three invariants. */
  lemma SerializeStep(banners: Banners, fmt: real -> string, order: seq<string>, idOrders: seq<seq<int>>,
                      done: set<string>, key: string, ids: seq<int>, out: seq<string>, block: seq<string>)
    requires Enumerates(order, done) && key in banners && key !in done
    requires EventOrders(banners, order, idOrders)
    requires Enumerates(ids, banners[key].events.Keys)
    requires block == BannerLines(banners[key], ids, fmt)
    requires out == [BannersOpen] + Blocks(banners, order, idOrders, fmt)
    ensures Enumerates(order + [key], done + {key})
    ensures EventOrders(banners, order + [key], idOrders + [ids])
    ensures out + block == [BannersOpen] + Blocks(banners, order + [key], idOrders + [ids], fmt)
  {
    EnumeratesAppend(order, done, key);
    EventOrdersAppend(banners, order, idOrders, key, ids);
    OutputStep(banners, order, idOrders, key, ids, fmt, out, block);
  }

  /** Writing one more banner block keeps the output equal to the blocks visited so far. */
  lemma OutputStep(banners: Banners, order: seq<string>, idOrders: seq<seq<int>>, key: string, ids: seq<int>,
                   fmt: real -> string, out: seq<string>, block: seq<string>)
    requires |idOrders| == |order| && key in banners
    requires out == [BannersOpen] + Blocks(banners, order, idOrders, fmt)
    requires block == BannerLines(banners[key], ids, fmt)
    ensures out + block == [BannersOpen] + Blocks(banners, order + [key], idOrders + [ids], fmt)
  {
    BlocksAppend(banners, order, idOrders, key, ids, fmt);
    Seqs.AppendAfter(out, block, [BannersOpen], Blocks(banners, order, idOrders, fmt),
      Blocks(banners, order + [key], idOrders + [ids], fmt));
  }


  lemma BlocksAppend(banners: Banners, order: seq<string>, idOrders: seq<seq<int>>, key: string, ids: seq<int>, fmt: real -> string)
    requires |idOrders| == |order| && key in banners
    ensures Blocks(banners, order + [key], idOrders + [ids], fmt) ==
      Blocks(banners, order, idOrders, fmt) + BannerLines(banners[key], ids, fmt)
  {
    assert (order + [key])[..|order|] == order;
    assert (idOrders + [ids])[..|order|] == idOrders;
  }


  // Reading the report back.

  /** Text between EventPrefix and the next quote, and between `">` and the next `<`, read with stoi. */
  function ParseEventLine(line: string): (r: Option<(int, int)>)
    ensures r.Some? ==> |line| >= |EventPrefix| && line[..|EventPrefix|] == EventPrefix
    ensures r.Some? ==> IntMin <= r.value.0 <= IntMax && IntMin <= r.value.1 <= IntMax
  {
    if |line| < |EventPrefix| || line[..|EventPrefix|] != EventPrefix then None
    else
      var rest := line[|EventPrefix|..];
      var i := Tokenizer.IndexOf(rest, '"');
      if |rest| < i + 2 then None
      else
        var tail := rest[i + 2..];
        var j := Tokenizer.IndexOf(tail, '<');
        match (Stoi(rest[..i]), Stoi(tail[..j]))
        case (Success(id), Success(freq)) => Some((id, freq))
        case _ => None
  }

  /** The id of a header line: the text between HeaderPrefix and the next quote. */
  function HeaderId(line: string): (id: Option<string>)
    ensures id.Some? ==> '"' !in id.value
  {
    if |line| < |HeaderPrefix| || line[..|HeaderPrefix|] != HeaderPrefix then None
    else
      var rest := line[|HeaderPrefix|..];
      Some(rest[..Tokenizer.IndexOf(rest, '"')])
  }

  /** The events a sequence of event lines describes; lines that do not parse are skipped. */
  function ReadEvents(lines: seq<string>): map<int, int>
  {
    if lines == [] then map[]
    else
      var n := |lines| - 1;
      match ParseEventLine(lines[n])
      case Some((id, freq)) => ReadEvents(lines[..n])[id := freq]
      case None => ReadEvents(lines[..n])
  }

  /** Every event id and frequency fits in an int, as the source's map<int, int> demands. */
  predicate IntEvents(events: map<int, int>)
  {
    forall e :: e in events ==> IntMin <= e <= IntMax && IntMin <= events[e] <= IntMax
  }

  predicate NoQuote(s: string) { '"' !in s }

  lemma DecimalNoQuote(n: int)
    ensures '"' !in Decimal(n) && '<' !in Decimal(n)
  {
    var d := Decimal(n);
    forall k | 0 <= k < |d| ensures d[k] != '"' && d[k] != '<' {
    }
  }

  /** An event line reads back as the id and the frequency it was written from. */
  lemma EventLineRoundTrip(id: int, freq: int)
    requires IntMin <= id <= IntMax && IntMin <= freq <= IntMax
    ensures ParseEventLine(EventLine(id, freq)) == Some((id, freq))
  {
    DecimalNoQuote(id);
    DecimalNoQuote(freq);
    EventLineFields(Decimal(id), Decimal(freq));
    StoiOfDecimal(id);
    StoiOfDecimal(freq);
  }

  /** The parser finds the two fields an event line was assembled from. */
  lemma EventLineFields(d: string, f: string)
    requires '"' !in d && '<' !in f
    ensures var line := EventPrefix + d + "\">" + f + "</Event>";
      && |line| >= |EventPrefix| && line[..|EventPrefix|] == EventPrefix
      && var rest := line[|EventPrefix|..];
      && Tokenizer.IndexOf(rest, '"') == |d|
      && rest[..|d|] == d
      && rest[|d| + 2..][..Tokenizer.IndexOf(rest[|d| + 2..], '<')] == f
  {
    var line := EventPrefix + d + "\">" + f + "</Event>";
    var rest := line[|EventPrefix|..];
    assert rest == d + "\">" + f + "</Event>";
    assert rest[..|d|] == d;
    Tokenizer.IndexOfAt(rest, '"', |d|);
    var tail := rest[|d| + 2..];
    assert tail == f + "</Event>";
    assert tail[..|f|] == f;
    Tokenizer.IndexOfAt(tail, '<', |f|);
  }

  /** A header line gives back the banner id, provided the id holds no quote. */
  lemma HeaderIdRoundTrip(b: Banner, fmt: real -> string)
    requires NoQuote(b.banner_id)
    ensures HeaderId(HeaderLine(b, fmt)) == Some(b.banner_id)
  {
    var line := HeaderLine(b, fmt);
    var rest := line[|HeaderPrefix|..];
    assert rest == b.banner_id + "\" revenues=\"" + fmt(b.price) + "\">";
    assert rest[..|b.banner_id|] == b.banner_id;
    Tokenizer.IndexOfAt(rest, '"', |b.banner_id|);
  }

  /** The id is written unescaped: a quote inside it cuts the id short when read back. */
  lemma HeaderIdWithQuote(fmt: real -> string)
    ensures HeaderId(HeaderLine(Banner("a\"b", 0.0, map[]), fmt)) == Some("a")
  {
    var rest := HeaderLine(Banner("a\"b", 0.0, map[]), fmt)[|HeaderPrefix|..];
    assert rest[..1] == "a" && rest[1] == '"';
    Tokenizer.IndexOfAt(rest, '"', 1);
  }

  /** The k-th event line is the k-th visited event with its frequency. */
  lemma EventLinesAt(ids: seq<int>, events: map<int, int>)
    ensures |EventLines(ids, events)| == |ids|
    ensures forall k :: 0 <= k < |ids| ==> EventLines(ids, events)[k] == EventLine(ids[k], Freq(events, ids[k]))
  {
    Seqs.MapAt(ids, id => EventLine(id, Freq(events, id)));
  }

  /** Reading the event lines back yields the frequency of every visited event and nothing else. */
  lemma {:induction false} ReadEventLines(ids: seq<int>, events: map<int, int>)
    requires IntEvents(events) && forall k :: 0 <= k < |ids| ==> ids[k] in events
    ensures forall e :: e in ReadEvents(EventLines(ids, events)) <==> e in ids
    ensures forall e :: e in ReadEvents(EventLines(ids, events)) ==> ReadEvents(EventLines(ids, events))[e] == events[e]
  {
    if ids != [] {
      var n := |ids| - 1;
      var init := ids[..n];
      Seqs.Snoc(ids, init, ids[n]);
      ReadEventLines(init, events);
      var last := EventLine(ids[n], events[ids[n]]);
      Seqs.MapAppend(init, ids[n], id => EventLine(id, Freq(events, id)));
      assert init + [ids[n]] == ids;
      Seqs.Snoc(EventLines(ids, events), EventLines(init, events), last);
      EventLineRoundTrip(ids[n], events[ids[n]]);
    }
  }


  /**
   * A written banner block has the header, the Events element and one line per
   * event, and reading its event lines back gives exactly the banner's events.
   */
  lemma BannerBlockShape(b: Banner, ids: seq<int>, fmt: real -> string)
    requires Enumerates(ids, b.events.Keys) && IntEvents(b.events)
    ensures var lines := BannerLines(b, ids, fmt);
      && |ids| == |b.events| && |lines| == |b.events| + 4
      && lines[0] == HeaderLine(b, fmt) && lines[1] == EventsOpen
      && lines[|lines| - 2] == EventsClose && lines[|lines| - 1] == BannerClose
      && (forall k :: 0 <= k < |ids| ==> lines[k + 2] == EventLine(ids[k], b.events[ids[k]]))
      && ReadEvents(lines[2..|lines| - 2]) == b.events
  {
    var lines := BannerLines(b, ids, fmt);
    EventLinesAt(ids, b.events);
    EnumeratesCard(ids, b.events.Keys);
    Seqs.Framed(lines, HeaderLine(b, fmt), EventsOpen, EventLines(ids, b.events), EventsClose, BannerClose);
    ReadEventLines(ids, b.events);
    MapFromKeys(ReadEvents(EventLines(ids, b.events)), b.events);
  }

  lemma MapFromKeys(m: map<int, int>, n: map<int, int>)
    requires forall e :: e in m <==> e in n
    requires forall e :: e in m ==> m[e] == n[e]
    ensures m == n
  {
    assert m.Keys == n.Keys by {
      forall e ensures e in m.Keys <==> e in n.Keys {
        assert e in m <==> e in n;
      }
    }
    forall e | e in m ensures m[e] == n[e] {
    }
    assert forall e :: e in m.Keys ==> m[e] == n[e];
  }

  /** An enumeration of a set is as long as the set is large. */
  lemma {:induction false} EnumeratesCard<T(!new)>(s: seq<T>, keys: set<T>)
    requires Enumerates(s, keys)
    ensures |s| == |keys|
  {
    if s != [] {
      var n := |s| - 1;
      var x := s[n];
      assert Enumerates(s[..n], keys - {x}) by {
        forall y ensures y in s[..n] <==> y in keys - {x} {
          if y in s[..n] {
            var i :| 0 <= i < n && s[..n][i] == y;
            assert s[i] == y && i < n;
          }
          assert y in s <==> y in s[..n] || y == x by { assert s == s[..n] + [x]; }
        }
      }
      EnumeratesCard(s[..n], keys - {x});
    } else {
      assert forall y :: y !in keys by { }
      assert keys == {};
    }
  }
}
