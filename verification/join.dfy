/**
 * `process_banners` of aggregator.cpp: join the counters to their selections by
 * uuid and fold them, then every stored selection, into per-banner aggregates.
 */
module Join {
  import opened Request

  /** The event id that means "displayed": only it earns revenue. */
  const DisplayedEventId: int := 1

  /** The banner ids of the selections stored under the keys in done. */
  function BannersOf(sels: SelRequestsStorage, done: set<string>): set<string>
  {
    set u | u in done && u in sels :: sels[u].banner_id
  }

  /** Every banner id of a stored selection. */
  function BannerIds(sels: SelRequestsStorage): set<string>
  {
    BannersOf(sels, sels.Keys)
  }

  /** Uuids among done whose selection has banner b and event id e. */
  function SelsWith(sels: SelRequestsStorage, done: set<string>, b: string, e: int): set<string>
  {
    set u | u in done && u in sels && sels[u].banner_id == b && sels[u].event_id == e
  }

  /** How many of the selections stored under done have banner b and event id e. */
  function SelCount(sels: SelRequestsStorage, done: set<string>, b: string, e: int): nat
  {
    |SelsWith(sels, done, b, e)|
  }

  /** How many stored selections have banner b and event id e. */
  function SelTally(sels: SelRequestsStorage, b: string, e: int): nat
  {
    SelCount(sels, sels.Keys, b, e)
  }

  /** `++events[e]`: a missing entry is created as zero and then incremented. */
  function Bump(events: map<int, int>, e: int): (bumped: map<int, int>)
    ensures bumped.Keys == events.Keys + {e}
    ensures Freq(bumped, e) == Freq(events, e) + 1
    ensures forall x :: x != e ==> Freq(bumped, x) == Freq(events, x)
    ensures (forall x :: x in events ==> events[x] > 0) ==> forall x :: x in bumped ==> bumped[x] > 0
  {
    events[e := Freq(events, e) + 1]
  }

  /** 1 when counter c finds its selection, which has banner b, and c has event id e. */
  function CntHit(sels: SelRequestsStorage, c: CntRequest, b: string, e: int): nat
  {
    var u := c.sel_request_uuid;
    if u in sels && sels[u].banner_id == b && c.event_id == e then 1 else 0
  }

  /** What counter c adds to banner b's revenue: the selection's price when c is "displayed". */
  function CntPrice(sels: SelRequestsStorage, c: CntRequest, b: string): real
  {
    var u := c.sel_request_uuid;
    if u in sels && sels[u].banner_id == b && c.event_id == DisplayedEventId then sels[u].price else 0.0
  }

  /** Banners of the selections that some counter in cnts finds. */
  function MatchedBanners(sels: SelRequestsStorage, cnts: CntRequestsStorage): set<string>
  {
    if cnts == [] then {}
    else
      var u := cnts[0].sel_request_uuid;
      (if u in sels then {sels[u].banner_id} else {}) + MatchedBanners(sels, cnts[1..])
  }

  /** Number of counters in cnts, duplicates included, that hit banner b with event id e. */
  function CntTally(sels: SelRequestsStorage, cnts: CntRequestsStorage, b: string, e: int): nat
  {
    if cnts == [] then 0 else CntHit(sels, cnts[0], b, e) + CntTally(sels, cnts[1..], b, e)
  }

  /** Sum of the selection price over the "displayed" counters, duplicates included, of banner b. */
  function Revenue(sels: SelRequestsStorage, cnts: CntRequestsStorage, b: string): real
  {
    if cnts == [] then 0.0 else CntPrice(sels, cnts[0], b) + Revenue(sels, cnts[1..], b)
  }

  /**
   * r is what `process_banners` yields for sels and cnts: one entry per banner id
   * of a stored selection; its id is set only if a counter reached it (a banner
   * first created by the selection pass keeps the default empty id); its price
   * is the counter revenue; events[e] is the number of selections with that
   * banner and event id plus the number of matched counters with that banner and
   * event id, and only ids with a positive count are present.
   */
  ghost predicate IsAggregate(sels: SelRequestsStorage, cnts: CntRequestsStorage, r: Banners)
  {
    && r.Keys == BannerIds(sels)
    && (forall b :: b in r ==> r[b].banner_id == (if b in MatchedBanners(sels, cnts) then b else ""))
    && (forall b :: b in r ==> r[b].price == Revenue(sels, cnts, b))
    && (forall b, e :: b in r && e in r[b].events ==> r[b].events[e] > 0)
    && (forall b, e :: b in r ==> Freq(r[b].events, e) == SelTally(sels, b, e) + CntTally(sels, cnts, b, e))
  }

  lemma {:induction false} MatchedBannersConcat(sels: SelRequestsStorage, a: CntRequestsStorage, c: CntRequestsStorage)
    ensures MatchedBanners(sels, a + c) == MatchedBanners(sels, a) + MatchedBanners(sels, c)
  {
    if a != [] {
      assert (a + c)[1..] == a[1..] + c;
      MatchedBannersConcat(sels, a[1..], c);
    } else {
      assert a + c == c;
    }
  }

  lemma {:induction false} CntTallyConcat(sels: SelRequestsStorage, a: CntRequestsStorage, c: CntRequestsStorage, b: string, e: int)
    ensures CntTally(sels, a + c, b, e) == CntTally(sels, a, b, e) + CntTally(sels, c, b, e)
  {
    if a != [] {
      assert (a + c)[1..] == a[1..] + c;
      CntTallyConcat(sels, a[1..], c, b, e);
    } else {
      assert a + c == c;
    }
  }

  lemma {:induction false} RevenueConcat(sels: SelRequestsStorage, a: CntRequestsStorage, c: CntRequestsStorage, b: string)
    ensures Revenue(sels, a + c, b) == Revenue(sels, a, b) + Revenue(sels, c, b)
  {
    if a != [] {
      assert (a + c)[1..] == a[1..] + c;
      RevenueConcat(sels, a[1..], c, b);
    } else {
      assert a + c == c;
    }
  }

  /** A banner no counter reaches has no counter events and no revenue. */
  lemma {:induction false} UnmatchedBannerIsZero(sels: SelRequestsStorage, cnts: CntRequestsStorage, b: string)
    requires b !in MatchedBanners(sels, cnts)
    ensures Revenue(sels, cnts, b) == 0.0
    ensures forall e :: CntTally(sels, cnts, b, e) == 0
  {
    if cnts != [] {
      UnmatchedBannerIsZero(sels, cnts[1..], b);
    }
  }

  /** Only banners of stored selections are reached by counters. */
  lemma {:induction false} MatchedBannersAreBannerIds(sels: SelRequestsStorage, cnts: CntRequestsStorage)
    ensures MatchedBanners(sels, cnts) <= BannerIds(sels)
  {
    if cnts != [] {
      MatchedBannersAreBannerIds(sels, cnts[1..]);
      var u := cnts[0].sel_request_uuid;
      if u in sels {
        assert sels[u].banner_id in BannerIds(sels);
      }
    }
  }

  /** One more processed selection adds itself to exactly one (banner, event id) tally. */
  lemma SelsWithAdd(sels: SelRequestsStorage, done: set<string>, u: string, b: string, e: int)
    requires u in sels && u !in done
    ensures SelCount(sels, done + {u}, b, e) ==
      SelCount(sels, done, b, e) + (if sels[u].banner_id == b && sels[u].event_id == e then 1 else 0)
  {
    if sels[u].banner_id == b && sels[u].event_id == e {
      assert SelsWith(sels, done + {u}, b, e) == SelsWith(sels, done, b, e) + {u};
    } else {
      assert SelsWith(sels, done + {u}, b, e) == SelsWith(sels, done, b, e);
    }
  }

  /** A banner with no processed selection has no selection tallies yet. */
  lemma SelsWithOutside(sels: SelRequestsStorage, done: set<string>, b: string, e: int)
    requires b !in BannersOf(sels, done)
    ensures SelsWith(sels, done, b, e) == {}
  {
    forall u | u in done && u in sels
      ensures sels[u].banner_id != b
    {
      assert sels[u].banner_id in BannersOf(sels, done);
    }
  }

  /** The state after the first pass has consumed the counters in seen. */
  ghost predicate CountersFolded(sels: SelRequestsStorage, seen: CntRequestsStorage, banners: Banners)
  {
    && banners.Keys == MatchedBanners(sels, seen)
    && (forall b :: b in banners ==> banners[b].banner_id == b)
    && (forall b :: b in banners ==> banners[b].price == Revenue(sels, seen, b))
    && (forall b, e :: b in banners && e in banners[b].events ==> banners[b].events[e] > 0)
    && (forall b, e :: b in banners ==> Freq(banners[b].events, e) == CntTally(sels, seen, b, e))
  }

  /** The state after the second pass has consumed the selections stored under done. */
  ghost predicate SelectionsFolded(sels: SelRequestsStorage, cnts: CntRequestsStorage, done: set<string>, banners: Banners)
  {
    && banners.Keys == MatchedBanners(sels, cnts) + BannersOf(sels, done)
    && (forall b :: b in banners ==> banners[b].banner_id == (if b in MatchedBanners(sels, cnts) then b else ""))
    && (forall b :: b in banners ==> banners[b].price == Revenue(sels, cnts, b))
    && (forall b, e :: b in banners && e in banners[b].events ==> banners[b].events[e] > 0)
    && (forall b, e :: b in banners ==>
          Freq(banners[b].events, e) == CntTally(sels, cnts, b, e) + SelCount(sels, done, b, e))
  }

  /** Appending one counter adds its hit and its price to the running totals. */
  lemma CounterStep(sels: SelRequestsStorage, seen: CntRequestsStorage, c: CntRequestsStorage)
    requires |c| == 1
    ensures MatchedBanners(sels, seen + c) == MatchedBanners(sels, seen) + MatchedBanners(sels, c)
    ensures forall b, e :: CntTally(sels, seen + c, b, e) == CntTally(sels, seen, b, e) + CntHit(sels, c[0], b, e)
    ensures forall b :: Revenue(sels, seen + c, b) == Revenue(sels, seen, b) + CntPrice(sels, c[0], b)
  {
    MatchedBannersConcat(sels, seen, c);
    assert c[1..] == [];
    forall b, e
      ensures CntTally(sels, seen + c, b, e) == CntTally(sels, seen, b, e) + CntHit(sels, c[0], b, e)
    {
      CntTallyConcat(sels, seen, c, b, e);
    }
    forall b
      ensures Revenue(sels, seen + c, b) == Revenue(sels, seen, b) + CntPrice(sels, c[0], b)
    {
      RevenueConcat(sels, seen, c, b);
    }
  }

  /** A counter whose selection's banner is not yet present creates that banner. */
  lemma CounterOnNewBanner(sels: SelRequestsStorage, seen: CntRequestsStorage, c: CntRequest, banners: Banners, add: real)
    requires CountersFolded(sels, seen, banners)
    requires c.sel_request_uuid in sels && sels[c.sel_request_uuid].banner_id !in banners
    requires add == if c.event_id == DisplayedEventId then sels[c.sel_request_uuid].price else 0.0
    ensures var b0 := sels[c.sel_request_uuid].banner_id;
      CountersFolded(sels, seen + [c], banners[b0 := Banner(b0, 0.0 + add, map[c.event_id := 1])])
  {
    CounterStep(sels, seen, [c]);
    UnmatchedBannerIsZero(sels, seen, sels[c.sel_request_uuid].banner_id);
  }

  /** A counter whose selection's banner is present bumps that banner. */
  lemma CounterOnKnownBanner(sels: SelRequestsStorage, seen: CntRequestsStorage, c: CntRequest, banners: Banners, add: real)
    requires CountersFolded(sels, seen, banners)
    requires c.sel_request_uuid in sels && sels[c.sel_request_uuid].banner_id in banners
    requires add == if c.event_id == DisplayedEventId then sels[c.sel_request_uuid].price else 0.0
    ensures var b0 := sels[c.sel_request_uuid].banner_id;
      var current := banners[b0];
      CountersFolded(sels, seen + [c], banners[b0 := current.(price := current.price + add, events := Bump(current.events, c.event_id))])
  {
    var b0 := sels[c.sel_request_uuid].banner_id;
    var current := banners[b0];
    var next := banners[b0 := current.(price := current.price + add, events := Bump(current.events, c.event_id))];
    CounterStep(sels, seen, [c]);
    forall b, e | b in next
      ensures Freq(next[b].events, e) == CntTally(sels, seen + [c], b, e)
    {
      if b == b0 {
        assert Freq(next[b].events, e) == Freq(current.events, e) + (if e == c.event_id then 1 else 0);
      }
    }
    forall b, e | b in next && e in next[b].events
      ensures next[b].events[e] > 0
    {
      if b == b0 && e != c.event_id {
        assert e in current.events;
      }
    }
  }

  /** A counter that finds no selection changes nothing. */
  lemma CounterUnmatched(sels: SelRequestsStorage, seen: CntRequestsStorage, c: CntRequest, banners: Banners)
    requires CountersFolded(sels, seen, banners)
    requires c.sel_request_uuid !in sels
    ensures CountersFolded(sels, seen + [c], banners)
  {
    CounterStep(sels, seen, [c]);
  }

  /** A selection bumps its own event id on its banner, creating a default banner if needed. */
  lemma SelectionStep(sels: SelRequestsStorage, cnts: CntRequestsStorage, done: set<string>, u: string, banners: Banners)
    requires SelectionsFolded(sels, cnts, done, banners)
    requires u in sels && u !in done
    ensures var b0 := sels[u].banner_id;
      var current := BannerAt(banners, b0);
      SelectionsFolded(sels, cnts, done + {u}, banners[b0 := current.(events := Bump(current.events, sels[u].event_id))])
  {
    SelectionStepShape(sels, cnts, done, u, banners);
    SelectionStepFreq(sels, cnts, done, u, banners);
  }

  lemma SelectionStepShape(sels: SelRequestsStorage, cnts: CntRequestsStorage, done: set<string>, u: string, banners: Banners)
    requires SelectionsFolded(sels, cnts, done, banners)
    requires u in sels && u !in done
    ensures var b0 := sels[u].banner_id;
      var current := BannerAt(banners, b0);
      var next := banners[b0 := current.(events := Bump(current.events, sels[u].event_id))];
      && next.Keys == MatchedBanners(sels, cnts) + BannersOf(sels, done + {u})
      && (forall b :: b in next ==> next[b].banner_id == (if b in MatchedBanners(sels, cnts) then b else ""))
      && (forall b :: b in next ==> next[b].price == Revenue(sels, cnts, b))
      && (forall b, e :: b in next && e in next[b].events ==> next[b].events[e] > 0)
  {
    var b0, e0 := sels[u].banner_id, sels[u].event_id;
    var current := BannerAt(banners, b0);
    var next := banners[b0 := current.(events := Bump(current.events, e0))];
    BannersOfAdd(sels, done, u);
    if b0 !in banners {
      UnmatchedBannerIsZero(sels, cnts, b0);
    }
    forall b | b in next
      ensures next[b].banner_id == (if b in MatchedBanners(sels, cnts) then b else "")
      ensures next[b].price == Revenue(sels, cnts, b)
    {
      if b != b0 {
        assert next[b] == banners[b];
      }
    }
    forall b, e | b in next && e in next[b].events
      ensures next[b].events[e] > 0
    {
      if b == b0 && e != e0 {
        assert e in current.events;
      }
    }
  }

  /** Processing one more selection adds its banner id to the banners seen. */
  lemma BannersOfAdd(sels: SelRequestsStorage, done: set<string>, u: string)
    requires u in sels
    ensures BannersOf(sels, done + {u}) == BannersOf(sels, done) + {sels[u].banner_id}
  {
  }

  lemma SelectionStepFreq(sels: SelRequestsStorage, cnts: CntRequestsStorage, done: set<string>, u: string, banners: Banners)
    requires SelectionsFolded(sels, cnts, done, banners)
    requires u in sels && u !in done
    ensures var b0 := sels[u].banner_id;
      var current := BannerAt(banners, b0);
      var next := banners[b0 := current.(events := Bump(current.events, sels[u].event_id))];
      forall b, e :: b in next ==> Freq(next[b].events, e) == CntTally(sels, cnts, b, e) + SelCount(sels, done + {u}, b, e)
  {
    var b0, e0 := sels[u].banner_id, sels[u].event_id;
    var current := BannerAt(banners, b0);
    var next := banners[b0 := current.(events := Bump(current.events, e0))];
    if b0 !in banners {
      UnmatchedBannerIsZero(sels, cnts, b0);
      assert b0 !in BannersOf(sels, done);
      forall e {
        SelsWithOutside(sels, done, b0, e);
      }
    }
    forall b, e | b in next
      ensures Freq(next[b].events, e) == CntTally(sels, cnts, b, e) + SelCount(sels, done + {u}, b, e)
    {
      SelsWithAdd(sels, done, u, b, e);
    }
  }

  /** The first pass's result is the second pass's starting state. */
  lemma NoSelectionsFolded(sels: SelRequestsStorage, cnts: CntRequestsStorage, banners: Banners)
    requires CountersFolded(sels, cnts, banners)
    ensures SelectionsFolded(sels, cnts, {}, banners)
  {
    assert BannersOf(sels, {}) == {};
    forall b, e
      ensures SelCount(sels, {}, b, e) == 0
    {
      assert SelsWith(sels, {}, b, e) == {};
    }
  }

  /** Once every selection is folded in, the state is the aggregate. */
  lemma SelectionsFoldedAll(sels: SelRequestsStorage, cnts: CntRequestsStorage, banners: Banners)
    requires SelectionsFolded(sels, cnts, sels.Keys, banners)
    ensures IsAggregate(sels, cnts, banners)
  {
    MatchedBannersAreBannerIds(sels, cnts);
  }

  method ProcessBanners(sels: SelRequestsStorage, cnts: CntRequestsStorage) returns (banners: Banners)
    ensures IsAggregate(sels, cnts, banners)
  {
    banners := FoldCounters(sels, cnts);
    banners := FoldSelections(sels, cnts, banners);
  }

  /**
   * The first pass of `process_banners`: every counter that finds its selection
   * bumps its own event id on the selection's banner and, when "displayed", adds
   * the selection's price.
   */
  method FoldCounters(sels: SelRequestsStorage, cnts: CntRequestsStorage) returns (banners: Banners)
    ensures CountersFolded(sels, cnts, banners)
  {
    banners := map[];
    var i := 0;
    while i < |cnts|
      invariant 0 <= i <= |cnts|
      invariant CountersFolded(sels, cnts[..i], banners)
    {
      var c := cnts[i];
      assert cnts[..i + 1] == cnts[..i] + [c];
      var uuid := c.sel_request_uuid;
      if uuid in sels {
        var sel := sels[uuid];
        var add := if c.event_id == DisplayedEventId then sel.price else 0.0;
        if sel.banner_id !in banners {
          CounterOnNewBanner(sels, cnts[..i], c, banners, add);
          var created := Banner(sel.banner_id, 0.0 + add, map[c.event_id := 1]);
          banners := banners[sel.banner_id := created];
        } else {
          CounterOnKnownBanner(sels, cnts[..i], c, banners, add);
          var current := banners[sel.banner_id];
          banners := banners[sel.banner_id := current.(price := current.price + add, events := Bump(current.events, c.event_id))];
        }
      } else {
        CounterUnmatched(sels, cnts[..i], c, banners);
      }
      i := i + 1;
    }
    assert cnts[..i] == cnts;
  }

  /**
   * The second pass of `process_banners`: every stored selection bumps its own
   * event id on its banner, creating a default-initialised banner (empty id,
   * zero price) if needed.
   */
  method FoldSelections(sels: SelRequestsStorage, cnts: CntRequestsStorage, counted: Banners) returns (banners: Banners)
    requires CountersFolded(sels, cnts, counted)
    ensures IsAggregate(sels, cnts, banners)
  {
    banners := counted;
    NoSelectionsFolded(sels, cnts, banners);
    var todo := sels.Keys;
    ghost var done: set<string> := {};
    while todo != {}
      invariant done !! todo && done + todo == sels.Keys
      invariant SelectionsFolded(sels, cnts, done, banners)
      decreases todo
    {
      var u :| u in todo;
      var sel := sels[u];
      SelectionStep(sels, cnts, done, u, banners);
      var current := BannerAt(banners, sel.banner_id);
      banners := banners[sel.banner_id := current.(events := Bump(current.events, sel.event_id))];
      todo := todo - {u};
      done := done + {u};
    }
    assert done == sels.Keys;
    SelectionsFoldedAll(sels, cnts, banners);
  }

  /** The aggregate is fully determined by the two storages: running the join again gives the same banners. */
  lemma AggregateUnique(sels: SelRequestsStorage, cnts: CntRequestsStorage, r1: Banners, r2: Banners)
    requires IsAggregate(sels, cnts, r1) && IsAggregate(sels, cnts, r2)
    ensures r1 == r2
  {
    forall b | b in r1
      ensures r1[b] == r2[b]
    {
      var m1, m2 := r1[b].events, r2[b].events;
      forall e | e in m1
        ensures e in m2 && m1[e] == m2[e]
      {
        assert Freq(m1, e) == Freq(m2, e);
      }
      forall e | e in m2
        ensures e in m1
      {
        assert Freq(m1, e) == Freq(m2, e);
      }
      assert m1 == m2;
    }
  }

  /** A counter whose uuid names no stored selection contributes nothing. */
  lemma UnmatchedCounterIsNeutral(sels: SelRequestsStorage, c: CntRequest)
    requires c.sel_request_uuid !in sels
    ensures MatchedBanners(sels, [c]) == {}
    ensures forall b, e :: CntTally(sels, [c], b, e) == 0
    ensures forall b :: Revenue(sels, [c], b) == 0.0
  {
    assert [c][1..] == [];
  }

  /**
   * Removing a counter whose uuid is not a key of the selection storage leaves
   * the aggregate unchanged.
   */
  lemma UnmatchedCounterIgnored(sels: SelRequestsStorage, cnts: CntRequestsStorage, k: nat, r: Banners)
    requires k < |cnts| && cnts[k].sel_request_uuid !in sels
    ensures IsAggregate(sels, cnts, r) <==> IsAggregate(sels, cnts[..k] + cnts[k + 1..], r)
  {
    var before, after := cnts[..k], cnts[k + 1..];
    assert cnts == before + ([cnts[k]] + after);
    UnmatchedCounterIsNeutral(sels, cnts[k]);
    MatchedBannersConcat(sels, before, [cnts[k]] + after);
    MatchedBannersConcat(sels, [cnts[k]], after);
    MatchedBannersConcat(sels, before, after);
    forall b, e
      ensures CntTally(sels, cnts, b, e) == CntTally(sels, before + after, b, e)
    {
      CntTallyConcat(sels, before, [cnts[k]] + after, b, e);
      CntTallyConcat(sels, [cnts[k]], after, b, e);
      CntTallyConcat(sels, before, after, b, e);
    }
    forall b
      ensures Revenue(sels, cnts, b) == Revenue(sels, before + after, b)
    {
      RevenueConcat(sels, before, [cnts[k]] + after, b);
      RevenueConcat(sels, [cnts[k]], after, b);
      RevenueConcat(sels, before, after, b);
    }
    SameTotalsSameAggregate(sels, cnts, before + after, r);
  }

  /** Two counter sequences with the same matched banners, tallies and revenues have the same aggregates. */
  lemma SameTotalsSameAggregate(sels: SelRequestsStorage, c1: CntRequestsStorage, c2: CntRequestsStorage, r: Banners)
    requires MatchedBanners(sels, c1) == MatchedBanners(sels, c2)
    requires forall b, e :: CntTally(sels, c1, b, e) == CntTally(sels, c2, b, e)
    requires forall b :: Revenue(sels, c1, b) == Revenue(sels, c2, b)
    ensures IsAggregate(sels, c1, r) <==> IsAggregate(sels, c2, r)
  {
  }

  /**
   * No de-duplication: a matched counter line repeated twice counts twice, and a
   * repeated "displayed" line earns the selection's price twice.
   */
  lemma RepeatedCounterCountsTwice(sels: SelRequestsStorage, cnts: CntRequestsStorage, c: CntRequest)
    requires c.sel_request_uuid in sels
    ensures var b := sels[c.sel_request_uuid].banner_id;
      CntTally(sels, cnts + [c, c], b, c.event_id) == CntTally(sels, cnts, b, c.event_id) + 2
    ensures var sel := sels[c.sel_request_uuid];
      c.event_id == DisplayedEventId ==>
        Revenue(sels, cnts + [c, c], sel.banner_id) == Revenue(sels, cnts, sel.banner_id) + 2.0 * sel.price
  {
    var b := sels[c.sel_request_uuid].banner_id;
    assert [c, c][1..] == [c];
    assert [c][1..] == [];
    assert CntTally(sels, [c], b, c.event_id) == 1;
    assert CntTally(sels, [c, c], b, c.event_id) == 2;
    CntTallyConcat(sels, cnts, [c, c], b, c.event_id);
    RevenueConcat(sels, cnts, [c, c], b);
    if c.event_id == DisplayedEventId {
      var p := sels[c.sel_request_uuid].price;
      assert Revenue(sels, [c], b) == p;
      assert Revenue(sels, [c, c], b) == p + p;
    }
  }

  /** A selection's own event id never changes revenue: only counters earn it. */
  lemma {:induction false} RevenueIgnoresSelectionEvent(sels: SelRequestsStorage, cnts: CntRequestsStorage, u: string, e: int, b: string)
    requires u in sels
    ensures Revenue(sels[u := sels[u].(event_id := e)], cnts, b) == Revenue(sels, cnts, b)
  {
    if cnts != [] {
      RevenueIgnoresSelectionEvent(sels, cnts[1..], u, e, b);
    }
  }

  /** Without counters, selections alone earn nothing and leave every banner id empty. */
  lemma SelectionsAloneEarnNothing(sels: SelRequestsStorage, r: Banners)
    requires IsAggregate(sels, [], r)
    ensures forall b :: b in r ==> r[b].banner_id == "" && r[b].price == 0.0
    ensures forall b, e :: b in r ==> Freq(r[b].events, e) == SelTally(sels, b, e)
  {
  }

  /**
   * "sel:1,u1,bannerA,2.5" then "cnt:1,u1": the displayed event is counted once
   * for the selection and once for the counter, so events[1] is 2; the revenue
   * is the price once, from the counter.
   */
  lemma DisplayedSelectionAndCounter()
    ensures var sels := map["u1" := SelRequest(1, "u1", "bannerA", 2.5)];
      IsAggregate(sels, [CntRequest(1, "u1")], map["bannerA" := Banner("bannerA", 2.5, map[1 := 2])])
  {
    var sels := map["u1" := SelRequest(1, "u1", "bannerA", 2.5)];
    var cnts := [CntRequest(1, "u1")];
    assert cnts[1..] == [];
    assert sels.Keys == {"u1"};
    assert sels["u1"].banner_id in BannerIds(sels);
    assert BannerIds(sels) == {"bannerA"};
    assert MatchedBanners(sels, cnts) == {"bannerA"};
    assert Revenue(sels, cnts, "bannerA") == 2.5;
    forall b, e
      ensures CntTally(sels, cnts, b, e) == if b == "bannerA" && e == 1 then 1 else 0
    {
    }
    forall b, e
      ensures SelTally(sels, b, e) == if b == "bannerA" && e == 1 then 1 else 0
    {
      if b == "bannerA" && e == 1 {
        assert SelsWith(sels, sels.Keys, b, e) == {"u1"};
      } else {
        assert SelsWith(sels, sels.Keys, b, e) == {};
      }
    }
  }

  /**
   * "sel:2,u1,bannerA,2.5" alone: the banner is created by the selection pass,
   * so it keeps the default empty id and zero revenue, with events {2: 1}.
   */
  lemma UncountedSelection()
    ensures var sels := map["u1" := SelRequest(2, "u1", "bannerA", 2.5)];
      IsAggregate(sels, [], map["bannerA" := Banner("", 0.0, map[2 := 1])])
  {
    var sels := map["u1" := SelRequest(2, "u1", "bannerA", 2.5)];
    assert sels.Keys == {"u1"};
    assert sels["u1"].banner_id in BannerIds(sels);
    assert BannerIds(sels) == {"bannerA"};
    forall b, e
      ensures SelTally(sels, b, e) == if b == "bannerA" && e == 2 then 1 else 0
    {
      if b == "bannerA" && e == 2 {
        assert SelsWith(sels, sels.Keys, b, e) == {"u1"};
      } else {
        assert SelsWith(sels, sels.Keys, b, e) == {};
      }
    }
  }
}
