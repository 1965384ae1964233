/**
 * The driver loop of main.cpp: the input file is read with getline up to '\n';
 * each line is tokenized and classified, a selection is emplaced into the
 * storage keyed by its uuid, a counter is appended to the counter list and any
 * other line is skipped. The first exception aborts the whole run, so no report
 * is produced. Otherwise the banners are built and serialized.
 */
module Ingest {
  import opened Outcome
  import opened Request
  import Tokenizer
  import Builders
  import Join
  import Render

  /** The two storages the loop fills. */
  datatype Storage = Storage(sels: SelRequestsStorage, cnts: CntRequestsStorage)

  const Empty: Storage := Storage(map[], [])

  /** The lines getline up to '\n' yields from the input text. */
  function Lines(input: string): (lines: seq<string>)
    ensures lines == [] <==> input == []
    ensures forall i :: 0 <= i < |lines| ==> '\n' !in lines[i]
  {
    Tokenizer.SplitNoDelim(input, '\n', '\n');
    Tokenizer.Split(input, '\n')
  }

  /** Every selection is stored under its own uuid. */
  predicate KeyedByUuid(sels: SelRequestsStorage)
  {
    forall u :: u in sels ==> sels[u].uuid == u
  }

  /** The tag `tokenize` gives a line. */
  function Tag(line: string): string
  {
    Tokenizer.Tokens(line)[0]
  }

  /**
   * One pass of the loop body. emplace keeps an entry that is already there, so
   * the first selection with a given uuid wins; counters are never de-duplicated.
   */
  function Step(st: Storage, line: string, stod: string -> Option<real>): (r: Result<Storage>)
    ensures Tag(line) != "sel" && Tag(line) != "cnt" ==> r == Success(st)
    ensures Tag(line) == "sel" ==> (r.Failure? <==> Builders.CreateSelRequest(Tokenizer.Tokens(line), stod).Failure?)
    ensures Tag(line) == "cnt" ==> (r.Failure? <==> Builders.CreateCntRequest(Tokenizer.Tokens(line)).Failure?)
    ensures r.Failure? ==>
      || (Tag(line) == "sel" && r.error == Builders.CreateSelRequest(Tokenizer.Tokens(line), stod).error)
      || (Tag(line) == "cnt" && r.error == Builders.CreateCntRequest(Tokenizer.Tokens(line)).error)
    ensures r.Success? ==> forall u :: u in st.sels ==> u in r.value.sels && r.value.sels[u] == st.sels[u]
    ensures r.Success? && Tag(line) == "sel" ==>
      var t := Tokenizer.Tokens(line);
      |t| == 5 && t[2] in r.value.sels && r.value.sels.Keys == st.sels.Keys + {t[2]}
      && (t[2] !in st.sels ==> r.value.sels[t[2]] == Builders.CreateSelRequest(t, stod).value)
    ensures r.Success? && Tag(line) != "sel" ==> r.value.sels == st.sels
    ensures r.Success? && Tag(line) == "cnt" ==>
      var t := Tokenizer.Tokens(line);
      |t| == 3 && |r.value.cnts| == |st.cnts| + 1 && r.value.cnts[..|st.cnts|] == st.cnts
      && r.value.cnts[|st.cnts|] == Builders.CreateCntRequest(t).value
    ensures r.Success? && Tag(line) != "cnt" ==> r.value.cnts == st.cnts
    ensures r.Success? && KeyedByUuid(st.sels) ==> KeyedByUuid(r.value.sels)
  {
    var request := Tokenizer.Tokens(line);
    match Builders.GetRequestType(request)
    case Sel =>
      (match Builders.CreateSelRequest(request, stod)
       case Failure(e) => Failure(e)
       case Success(sel) =>
         if sel.uuid in st.sels then Success(st)
         else Success(Storage(st.sels[sel.uuid := sel], st.cnts)))
    case Cnt =>
      (match Builders.CreateCntRequest(request)
       case Failure(e) => Failure(e)
       case Success(cnt) => Success(Storage(st.sels, st.cnts + [cnt])))
    case Err => Success(st)
  }

  /** The loop over lines: each line is one Step, the first failure ends the run. */
  function Run(st: Storage, lines: seq<string>, stod: string -> Option<real>): (r: Result<Storage>)
    ensures lines == [] ==> r == Success(st)
    ensures r.Success? ==> st.sels.Keys <= r.value.sels.Keys
    ensures r.Success? ==> |st.cnts| <= |r.value.cnts| && r.value.cnts[..|st.cnts|] == st.cnts
    decreases |lines|
  {
    if lines == [] then Success(st)
    else
      match Step(st, lines[0], stod)
      case Failure(e) => Failure(e)
      case Success(next) =>
        var r := Run(next, lines[1..], stod);
        assert r.Success? ==> r.value.cnts[..|st.cnts|] == r.value.cnts[..|next.cnts|][..|st.cnts|];
        r
  }

  /** What the loop of main.cpp leaves in the storages for an input text. */
  function Ingest(input: string, stod: string -> Option<real>): (r: Result<Storage>)
    ensures input == [] ==> r == Success(Empty)
    ensures r.Success? ==> KeyedByUuid(r.value.sels)
    ensures r.Success? ==> |r.value.cnts| == CounterLines(Lines(input))
  {
    var r := Run(Empty, Lines(input), stod);
    if r.Success? then
      RunKeyedByUuid(Empty, Lines(input), stod);
      RunKeepsEarlier(Empty, Lines(input), stod);
      r
    else r
  }

  /** main.cpp's reading loop: getline per line, then tokenize, classify and store. */
  method ReadRequests(input: string, stod: string -> Option<real>) returns (r: Result<Storage>)
    ensures r == Ingest(input, stod)
  {
    var sels: SelRequestsStorage := map[];
    var cnts: CntRequestsStorage := [];
    var pos := 0;
    assert input[pos..] == input;
    var ok, line, next := Tokenizer.GetLine(input, pos, '\n');
    while ok
      invariant pos <= |input|
      invariant ok <==> pos < |input|
      invariant pos <= next <= |input| && '\n' !in line
      invariant ok ==> input[pos..next] == line + ['\n'] || (input[pos..next] == line && next == |input|)
      invariant Run(Storage(sels, cnts), Lines(input[pos..]), stod) == Ingest(input, stod)
      decreases |input| - pos
    {
      Tokenizer.SplitStep(input, pos, '\n', line, next);
      ghost var before := Storage(sels, cnts);
      var request := Tokenizer.Tokenize(line);
      // `request.empty()` never holds: Tokens always yields at least the tag.
      match Builders.GetRequestType(request) {
        case Sel =>
          var sel := Builders.CreateSelRequest(request, stod);
          if sel.Failure? {
            r := Failure(sel.error);
            return;
          }
          if sel.value.uuid !in sels {
            sels := sels[sel.value.uuid := sel.value];
          }
        case Cnt =>
          var cnt := Builders.CreateCntRequest(request);
          if cnt.Failure? {
            r := Failure(cnt.error);
            return;
          }
          cnts := cnts + [cnt.value];
        case Err =>
      }
      assert Step(before, line, stod) == Success(Storage(sels, cnts));
      pos := next;
      ok, line, next := Tokenizer.GetLine(input, pos, '\n');
    }
    assert input[pos..] == [];
    r := Success(Storage(sels, cnts));
  }

  /**
   * The whole program on an input text: read the requests, build the banners,
   * serialize them. An error yields no report; otherwise the report is made of
   * the blocks of an aggregate of what was read.
   */
  method Process(input: string, stod: string -> Option<real>, fmt: real -> string)
    returns (r: Result<seq<string>>, ghost banners: Banners, ghost order: seq<string>, ghost idOrders: seq<seq<int>>)
    ensures Ingest(input, stod).Failure? ==> r == Failure(Ingest(input, stod).error)
    ensures Ingest(input, stod).Success? ==>
      var st := Ingest(input, stod).value;
      && Join.IsAggregate(st.sels, st.cnts, banners)
      && Render.Enumerates(order, banners.Keys)
      && Render.EventOrders(banners, order, idOrders)
      && r == Success([Render.BannersOpen] + Render.Blocks(banners, order, idOrders, fmt) + [Render.BannersClose])
  {
    var requests := ReadRequests(input, stod);
    banners, order, idOrders := map[], [], [];
    if requests.Failure? {
      r := Failure(requests.error);
      return;
    }
    var built := Join.ProcessBanners(requests.value.sels, requests.value.cnts);
    var out;
    out, order, idOrders := Render.Serialize(built, fmt);
    banners := built;
    r := Success(out);
  }

  /** A run over a + b is the run over a, then, if it succeeded, the run over b. */
  lemma {:induction false} RunConcat(st: Storage, a: seq<string>, b: seq<string>, stod: string -> Option<real>)
    ensures Run(st, a + b, stod) ==
      match Run(st, a, stod)
      case Failure(e) => Failure(e)
      case Success(mid) => Run(mid, b, stod)
    decreases |a|
  {
    if a == [] {
      assert a + b == b;
    } else {
      assert (a + b)[1..] == a[1..] + b;
      match Step(st, a[0], stod)
      case Failure(e) =>
      case Success(next) => RunConcat(next, a[1..], b, stod);
    }
  }

  /** Once a run has failed, no further line changes the outcome. */
  lemma AbortIsFinal(st: Storage, a: seq<string>, b: seq<string>, stod: string -> Option<real>)
    requires Run(st, a, stod).Failure?
    ensures Run(st, a + b, stod) == Run(st, a, stod)
  {
    RunConcat(st, a, b, stod);
  }

  /** A line that is neither "sel" nor "cnt" can be dropped without changing anything. */
  lemma SkippedLineIsNeutral(st: Storage, a: seq<string>, x: string, b: seq<string>, stod: string -> Option<real>)
    requires Tag(x) != "sel" && Tag(x) != "cnt"
    ensures Run(st, a + [x] + b, stod) == Run(st, a + b, stod)
  {
    RunConcat(st, a, [x] + b, stod);
    RunConcat(st, a, b, stod);
    assert a + [x] + b == a + ([x] + b);
    match Run(st, a, stod)
    case Failure(e) =>
    case Success(mid) =>
      assert ([x] + b)[1..] == b;
  }

  /** Number of lines tagged "cnt". */
  function CounterLines(lines: seq<string>): nat
  {
    if lines == [] then 0 else (if Tag(lines[0]) == "cnt" then 1 else 0) + CounterLines(lines[1..])
  }

  /**
   * A successful run keeps every selection already stored unchanged (the first
   * one with a uuid wins), keeps the stored counters as a prefix and appends one
   * counter per "cnt" line, duplicates included.
   */
  lemma {:induction false} RunKeepsEarlier(st: Storage, lines: seq<string>, stod: string -> Option<real>)
    requires Run(st, lines, stod).Success?
    ensures var res := Run(st, lines, stod).value;
      && (forall u :: u in st.sels ==> u in res.sels && res.sels[u] == st.sels[u])
      && |res.cnts| == |st.cnts| + CounterLines(lines)
      && res.cnts[..|st.cnts|] == st.cnts
    decreases |lines|
  {
    if lines != [] {
      var next := Step(st, lines[0], stod).value;
      RunKeepsEarlier(next, lines[1..], stod);
      var res := Run(st, lines, stod).value;
      assert res.cnts[..|st.cnts|] == res.cnts[..|next.cnts|][..|st.cnts|];
    }
  }

  /** A successful run stores every selection under its own uuid. */
  lemma {:induction false} RunKeyedByUuid(st: Storage, lines: seq<string>, stod: string -> Option<real>)
    requires KeyedByUuid(st.sels) && Run(st, lines, stod).Success?
    ensures KeyedByUuid(Run(st, lines, stod).value.sels)
    decreases |lines|
  {
    if lines != [] {
      RunKeyedByUuid(Step(st, lines[0], stod).value, lines[1..], stod);
    }
  }

  /**
   * An empty line is skipped: tokenize gives it the single tag "", so the
   * empty-request check can never fire and the line falls into the default case.
   */
  lemma EmptyLineSkipped(st: Storage, stod: string -> Option<real>)
    ensures Tokenizer.Tokens("") == [""]
    ensures Step(st, "", stod) == Success(st)
  {
  }
}
