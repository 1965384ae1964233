# Ad-event aggregator, modelled in Dafny

The aggregator reads a log of ad events, one per line, and writes an XML report
of per-banner statistics. There are two kinds of line:

- a selection: `sel:<event id>,<uuid>,<banner id>,<price>`;
- a counter: `cnt:<event id>,<uuid of a selection>`.

Any other tag is skipped. Selections are stored by uuid and counters in input
order. The join then does two passes:

- each counter whose uuid names a stored selection bumps that event id on the
  selection's banner;
- a "displayed" counter (event id 1) also adds the selection's price to the
  banner's revenue;
- finally every stored selection bumps its own event id on its banner.

The report wraps one `<Banner>` block per banner in a `<Banners>` element.

The modules follow the program:

| module | file | models |
|---|---|---|
| `Outcome` | request.dfy | the exceptions that abort a run, as `Result`; an `Option` |
| `Request` | request.dfy | the record types, `Banner`'s defaults and the storage aliases of request.h |
| `Numbers` | numbers.dfy | `std::stoi` on event ids and the decimal formatting of ints |
| `Tokenizer` | tokenizer.dfy | `tokenize`, and `getline` splitting in general |
| `Builders` | builders.dfy | `get_request_type`, `create_sel_request`, `create_cnt_request` |
| `Join` | join.dfy | `process_banners` |
| `Render` | render.dfy | `operator<<` for `Banner` and `serialize` |
| `Ingest` | ingest.dfy | the reading loop of `main`, and the whole pipeline |

How the code is modelled:

- **The join.** `process_banners` is an imperative method over a `map`. Its
  result is specified by `Join.IsAggregate`, which computes each banner from
  the two storages directly:
  - one banner per banner id of a stored selection;
  - events\[e\] is the count of selections with that banner and event id, plus
    the count of matched counters with that banner and event id;
  - the revenue is a sum over the displayed counters.
- **The renderers.** `operator<<` and `serialize` are loops over unordered
  maps. Each loop picks any key not yet visited. The ghost results record the
  order that was taken, so every property holds for every iteration order.
- **Output.** The report is the sequence of its lines. Each line is written
  followed by `std::endl`.

## Behaviour as the code has it

Some behaviours follow the code even where a reader of the design might expect
otherwise:

- **First write wins.** A selection is stored with `emplace`, so a second
  selection with the same uuid is dropped, not overwritten
  (`Ingest.Step`, `Ingest.RunKeepsEarlier`).
- **No de-duplication.** Every matched counter line counts, and a repeated
  displayed counter earns the price again (`Join.RepeatedCounterCountsTwice`).
- **Revenue comes only from counters.** A counter adds revenue when its own
  event id is 1. The selection's event id never adds revenue
  (`Join.RevenueIgnoresSelectionEvent`, `Join.SelectionsAloneEarnNothing`).
- **Empty banner ids.** A banner that no counter reaches is first created by
  `banners[...]` in the selection pass. It keeps the default empty `banner_id`
  and a zero revenue, so its header reads `id=""` (`Join.UncountedSelection`).
- **NUL ends a line.** `tokenize` builds its stream from `line.data()`, so a
  NUL byte ends the line (`Tokenizer.CStr`).
- **Empty lines are skipped.** `tokenize("")` returns one empty tag, so the
  empty-request check of main.cpp:35-38 can never fire. The empty tag is
  neither "sel" nor "cnt", so the line is ignored (`Ingest.EmptyLineSkipped`).
- **Carriage returns are kept.** Lines are split on `'\n'` only, so a
  carriage return stays in the last field of its line.
- **No escaping.** The banner id is written into the `id` attribute as is
  (`Render.HeaderIdWithQuote`).
- **Stale calls in main.cpp.** main.cpp:61-64 calls `process_events_amount`,
  `process_banners_prices` and a three-argument `serialize`. No such functions
  are declared in aggregator.h. The pipeline (`Ingest.Process`) uses the
  one-argument `serialize` of aggregator.cpp:119.

## Model

| member | source | states |
|---|---|---|
| Builders.GetRequestType | aggregator.cpp:9-27 | the kind is sel exactly when token 0 is "sel", cnt exactly when it is "cnt", err for every other tag ("" and "SEL" included) |
| Tokenizer.CStr | aggregator.cpp:31 | the stream sees the longest NUL-free prefix of the line: it stops exactly at the first NUL, or takes the whole line when there is none |
| Tokenizer.GetLine | aggregator.cpp:38 | one getline: succeeds iff input is left; the token holds no delimiter and is followed by the delimiter or by the end of the input |
| Tokenizer.Tokens | aggregator.cpp:37-39 | tokenize always returns at least one token, the tag |
| Tokenizer.Tokenize | aggregator.cpp:29-47 | the getline loop returns exactly Tokens(line): the text before the first ':', then the ','-separated fields of the rest |
| Tokenizer.CStrWithoutNul | aggregator.cpp:31 | a line without NUL reaches the stream whole |
| Tokenizer.TokensWithoutColon | aggregator.cpp:37-39 | without ':' the whole line is the only token |
| Tokenizer.TokensShape | aggregator.cpp:38-44 | the tag holds no ':', the fields hold no ',', and no token holds a NUL |
| Tokenizer.TokensRoundTrip | aggregator.cpp:41-44 | with a ':' and no trailing ',', tag + ":" + the fields joined by ',' rebuild the line |
| Tokenizer.TokensTrailingComma | aggregator.cpp:41-44 | appending ',' after a non-empty last field changes nothing (a line ending in ",," still ends in an empty token; Tokenizer.SplitFieldsCount gives the general count) |
| Tokenizer.SplitFieldsCount | aggregator.cpp:41-44 | the number of fields is the number of ',' plus one for a non-empty last field |
| Tokenizer.SplitNoDelim | aggregator.cpp:41-44 | no piece of a split holds the delimiter, and a character absent from the text is absent from every piece |
| Tokenizer.JoinSplitFields | aggregator.cpp:41-44 | joining the fields with ',' gives back the remainder of the line, unless it ends in ',' |
| Tokenizer.SplitFieldsTrailingComma | aggregator.cpp:41-44 | appending ',' after a non-empty last field changes nothing |
| Tokenizer.Split | aggregator.cpp:41-44 | the getline loop over a text yields no token exactly when the text is empty |
| Tokenizer.TagStep | aggregator.cpp:38-39 | after the first getline up to ':', the tag followed by the ','-fields of what is left is exactly the token list |
| Tokenizer.SplitAtComma | aggregator.cpp:41-44 | with a ',' present and none at the end, the first field is the text before the first ',' and the rest is split on from after it |
| Tokenizer.SplitStep | aggregator.cpp:41-44 | each successful getline peels exactly the next field off the remaining input |
| Numbers.Stoi | aggregator.cpp:59 | stoi: a success lies in the int range; it fails with invalid_argument exactly when no digit follows the white space and the sign, and otherwise only with out_of_range |
| Numbers.StoiOfDecimal | aggregator.cpp:77 | reading the decimal text of an int with stoi gives that int back |
| Numbers.StoiRejectsNonNumeric | aggregator.cpp:77 | a field that starts with no space, sign or digit is rejected as invalid |
| Numbers.Decimal | request.h:53 | the `{}` format of an int is non-empty and consists of digits with an optional leading '-' |
| Numbers.DecimalValueOfDecimal | request.h:53 | the decimal text of an int, read as a signed digit string, denotes that int |
| Numbers.DecimalInjective | request.h:53 | distinct ints are written as distinct text |
| Builders.CreateSelRequest | aggregator.cpp:49-65 | fails with "Invalid sel request" unless there are exactly 5 tokens; a stoi or stod failure propagates; it succeeds exactly otherwise, with uuid and banner id copied verbatim from tokens 2 and 3 |
| Builders.CreateCntRequest | aggregator.cpp:67-81 | fails with "Invalid cnt request" unless there are exactly 3 tokens; a stoi failure propagates; it succeeds exactly otherwise, with the uuid copied verbatim from token 2 |
| Join.IsAggregate | aggregator.cpp:83-117 | the reference definition of the join's result: one entry per banner id of a stored selection, the id set only when a counter reached it, the revenue summed over the displayed counters, and each event frequency the number of matching selections plus matching counters, with only positive frequencies present |
| Join.Bump | aggregator.cpp:101 | `++events[e]` adds e as a key, raises its frequency by one, leaves every other frequency as it was and keeps all frequencies positive |
| Request.BannerAt | aggregator.cpp:114 | `banners[b]` reads the stored banner when b is present and otherwise a value-initialised one (empty id, zero price, no events, as request.h:33-38 declares) |
| Join.ProcessBanners | aggregator.cpp:83-117 | the banners are exactly an aggregate: one key per banner id of a stored selection; events[e] = matching selections + matching counters, duplicates included; revenue = price summed over displayed counters; id set only when a counter reached the banner |
| Join.FoldCounters | aggregator.cpp:91-111 | after the first pass the banners are exactly those some counter reached, each with its own id, the revenue of its displayed counters, and per event id the number of matching counters, with only positive frequencies present |
| Join.FoldSelections | aggregator.cpp:112-115 | the second pass turns the first pass's result into the aggregate, adding each selection to its banner and default-constructing the banners no counter reached |
| Join.AggregateUnique | aggregator.cpp:83-117 | the aggregate is determined by the two storages alone, whatever the iteration order |
| Join.UnmatchedCounterIsNeutral | aggregator.cpp:91-93 | a counter whose uuid is not stored reaches no banner, counts nothing and earns nothing |
| Join.UnmatchedCounterIgnored | aggregator.cpp:91-93 | removing such a counter from the sequence leaves the result unchanged (both directions) |
| Join.RepeatedCounterCountsTwice | aggregator.cpp:100-108 | a matched counter repeated twice adds 2 to its event count, and twice the price when displayed |
| Join.RevenueIgnoresSelectionEvent | aggregator.cpp:86-90 | changing a selection's own event id never changes any revenue |
| Join.SelectionsAloneEarnNothing | aggregator.cpp:112-115 | when there are no counters, every banner of the aggregate has the empty id, zero revenue, and for each event id a frequency equal to the number of selections with that banner and event id |
| Join.MatchedBannersConcat | aggregator.cpp:91-95 | the banners reached by a + c are those reached by a together with those reached by c |
| Join.CntTallyConcat | aggregator.cpp:91-108 | the counter tally of a + c for a banner and event id is the tally of a plus the tally of c |
| Join.RevenueConcat | aggregator.cpp:100-107 | the revenue of a + c is the revenue of a plus the revenue of c |
| Join.SameTotalsSameAggregate | aggregator.cpp:83-117 | two counter sequences that reach the same banners with the same tallies and revenues give the same aggregates |
| Join.BannersOfAdd | aggregator.cpp:112-115 | folding one more selection adds exactly its banner id to the banners created so far |
| Join.UnmatchedBannerIsZero | aggregator.cpp:96-108 | a banner no counter reaches gets no counter events and no revenue |
| Join.MatchedBannersAreBannerIds | aggregator.cpp:93-95 | counters only reach banners of stored selections |
| Join.DisplayedSelectionAndCounter | aggregator.cpp:96-115 | "sel:1,u1,bannerA,2.5" with "cnt:1,u1" gives bannerA with revenue 2.5 and events {1: 2} |
| Join.UncountedSelection | request.h:33-38 | a selection no counter reaches yields a default-constructed banner with id "", revenue 0 and events {2: 1} |
| Render.EventLine | request.h:53 | an event line starts with the `<Event id="` prefix and ends with `</Event>` |
| Render.BannerLines | request.h:49-56 | a block visited in a given event order has one line per visited id plus four, starting with the header and `<Events>` and ending with `</Events>` and `</Banner>` |
| Render.Blocks | aggregator.cpp:123-126 | the blocks are empty exactly when no banner was visited, and otherwise end with the `</Banner>` line of the last visited banner |
| Render.HeaderLine | request.h:49 | the header starts with the Banner tag and holds the banner id verbatim right after `id="` |
| Render.WriteBanner | request.h:44-58 | operator<< visits every events entry exactly once and writes the block of that visiting order: the header, `<Events>`, one event line per entry, `</Events>` and `</Banner>`, so it starts with the header and ends with `</Banner>` |
| Render.Serialize | aggregator.cpp:119-129 | the output is `<Banners>`, then exactly one block per banner (each key visited once), then `</Banners>`; an empty map gives just those two lines |
| Render.BannerBlockShape | request.h:49-56 | a block has (number of events) + 4 lines in the fixed order, line k + 2 is the k-th visited event with its frequency, and reading the event lines back gives exactly the events map |
| Render.EventLineRoundTrip | request.h:53 | an event line reads back as the event id and the frequency it was written from |
| Render.EventLinesAppend | request.h:51-54 | visiting one more event appends exactly its event line, with its frequency |
| Render.EventLinesAt | request.h:51-54 | the k-th event line carries the k-th visited id and its frequency |
| Render.ReadEventLines | request.h:51-54 | the event lines read back to the visited ids with their frequencies |
| Render.HeaderIdRoundTrip | request.h:49 | a banner id without '"' is read back from the header unchanged |
| Render.HeaderIdWithQuote | request.h:49 | the id is not escaped: an id `a"b` reads back as `a` |
| Render.EnumeratesCard | aggregator.cpp:123-126 | an order that visits each key once is exactly as long as the map |
| Ingest.Lines | main.cpp:32 | getline up to '\n' yields no line exactly for the empty input, and no line holds '\n' |
| Ingest.Run | main.cpp:32-58 | the loop over lines stops at the first failure; an empty list of lines leaves the storages as they are; a success keeps every stored uuid and keeps the stored counters as a prefix |
| Ingest.Ingest | main.cpp:28-58 | starting from empty storages, the empty input gives empty storages, and a successful read is keyed by uuid and holds exactly one counter per cnt line |
| Ingest.EmptyLineSkipped | main.cpp:34-38 | an empty line tokenizes to the single empty tag, so the empty-request check cannot fire and the line leaves the storages unchanged |
| Ingest.Step | main.cpp:34-57 | an err line leaves both storages unchanged; a sel line is emplaced under its uuid, keeping an existing entry (first write wins) and otherwise changing nothing; a cnt line is appended, growing the vector by one and leaving earlier entries unchanged; a builder error aborts with that error |
| Ingest.ReadRequests | main.cpp:32-58 | the getline loop yields exactly Ingest(input): every line taken in order, stopping at the first error |
| Ingest.Process | main.cpp:32-60 | a malformed line yields its error and no report; otherwise the report is the serialization of an aggregate of the stored requests |
| Ingest.RunConcat | main.cpp:32-58 | reading a + b is reading a, then reading b from where a left off, unless a failed |
| Ingest.AbortIsFinal | main.cpp:44-52 | once a line has thrown, no later line changes the outcome |
| Ingest.SkippedLineIsNeutral | main.cpp:55-56 | removing a line that is neither sel nor cnt changes nothing |
| Ingest.RunKeepsEarlier | main.cpp:44-52 | stored selections are never replaced; stored counters stay a prefix; one counter is appended per cnt line, duplicates included |
| Ingest.RunKeyedByUuid | main.cpp:45-46 | every selection stays stored under its own uuid |

## Left out

- Argument and file handling in `main` (main.cpp:8-26, 65-78) is not modelled: the argument check, opening the input, writing the output file, and printing the error. The input is a string parameter, and the report is returned as its lines. The real program exits with 0 even after an error.
- Floating point is not modelled. `std::stod` is a parameter `stod: string -> Option<real>`, and `None` stands for its exception. Prices and revenues are reals, with exact addition. The `{:1.3f}` revenue format is a parameter `fmt: real -> string`.
- Numbers.Stoi: models base-10 parsing and the 32-bit `int` range only. It skips white space, reads a sign and then digits. Any locale other than "C" is not modelled.
- Join.ProcessBanners: event frequencies are unbounded integers. The source's `int` counters could overflow past 2^31 - 1, which is not modelled.
- Render.EventLineRoundTrip and Render.BannerBlockShape: both require every id and frequency to fit in an `int` (`IntEvents`), as the source's map of ints guarantees.
- Hash-map iteration order is not fixed. Each loop over an unordered map picks any unvisited key, and the properties hold for every order.
- The stream mechanics of `std::stringstream` and `std::endl` are not modelled. Output is a sequence of lines, each of which the program ends with '\n'.
- `process_events_amount` and `process_banners_prices` (main.cpp:61-62) are not part of this model. They are declared nowhere.
- aggregator.h is not part of this model. It holds declarations only.
