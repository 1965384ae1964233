/** Failure-carrying results for the operations that throw in the aggregator. */
module Outcome {

  /** The exceptions the core can raise; each aborts the whole run. */
  datatype Error =
    | InvalidSelRequest   // a "sel" line without exactly five tokens
    | InvalidCntRequest   // a "cnt" line without exactly three tokens
    | InvalidInteger      // std::stoi found no digits to convert
    | IntegerOutOfRange   // std::stoi read a value outside the 32-bit int range
    | InvalidPrice        // std::stod rejected the price field

  datatype Result<+T> = Success(value: T) | Failure(error: Error)

  datatype Option<+T> = None | Some(value: T)
}

/** The record types and storage aliases of request.h. */
module Request {

  /** The three kinds a tokenized line can be classified as. */
  datatype RequestType = Sel | Cnt | Err

  /** One selection fact: an ad was selected for a banner at a price. */
  datatype SelRequest = SelRequest(event_id: int, uuid: string, banner_id: string, price: real)

  /** One counter fact, tied back to a selection by its uuid. */
  datatype CntRequest = CntRequest(event_id: int, sel_request_uuid: string)

  /** The per-banner aggregate: revenue and a frequency per event id. */
  datatype Banner = Banner(banner_id: string, price: real, events: map<int, int>)

  /** A value-initialised Banner: empty id, zero price, no events. */
  const DefaultBanner := Banner("", 0.0, map[])

  /** Selections keyed by their uuid; counters in input order; banners keyed by banner id. */
  type SelRequestsStorage = map<string, SelRequest>
  type CntRequestsStorage = seq<CntRequest>
  type Banners = map<string, Banner>

  /** `banners[b]` as a value: a missing entry reads as a default Banner. */
  function BannerAt(banners: Banners, b: string): (banner: Banner)
    ensures b in banners ==> banner == banners[b]
    ensures b !in banners ==> banner.banner_id == "" && banner.price == 0.0 && banner.events == map[]
  {
    if b in banners then banners[b] else DefaultBanner
  }

  /** Reading an event frequency the way `events[e]` does: a missing entry reads as zero. */
  function Freq(events: map<int, int>, e: int): int
  {
    if e in events then events[e] else 0
  }
}
