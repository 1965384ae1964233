/**
 * `get_request_type`, `create_sel_request` and `create_cnt_request` of
 * aggregator.cpp: classify a token sequence by its tag and build the typed fact.
 */
module Builders {
  import opened Outcome
  import opened Request
  import opened Numbers

  /** The tag is compared with the literals "sel" and "cnt"; everything else is err. */
  function GetRequestType(request: seq<string>): (r: RequestType)
    requires |request| >= 1
    ensures r == Sel <==> request[0] == "sel"
    ensures r == Cnt <==> request[0] == "cnt"
  {
    if request[0] == "sel" then Sel
    else if request[0] == "cnt" then Cnt
    else Err
  }

  /**
   * Five tokens (tag, event id, uuid, banner id, price); the event id goes
   * through stoi, the price through `stod` (a parameter: floating-point parsing is
   * not modelled), uuid and banner id are copied verbatim.
   */
  function CreateSelRequest(request: seq<string>, stod: string -> Option<real>): (r: Result<SelRequest>)
    ensures |request| != 5 ==> r == Failure(InvalidSelRequest)
    ensures |request| == 5 && Stoi(request[1]).Failure? ==> r == Failure(Stoi(request[1]).error)
    ensures |request| == 5 && Stoi(request[1]).Success? && stod(request[4]).None? ==> r == Failure(InvalidPrice)
    ensures r.Success? <==> |request| == 5 && Stoi(request[1]).Success? && stod(request[4]).Some?
    ensures r.Success? ==>
      && Stoi(request[1]) == Success(r.value.event_id)
      && r.value.uuid == request[2]
      && r.value.banner_id == request[3]
      && stod(request[4]) == Some(r.value.price)
  {
    if |request| != 5 then Failure(InvalidSelRequest)
    else
      var eventId := Stoi(request[1]);
      if eventId.Failure? then Failure(eventId.error)
      else
        var price := stod(request[4]);
        if price.None? then Failure(InvalidPrice)
        else Success(SelRequest(eventId.value, request[2], request[3], price.value))
  }

  /** Three tokens (tag, event id, uuid of the selection); the uuid is copied verbatim. */
  function CreateCntRequest(request: seq<string>): (r: Result<CntRequest>)
    ensures |request| != 3 ==> r == Failure(InvalidCntRequest)
    ensures |request| == 3 && Stoi(request[1]).Failure? ==> r == Failure(Stoi(request[1]).error)
    ensures r.Success? <==> |request| == 3 && Stoi(request[1]).Success?
    ensures r.Success? ==>
      && Stoi(request[1]) == Success(r.value.event_id)
      && r.value.sel_request_uuid == request[2]
  {
    if |request| != 3 then Failure(InvalidCntRequest)
    else
      var eventId := Stoi(request[1]);
      if eventId.Failure? then Failure(eventId.error)
      else Success(CntRequest(eventId.value, request[2]))
  }
}
