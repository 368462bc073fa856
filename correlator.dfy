/**
 * The request collector's state machine as pure functions over a value
 * `Session`: one function per event handler, `Step` dispatching an event to
 * its handler and `Run` folding `Step` over an event stream. The class
 * `Collectors.RequestCollector` implements each handler imperatively and is
 * proved equal to these functions; the properties of the collector are
 * lemmas about them (correlator_properties.dfy).
 */
module Correlator {
  import opened Wrappers
  import opened Cdp
  import Helpers

  /** One hop of one network request, as the collector stores it (`InternalRequestData`). */
  datatype InternalRequestData = InternalRequestData(
    id: RequestId,
    url: string,
    httpMethod: Option<string>,
    resourceType: Option<string>,
    initiator: Option<Initiator>,
    startTime: Option<int>,
    endTime: Option<int>,
    postData: Option<string>,
    requestHeaders: Option<Headers>,
    responseHeaders: Option<Headers>,
    status: Option<int>,
    remoteIPAddress: Option<string>,
    size: Option<int>,
    failureReason: Option<string>,
    redirectedFrom: Option<string>,
    redirectedTo: Option<string>)

  /**
   * The collector's per-session state: the append-only log of hops and the
   * two buffers of extra-info headers that arrived before their hop.
   */
  datatype Session = Session(
    requests: seq<InternalRequestData>,
    unmatchedExtraReqInfo: map<RequestId, Headers>,
    unmatchedExtraRespInfo: map<RequestId, Headers>)

  /** The state `init` sets up. */
  const EmptySession := Session([], map[], map[])

  const UnknownError := "unknown error"

  /** The index of the most recent hop with this id (`findLastRequestWithId`), if any. */
  function LastWithId(log: seq<InternalRequestData>, id: RequestId): (r: Option<nat>)
    ensures r.Some? ==> r.value < |log| && log[r.value].id == id
    ensures r.Some? ==> forall j :: r.value < j < |log| ==> log[j].id != id
    ensures r.None? <==> forall j :: 0 <= j < |log| ==> log[j].id != id
    decreases |log|
  {
    if |log| == 0 then None
    else if log[|log| - 1].id == id then Some(|log| - 1)
    else LastWithId(log[..|log| - 1], id)
  }

  predicate IsOptionsTo(r: InternalRequestData, url: string) {
    r.httpMethod == Some("OPTIONS") && r.url == url
  }

  /** The index of the most recent OPTIONS (CORS preflight) hop to `url`, if any. */
  function LastOptionsTo(log: seq<InternalRequestData>, url: string): (r: Option<nat>)
    ensures r.Some? ==> r.value < |log| && IsOptionsTo(log[r.value], url)
    ensures r.Some? ==> forall j :: r.value < j < |log| ==> !IsOptionsTo(log[j], url)
    ensures r.None? <==> forall j :: 0 <= j < |log| ==> !IsOptionsTo(log[j], url)
    decreases |log|
  {
    if |log| == 0 then None
    else if IsOptionsTo(log[|log| - 1], url) then Some(|log| - 1)
    else LastOptionsTo(log[..|log| - 1], url)
  }

  /** A request attributed to the parser that is not itself a preflight. */
  predicate IsParserAttributed(request: CdpRequest, initiator: Initiator) {
    request.httpMethod != "OPTIONS" && initiator.kind == "parser"
  }

  /** The initiator a new hop records, after the CORS correction. */
  function CorrectedInitiator(log: seq<InternalRequestData>, request: CdpRequest, initiator: Initiator): Option<Initiator> {
    if IsParserAttributed(request, initiator) then
      match LastOptionsTo(log, request.url)
      case Some(k) => log[k].initiator
      case None => Some(initiator)
    else Some(initiator)
  }

  /** The hop a requestWillBeSent event describes, before any redirect linking. */
  function NewHop(s: Session, id: RequestId, request: CdpRequest, initiator: Initiator,
                  timestamp: int, resourceType: Option<string>): InternalRequestData
  {
    var headers := if id in s.unmatchedExtraReqInfo then s.unmatchedExtraReqInfo[id] else request.headers;
    var postData := if !IsParserAttributed(request, initiator) && request.httpMethod == "POST"
                    then request.postData else None;
    InternalRequestData(
      id, request.url, Some(request.httpMethod), resourceType,
      CorrectedInitiator(s.requests, request, initiator), Some(timestamp), None, postData,
      Some(Helpers.NormalizeHeaders(headers)), None,
      None, None, None, None, None, None)
  }

  /** `handleResponse`. */
  function OnResponseReceived(s: Session, id: RequestId, resourceType: Option<string>, response: CdpResponse): Session {
    match LastWithId(s.requests, id)
    case None => s
    case Some(i) =>
      var hop := s.requests[i];
      var responseHeaders :=
        if hop.responseHeaders.Some? then hop.responseHeaders
        else if id in s.unmatchedExtraRespInfo then Some(Helpers.NormalizeHeaders(s.unmatchedExtraRespInfo[id]))
        else Some(Helpers.NormalizeHeaders(response.headers));
      var updated := hop.(
        resourceType := if Truthy(resourceType) then resourceType else hop.resourceType,
        status := Some(response.status),
        remoteIPAddress := response.remoteIPAddress,
        responseHeaders := responseHeaders);
      s.(requests := s.requests[i := updated])
  }

  /** `handleFinishedRequest`, without the body hash. */
  function OnLoadingFinished(s: Session, id: RequestId, timestamp: int, encodedDataLength: Option<int>): Session {
    match LastWithId(s.requests, id)
    case None => s
    case Some(i) =>
      s.(requests := s.requests[i := s.requests[i].(endTime := Some(timestamp), size := encodedDataLength)])
  }

  /** `handleFailedRequest`, without the body hash. */
  function OnLoadingFailed(s: Session, id: RequestId, timestamp: int, errorText: string): Session {
    match LastWithId(s.requests, id)
    case None => s
    case Some(i) =>
      var reason := if errorText != "" then errorText else UnknownError;
      s.(requests := s.requests[i := s.requests[i].(endTime := Some(timestamp), failureReason := Some(reason))])
  }

  /** `handleRequest`. */
  function OnRequestWillBeSent(s: Session, id: RequestId, request: CdpRequest, initiator: Initiator,
                               timestamp: int, resourceType: Option<string>,
                               redirectResponse: Option<CdpResponse>): Session
  {
    var hop := NewHop(s, id, request, initiator, timestamp, resourceType);
    var previous := LastWithId(s.requests, id);
    if redirectResponse.Some? && previous.Some? then
      var p := previous.value;
      var s1 := OnLoadingFinished(OnResponseReceived(s, id, resourceType, redirectResponse.value), id, timestamp, None);
      var prev := s1.requests[p];
      var linked := hop.(initiator := prev.initiator, redirectedFrom := Some(prev.url));
      s1.(requests := s1.requests[p := prev.(redirectedTo := Some(request.url))] + [linked])
    else
      s.(requests := s.requests + [hop])
  }

  /** `handleWebSocket`. */
  function OnWebSocketCreated(s: Session, id: RequestId, url: string, initiator: Option<Initiator>): Session {
    var hop := InternalRequestData(
      id, url, None, Some("WebSocket"), initiator, None, None, None, None, None,
      None, None, None, None, None, None);
    s.(requests := s.requests + [hop])
  }

  /** `handleResponseExtraInfo`. */
  function OnResponseReceivedExtraInfo(s: Session, id: RequestId, headers: Headers): Session {
    match LastWithId(s.requests, id)
    case None => s.(unmatchedExtraRespInfo := s.unmatchedExtraRespInfo[id := headers])
    case Some(i) =>
      s.(requests := s.requests[i := s.requests[i].(responseHeaders := Some(Helpers.NormalizeHeaders(headers)))])
  }

  /** `handleRequestWillBeSentExtraInfo`. */
  function OnRequestWillBeSentExtraInfo(s: Session, id: RequestId, headers: Headers): Session {
    match LastWithId(s.requests, id)
    case None => s.(unmatchedExtraReqInfo := s.unmatchedExtraReqInfo[id := headers])
    case Some(i) =>
      s.(requests := s.requests[i := s.requests[i].(requestHeaders := Some(Helpers.NormalizeHeaders(headers)))])
  }

  /** The subscription table: each protocol event goes to its handler. */
  function Step(s: Session, e: Event): Session {
    match e
    case RequestWillBeSent(id, request, initiator, timestamp, resourceType, redirectResponse) =>
      OnRequestWillBeSent(s, id, request, initiator, timestamp, resourceType, redirectResponse)
    case RequestWillBeSentExtraInfo(id, headers) => OnRequestWillBeSentExtraInfo(s, id, headers)
    case WebSocketCreated(id, url, initiator) => OnWebSocketCreated(s, id, url, initiator)
    case ResponseReceived(id, resourceType, response) => OnResponseReceived(s, id, Some(resourceType), response)
    case ResponseReceivedExtraInfo(id, headers) => OnResponseReceivedExtraInfo(s, id, headers)
    case LoadingFailed(id, timestamp, errorText) => OnLoadingFailed(s, id, timestamp, errorText)
    case LoadingFinished(id, timestamp, encodedDataLength) => OnLoadingFinished(s, id, timestamp, Some(encodedDataLength))
  }

  /** The session after a stream of events, handled in arrival order. */
  function Run(s: Session, events: seq<Event>): Session
    decreases |events|
  {
    if events == [] then s else Run(Step(s, events[0]), events[1..])
  }
}
