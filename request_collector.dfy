/**
 * The request collector of collectors/RequestCollector.js: one object per
 * crawl session that turns the Network events of every target into a log of
 * request hops. Its handlers update the log and the two extra-info buffers in
 * place; each is proved to produce exactly the state the matching function of
 * module Correlator describes.
 */
module Collectors {
  import opened Wrappers
  import opened Cdp
  import Helpers
  import opened Correlator
  import Export

  /** The response headers kept by the export when no allow-list is configured. */
  const DefaultSaveHeaders: seq<string> :=
    ["etag", "set-cookie", "cache-control", "expires", "pragma", "p3p",
     "timing-allow-origin", "access-control-allow-origin"]

  /**
   * The allow-list the constructor keeps: the configured list lower-cased, or
   * the default list when none is configured.
   */
  function SaveHeaderList(saveHeaders: Option<seq<string>>): (allow: seq<string>)
    ensures saveHeaders.Some? ==> |allow| == |saveHeaders.value|
    ensures saveHeaders.Some? ==> forall i :: 0 <= i < |allow| ==> allow[i] == Helpers.LowerString(saveHeaders.value[i])
    ensures saveHeaders.None? ==> allow == DefaultSaveHeaders
    ensures forall i :: 0 <= i < |allow| ==> Helpers.IsLowerCase(allow[i])
  {
    match saveHeaders
    case None => DefaultSaveHeaders
    case Some(list) => seq(|list|, i requires 0 <= i < |list| => Helpers.LowerString(list[i]))
  }

  /** Lower-casing the default list changes nothing: passing it explicitly is the same as passing none. */
  lemma DefaultOptionSameAsNone()
    ensures SaveHeaderList(Some(DefaultSaveHeaders)) == SaveHeaderList(None)
  {
    forall i | 0 <= i < |DefaultSaveHeaders|
      ensures Helpers.LowerString(DefaultSaveHeaders[i]) == DefaultSaveHeaders[i]
    {
      Helpers.LowerStringKeepsLowerCase(DefaultSaveHeaders[i]);
    }
  }

  class RequestCollector {
    const saveHeaders: seq<string>
    var requests: seq<InternalRequestData>
    var unmatchedExtraReqInfo: map<RequestId, Headers>
    var unmatchedExtraRespInfo: map<RequestId, Headers>

    /** The collector's state as a value. */
    function State(): Session
      reads this
    {
      Session(requests, unmatchedExtraReqInfo, unmatchedExtraRespInfo)
    }

    constructor (saveHeadersOption: Option<seq<string>>)
      ensures saveHeaders == SaveHeaderList(saveHeadersOption)
      ensures State() == EmptySession
    {
      saveHeaders := SaveHeaderList(saveHeadersOption);
      requests := [];
      unmatchedExtraReqInfo := map[];
      unmatchedExtraRespInfo := map[];
    }

    /** `init`: a fresh log and empty buffers. */
    method Init()
      modifies this
      ensures State() == EmptySession
    {
      requests := [];
      unmatchedExtraRespInfo := map[];
      unmatchedExtraReqInfo := map[];
    }

    /** `findLastRequestWithId`: the index of the most recent hop with `id`, scanning backwards. */
    method FindLastRequestWithId(id: RequestId) returns (found: Option<nat>)
      ensures found.Some? ==> found.value < |requests| && requests[found.value].id == id
      ensures found.Some? ==> forall j :: found.value < j < |requests| ==> requests[j].id != id
      ensures found.None? <==> forall j :: 0 <= j < |requests| ==> requests[j].id != id
      ensures found == LastWithId(requests, id)
    {
      var i := |requests|;
      while i > 0
        invariant 0 <= i <= |requests|
        invariant forall j :: i <= j < |requests| ==> requests[j].id != id
      {
        i := i - 1;
        if requests[i].id == id {
          return Some(i);
        }
      }
      return None;
    }

    /**
     * The backward scan of `handleRequest` for the most recent OPTIONS hop to
     * `url`: its initiator, or `reported` when there is no such hop.
     */
    method FindPreflightInitiator(url: string, reported: Initiator) returns (found: Option<Initiator>)
      ensures found == match LastOptionsTo(requests, url)
                       case Some(k) => requests[k].initiator
                       case None => Some(reported)
    {
      var i := |requests|;
      while i > 0
        invariant 0 <= i <= |requests|
        invariant forall j :: i <= j < |requests| ==> !IsOptionsTo(requests[j], url)
      {
        i := i - 1;
        if requests[i].httpMethod == Some("OPTIONS") && requests[i].url == url {
          return requests[i].initiator;
        }
      }
      return Some(reported);
    }

    /** `handleRequest`: appends the new hop, linking it to the previous one on a redirect. */
    method HandleRequest(id: RequestId, request: CdpRequest, initiator: Initiator, timestamp: int,
                         resourceType: Option<string>, redirectResponse: Option<CdpResponse>)
      modifies this
      ensures State() == OnRequestWillBeSent(old(State()), id, request, initiator, timestamp, resourceType, redirectResponse)
    {
      ghost var s := State();
      var hop := BuildHop(id, request, initiator, timestamp, resourceType);

      if redirectResponse.Some? {
        var previous := FindLastRequestWithId(id);
        if previous.Some? {
          var p := previous.value;
          ghost var s0 := OnResponseReceived(s, id, resourceType, redirectResponse.value);
          HandleResponse(id, resourceType, redirectResponse.value);
          assert State() == s0;
          HandleFinishedRequest(id, timestamp, None);
          assert |requests| == |s.requests|;
          LinkRedirect(p, hop, request.url);
          return;
        }
      }

      requests := requests + [hop];
    }

    /** The hop `handleRequest` records for a `requestWillBeSent` event, before any redirect linking. */
    method BuildHop(id: RequestId, request: CdpRequest, initiator: Initiator, timestamp: int,
                    resourceType: Option<string>) returns (hop: InternalRequestData)
      ensures hop == NewHop(State(), id, request, initiator, timestamp, resourceType)
    {
      var url := request.url;
      var httpMethod := request.httpMethod;
      var hopInitiator := Some(initiator);
      var postData: Option<string> := None;

      var headers := if id in unmatchedExtraReqInfo then unmatchedExtraReqInfo[id] else request.headers;
      var requestHeaders := Helpers.NormalizeHeaders(headers);

      // for CORS requests the reported initiator is the parser; the preflight carries the real one
      if httpMethod != "OPTIONS" && initiator.kind == "parser" {
        hopInitiator := FindPreflightInitiator(url, initiator);
      } else if httpMethod == "POST" {
        postData := request.postData;
      }

      hop := InternalRequestData(
        id, url, Some(httpMethod), resourceType, hopInitiator, Some(timestamp), None, postData,
        Some(requestHeaders), None, None, None, None, None, None, None);
    }

    /**
     * The redirect half of `handleRequest`: the hop at `p` points forward to `url`, and the new hop,
     * which points back to it and keeps its initiator, is appended.
     */
    method LinkRedirect(p: nat, hop: InternalRequestData, url: string)
      requires p < |requests|
      modifies this
      ensures requests == old(requests[p := requests[p].(redirectedTo := Some(url))]
                                + [hop.(initiator := requests[p].initiator, redirectedFrom := Some(requests[p].url))])
      ensures unmatchedExtraReqInfo == old(unmatchedExtraReqInfo)
      ensures unmatchedExtraRespInfo == old(unmatchedExtraRespInfo)
    {
      // a redirect target reports the main document as its initiator: keep the original one
      var linked := hop.(initiator := requests[p].initiator, redirectedFrom := Some(requests[p].url));
      requests := requests[p := requests[p].(redirectedTo := Some(url))];
      requests := requests + [linked];
    }

    /** `handleWebSocket`: appends a minimal hop of type WebSocket. */
    method HandleWebSocket(id: RequestId, url: string, initiator: Option<Initiator>)
      modifies this
      ensures State() == OnWebSocketCreated(old(State()), id, url, initiator)
    {
      requests := requests + [InternalRequestData(
        id, url, None, Some("WebSocket"), initiator, None, None, None, None, None,
        None, None, None, None, None, None)];
    }

    /** `handleResponse`: records the response on the most recent hop with `id`. */
    method HandleResponse(id: RequestId, resourceType: Option<string>, response: CdpResponse)
      modifies this
      ensures State() == OnResponseReceived(old(State()), id, resourceType, response)
    {
      var found := FindLastRequestWithId(id);
      if found.None? {
        return;
      }
      var i := found.value;
      var hop := requests[i];
      hop := hop.(resourceType := if Truthy(resourceType) then resourceType else hop.resourceType);
      hop := hop.(status := Some(response.status));
      hop := hop.(remoteIPAddress := response.remoteIPAddress);
      // raw headers from responseReceivedExtraInfo win over the possibly filtered ones here
      if hop.responseHeaders.None? {
        var headers := if id in unmatchedExtraRespInfo then unmatchedExtraRespInfo[id] else response.headers;
        hop := hop.(responseHeaders := Some(Helpers.NormalizeHeaders(headers)));
      }
      requests := requests[i := hop];
    }

    /** `handleResponseExtraInfo`. */
    method HandleResponseExtraInfo(id: RequestId, headers: Headers)
      modifies this
      ensures State() == OnResponseReceivedExtraInfo(old(State()), id, headers)
    {
      var found := FindLastRequestWithId(id);
      if found.None? {
        unmatchedExtraRespInfo := unmatchedExtraRespInfo[id := headers];
        return;
      }
      var i := found.value;
      requests := requests[i := requests[i].(responseHeaders := Some(Helpers.NormalizeHeaders(headers)))];
    }

    /** `handleRequestWillBeSentExtraInfo`. */
    method HandleRequestWillBeSentExtraInfo(id: RequestId, headers: Headers)
      modifies this
      ensures State() == OnRequestWillBeSentExtraInfo(old(State()), id, headers)
    {
      var found := FindLastRequestWithId(id);
      if found.None? {
        unmatchedExtraReqInfo := unmatchedExtraReqInfo[id := headers];
        return;
      }
      var i := found.value;
      requests := requests[i := requests[i].(requestHeaders := Some(Helpers.NormalizeHeaders(headers)))];
    }

    /** `handleFailedRequest`, without the body hash. */
    method HandleFailedRequest(id: RequestId, timestamp: int, errorText: string)
      modifies this
      ensures State() == OnLoadingFailed(old(State()), id, timestamp, errorText)
    {
      var found := FindLastRequestWithId(id);
      if found.None? {
        return;
      }
      var i := found.value;
      var reason := if errorText != "" then errorText else UnknownError;
      requests := requests[i := requests[i].(endTime := Some(timestamp), failureReason := Some(reason))];
    }

    /** `handleFinishedRequest`, without the body hash. */
    method HandleFinishedRequest(id: RequestId, timestamp: int, encodedDataLength: Option<int>)
      modifies this
      ensures State() == OnLoadingFinished(old(State()), id, timestamp, encodedDataLength)
    {
      var found := FindLastRequestWithId(id);
      if found.None? {
        return;
      }
      var i := found.value;
      requests := requests[i := requests[i].(endTime := Some(timestamp), size := encodedDataLength)];
    }

    /** The event subscriptions of `addTarget`: every event goes to its handler. */
    method Handle(e: Event)
      modifies this
      ensures State() == Step(old(State()), e)
    {
      match e
      case RequestWillBeSent(id, request, initiator, timestamp, resourceType, redirectResponse) =>
        HandleRequest(id, request, initiator, timestamp, resourceType, redirectResponse);
      case RequestWillBeSentExtraInfo(id, headers) => HandleRequestWillBeSentExtraInfo(id, headers);
      case WebSocketCreated(id, url, initiator) => HandleWebSocket(id, url, initiator);
      case ResponseReceived(id, resourceType, response) => HandleResponse(id, Some(resourceType), response);
      case ResponseReceivedExtraInfo(id, headers) => HandleResponseExtraInfo(id, headers);
      case LoadingFailed(id, timestamp, errorText) => HandleFailedRequest(id, timestamp, errorText);
      case LoadingFinished(id, timestamp, encodedDataLength) => HandleFinishedRequest(id, timestamp, Some(encodedDataLength));
    }

    /**
     * `getData`: the exported hops, in log order — exactly those at the
     * indices `Export.KeptIndices` selects, each projected by `Export.Project`.
     */
    function GetData(urlFilter: Option<string -> bool>): (data: seq<Export.RequestData>)
      reads this
      ensures |data| == |Export.KeptIndices(requests, urlFilter)|
      ensures forall k :: 0 <= k < |data| ==>
                data[k] == Export.Project(requests[Export.KeptIndices(requests, urlFilter)[k]], saveHeaders)
    {
      Export.ExportSelectsKeptIndices(requests, saveHeaders, urlFilter);
      Export.ExportLog(requests, saveHeaders, urlFilter)
    }
  }
}
