/**
 * What the request collector promises about its log and buffers, proved of
 * the handler functions of module Correlator (and so, through their
 * postconditions, of the class Collectors.RequestCollector).
 */
module CorrelatorProperties {
  import opened Wrappers
  import opened Cdp
  import Helpers
  import opened Correlator

  /** The fields a hop gets when it is appended and that no later event rewrites. */
  predicate SameHop(a: InternalRequestData, b: InternalRequestData) {
    && a.id == b.id && a.url == b.url && a.httpMethod == b.httpMethod && a.initiator == b.initiator
    && a.startTime == b.startTime && a.postData == b.postData && a.redirectedFrom == b.redirectedFrom
  }

  /** The number of hops an event appends. */
  function Creates(e: Event): nat {
    if e.RequestWillBeSent? || e.WebSocketCreated? then 1 else 0
  }

  function CreatedBy(events: seq<Event>): nat
    decreases |events|
  {
    if events == [] then 0 else Creates(events[0]) + CreatedBy(events[1..])
  }

  lemma LastWithIdAfterAppend(log: seq<InternalRequestData>, hop: InternalRequestData, id: RequestId)
    ensures LastWithId(log + [hop], id) == if hop.id == id then Some(|log|) else LastWithId(log, id)
  {
    assert (log + [hop])[..|log|] == log;
  }

  /** The lookup depends on the ids of the log only. */
  lemma LastWithIdSameIds(log: seq<InternalRequestData>, log2: seq<InternalRequestData>, id: RequestId)
    requires |log| == |log2|
    requires forall j :: 0 <= j < |log| ==> log[j].id == log2[j].id
    ensures LastWithId(log, id) == LastWithId(log2, id)
  {
  }

  /** handleResponse: the most recent hop with the id takes the response; nothing else changes. */
  lemma ResponseUpdatesLatestHop(s: Session, id: RequestId, resourceType: Option<string>, response: CdpResponse)
    ensures var r := OnResponseReceived(s, id, resourceType, response);
      && r.unmatchedExtraReqInfo == s.unmatchedExtraReqInfo && r.unmatchedExtraRespInfo == s.unmatchedExtraRespInfo
      && |r.requests| == |s.requests|
      && (forall j :: 0 <= j < |s.requests| && LastWithId(s.requests, id) != Some(j) ==> r.requests[j] == s.requests[j])
      && (LastWithId(s.requests, id).None? ==> r == s)
      && (LastWithId(s.requests, id).Some? ==>
            var i := LastWithId(s.requests, id).value;
            var before, after := s.requests[i], r.requests[i];
            && SameHop(after, before)
            && after.status == Some(response.status)
            && after.remoteIPAddress == response.remoteIPAddress
            && after.resourceType == (if Truthy(resourceType) then resourceType else before.resourceType)
            && (before.responseHeaders.Some? ==> after.responseHeaders == before.responseHeaders)
            && (before.responseHeaders.None? && id in s.unmatchedExtraRespInfo ==>
                  after.responseHeaders == Some(Helpers.NormalizeHeaders(s.unmatchedExtraRespInfo[id])))
            && (before.responseHeaders.None? && id !in s.unmatchedExtraRespInfo ==>
                  after.responseHeaders == Some(Helpers.NormalizeHeaders(response.headers)))
            && after.(resourceType := before.resourceType, status := before.status,
                      remoteIPAddress := before.remoteIPAddress, responseHeaders := before.responseHeaders) == before)
  {
  }

  /** handleFailedRequest: end time and reason on the most recent hop with the id, or nothing at all. */
  lemma LoadingFailedRecordsReason(s: Session, id: RequestId, timestamp: int, errorText: string)
    ensures var r := OnLoadingFailed(s, id, timestamp, errorText);
      match LastWithId(s.requests, id)
      case None => r == s
      case Some(i) =>
        && r.unmatchedExtraReqInfo == s.unmatchedExtraReqInfo && r.unmatchedExtraRespInfo == s.unmatchedExtraRespInfo
        && |r.requests| == |s.requests|
        && (forall j :: 0 <= j < |s.requests| && j != i ==> r.requests[j] == s.requests[j])
        && r.requests[i].endTime == Some(timestamp)
        && r.requests[i].failureReason == Some(if errorText == "" then "unknown error" else errorText)
        && r.requests[i].(endTime := s.requests[i].endTime, failureReason := s.requests[i].failureReason) == s.requests[i]
  {
  }

  /** handleFinishedRequest: end time and size on the most recent hop with the id, or nothing at all. */
  lemma LoadingFinishedRecordsSize(s: Session, id: RequestId, timestamp: int, encodedDataLength: Option<int>)
    ensures var r := OnLoadingFinished(s, id, timestamp, encodedDataLength);
      match LastWithId(s.requests, id)
      case None => r == s
      case Some(i) =>
        && r.unmatchedExtraReqInfo == s.unmatchedExtraReqInfo && r.unmatchedExtraRespInfo == s.unmatchedExtraRespInfo
        && |r.requests| == |s.requests|
        && (forall j :: 0 <= j < |s.requests| && j != i ==> r.requests[j] == s.requests[j])
        && r.requests[i].endTime == Some(timestamp)
        && r.requests[i].size == encodedDataLength
        && r.requests[i].(endTime := s.requests[i].endTime, size := s.requests[i].size) == s.requests[i]
  {
  }

  /**
   * Every event writes at most the most recent hop with its id and appends at
   * most one hop; the fields a hop is created with never change.
   */
  lemma StepChangesOnlyLatestHop(s: Session, e: Event)
    ensures |Step(s, e).requests| == |s.requests| + Creates(e)
    ensures forall j :: 0 <= j < |s.requests| ==> SameHop(Step(s, e).requests[j], s.requests[j])
    ensures forall j :: 0 <= j < |s.requests| && LastWithId(s.requests, e.requestId) != Some(j) ==>
              Step(s, e).requests[j] == s.requests[j]
  {
    match e
    case RequestWillBeSent(id, request, initiator, timestamp, resourceType, redirectResponse) =>
      assert Step(s, e) == OnRequestWillBeSent(s, id, request, initiator, timestamp, resourceType, redirectResponse);
      if redirectResponse.Some? && LastWithId(s.requests, id).Some? {
        RedirectLinksHops(s, id, request, initiator, timestamp, resourceType, redirectResponse.value);
      } else {
        RequestAppendsNewHop(s, id, request, initiator, timestamp, resourceType, redirectResponse);
      }
    case RequestWillBeSentExtraInfo(id, headers) =>
      assert Step(s, e) == OnRequestWillBeSentExtraInfo(s, id, headers);
      ExtraInfoBufferedOrApplied(s, e);
    case WebSocketCreated(id, url, initiator) =>
      assert Step(s, e) == OnWebSocketCreated(s, id, url, initiator);
      WebSocketAppendsOneHop(s, id, url, initiator);
    case ResponseReceived(id, resourceType, response) =>
      assert Step(s, e) == OnResponseReceived(s, id, Some(resourceType), response);
      ResponseUpdatesLatestHop(s, id, Some(resourceType), response);
    case ResponseReceivedExtraInfo(id, headers) =>
      assert Step(s, e) == OnResponseReceivedExtraInfo(s, id, headers);
      ExtraInfoBufferedOrApplied(s, e);
    case LoadingFailed(id, timestamp, errorText) =>
      assert Step(s, e) == OnLoadingFailed(s, id, timestamp, errorText);
      LoadingFailedRecordsReason(s, id, timestamp, errorText);
    case LoadingFinished(id, timestamp, encodedDataLength) =>
      assert Step(s, e) == OnLoadingFinished(s, id, timestamp, Some(encodedDataLength));
      LoadingFinishedRecordsSize(s, id, timestamp, Some(encodedDataLength));
  }

  /** The log only grows, one hop per request or WebSocket event, and the old hops keep their identity. */
  lemma {:induction false} RunAppendOnly(s: Session, events: seq<Event>)
    ensures |Run(s, events).requests| == |s.requests| + CreatedBy(events)
    ensures forall j :: 0 <= j < |s.requests| ==> SameHop(Run(s, events).requests[j], s.requests[j])
    decreases |events|
  {
    if events != [] {
      StepChangesOnlyLatestHop(s, events[0]);
      RunAppendOnly(Step(s, events[0]), events[1..]);
    }
  }

  /** A hop superseded by a later hop with the same id (an earlier redirect hop) is never written again. */
  lemma {:induction false} RunFreezesSupersededHops(s: Session, events: seq<Event>, j: nat, k: nat)
    requires j < k < |s.requests| && s.requests[j].id == s.requests[k].id
    ensures j < |Run(s, events).requests| && Run(s, events).requests[j] == s.requests[j]
    decreases |events|
  {
    if events != [] {
      var e := events[0];
      StepChangesOnlyLatestHop(s, e);
      RunFreezesSupersededHops(Step(s, e), events[1..], j, k);
    }
  }

  /** handleWebSocket appends exactly one hop of type WebSocket with the event's id, url and initiator. */
  lemma WebSocketAppendsOneHop(s: Session, id: RequestId, url: string, initiator: Option<Initiator>)
    ensures var r := OnWebSocketCreated(s, id, url, initiator);
      && |r.requests| == |s.requests| + 1
      && r.requests[..|s.requests|] == s.requests
      && r.requests[|s.requests|].id == id
      && r.requests[|s.requests|].url == url
      && r.requests[|s.requests|].resourceType == Some("WebSocket")
      && r.requests[|s.requests|].initiator == initiator
      && LastWithId(r.requests, id) == Some(|s.requests|)
      && r.unmatchedExtraReqInfo == s.unmatchedExtraReqInfo && r.unmatchedExtraRespInfo == s.unmatchedExtraRespInfo
  {
    var r := OnWebSocketCreated(s, id, url, initiator);
    LastWithIdAfterAppend(s.requests, r.requests[|s.requests|], id);
  }

  /**
   * The fields of a new hop: request headers from the buffered extra-info when
   * there is one, the CORS initiator correction, and post data for POST only.
   */
  lemma NewHopFields(s: Session, id: RequestId, request: CdpRequest, initiator: Initiator,
                     timestamp: int, resourceType: Option<string>)
    ensures var hop := NewHop(s, id, request, initiator, timestamp, resourceType);
      && hop.id == id && hop.url == request.url && hop.httpMethod == Some(request.httpMethod)
      && hop.resourceType == resourceType && hop.startTime == Some(timestamp)
      && (id in s.unmatchedExtraReqInfo ==> hop.requestHeaders == Some(Helpers.NormalizeHeaders(s.unmatchedExtraReqInfo[id])))
      && (id !in s.unmatchedExtraReqInfo ==> hop.requestHeaders == Some(Helpers.NormalizeHeaders(request.headers)))
      && (request.httpMethod != "OPTIONS" && initiator.kind == "parser" && LastOptionsTo(s.requests, request.url).Some? ==>
            hop.initiator == s.requests[LastOptionsTo(s.requests, request.url).value].initiator)
      && (request.httpMethod == "OPTIONS" || initiator.kind != "parser" || LastOptionsTo(s.requests, request.url).None? ==>
            hop.initiator == Some(initiator))
      && hop.postData == (if request.httpMethod == "POST" && initiator.kind != "parser" then request.postData else None)
      && hop.endTime.None? && hop.responseHeaders.None? && hop.status.None? && hop.size.None?
      && hop.redirectedFrom.None? && hop.redirectedTo.None?
  {
  }

  /** Without a redirect response, or without an earlier hop to redirect from, the new hop is simply appended. */
  lemma RequestAppendsNewHop(s: Session, id: RequestId, request: CdpRequest, initiator: Initiator,
                             timestamp: int, resourceType: Option<string>, redirectResponse: Option<CdpResponse>)
    requires redirectResponse.None? || LastWithId(s.requests, id).None?
    ensures var r := OnRequestWillBeSent(s, id, request, initiator, timestamp, resourceType, redirectResponse);
      && r.requests == s.requests + [NewHop(s, id, request, initiator, timestamp, resourceType)]
      && r.unmatchedExtraReqInfo == s.unmatchedExtraReqInfo && r.unmatchedExtraRespInfo == s.unmatchedExtraRespInfo
      && LastWithId(r.requests, id) == Some(|s.requests|)
  {
    LastWithIdAfterAppend(s.requests, NewHop(s, id, request, initiator, timestamp, resourceType), id);
  }

  /**
   * A redirect: the previous hop with the id takes the redirect response,
   * ends at the new event's time with no size, and points to the new url; the
   * new hop points back to it and inherits its initiator.
   */
  lemma RedirectLinksHops(s: Session, id: RequestId, request: CdpRequest, initiator: Initiator,
                          timestamp: int, resourceType: Option<string>, redirect: CdpResponse)
    requires LastWithId(s.requests, id).Some?
    ensures var p := LastWithId(s.requests, id).value;
      var r := OnRequestWillBeSent(s, id, request, initiator, timestamp, resourceType, Some(redirect));
      var n := |s.requests|;
      && |r.requests| == n + 1
      && (forall j :: 0 <= j < n && j != p ==> r.requests[j] == s.requests[j])
      && SameHop(r.requests[p], s.requests[p])
      && r.requests[p].status == Some(redirect.status)
      && r.requests[p].remoteIPAddress == redirect.remoteIPAddress
      && r.requests[p].endTime == Some(timestamp)
      && r.requests[p].size.None?
      && r.requests[p].redirectedTo == Some(request.url)
      && r.requests[n] == NewHop(s, id, request, initiator, timestamp, resourceType).(
           initiator := s.requests[p].initiator, redirectedFrom := Some(s.requests[p].url))
      && LastWithId(r.requests, id) == Some(n)
      && r.unmatchedExtraReqInfo == s.unmatchedExtraReqInfo && r.unmatchedExtraRespInfo == s.unmatchedExtraRespInfo
  {
    RedirectUpdatesPreviousHop(s, id, request, initiator, timestamp, resourceType, redirect);
    RedirectAppendsLinkedHop(s, id, request, initiator, timestamp, resourceType, redirect);
  }

  /** The old half of a redirect: the previous hop is closed and points forward; no other old hop changes. */
  lemma RedirectUpdatesPreviousHop(s: Session, id: RequestId, request: CdpRequest, initiator: Initiator,
                                   timestamp: int, resourceType: Option<string>, redirect: CdpResponse)
    requires LastWithId(s.requests, id).Some?
    ensures var p := LastWithId(s.requests, id).value;
      var r := OnRequestWillBeSent(s, id, request, initiator, timestamp, resourceType, Some(redirect));
      var n := |s.requests|;
      && |r.requests| == n + 1
      && (forall j :: 0 <= j < n && j != p ==> r.requests[j] == s.requests[j])
      && SameHop(r.requests[p], s.requests[p])
      && r.requests[p].status == Some(redirect.status)
      && r.requests[p].remoteIPAddress == redirect.remoteIPAddress
      && r.requests[p].endTime == Some(timestamp)
      && r.requests[p].size.None?
      && r.requests[p].redirectedTo == Some(request.url)
  {
    var s0 := OnResponseReceived(s, id, resourceType, redirect);
    ResponseUpdatesLatestHop(s, id, resourceType, redirect);
    LastWithIdSameIds(s.requests, s0.requests, id);
    LoadingFinishedRecordsSize(s0, id, timestamp, None);
    RedirectShape(s, id, request, initiator, timestamp, resourceType, redirect);
  }

  /** The new half of a redirect: the appended hop points back and keeps the previous initiator. */
  lemma RedirectAppendsLinkedHop(s: Session, id: RequestId, request: CdpRequest, initiator: Initiator,
                                 timestamp: int, resourceType: Option<string>, redirect: CdpResponse)
    requires LastWithId(s.requests, id).Some?
    ensures var p := LastWithId(s.requests, id).value;
      var r := OnRequestWillBeSent(s, id, request, initiator, timestamp, resourceType, Some(redirect));
      var n := |s.requests|;
      && |r.requests| == n + 1
      && r.requests[n] == NewHop(s, id, request, initiator, timestamp, resourceType).(
           initiator := s.requests[p].initiator, redirectedFrom := Some(s.requests[p].url))
      && LastWithId(r.requests, id) == Some(n)
      && r.unmatchedExtraReqInfo == s.unmatchedExtraReqInfo && r.unmatchedExtraRespInfo == s.unmatchedExtraRespInfo
  {
    var p := LastWithId(s.requests, id).value;
    var s0 := OnResponseReceived(s, id, resourceType, redirect);
    ResponseUpdatesLatestHop(s, id, resourceType, redirect);
    LastWithIdSameIds(s.requests, s0.requests, id);
    LoadingFinishedRecordsSize(s0, id, timestamp, None);
    var s1 := OnLoadingFinished(s0, id, timestamp, None);
    RedirectShape(s, id, request, initiator, timestamp, resourceType, redirect);
    var linked := NewHop(s, id, request, initiator, timestamp, resourceType).(
                    initiator := s1.requests[p].initiator, redirectedFrom := Some(s1.requests[p].url));
    LastWithIdAfterAppend(s1.requests[p := s1.requests[p].(redirectedTo := Some(request.url))], linked, id);
  }

  /** The redirect branch of handleRequest, unfolded once. */
  lemma RedirectShape(s: Session, id: RequestId, request: CdpRequest, initiator: Initiator,
                      timestamp: int, resourceType: Option<string>, redirect: CdpResponse)
    requires LastWithId(s.requests, id).Some?
    ensures var p := LastWithId(s.requests, id).value;
      var s1 := OnLoadingFinished(OnResponseReceived(s, id, resourceType, redirect), id, timestamp, None);
      var r := OnRequestWillBeSent(s, id, request, initiator, timestamp, resourceType, Some(redirect));
      && p < |s1.requests|
      && r == s1.(requests := s1.requests[p := s1.requests[p].(redirectedTo := Some(request.url))]
                                + [NewHop(s, id, request, initiator, timestamp, resourceType).(
                                     initiator := s1.requests[p].initiator, redirectedFrom := Some(s1.requests[p].url))])
  {
  }

  lemma RunThree(s: Session, e1: Event, e2: Event, e3: Event)
    ensures Run(s, [e1, e2, e3]) == Step(Step(Step(s, e1), e2), e3)
  {
    assert [e1, e2, e3][1..] == [e2, e3] && [e2, e3][1..] == [e3] && [e3][1..] == [];
    calc {
      Run(s, [e1, e2, e3]);
      Run(Step(s, e1), [e2, e3]);
      Run(Step(Step(s, e1), e2), [e3]);
      Run(Step(Step(Step(s, e1), e2), e3), []);
    }
  }

  /** The first two hops of a redirect chain under one id, whatever hops the id already has. */
  lemma RedirectTwoHops(s: Session, id: RequestId, a: CdpRequest, b: CdpRequest,
                        initiatorA: Initiator, initiatorB: Initiator, timeA: int, timeB: int,
                        typeA: Option<string>, typeB: Option<string>, responseA: CdpResponse)
    ensures var s2 := OnRequestWillBeSent(OnRequestWillBeSent(s, id, a, initiatorA, timeA, typeA, None),
                                          id, b, initiatorB, timeB, typeB, Some(responseA));
      var n := |s.requests|;
      && |s2.requests| == n + 2 && s2.requests[..n] == s.requests && LastWithId(s2.requests, id) == Some(n + 1)
      && s2.requests[n].url == a.url && s2.requests[n].redirectedFrom.None? && s2.requests[n].redirectedTo == Some(b.url)
      && s2.requests[n].status == Some(responseA.status)
      && s2.requests[n + 1].url == b.url && s2.requests[n + 1].redirectedFrom == Some(a.url)
      && s2.requests[n + 1].redirectedTo.None? && s2.requests[n + 1].initiator == s2.requests[n].initiator
  {
    var n := |s.requests|;
    var s1 := OnRequestWillBeSent(s, id, a, initiatorA, timeA, typeA, None);
    RequestAppendsNewHop(s, id, a, initiatorA, timeA, typeA, None);
    var s2 := OnRequestWillBeSent(s1, id, b, initiatorB, timeB, typeB, Some(responseA));
    RedirectLinksHops(s1, id, b, initiatorB, timeB, typeB, responseA);
    assert s2.requests[..n] == s1.requests[..n];
  }

  /**
   * A chain A -> B -> C under one id gives three hops linked both ways:
   * A redirects to B, B comes from A and redirects to C, C comes from B.
   */
  lemma RedirectChainLinksHops(s: Session, id: RequestId, a: CdpRequest, b: CdpRequest, c: CdpRequest,
                               initiatorA: Initiator, initiatorB: Initiator, initiatorC: Initiator,
                               timeA: int, timeB: int, timeC: int,
                               typeA: Option<string>, typeB: Option<string>, typeC: Option<string>,
                               responseA: CdpResponse, responseB: CdpResponse)
    ensures var s3 := Run(s, [RequestWillBeSent(id, a, initiatorA, timeA, typeA, None),
                              RequestWillBeSent(id, b, initiatorB, timeB, typeB, Some(responseA)),
                              RequestWillBeSent(id, c, initiatorC, timeC, typeC, Some(responseB))]);
      ChainLinked(s, s3, a.url, b.url, c.url)
  {
    var e1 := RequestWillBeSent(id, a, initiatorA, timeA, typeA, None);
    var e2 := RequestWillBeSent(id, b, initiatorB, timeB, typeB, Some(responseA));
    var e3 := RequestWillBeSent(id, c, initiatorC, timeC, typeC, Some(responseB));
    var s2 := OnRequestWillBeSent(OnRequestWillBeSent(s, id, a, initiatorA, timeA, typeA, None),
                                  id, b, initiatorB, timeB, typeB, Some(responseA));
    RedirectTwoHops(s, id, a, b, initiatorA, initiatorB, timeA, timeB, typeA, typeB, responseA);
    RedirectExtendsChain(s, s2, id, a.url, b.url, c, initiatorC, timeC, typeC, responseB);
    RunThree(s, e1, e2, e3);
    assert Step(Step(s, e1), e2) == s2;
  }

  /**
   * After a chain of three urls, the log holds the old hops followed by three
   * hops for the urls in order, each linked to its neighbours both ways.
   */
  predicate ChainLinked(s: Session, s3: Session, urlA: string, urlB: string, urlC: string) {
    var n := |s.requests|;
    && |s3.requests| == n + 3
    && s3.requests[..n] == s.requests
    && s3.requests[n].url == urlA && s3.requests[n + 1].url == urlB && s3.requests[n + 2].url == urlC
    && s3.requests[n].redirectedFrom.None? && s3.requests[n].redirectedTo == Some(urlB)
    && s3.requests[n + 1].redirectedFrom == Some(urlA) && s3.requests[n + 1].redirectedTo == Some(urlC)
    && s3.requests[n + 2].redirectedFrom == Some(urlB) && s3.requests[n + 2].redirectedTo.None?
  }

  /** A redirect from the last hop of a two-hop chain makes it a linked three-hop chain. */
  lemma RedirectExtendsChain(s: Session, s2: Session, id: RequestId, urlA: string, urlB: string, c: CdpRequest,
                             initiatorC: Initiator, timeC: int, resourceType: Option<string>, responseB: CdpResponse)
    requires var n := |s.requests|;
      && |s2.requests| == n + 2 && s2.requests[..n] == s.requests && LastWithId(s2.requests, id) == Some(n + 1)
      && s2.requests[n].url == urlA && s2.requests[n].redirectedFrom.None? && s2.requests[n].redirectedTo == Some(urlB)
      && s2.requests[n + 1].url == urlB && s2.requests[n + 1].redirectedFrom == Some(urlA)
      && s2.requests[n + 1].redirectedTo.None?
    ensures ChainLinked(s, OnRequestWillBeSent(s2, id, c, initiatorC, timeC, resourceType, Some(responseB)), urlA, urlB, c.url)
  {
    var n := |s.requests|;
    RedirectUpdatesPreviousHop(s2, id, c, initiatorC, timeC, resourceType, responseB);
    RedirectAppendsLinkedHop(s2, id, c, initiatorC, timeC, resourceType, responseB);
    var s3 := OnRequestWillBeSent(s2, id, c, initiatorC, timeC, resourceType, Some(responseB));
    assert s3.requests[..n] == s.requests by {
      forall j | 0 <= j < n ensures s3.requests[j] == s.requests[j] {
        assert s3.requests[j] == s2.requests[j] && s2.requests[j] == s2.requests[..n][j];
      }
    }
  }

  /** All three hops of a chain A -> B -> C under one id carry the initiator of A. */
  lemma RedirectChainSharesInitiator(s: Session, id: RequestId, a: CdpRequest, b: CdpRequest, c: CdpRequest,
                                     initiatorA: Initiator, initiatorB: Initiator, initiatorC: Initiator,
                                     timeA: int, timeB: int, timeC: int,
                                     typeA: Option<string>, typeB: Option<string>, typeC: Option<string>,
                                     responseA: CdpResponse, responseB: CdpResponse)
    ensures var s3 := Run(s, [RequestWillBeSent(id, a, initiatorA, timeA, typeA, None),
                              RequestWillBeSent(id, b, initiatorB, timeB, typeB, Some(responseA)),
                              RequestWillBeSent(id, c, initiatorC, timeC, typeC, Some(responseB))]);
      var n := |s.requests|;
      && |s3.requests| == n + 3
      && s3.requests[n].initiator == CorrectedInitiator(s.requests, a, initiatorA)
      && s3.requests[n + 1].initiator == s3.requests[n].initiator
      && s3.requests[n + 2].initiator == s3.requests[n].initiator
  {
    var n := |s.requests|;
    var e1 := RequestWillBeSent(id, a, initiatorA, timeA, typeA, None);
    var e2 := RequestWillBeSent(id, b, initiatorB, timeB, typeB, Some(responseA));
    var e3 := RequestWillBeSent(id, c, initiatorC, timeC, typeC, Some(responseB));
    var s1 := Step(s, e1);
    RequestAppendsNewHop(s, id, a, initiatorA, timeA, typeA, None);
    var s2 := Step(s1, e2);
    RedirectTwoHops(s, id, a, b, initiatorA, initiatorB, timeA, timeB, typeA, typeB, responseA);
    RedirectLinksHops(s1, id, b, initiatorB, timeB, typeB, responseA);
    RedirectLinksHops(s2, id, c, initiatorC, timeC, typeC, responseB);
    var s3 := Step(s2, e3);
    RunThree(s, e1, e2, e3);
  }

  /** Response, loading-failed and loading-finished events for an id with no hop change nothing. */
  lemma UnmatchedEventIsNoOp(s: Session, e: Event)
    requires e.ResponseReceived? || e.LoadingFailed? || e.LoadingFinished?
    requires LastWithId(s.requests, e.requestId).None?
    ensures Step(s, e) == s
  {
  }

  /**
   * An extra-info event for an id with no hop is buffered, replacing any
   * earlier entry for the id; for an id with a hop, it overwrites that header
   * field of the most recent hop only.
   */
  lemma ExtraInfoBufferedOrApplied(s: Session, e: Event)
    requires e.RequestWillBeSentExtraInfo? || e.ResponseReceivedExtraInfo?
    ensures var r := Step(s, e);
      match LastWithId(s.requests, e.requestId)
      case None =>
        && r.requests == s.requests
        && r.unmatchedExtraReqInfo == (if e.RequestWillBeSentExtraInfo? then s.unmatchedExtraReqInfo[e.requestId := e.headers] else s.unmatchedExtraReqInfo)
        && r.unmatchedExtraRespInfo == (if e.ResponseReceivedExtraInfo? then s.unmatchedExtraRespInfo[e.requestId := e.headers] else s.unmatchedExtraRespInfo)
      case Some(i) =>
        && r.unmatchedExtraReqInfo == s.unmatchedExtraReqInfo && r.unmatchedExtraRespInfo == s.unmatchedExtraRespInfo
        && r.requests == s.requests[i := if e.RequestWillBeSentExtraInfo?
                                          then s.requests[i].(requestHeaders := Some(Helpers.NormalizeHeaders(e.headers)))
                                          else s.requests[i].(responseHeaders := Some(Helpers.NormalizeHeaders(e.headers)))]
  {
  }

  /** No event removes or rewrites a buffered entry other than the one for its own id. */
  lemma StepKeepsBufferedEntries(s: Session, e: Event)
    ensures s.unmatchedExtraReqInfo.Keys <= Step(s, e).unmatchedExtraReqInfo.Keys
    ensures s.unmatchedExtraRespInfo.Keys <= Step(s, e).unmatchedExtraRespInfo.Keys
    ensures forall k :: k in s.unmatchedExtraReqInfo && k != e.requestId ==>
              Step(s, e).unmatchedExtraReqInfo[k] == s.unmatchedExtraReqInfo[k]
    ensures forall k :: k in s.unmatchedExtraRespInfo && k != e.requestId ==>
              Step(s, e).unmatchedExtraRespInfo[k] == s.unmatchedExtraRespInfo[k]
  {
    match e
    case RequestWillBeSent(id, request, initiator, timestamp, resourceType, redirectResponse) =>
      if redirectResponse.Some? && LastWithId(s.requests, id).Some? {
        var s0 := OnResponseReceived(s, id, resourceType, redirectResponse.value);
        ResponseUpdatesLatestHop(s, id, resourceType, redirectResponse.value);
        LoadingFinishedRecordsSize(s0, id, timestamp, None);
      }
    case ResponseReceived(id, resourceType, response) =>
      ResponseUpdatesLatestHop(s, id, Some(resourceType), response);
    case _ =>
  }

  /** The buffers never lose an entry over any stream of events. */
  lemma {:induction false} RunNeverPrunesBuffers(s: Session, events: seq<Event>)
    ensures s.unmatchedExtraReqInfo.Keys <= Run(s, events).unmatchedExtraReqInfo.Keys
    ensures s.unmatchedExtraRespInfo.Keys <= Run(s, events).unmatchedExtraRespInfo.Keys
    decreases |events|
  {
    if events != [] {
      StepKeepsBufferedEntries(s, events[0]);
      RunNeverPrunesBuffers(Step(s, events[0]), events[1..]);
    }
  }

  /**
   * For the first hop of an id, request headers do not depend on whether
   * requestWillBeSentExtraInfo comes before or after requestWillBeSent: either
   * way the log ends up the same, with the extra-info headers on the new hop.
   */
  lemma RequestHeadersOrderIndependent(s: Session, id: RequestId, headers: Headers, request: CdpRequest,
                                       initiator: Initiator, timestamp: int, resourceType: Option<string>,
                                       redirectResponse: Option<CdpResponse>)
    requires LastWithId(s.requests, id).None?
    ensures var sent := RequestWillBeSent(id, request, initiator, timestamp, resourceType, redirectResponse);
      var extra := RequestWillBeSentExtraInfo(id, headers);
      var early := Step(Step(s, extra), sent);
      var late := Step(Step(s, sent), extra);
      && early.requests == late.requests
      && |early.requests| == |s.requests| + 1
      && early.requests[|s.requests|].requestHeaders == Some(Helpers.NormalizeHeaders(headers))
  {
    var s1 := Step(s, RequestWillBeSentExtraInfo(id, headers));
    RequestAppendsNewHop(s1, id, request, initiator, timestamp, resourceType, redirectResponse);
    RequestAppendsNewHop(s, id, request, initiator, timestamp, resourceType, redirectResponse);
  }

  /**
   * On a redirect hop the order does matter. Request extra-info that comes
   * before requestWillBeSent finds the previous hop with the id and lands
   * there, so the new hop keeps its own event's headers; extra-info that comes
   * after lands on the new hop.
   */
  lemma RequestHeadersOrderMattersOnRedirect(s: Session, id: RequestId, headers: Headers, request: CdpRequest,
                                             initiator: Initiator, timestamp: int, resourceType: Option<string>,
                                             redirect: CdpResponse)
    requires LastWithId(s.requests, id).Some?
    requires id !in s.unmatchedExtraReqInfo
    requires Helpers.NormalizeHeaders(headers) != Helpers.NormalizeHeaders(request.headers)
    ensures var sent := RequestWillBeSent(id, request, initiator, timestamp, resourceType, Some(redirect));
      var extra := RequestWillBeSentExtraInfo(id, headers);
      var early := Step(Step(s, extra), sent);
      var late := Step(Step(s, sent), extra);
      var n := |s.requests|;
      && |early.requests| == n + 1 && |late.requests| == n + 1
      && early.requests[n].requestHeaders == Some(Helpers.NormalizeHeaders(request.headers))
      && late.requests[n].requestHeaders == Some(Helpers.NormalizeHeaders(headers))
      && early.requests != late.requests
  {
    var n := |s.requests|;
    RedirectHopIgnoresEarlierExtraInfo(s, id, headers, request, initiator, timestamp, resourceType, redirect);
    var s2 := OnRequestWillBeSent(s, id, request, initiator, timestamp, resourceType, Some(redirect));
    RedirectAppendsLinkedHop(s, id, request, initiator, timestamp, resourceType, redirect);
    ExtraInfoBufferedOrApplied(s2, RequestWillBeSentExtraInfo(id, headers));
    var early := Step(Step(s, RequestWillBeSentExtraInfo(id, headers)),
                      RequestWillBeSent(id, request, initiator, timestamp, resourceType, Some(redirect)));
    var late := Step(s2, RequestWillBeSentExtraInfo(id, headers));
    assert early.requests[n] != late.requests[n];
  }

  /** Request extra-info for an id with a hop, then a redirect: the new hop takes its own event's headers. */
  lemma RedirectHopIgnoresEarlierExtraInfo(s: Session, id: RequestId, headers: Headers, request: CdpRequest,
                                           initiator: Initiator, timestamp: int, resourceType: Option<string>,
                                           redirect: CdpResponse)
    requires LastWithId(s.requests, id).Some?
    requires id !in s.unmatchedExtraReqInfo
    ensures var s1 := Step(s, RequestWillBeSentExtraInfo(id, headers));
      var early := Step(s1, RequestWillBeSent(id, request, initiator, timestamp, resourceType, Some(redirect)));
      && |early.requests| == |s.requests| + 1
      && early.requests[|s.requests|].requestHeaders == Some(Helpers.NormalizeHeaders(request.headers))
  {
    var i := LastWithId(s.requests, id).value;
    var s1 := OnRequestWillBeSentExtraInfo(s, id, headers);
    assert s1.requests == s.requests[i := s.requests[i].(requestHeaders := Some(Helpers.NormalizeHeaders(headers)))];
    assert s1.unmatchedExtraReqInfo == s.unmatchedExtraReqInfo;
    LastWithIdSameIds(s.requests, s1.requests, id);
    RedirectAppendsLinkedHop(s1, id, request, initiator, timestamp, resourceType, redirect);
    NewHopFields(s1, id, request, initiator, timestamp, resourceType);
    assert Step(s, RequestWillBeSentExtraInfo(id, headers)) == s1;
  }

  /**
   * Response extra-info that comes after the redirect event (the raw headers
   * of the redirect response itself, for instance) lands on the new hop, not
   * on the hop the redirect response belongs to, which keeps what it had.
   */
  lemma ResponseExtraInfoAfterRedirectLandsOnNewHop(s: Session, id: RequestId, headers: Headers, request: CdpRequest,
                                                    initiator: Initiator, timestamp: int, resourceType: Option<string>,
                                                    redirect: CdpResponse)
    requires LastWithId(s.requests, id).Some?
    ensures var p := LastWithId(s.requests, id).value;
      var s1 := Step(s, RequestWillBeSent(id, request, initiator, timestamp, resourceType, Some(redirect)));
      var s2 := Step(s1, ResponseReceivedExtraInfo(id, headers));
      var n := |s.requests|;
      && |s2.requests| == n + 1
      && s2.requests[n].responseHeaders == Some(Helpers.NormalizeHeaders(headers))
      && s2.requests[p] == s1.requests[p]
  {
    var s1 := OnRequestWillBeSent(s, id, request, initiator, timestamp, resourceType, Some(redirect));
    RedirectAppendsLinkedHop(s, id, request, initiator, timestamp, resourceType, redirect);
    ExtraInfoBufferedOrApplied(s1, ResponseReceivedExtraInfo(id, headers));
  }

  /**
   * Response headers do not depend on whether responseReceivedExtraInfo comes
   * before or after responseReceived for a hop that exists: either way the
   * hop carries the extra-info headers.
   */
  lemma ResponseHeadersOrderIndependent(s: Session, id: RequestId, headers: Headers, resourceType: string, response: CdpResponse)
    requires LastWithId(s.requests, id).Some?
    ensures var received := ResponseReceived(id, resourceType, response);
      var extra := ResponseReceivedExtraInfo(id, headers);
      var early := Step(Step(s, extra), received);
      var late := Step(Step(s, received), extra);
      var i := LastWithId(s.requests, id).value;
      && early.requests == late.requests
      && early.requests[i].responseHeaders == Some(Helpers.NormalizeHeaders(headers))
  {
    var i := LastWithId(s.requests, id).value;
    var final := WithResponse(s.requests[i], Some(resourceType), response, Helpers.NormalizeHeaders(headers));
    ExtraInfoThenResponse(s, id, headers, Some(resourceType), response);
    ResponseThenExtraInfo(s, id, headers, Some(resourceType), response);
    assert Step(Step(s, ResponseReceivedExtraInfo(id, headers)), ResponseReceived(id, resourceType, response))
        == OnResponseReceived(OnResponseReceivedExtraInfo(s, id, headers), id, Some(resourceType), response);
    assert Step(Step(s, ResponseReceived(id, resourceType, response)), ResponseReceivedExtraInfo(id, headers))
        == OnResponseReceivedExtraInfo(OnResponseReceived(s, id, Some(resourceType), response), id, headers);
  }

  /** A hop after its response with the given (normalised) response headers. */
  function WithResponse(hop: InternalRequestData, resourceType: Option<string>, response: CdpResponse,
                        responseHeaders: Headers): InternalRequestData
  {
    hop.(resourceType := if Truthy(resourceType) then resourceType else hop.resourceType,
         status := Some(response.status), remoteIPAddress := response.remoteIPAddress,
         responseHeaders := Some(responseHeaders))
  }

  /** Extra-info first: its headers are on the hop when the response comes, so they stay. */
  lemma ExtraInfoThenResponse(s: Session, id: RequestId, headers: Headers, resourceType: Option<string>, response: CdpResponse)
    requires LastWithId(s.requests, id).Some?
    ensures var i := LastWithId(s.requests, id).value;
      OnResponseReceived(OnResponseReceivedExtraInfo(s, id, headers), id, resourceType, response).requests
        == s.requests[i := WithResponse(s.requests[i], resourceType, response, Helpers.NormalizeHeaders(headers))]
  {
    var i := LastWithId(s.requests, id).value;
    var s1 := OnResponseReceivedExtraInfo(s, id, headers);
    assert s1.requests == s.requests[i := s.requests[i].(responseHeaders := Some(Helpers.NormalizeHeaders(headers)))];
    LastWithIdSameIds(s.requests, s1.requests, id);
  }

  /** Response first: the extra-info that follows overwrites its headers. */
  lemma ResponseThenExtraInfo(s: Session, id: RequestId, headers: Headers, resourceType: Option<string>, response: CdpResponse)
    requires LastWithId(s.requests, id).Some?
    ensures var i := LastWithId(s.requests, id).value;
      OnResponseReceivedExtraInfo(OnResponseReceived(s, id, resourceType, response), id, headers).requests
        == s.requests[i := WithResponse(s.requests[i], resourceType, response, Helpers.NormalizeHeaders(headers))]
  {
    var s2 := OnResponseReceived(s, id, resourceType, response);
    ResponseUpdatesLatestHop(s, id, resourceType, response);
    LastWithIdSameIds(s.requests, s2.requests, id);
  }

  /**
   * Response headers that arrive before their hop exists are buffered and
   * adopted when the response for the new hop arrives.
   */
  lemma BufferedResponseHeadersAdopted(s: Session, id: RequestId, headers: Headers, request: CdpRequest,
                                       initiator: Initiator, timestamp: int, resourceType: Option<string>,
                                       receivedType: string, response: CdpResponse)
    requires LastWithId(s.requests, id).None?
    ensures var s1 := Step(s, ResponseReceivedExtraInfo(id, headers));
      var s2 := Step(s1, RequestWillBeSent(id, request, initiator, timestamp, resourceType, None));
      var s3 := Step(s2, ResponseReceived(id, receivedType, response));
      && |s3.requests| == |s.requests| + 1
      && s3.requests[|s.requests|].responseHeaders == Some(Helpers.NormalizeHeaders(headers))
      && s3.requests[|s.requests|].status == Some(response.status)
  {
    var s1 := Step(s, ResponseReceivedExtraInfo(id, headers));
    RequestAppendsNewHop(s1, id, request, initiator, timestamp, resourceType, None);
    var s2 := Step(s1, RequestWillBeSent(id, request, initiator, timestamp, resourceType, None));
    NewHopFields(s1, id, request, initiator, timestamp, resourceType);
    ResponseUpdatesLatestHop(s2, id, Some(receivedType), response);
  }

  /**
   * Since the buffers are never pruned, request headers buffered for an id
   * before its first hop also become the request headers of every later
   * redirect hop with that id, whatever headers that hop's own event carries.
   */
  lemma BufferedRequestHeadersReusedByRedirectHop(s: Session, id: RequestId, headers: Headers,
                                                  a: CdpRequest, b: CdpRequest, initiatorA: Initiator, initiatorB: Initiator,
                                                  timeA: int, timeB: int, typeA: Option<string>, typeB: Option<string>,
                                                  redirect: CdpResponse)
    requires LastWithId(s.requests, id).None?
    ensures var s1 := Step(s, RequestWillBeSentExtraInfo(id, headers));
      var s2 := Step(s1, RequestWillBeSent(id, a, initiatorA, timeA, typeA, None));
      var s3 := Step(s2, RequestWillBeSent(id, b, initiatorB, timeB, typeB, Some(redirect)));
      && |s3.requests| == |s.requests| + 2
      && s3.requests[|s.requests|].requestHeaders == Some(Helpers.NormalizeHeaders(headers))
      && s3.requests[|s.requests| + 1].requestHeaders == Some(Helpers.NormalizeHeaders(headers))
  {
    var s1 := Step(s, RequestWillBeSentExtraInfo(id, headers));
    RequestAppendsNewHop(s1, id, a, initiatorA, timeA, typeA, None);
    NewHopFields(s1, id, a, initiatorA, timeA, typeA);
    var s2 := Step(s1, RequestWillBeSent(id, a, initiatorA, timeA, typeA, None));
    RedirectLinksHops(s2, id, b, initiatorB, timeB, typeB, redirect);
    NewHopFields(s2, id, b, initiatorB, timeB, typeB);
  }
}
