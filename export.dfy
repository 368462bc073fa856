/**
 * `getData`: the filtered, projected view of the request log that the
 * collector hands to the crawler at the end of a session.
 */
module Export {
  import opened Wrappers
  import opened Cdp
  import Helpers
  import opened Correlator

  /** One exported request (`RequestData`), without the body hash. */
  datatype RequestData = RequestData(
    url: string,
    httpMethod: Option<string>,
    resourceType: Option<string>,
    status: Option<int>,
    size: Option<int>,
    remoteIPAddress: Option<string>,
    responseHeaders: Option<Headers>,
    requestHeaders: Option<Headers>,
    failureReason: Option<string>,
    redirectedTo: Option<string>,
    redirectedFrom: Option<string>,
    initiators: seq<string>,
    time: Option<int>,
    postData: Option<string>)

  /** A hop survives the export when its url parses, is not a data: url and passes the caller's filter. */
  predicate Exported(r: InternalRequestData, urlFilter: Option<string -> bool>) {
    match Helpers.ParseProtocol(r.url)
    case None => false
    case Some(protocol) => protocol != "data:" && (urlFilter.None? || urlFilter.value(r.url))
  }

  /** The exported fields of one hop. */
  function Project(r: InternalRequestData, saveHeaders: seq<string>): RequestData {
    RequestData(
      r.url, r.httpMethod, r.resourceType, r.status, r.size, r.remoteIPAddress,
      match r.responseHeaders
      case None => None
      case Some(h) => Some(Helpers.FilterHeaders(h, saveHeaders)),
      r.requestHeaders, r.failureReason, r.redirectedTo, r.redirectedFrom,
      Helpers.AllInitiators(r.initiator),
      if TruthyNumber(r.startTime) && TruthyNumber(r.endTime) then Some(r.endTime.value - r.startTime.value) else None,
      r.postData)
  }

  /** `this._requests.filter(...).map(...)`. */
  function ExportLog(log: seq<InternalRequestData>, saveHeaders: seq<string>, urlFilter: Option<string -> bool>): seq<RequestData>
    decreases |log|
  {
    if log == [] then []
    else
      var last := log[|log| - 1];
      ExportLog(log[..|log| - 1], saveHeaders, urlFilter) + (if Exported(last, urlFilter) then [Project(last, saveHeaders)] else [])
  }

  /** The indices of the hops that survive the export, ascending. */
  function KeptIndices(log: seq<InternalRequestData>, urlFilter: Option<string -> bool>): (ks: seq<nat>)
    ensures forall k :: 0 <= k < |ks| ==> ks[k] < |log|
    ensures forall k, l :: 0 <= k < l < |ks| ==> ks[k] < ks[l]
    ensures forall i :: 0 <= i < |log| ==> (i in ks <==> Exported(log[i], urlFilter))
    decreases |log|
  {
    if log == [] then []
    else
      var n := |log| - 1;
      var prefix := KeptIndices(log[..n], urlFilter);
      assert forall i :: 0 <= i < n ==> log[..n][i] == log[i];
      if Exported(log[n], urlFilter) then prefix + [n] else prefix
  }

  lemma {:induction false} ExportSelectsKeptIndices(log: seq<InternalRequestData>, saveHeaders: seq<string>, urlFilter: Option<string -> bool>)
    ensures |ExportLog(log, saveHeaders, urlFilter)| == |KeptIndices(log, urlFilter)|
    ensures forall k :: 0 <= k < |KeptIndices(log, urlFilter)| ==>
              ExportLog(log, saveHeaders, urlFilter)[k] == Project(log[KeptIndices(log, urlFilter)[k]], saveHeaders)
    decreases |log|
  {
    if log != [] {
      var n := |log| - 1;
      var prefix := log[..n];
      ExportSelectsKeptIndices(prefix, saveHeaders, urlFilter);
      assert forall i :: 0 <= i < n ==> prefix[i] == log[i];
      var kept, keptBefore := KeptIndices(log, urlFilter), KeptIndices(prefix, urlFilter);
      var exported, exportedBefore := ExportLog(log, saveHeaders, urlFilter), ExportLog(prefix, saveHeaders, urlFilter);
      if Exported(log[n], urlFilter) {
        assert kept == keptBefore + [n];
        assert exported == exportedBefore + [Project(log[n], saveHeaders)];
      } else {
        assert kept == keptBefore;
        assert exported == exportedBefore;
      }
      forall k | 0 <= k < |kept|
        ensures exported[k] == Project(log[kept[k]], saveHeaders)
      {
        if k < |keptBefore| {
          assert exported[k] == exportedBefore[k] && kept[k] == keptBefore[k];
          assert log[kept[k]] == prefix[keptBefore[k]];
        }
      }
    }
  }

  /**
   * The projection of one hop: elapsed time only when both timestamps are
   * set and non-zero, response headers cut down to the allow-list, request
   * headers, post data and the rest passed through unchanged.
   */
  lemma ProjectFields(r: InternalRequestData, saveHeaders: seq<string>)
    ensures var d := Project(r, saveHeaders);
      && (d.time.Some? <==> TruthyNumber(r.startTime) && TruthyNumber(r.endTime))
      && (d.time.Some? ==> d.time.value == r.endTime.value - r.startTime.value)
      && (d.responseHeaders.Some? <==> r.responseHeaders.Some?)
      && (d.responseHeaders.Some? ==> forall x :: x in d.responseHeaders.value <==>
            x in r.responseHeaders.value && Helpers.LowerString(x.name) in saveHeaders)
      && d.requestHeaders == r.requestHeaders && d.postData == r.postData
      && d.url == r.url && d.httpMethod == r.httpMethod && d.resourceType == r.resourceType
      && d.status == r.status && d.size == r.size && d.remoteIPAddress == r.remoteIPAddress
      && d.failureReason == r.failureReason && d.redirectedTo == r.redirectedTo && d.redirectedFrom == r.redirectedFrom
      && (forall o :: o in d.initiators <==> r.initiator.Some? && o in r.initiator.value.origins)
  {
  }

  /** A hop is dropped when its url does not parse, is a data: url, or fails the caller's filter. */
  lemma ExportedExactly(r: InternalRequestData, urlFilter: Option<string -> bool>)
    ensures Helpers.ParseProtocol(r.url).None? ==> !Exported(r, urlFilter)
    ensures Helpers.ParseProtocol(r.url) == Some("data:") ==> !Exported(r, urlFilter)
    ensures urlFilter.Some? && !urlFilter.value(r.url) ==> !Exported(r, urlFilter)
    ensures (Helpers.ParseProtocol(r.url).Some? && Helpers.ParseProtocol(r.url) != Some("data:")
             && (urlFilter.None? || urlFilter.value(r.url))) ==> Exported(r, urlFilter)
  {
  }

  /** With allow-list ["etag"], ETag is kept (under its normalised name) and Set-Cookie is dropped. */
  lemma AllowListExample()
    ensures Helpers.FilterHeaders(Helpers.NormalizeHeaders([Header("ETag", "x"), Header("Set-Cookie", "y")]), ["etag"])
            == [Header("etag", "x")]
  {
    var normalized := Helpers.NormalizeHeaders([Header("ETag", "x"), Header("Set-Cookie", "y")]);
    assert Helpers.LowerString("ETag") == "etag";
    assert Helpers.LowerString("Set-Cookie") == "set-cookie";
    assert normalized == [Header("etag", "x"), Header("set-cookie", "y")];
    assert Helpers.LowerString("etag") == "etag";
    assert Helpers.LowerString("set-cookie") == "set-cookie";
    assert normalized[1..] == [Header("set-cookie", "y")];
    assert normalized[1..][1..] == [];
  }
}
