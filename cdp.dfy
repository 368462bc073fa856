/**
 * Payloads of the Chrome DevTools Protocol "Network" domain events that the
 * request collector subscribes to, reduced to the fields it reads.
 */
module Cdp {
  import opened Wrappers

  /** The protocol's request id: opaque, and shared by every redirect hop of one request. */
  type RequestId = string

  /** One header line. A header object of the protocol is a list of these, in its key order. */
  datatype Header = Header(name: string, value: string)
  type Headers = seq<Header>

  /**
   * What caused a request. `kind` is the protocol's initiator type ("parser",
   * "script", "preflight", "other", ...); `origins` lists the URLs met along
   * the initiator's chain (its own url, then the call frames of its stack and
   * of the parent stacks), in the order the protocol nests them.
   */
  datatype Initiator = Initiator(kind: string, origins: seq<string>)

  datatype CdpRequest = CdpRequest(url: string, httpMethod: string, headers: Headers, postData: Option<string>)

  datatype CdpResponse = CdpResponse(status: int, headers: Headers, remoteIPAddress: Option<string>)

  /** The seven protocol events the collector subscribes to, one constructor each. */
  datatype Event =
    | RequestWillBeSent(requestId: RequestId, request: CdpRequest, initiator: Initiator,
                        timestamp: int, resourceType: Option<string>, redirectResponse: Option<CdpResponse>)
    | RequestWillBeSentExtraInfo(requestId: RequestId, headers: Headers)
    | WebSocketCreated(requestId: RequestId, url: string, socketInitiator: Option<Initiator>)
    | ResponseReceived(requestId: RequestId, receivedType: string, response: CdpResponse)
    | ResponseReceivedExtraInfo(requestId: RequestId, headers: Headers)
    | LoadingFailed(requestId: RequestId, timestamp: int, errorText: string)
    | LoadingFinished(requestId: RequestId, timestamp: int, encodedDataLength: int)

  /** JavaScript truthiness of an optional string: present and not empty. */
  predicate Truthy(s: Option<string>) {
    s.Some? && s.value != ""
  }

  /** JavaScript truthiness of an optional number: present and not zero. */
  predicate TruthyNumber(n: Option<int>) {
    n.Some? && n.value != 0
  }
}
