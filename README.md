# Request collector of the tracker radar crawler, in Dafny

This project models the network-request event correlator of the crawler:
the `RequestCollector` in `collectors/RequestCollector.js`. One collector
serves one crawl session. It listens to the Chrome DevTools Protocol Network
events of every target and keeps three pieces of state:

- an append-only log of request hops;
- two buffers, keyed by request id, for "extra info" headers that arrive
  before their hop exists.

At the end of the session it exports a filtered, projected view of the log.

Layout:

- `wrappers.dfy`: `Option`, the model's `undefined`.
- `cdp.dfy`: the protocol payloads the collector reads, and the event
  datatype `Cdp.Event` with one constructor per subscribed event.
- `helpers.dfy`: stand-ins for the helpers the collector calls but that are
  not part of this model. These are `normalizeHeaders`, `filterHeaders`,
  `getAllInitiators` and the protocol part of `new URL(...)`.
- `correlator.dfy`: the collector's state as a value (`Correlator.Session`).
  It has one function per event handler. `Step` dispatches an event to its
  handler and `Run` folds `Step` over an event stream.
- `request_collector.dfy`: the class `Collectors.RequestCollector`. Its
  fields are the log (a `seq` of hop records) and the two buffers (`map`s).
  Its handlers update them in place, as the JavaScript does. Each handler is
  proved to leave exactly the state its `Correlator` function describes.
  `FindLastRequestWithId` keeps the source's backward scan, and so does
  `FindPreflightInitiator`, the CORS initiator correction of `handleRequest`.
- `export.dfy`: `getData` as a pure filter and projection of the log.
- `correlator_properties.dfy`: what the collector promises, proved of the
  `Correlator` functions. This covers append-only growth, the rule that only
  the most recent hop with an id is ever written, order independence of the
  extra-info headers for an id's first hop (and the order dependence on a
  redirect hop), redirect linking, and no-ops on unknown ids.

The buffers are never pruned, exactly as in the source. Lemma
`CorrelatorProperties.BufferedRequestHeadersReusedByRedirectHop` shows one
consequence. When request extra-info headers for an id are buffered before
its first hop, every later redirect hop with that id also takes those
buffered headers, whatever headers its own event carries. Whether that is
intended is not clear from the source, so the model keeps the behaviour as
written.

Three behaviours of the code worth noting:

- Buffered entries are never discarded once a hop consumes them.
- A redirect response updates the previous hop only when a hop with that id
  exists.
- `handleResponse` keeps the old resource type when the new one is empty.

## Model

| member | source | states |
|---|---|---|
| `Collectors.SaveHeaderList` | collectors/RequestCollector.js:17-25 | a configured allow-list is kept element by element lower-cased; without one the default list is used; every entry is lower case |
| `Collectors.DefaultOptionSameAsNone` | collectors/RequestCollector.js:10-24 | passing the default list explicitly gives the same allow-list as passing none |
| `Collectors.RequestCollector.constructor` | collectors/RequestCollector.js:17-25 | the allow-list is `SaveHeaderList` of the option; the log and buffers start empty |
| `Collectors.RequestCollector.Init` | collectors/RequestCollector.js:34-44 | the log and both buffers are reset to empty |
| `Collectors.RequestCollector.FindLastRequestWithId` | collectors/RequestCollector.js:69-79 | returns the largest index whose hop has the id, or None exactly when no hop has it; changes nothing |
| `Collectors.RequestCollector.HandleRequest` | collectors/RequestCollector.js:104-182 | the new state is `OnRequestWillBeSent` of the old one (properties below) |
| `Collectors.RequestCollector.FindPreflightInitiator` | collectors/RequestCollector.js:134-142 | the initiator of the most recent OPTIONS hop to the url (`LastOptionsTo`), or the reported initiator when there is none; changes nothing |
| `Collectors.RequestCollector.BuildHop` | collectors/RequestCollector.js:113-150 | the hop built for a request event is `NewHop` of the current state (its fields: `NewHopFields`); changes nothing |
| `Collectors.RequestCollector.LinkRedirect` | collectors/RequestCollector.js:172-181 | the hop at the given index gets `redirectedTo` = the new url; the appended hop gets that hop's initiator and `redirectedFrom` = its url; the buffers are unchanged |
| `Collectors.RequestCollector.HandleWebSocket` | collectors/RequestCollector.js:187-194 | the new state is `OnWebSocketCreated` of the old one |
| `Collectors.RequestCollector.HandleResponse` | collectors/RequestCollector.js:199-231 | the new state is `OnResponseReceived` of the old one |
| `Collectors.RequestCollector.HandleResponseExtraInfo` | collectors/RequestCollector.js:237-251 | the new state is `OnResponseReceivedExtraInfo` of the old one |
| `Collectors.RequestCollector.HandleRequestWillBeSentExtraInfo` | collectors/RequestCollector.js:257-273 | the new state is `OnRequestWillBeSentExtraInfo` of the old one |
| `Collectors.RequestCollector.HandleFailedRequest` | collectors/RequestCollector.js:280-294 | the new state is `OnLoadingFailed` of the old one |
| `Collectors.RequestCollector.HandleFinishedRequest` | collectors/RequestCollector.js:300-314 | the new state is `OnLoadingFinished` of the old one |
| `Collectors.RequestCollector.Handle` | collectors/RequestCollector.js:55-63 | each subscribed event goes to its handler: the new state is `Step` of the old one |
| `Collectors.RequestCollector.GetData` | collectors/RequestCollector.js:320-355 | the export is, in log order, the projection of exactly the hops at `KeptIndices` |
| `Correlator.LastWithId` | collectors/RequestCollector.js:69-79 | the most recent hop with the id: it has the id, no later hop has it, None iff no hop has it |
| `Correlator.LastOptionsTo` | collectors/RequestCollector.js:134-142 | the most recent OPTIONS hop to the url, None iff there is none |
| `CorrelatorProperties.NewHopFields` | collectors/RequestCollector.js:113-150 | a new hop's request headers come from the buffered extra-info if there is one, else from the event; a non-OPTIONS parser-initiated request takes the initiator of the latest OPTIONS hop to its url if any; post data only for POST not attributed to the parser |
| `CorrelatorProperties.RequestAppendsNewHop` | collectors/RequestCollector.js:158-181 | without a redirect response or without an earlier hop with the id, the new hop is appended and nothing else changes |
| `CorrelatorProperties.RedirectUpdatesPreviousHop` | collectors/RequestCollector.js:158-176 | on a redirect the log grows by one; the previous hop with the id keeps its creation fields and gets the redirect status and address, end time = the new timestamp, no size and `redirectedTo` = the new url; no other old hop changes |
| `CorrelatorProperties.RedirectAppendsLinkedHop` | collectors/RequestCollector.js:158-181 | on a redirect the appended hop is the new hop with the previous hop's initiator and `redirectedFrom` = its url; it becomes the most recent hop with the id; the buffers are unchanged |
| `CorrelatorProperties.RedirectLinksHops` | collectors/RequestCollector.js:158-181 | on a redirect the previous hop gets the redirect status and address, end time = the new timestamp, no size, `redirectedTo` = new url; the new hop gets `redirectedFrom` = previous url and the previous initiator; no other hop changes |
| `CorrelatorProperties.RedirectTwoHops` | collectors/RequestCollector.js:152-181 | two requests under one id, the second with a redirect response, give two hops linked both ways with one initiator |
| `CorrelatorProperties.RedirectExtendsChain` | collectors/RequestCollector.js:152-181 | a redirect from the second hop of a linked two-hop chain gives a three-hop chain linked both ways (`ChainLinked`), with the older hops untouched |
| `CorrelatorProperties.RedirectChainLinksHops` | collectors/RequestCollector.js:152-181 | a chain A -> B -> C under one id appends three hops for A, B and C, in order, with `redirectedTo`/`redirectedFrom` linking A-B and B-C, none before A or after C, and leaves the older hops untouched |
| `CorrelatorProperties.RedirectChainSharesInitiator` | collectors/RequestCollector.js:172-173 | all three hops of such a chain carry the (corrected) initiator of A |
| `CorrelatorProperties.WebSocketAppendsOneHop` | collectors/RequestCollector.js:187-194 | exactly one hop is appended, of type WebSocket with the event's id, url and initiator; old hops and buffers unchanged |
| `CorrelatorProperties.ResponseUpdatesLatestHop` | collectors/RequestCollector.js:199-231 | unknown id: no change; otherwise only the most recent hop with the id changes: status, address, type unless the new one is empty, and response headers only if unset, from the buffer first |
| `CorrelatorProperties.LoadingFailedRecordsReason` | collectors/RequestCollector.js:280-290 | unknown id: no change; otherwise only end time and failure reason (the error text, or "unknown error" when empty) of the most recent hop change |
| `CorrelatorProperties.LoadingFinishedRecordsSize` | collectors/RequestCollector.js:300-309 | unknown id: no change; otherwise only end time and size of the most recent hop change |
| `CorrelatorProperties.StepChangesOnlyLatestHop` | collectors/RequestCollector.js:104-314 | an event appends one hop if it is a request or WebSocket event and none otherwise; it writes no hop but the most recent one with its id; no hop's creation fields ever change |
| `CorrelatorProperties.RunAppendOnly` | collectors/RequestCollector.js:181-194 | over any event stream the log grows by one per request or WebSocket event and old hops keep their identity |
| `CorrelatorProperties.RunFreezesSupersededHops` | collectors/RequestCollector.js:69-79 | a hop followed by a later hop with the same id is never changed again, whatever events follow |
| `CorrelatorProperties.UnmatchedEventIsNoOp` | collectors/RequestCollector.js:205-210 | response, loading-failed and loading-finished events for an id with no hop leave the whole state unchanged |
| `CorrelatorProperties.ExtraInfoBufferedOrApplied` | collectors/RequestCollector.js:237-273 | an extra-info event for an unknown id replaces the buffer entry for the id and leaves the log alone; for a known id it overwrites only that header field of the most recent hop and leaves the buffers alone |
| `CorrelatorProperties.StepKeepsBufferedEntries` | collectors/RequestCollector.js:242-267 | no event removes a buffer entry or rewrites one for another id |
| `CorrelatorProperties.RunNeverPrunesBuffers` | collectors/RequestCollector.js:246-267 | over any event stream the buffers never lose a key |
| `CorrelatorProperties.RequestHeadersOrderIndependent` | collectors/RequestCollector.js:120-130 | for the first hop of an id, requestWillBeSentExtraInfo before or after requestWillBeSent yields the same log, with the extra-info headers on the new hop |
| `CorrelatorProperties.RequestHeadersOrderMattersOnRedirect` | collectors/RequestCollector.js:120-130 | on a redirect hop (the id already has a hop, nothing buffered) the two orders differ whenever the extra-info headers differ from the event's: arriving first, they go to the previous hop and the new hop keeps the event's headers; arriving after, they go to the new hop |
| `CorrelatorProperties.RedirectHopIgnoresEarlierExtraInfo` | collectors/RequestCollector.js:120-130 | request extra-info for an id that has a hop, followed by a redirect event, leaves the new hop with the event's own (normalised) headers |
| `CorrelatorProperties.ResponseExtraInfoAfterRedirectLandsOnNewHop` | collectors/RequestCollector.js:242-250 | response extra-info that arrives after a redirect event overwrites the new hop's response headers and leaves the redirected hop as the redirect made it |
| `CorrelatorProperties.ExtraInfoThenResponse` | collectors/RequestCollector.js:217-250 | extra-info then response on a known id: the hop ends with the extra-info headers and the response's status, address and type |
| `CorrelatorProperties.ResponseThenExtraInfo` | collectors/RequestCollector.js:217-250 | response then extra-info on a known id: the same hop as the other order |
| `CorrelatorProperties.ResponseHeadersOrderIndependent` | collectors/RequestCollector.js:217-250 | responseReceivedExtraInfo before or after responseReceived yields the same log, with the extra-info headers on the hop |
| `CorrelatorProperties.BufferedResponseHeadersAdopted` | collectors/RequestCollector.js:219-229 | response extra-info that arrives before its hop is adopted when that hop's response arrives |
| `CorrelatorProperties.BufferedRequestHeadersReusedByRedirectHop` | collectors/RequestCollector.js:120-130 | request extra-info buffered before the first hop of an id is also used for a later redirect hop of that id |
| `Export.KeptIndices` | collectors/RequestCollector.js:321-337 | ascending indices of the log, containing exactly the hops that survive the filter |
| `Export.ExportSelectsKeptIndices` | collectors/RequestCollector.js:320-355 | the filter-then-map export is the projection of the hops at `KeptIndices`, in order |
| `Export.ExportedExactly` | collectors/RequestCollector.js:322-337 | a hop is dropped iff its url fails to parse, is a data: url, or the supplied filter rejects it |
| `Export.ProjectFields` | collectors/RequestCollector.js:338-354 | time = end - start only when both are set and non-zero; response headers restricted to the allow-list; request headers, post data and the other fields passed through |
| `Export.AllowListExample` | collectors/RequestCollector.js:345 | with allow-list ["etag"], `ETag: x` is kept as `etag: x` and `Set-Cookie` is dropped |
| `Helpers.NormalizeHeaders` | collectors/RequestCollector.js:130 | same header lines, same order and values, names lower-cased |
| `Helpers.FilterHeaders` | collectors/RequestCollector.js:345 | keeps exactly the lines whose lower-cased name is in the allow-list |
| `Helpers.AllInitiators` | collectors/RequestCollector.js:351 | the initiator chain's origins, each once |
| `Helpers.ParseProtocol` | collectors/RequestCollector.js:326-332 | a parsed protocol is lower case and ends in a colon |

## Left out

- CorrelatorProperties.RequestHeadersOrderIndependent: holds only for the first hop of an id. The source attaches extra-info to whichever hop with the id is most recent when it arrives, so on a redirect hop the order matters (`RequestHeadersOrderMattersOnRedirect`). The same goes for response extra-info that arrives after the next redirect event (`ResponseExtraInfoAfterRedirectLandsOnNewHop`).

- `addTarget`: enabling the protocol domains and subscribing to a session's events. `Collectors.RequestCollector.Handle` receives the events as a datatype instead.
- The response body hash: `getResponseBodyHash`, the `saveResponseHash` option and the `responseBodyHash` field. Each is a protocol round trip plus SHA-256, assigned after an `await`, so no hop and no export carries a hash.
- Asynchrony: the two loading handlers run synchronously up to their `await`, and only the hash assignment follows it. The model therefore treats every handler as one atomic step.
- The `_log` calls, `id()` and the unused `associatedCookies` and `frameId` fields: they have no effect on state.
- Hops are values in the log, and an in-place write to a found hop becomes a replacement at its index. No reference to a hop leaves the collector, so there is no aliasing to capture.
- The JavaScript constructor leaves the log unset until `init`. Dafny needs every field set, so the constructor also starts with an empty log.
- Timestamps are integers, not floating-point seconds. Only the subtraction for `time` and the truthiness test use them.
- `normalizeHeaders`, `filterHeaders`, `getAllInitiators` and the URL parser are not part of this model. `helpers.dfy` gives simple stand-ins:
  - headers are an ordered list of name/value lines;
  - lower-casing is ASCII only, not locale-aware;
  - a url "parses" when it starts with a scheme and a colon.
- Helpers.ParseProtocol: accepts some strings the platform parser rejects (a special scheme with an empty host, for instance), because the platform parser is not part of this model.
- JavaScript's dynamic typing: events are assumed to carry the fields the protocol documents, and a header object is always truthy.
- crawler.js and crawlerConductor.js, which cover the session phases, timeouts, the worker pool and retries: these are browser-driver plumbing and wrappers over a concurrency library that are not part of this model.
