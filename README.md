# SitefinityXHR: start-up detection, request capture and site detection

This project models the logic core of the SitefinityXHR browser extension, a DevTools
panel for Sitefinity CMS sites. The model has three parts.

- **SitefinityStatusService** decides whether the inspected Sitefinity site is still
  starting up. A site that is starting up serves its status page instead of answers. The
  service:
  - keeps a status flag and a timestamp;
  - notifies its subscribers of every change;
  - polls a readiness probe while the site is starting;
  - keeps the requests that failed meanwhile, so it can replay them once the site is
    ready.
- **XhrMonitorService** listens to finished network exchanges. It turns each XHR or fetch
  exchange into a captured-request record (route, status, success flag, headers, payload,
  response data) and hands the record to its subscribers.
- **`checkSitefinitySite`** is the content script's detector. The first `Generator` meta
  tag that mentions Sitefinity marks the site, and the script reads the version number
  after the product name.

Each service is modelled three times:
- as a value datatype with functions, one function per operation (`StatusModel`,
  `MonitorModel`, `XhrCapture`);
- as lemmas about those functions (`StatusProperties`, and the second half of
  `MonitorModel` and `XhrCapture`);
- as a class whose fields the methods update in place (`SitefinityStatusService`,
  `XhrMonitorService`).

Each class method is proved to move the object's abstract value `Model()` exactly as the
matching function does, so the lemmas carry over to the objects. Both notification loops
and the replay loop are `while` loops proved against their specification functions. The
content script is pure and is modelled by functions only (`SiteDetection`).

Library calls and browser state are inputs of the model:
- the time (`Date.now()`, `new Date().toISOString()`) is the parameter `now`;
- `JSON.parse` is the parameter `parseJson: string -> Option<J>`, with `None` meaning it
  throws;
- `new URL` is the parameter `parseUrl`;
- what `getContent` delivers is the parameter `content`;
- the results of the scripts evaluated in the inspected page are the datatypes
  `PageEval` and `ProbeOutcome`;
- whether `chrome.devtools.network.onRequestFinished` exists is the parameter `api`.

A callback is known by its identity. Its flag `throws` says whether invoking it raises an
exception. Every invocation is appended to a ghost log (`notified`, `retried`,
`delivered`), and the properties speak about that log. `setInterval` handles are natural
numbers from 1 upwards, because a handle must be truthy. The intervals the browser runs
are a ghost map from handle to task.

JavaScript's insertion-ordered `Set` and `Map` are duplicate-free sequences:
- `Set.add` of a present element changes nothing;
- `Map.set` on a present key replaces the entry where it stands.

Behaviour of the code that a reader might not expect. The model follows the code in each
case:
- `startPolling` does not ignore a second call. It clears the running interval and
  starts a new one (src/services/sitefinityStatusService.js:169-175).
- The status-page markers are matched case-sensitively (`includes`), so "sitefinity is
  starting" is not recognised.
- The readiness probe uses a different marker set from the response classifier:
  - It does not look for "Sitefinity is starting", "Please wait while the system is
    loading", "moduleStatusApp" or "startup-status".
  - It does treat any body with both `<html` and `ng-app` as a status page.
  - An empty probe body counts as ready.
- A successful readiness probe sets the status to false and notifies `false` even when
  the status was already false (lines 256-263).
- `clearStatus` and `checkCurrentPageStatus` never stop the readiness polling. A polling
  session can therefore outlive the status mode.
- When the script evaluated in the page fails internally, it still answers
  `isStatusPage: false`, and that answer ends status mode (lines 79-81, 92-97).
- `onStatusChange` calls the new callback outside any `try`. A callback that throws
  stays registered, and its exception reaches the caller; the model returns
  `Raised(cb)` for that case.
- `retryPendingRequests` walks the live map and then clears it. The model walks the
  entries present when the drain starts.
- `stop()` without the network API forgets its listener without unregistering it
  (src/services/xhrMonitorService.js:37-41).
- The header objects are plain objects. Assigning to a header named `__proto__` is
  ignored, so such a header never appears.
- `toLowerCase` is modelled as ASCII lower-casing. The only non-ASCII characters whose
  lower case contains an ASCII letter are U+0130 (to `i` followed by U+0307) and the
  Kelvin sign (to `k`). The word "sitefinity" has no `k`, and each of its `i`s is followed
  by a letter rather than U+0307, so neither character can complete the word. The regular
  expression's non-Unicode `i` flag folds only ASCII letters onto ASCII letters.

## Model

| member | source | states |
|---|---|---|
| Basics.SetAdd | src/services/sitefinityStatusService.js:109 | `Set.add`: the element is present afterwards, membership grows by exactly it, a present element changes nothing, a new one goes last, and distinctness is kept |
| Basics.SetDelete | src/services/sitefinityStatusService.js:116 | `Set.delete`: on a duplicate-free sequence the element is absent afterwards and every other element stays; a present element is cut out at its position with the others in their insertion order; deleting an absent element changes nothing |
| Basics.LowerAscii | content.js:11 | lower-casing keeps the length, leaves no upper-case ASCII letter, moves each upper-case letter 32 code points up and keeps every other character |
| Basics.LowerAsciiIdempotent | content.js:11 | lower-casing twice is lower-casing once |
| StatusProperties.StatusPageMarkersDecide | src/services/sitefinityStatusService.js:20-30 | the response classifier fires iff the text contains, case-sensitively, one of `appStatusApp`, `Sitefinity is starting`, `Please wait while the system is loading`, `moduleStatusApp`, `startup-status` (the two `ng-app=` forms contain `appStatusApp`) |
| StatusProperties.StartingPhraseIsStatusPage | src/services/sitefinityStatusService.js:25 | the start-up phrase is recognised |
| StatusProperties.ClassifierIsCaseSensitive | src/services/sitefinityStatusService.js:25 | the same phrase in lower case is not recognised |
| StatusProperties.NoMarkerCharsNoStatusPage | src/services/sitefinityStatusService.js:20-30 | a text lacking `S` and `P`, and `p` or `u`, is never a status page to the classifier |
| StatusProperties.NoMarkerCharsProbeReady | src/services/sitefinityStatusService.js:214-219 | a probe body lacking `<`, and `p` or `S`, is never a status page to the probe |
| StatusProperties.ProbeMissesStartingPhrase | src/services/sitefinityStatusService.js:214-219 | the probe does not treat the start-up phrase as a status page |
| StatusProperties.ProbeSeesBareNgAppPage | src/services/sitefinityStatusService.js:218 | the probe treats `<html ng-app>` as a status page |
| StatusProperties.ClassifierMissesBareNgAppPage | src/services/sitefinityStatusService.js:20-30 | the classifier does not treat `<html ng-app>` as a status page |
| StatusProperties.ProbeReadiness | src/services/sitefinityStatusService.js:214-222 | a failed probe is never ready; an empty body is ready; a body is ready iff the probe sees no status page; a body with `appStatusApp` is not ready |
| StatusProperties.InitialValid | src/services/sitefinityStatusService.js:5-11 | the fresh service satisfies the invariant: distinct callbacks and request ids, and held handles are exactly the running intervals, of the right kind |
| StatusProperties.StartPollingValid | src/services/sitefinityStatusService.js:168-182 | `startPolling` keeps the invariant |
| StatusProperties.StopPollingValid | src/services/sitefinityStatusService.js:185-191 | `stopPolling` keeps the invariant |
| StatusProperties.StartPeriodicCheckValid | src/services/sitefinityStatusService.js:149-157 | `startPeriodicCheck` keeps the invariant |
| StatusProperties.StopPeriodicCheckValid | src/services/sitefinityStatusService.js:160-165 | `stopPeriodicCheck` keeps the invariant |
| StatusProperties.ObserveValid | src/services/sitefinityStatusService.js:14-48 | `checkResponseForStatusPage` keeps the invariant |
| StatusProperties.CheckReadinessValid | src/services/sitefinityStatusService.js:256-267 | the readiness update keeps the invariant |
| StatusProperties.AddPendingValid | src/services/sitefinityStatusService.js:275-282 | `addPendingRequest` keeps the request ids distinct |
| StatusProperties.RemovePendingValid | src/services/sitefinityStatusService.js:285-287 | `removePendingRequest` keeps the invariant |
| StatusProperties.SubscribeValid | src/services/sitefinityStatusService.js:108-118 | subscribing and unsubscribing keep the callbacks distinct |
| StatusProperties.ClearStatusValid | src/services/sitefinityStatusService.js:140-146 | `clearStatus` and the live-page update keep the invariant |
| StatusProperties.ObserveIgnoresNonText | src/services/sitefinityStatusService.js:15-17 | an empty or non-string response answers false and leaves the whole state untouched |
| StatusProperties.ObserveSameStatusIsNoOp | src/services/sitefinityStatusService.js:33-47 | a classification equal to the current status changes nothing: no notification, timestamp, polling or drain |
| StatusProperties.ObserveIdempotent | src/services/sitefinityStatusService.js:33-47 | repeating an observation, at any later time, changes nothing further and answers the same |
| StatusProperties.ObserveEntersStatusMode | src/services/sitefinityStatusService.js:33-40 | entering status mode sets the status and timestamp, sends one round of `true`, and leaves exactly one readiness interval of 3000 ms; nothing is drained |
| StatusProperties.ObserveLeavesStatusMode | src/services/sitefinityStatusService.js:33-44 | leaving status mode sets the status and timestamp, sends one round of `false`, leaves no readiness interval, replays every pending request once in order and empties the map |
| StatusProperties.StartPollingLeavesOneInterval | src/services/sitefinityStatusService.js:168-182 | after `startPolling` exactly one readiness interval runs, with the given period; the periodic check is untouched |
| StatusProperties.StartPollingTwice | src/services/sitefinityStatusService.js:168-182 | two starts without a stop still leave a single readiness interval, running with the second period |
| StatusProperties.StopPollingLeavesNone | src/services/sitefinityStatusService.js:185-191 | after `stopPolling` no readiness interval runs and the handle is null; the periodic check is untouched |
| StatusProperties.StopPollingIdempotent | src/services/sitefinityStatusService.js:185-191 | a second `stopPolling` changes nothing |
| StatusProperties.StartPeriodicCheckReplaces | src/services/sitefinityStatusService.js:149-157 | after `startPeriodicCheck` the new page-check interval runs with the given period, the previous one is cleared, and the readiness polling is untouched |
| StatusProperties.StopPeriodicCheckIdempotent | src/services/sitefinityStatusService.js:160-165 | `stopPeriodicCheck` leaves no handle, is idempotent and leaves polling alone |
| StatusProperties.ReadyProbeClearsAndDrains | src/services/sitefinityStatusService.js:256-263 | a ready probe answers true, sets the status false with a timestamp, notifies `false` even without a change, stops polling and replays then empties the pending map; the subscribers and the page-check interval stay as they were |
| StatusProperties.NotReadyProbeChangesNothing | src/services/sitefinityStatusService.js:264-271 | a failed or not-ready probe answers false and changes nothing |
| StatusProperties.CurrentPageLeavesPollingAlone | src/services/sitefinityStatusService.js:92-98 | the live-page check never touches intervals, pending requests or subscribers, and changes the state iff the page reports a boolean different from the status, which it then adopts with one notification round |
| StatusProperties.ScanFailureEndsStatusModeButNotPolling | src/services/sitefinityStatusService.js:79-98 | an error inside the page script ends status mode while readiness polling keeps running; a rejected evaluation changes nothing |
| StatusProperties.ClearStatusOnlyOnChange | src/services/sitefinityStatusService.js:140-146 | `clearStatus` is a no-op outside status mode; inside it sets false with a timestamp and one round of `false`, and leaves polling and the map alone |
| StatusProperties.SubscribeDeliversCurrentStatus | src/services/sitefinityStatusService.js:108-118 | `onStatusChange` registers the callback and delivers the current status to it once; a throwing callback stays registered and raises |
| StatusProperties.UnsubscribeRemovesOnlyThatCallback | src/services/sitefinityStatusService.js:115-117 | the returned function removes its callback and no other, and notifies nobody |
| StatusProperties.NotifyReachesEverySubscriber | src/services/sitefinityStatusService.js:121-129 | a notification round invokes every subscriber once, in insertion order, whether or not some throw |
| StatusProperties.AddPendingReplacesInPlace | src/services/sitefinityStatusService.js:275-280 | a known id gets the new params, callback and timestamp at its original position; every other entry stays |
| StatusProperties.AddPendingAppends | src/services/sitefinityStatusService.js:275-280 | a new id is appended at the end |
| StatusProperties.OverwriteThenDrainCallsOnlyNewest | src/services/sitefinityStatusService.js:275-307 | adding twice under one id and draining calls the newer callback with the newer params and never the older one |
| StatusProperties.RemovePendingDeletesOnlyThatId | src/services/sitefinityStatusService.js:285-287 | removing an absent id is a no-op; otherwise exactly the entry with that id is cut out at its position, every other entry keeps its params, callback, timestamp and order, and nothing else changes |
| StatusProperties.RetryPendingDrainsInOrder | src/services/sitefinityStatusService.js:290-307 | the drain calls each pending callback once with its own params, in map order, then empties the map; the status is untouched |
| StatusProperties.StartupCycle | src/services/sitefinityStatusService.js:33-44 | from ready, a status page starts polling with a round of `true`; a marker-free probe body then ends it with a round of `false`, no interval and every pending request replayed |
| SitefinityStatusService.SitefinityStatusService.constructor | src/services/sitefinityStatusService.js:5-11 | a new service is not in status mode, with no callbacks, timestamp, intervals or pending requests |
| SitefinityStatusService.SitefinityStatusService.CheckResponseForStatusPage | src/services/sitefinityStatusService.js:14-48 | the object moves as `Observe` says and answers its classification |
| SitefinityStatusService.SitefinityStatusService.CheckCurrentPageStatus | src/services/sitefinityStatusService.js:51-105 | the object moves as `CheckCurrentPage` says and answers its result, including both error results |
| SitefinityStatusService.SitefinityStatusService.OnStatusChange | src/services/sitefinityStatusService.js:108-118 | the object moves as `Subscribe` says |
| SitefinityStatusService.SitefinityStatusService.Unsubscribe | src/services/sitefinityStatusService.js:115-117 | the object moves as `Unsubscribe` says |
| SitefinityStatusService.SitefinityStatusService.NotifyCallbacks | src/services/sitefinityStatusService.js:121-129 | the loop appends exactly one round of deliveries to the log and changes nothing else |
| SitefinityStatusService.SitefinityStatusService.GetCurrentStatus | src/services/sitefinityStatusService.js:132-137 | the report carries the status and the last-checked time, and nothing changes |
| SitefinityStatusService.SitefinityStatusService.ClearStatus | src/services/sitefinityStatusService.js:140-146 | the object moves as `ClearStatus` says |
| SitefinityStatusService.SitefinityStatusService.StartPeriodicCheck | src/services/sitefinityStatusService.js:149-157 | the object moves as `StartPeriodicCheck` says, with 5000 ms when no interval is given |
| SitefinityStatusService.SitefinityStatusService.StopPeriodicCheck | src/services/sitefinityStatusService.js:160-165 | the object moves as `StopPeriodicCheck` says |
| SitefinityStatusService.SitefinityStatusService.StartPolling | src/services/sitefinityStatusService.js:168-182 | the object moves as `StartPolling` says, with 3000 ms when no interval is given |
| SitefinityStatusService.SitefinityStatusService.StopPolling | src/services/sitefinityStatusService.js:185-191 | the object moves as `StopPolling` says |
| SitefinityStatusService.SitefinityStatusService.CheckSitefinityReadiness | src/services/sitefinityStatusService.js:194-272 | given the probe's outcome, the object moves as `CheckReadiness` says and answers whether the site is ready |
| SitefinityStatusService.SitefinityStatusService.AddPendingRequest | src/services/sitefinityStatusService.js:275-282 | the object moves as `AddPending` says |
| SitefinityStatusService.SitefinityStatusService.RemovePendingRequest | src/services/sitefinityStatusService.js:285-287 | the object moves as `RemovePending` says |
| SitefinityStatusService.SitefinityStatusService.RetryPendingRequests | src/services/sitefinityStatusService.js:290-307 | the loop appends one retry per pending entry, in order, then empties the map, as `RetryPending` says |
| XhrCapture.HeaderMap | src/services/xhrMonitorService.js:66-78 | a missing header list gives an empty object |
| XhrCapture.FoldHeadersKeys | src/services/xhrMonitorService.js:66-78 | the header object's keys are exactly the listed names, except `__proto__` |
| XhrCapture.FoldHeadersLastValue | src/services/xhrMonitorService.js:66-78 | each key holds the value of the last header with that name |
| XhrCapture.LaterHeaderWins | src/services/xhrMonitorService.js:66-71 | of two headers with one name, the later value is kept |
| XhrCapture.CaptureFiltersByResourceType | src/services/xhrMonitorService.js:49-52 | a record is produced iff `_resourceType` is `xhr` or `fetch` |
| XhrCapture.CaptureSuccessAndCopies | src/services/xhrMonitorService.js:107-128 | `success` holds iff 200 ≤ status < 400; the top-level and `responseData` copies of success, status, status text, URL and method agree with each other and with the entry; `captured` is true; the route is the URL's |
| XhrCapture.MissingContentDefaults | src/services/xhrMonitorService.js:61-62 | without content information the MIME type is `''` and the size 0, and the response text is then kept unparsed |
| XhrCapture.UnparsableUrlIsItsOwnRoute | src/services/xhrMonitorService.js:136-143 | a URL that does not parse is returned unchanged as the route |
| XhrCapture.EmptyPayloadIsNull | src/services/xhrMonitorService.js:81-92 | no post data, or empty post text, gives a `null` payload |
| MonitorModel.InitialValid | src/services/xhrMonitorService.js:5-9 | a new monitor is valid and not monitoring |
| MonitorModel.StartValid | src/services/xhrMonitorService.js:12-29 | `start` keeps the invariant that monitoring means holding a registered listener |
| MonitorModel.StopValid | src/services/xhrMonitorService.js:32-44 | `stop` keeps the invariant |
| MonitorModel.OnRequestValid | src/services/xhrMonitorService.js:146-153 | subscribing and unsubscribing keep the subscribers distinct |
| MonitorModel.HandleRequestValid | src/services/xhrMonitorService.js:47-133 | handling a request keeps the invariant |
| MonitorModel.StartIsNoOpWhenMonitoringOrUnavailable | src/services/xhrMonitorService.js:12-20 | `start` while monitoring, or without the network API, changes nothing, so monitoring stays off in the second case |
| MonitorModel.StartAttachesFreshListener | src/services/xhrMonitorService.js:22-27 | a successful `start` turns monitoring on and holds one newly registered listener; subscribers and log are untouched |
| MonitorModel.StopDetaches | src/services/xhrMonitorService.js:32-44 | after `stop` monitoring is off and no listener is held; with the API the old listener is unregistered, without it the registrations are untouched |
| MonitorModel.StopIsNoOpWhenIdle | src/services/xhrMonitorService.js:33-35 | `stop` while not monitoring changes nothing, with or without the API |
| MonitorModel.StopIdempotent | src/services/xhrMonitorService.js:32-44 | a second `stop` changes nothing |
| MonitorModel.ToggleReportsNewState | src/services/xhrMonitorService.js:172-179 | `toggle` returns the new `isMonitoring`: the negation of the old one with the API, false without it |
| MonitorModel.ToggleTwiceRestoresMonitoring | src/services/xhrMonitorService.js:172-179 | two toggles with the API restore the monitoring state and the subscribers |
| MonitorModel.OnRequestIdempotent | src/services/xhrMonitorService.js:146-147 | subscribing a callback twice is subscribing it once |
| MonitorModel.UnsubscribeUndoesOnRequest | src/services/xhrMonitorService.js:146-153 | the returned function undoes the subscription of a new callback exactly |
| MonitorModel.UnsubscribeRemovesOnlyThatCallback | src/services/xhrMonitorService.js:150-152 | the returned function removes its callback and no other, and changes nothing else |
| MonitorModel.NotifyReachesEverySubscriber | src/services/xhrMonitorService.js:156-164 | a round invokes every subscriber once with the record, in subscription order, whether or not some throw |
| MonitorModel.HandleRequestNotifiesOnlyCaptured | src/services/xhrMonitorService.js:47-133 | non-XHR/fetch entries change nothing; others add one round with the captured record; only the log changes |
| XhrMonitorService.XhrMonitorService.constructor | src/services/xhrMonitorService.js:5-9 | a new monitor is off, with no subscribers and no listener |
| XhrMonitorService.XhrMonitorService.Start | src/services/xhrMonitorService.js:12-29 | the object moves as `Start` says |
| XhrMonitorService.XhrMonitorService.Stop | src/services/xhrMonitorService.js:32-44 | the object moves as `Stop` says |
| XhrMonitorService.XhrMonitorService.HandleRequest | src/services/xhrMonitorService.js:47-133 | the object moves as `HandleRequest` says |
| XhrMonitorService.XhrMonitorService.OnRequest | src/services/xhrMonitorService.js:146-153 | the object moves as `OnRequest` says and returns the unsubscriber of that callback |
| XhrMonitorService.XhrMonitorService.Unsubscribe | src/services/xhrMonitorService.js:150-152 | the object moves as `Unsubscribe` says |
| XhrMonitorService.XhrMonitorService.NotifyCallbacks | src/services/xhrMonitorService.js:156-164 | the loop appends exactly one round of deliveries and changes nothing else |
| XhrMonitorService.XhrMonitorService.GetStatus | src/services/xhrMonitorService.js:167-169 | answers `isMonitoring`, which is true iff a listener is held, and changes nothing |
| XhrMonitorService.XhrMonitorService.Toggle | src/services/xhrMonitorService.js:172-179 | the object moves as `Toggle` says and returns the new state |
| SiteDetection.SpanEnd | content.js:13 | the end of the longest run of matching characters from a position: all before it match, the one at it does not |
| SiteDetection.FirstMatch | content.js:13 | the leftmost position at which the regular expression matches, or none when it matches nowhere |
| SiteDetection.VersionAt | content.js:13-14 | the captured version is a non-empty, maximal run of digits and dots that follows the word and at least one whitespace character |
| SiteDetection.SpanEndAt | content.js:13 | a run is determined by where it ends |
| SiteDetection.CheckPicksFirstMention | content.js:8-28 | the site is Sitefinity iff some Generator tag with content mentions "sitefinity" ignoring case; the first such tag gives the generator verbatim and the version; the URL is always the page's |
| SiteDetection.VersionShape | content.js:13-14 | the version is "Unknown" iff the expression does not match, and a match implies a mention |
| SiteDetection.NoDigitsNoVersion | content.js:13-14 | content without digits or dots has version "Unknown" |
| SiteDetection.WordAtIgnoringCase | content.js:11-13 | the word occurs at a position after lower-casing iff it occurs there with each letter in either ASCII case |
| SiteDetection.MentionsIgnoringCase | content.js:11 | content mentions sitefinity iff it holds the word somewhere with each letter in either ASCII case |
| SiteDetection.TypicalGeneratorMatches | content.js:12-13 | in "Sitefinity 14.2.7929.0" the expression matches first at position 0 and the version starts at 11 |
| SiteDetection.TypicalGeneratorVersion | content.js:13-14 | the captured group of that match is "14.2.7929.0" |
| SiteDetection.VersionOfTypicalGenerator | content.js:12-14 | "Sitefinity 14.2.7929.0" gives version "14.2.7929.0" |
| SiteDetection.MentionWithoutVersion | content.js:11-21 | "Sitefinity CMS" marks the site with version "Unknown" |
| SiteDetection.OtherTagsAreIgnored | content.js:9-10 | a leading meta tag not named Generator does not affect the answer |
| SiteDetection.OtherTagsAreIgnoredAnywhere | content.js:9-10 | a meta tag not named Generator does not affect the answer wherever it stands in the list |
| SiteDetection.ReplyIsLoadTimeAnswer | content.js:31-44 | the reply to `checkSitefinity` is the answer computed at load, the icon message agrees with it, and other actions get no reply |

## Left out

- The scripts evaluated in the inspected page are not modelled. The probe's `fetch` of `/api/default/sfhelp` is not modelled either. Their outcomes are the inputs `PageEval` and `ProbeOutcome`, because they run in another context.
- The 1000 ms `window.__sitefinityReadinessResult` hand-over is not modelled. A probe slower than one second reads as failed in the model. The real code can pick that stale result up on a later poll.
- `setInterval`, `setTimeout` and `clearInterval` are handles in a ghost map. The model does not fire the intervals, so the periodic `checkCurrentPageStatus` and `checkSitefinityReadiness` calls are separate operations.
- `Date.now()` and `new Date().toISOString()` are the input `now`.
- `JSON.parse`, `new URL` and `harEntry.getContent` are function parameters, because they are library calls.
- The asynchrony of `getContent` is not modelled. `HandleRequest` notifies at once, so the interleaving of several pending exchanges is not captured.
- Re-entrant callbacks are not modelled. These are callbacks that subscribe, unsubscribe or add pending requests while a round is running. The rounds iterate over the collections as they were when the round began, and the live `Set` and `Map` would also visit such additions.
- SitefinityStatusService.SitefinityStatusService.RetryPendingRequests: it does not capture that entries added by a retry callback are also visited and then cleared, because callbacks do not call back into the service.
- SitefinityStatusService.SitefinityStatusService.CheckCurrentPageStatus: it models only the update after the evaluation, because the evaluation result is an input.
- SitefinityStatusService.SitefinityStatusService.CheckSitefinityReadiness: it models only the handling of the probe's outcome, because the probe runs in the page. A missing DevTools API, an evaluation exception and "No result" all appear as `ProbeFailed`.
- Values are not dynamically typed. Non-string response text, non-numeric statuses and non-string MIME types are reduced to the `NotText`, `int` and `string` cases.
- The key order of JavaScript objects is not modelled. Header objects are maps.
- `console` logging is left out.
- The content script's `chrome.runtime.sendMessage` and `onMessage` registration are reduced to the message value and the reply function.
- Unicode case mapping is reduced to ASCII. The argument for why this does not change the detection is given above.
- `background.js`, `devtools.js`, the panel UI, the build tools and the icon tooling are not part of this model. They are glue around the browser, the network and graphics.
