/** The Sitefinity start-up detector (SitefinityStatusService) as a value: its state,
    what each operation does to that state, and the properties of those operations.
    The class in status_service.dfy is proved to behave exactly like these functions. */
module StatusModel {
  import opened Basics

  /** The markers whose presence makes a response a start-up status page. */
  const StatusPageMarkers: seq<string> := [
    "appStatusApp", "Sitefinity is starting", "Please wait while the system is loading",
    "moduleStatusApp", "startup-status"]

  /** `startPolling()` and `startPeriodicCheck()` default intervals, in milliseconds. */
  const DefaultPollingMs: nat := 3000
  const DefaultPeriodicCheckMs: nat := 5000

  /** What `checkResponseForStatusPage` was given: a string, or any other JavaScript value. */
  datatype ResponseBody = Text(text: string) | NotText

  /** How one readiness probe of `/api/default/sfhelp` ended: with the response body,
      or without one (fetch rejected, evaluation raised, no result after the wait,
      or the DevTools API missing). */
  datatype ProbeOutcome = ProbeBody(text: string) | ProbeFailed

  /** How the live-page evaluation of `checkCurrentPageStatus` ended. */
  datatype PageEval =
    | DevToolsUnavailable                                  // no inspectedWindow.eval
    | EvalRejected(message: string)                        // the eval callback reported an exception
    | PageScanned(html: string, url: string, title: string) // the injected script read the page
    | PageScanFailed(message: string)                      // the injected script caught an error
    | NoResult                                             // the eval produced no object with a boolean isStatusPage

  /** What `checkCurrentPageStatus` resolves to. */
  datatype PageCheck =
    | PageChecked(isStatusPage: bool, url: string, title: string)
    | PageCheckFailed(error: string)   // carries isStatusPage: false
    | PageCheckEmpty

  /** A live `setInterval` registration and what it runs. */
  datatype TimerTask = ReadinessPolling(intervalMs: nat) | PageStatusCheck(intervalMs: nat)

  type RequestId = string

  datatype PendingRequest<P> = PendingRequest(params: P, callback: Callback, timestamp: nat)

  /** One entry of the insertion-ordered `pendingRequests` map. */
  datatype PendingEntry<P> = PendingEntry(id: RequestId, request: PendingRequest<P>)

  /** What `getCurrentStatus` returns. */
  datatype StatusReport = StatusReport(isInStatusMode: bool, lastChecked: Option<nat>)

  /** What `onStatusChange` does for its caller: hands back the unsubscribe function,
      or propagates the exception the callback raised on its first delivery. */
  datatype Subscription = Unsubscriber(callback: Callback) | Raised(callback: Callback)

  /** The service's fields, the browser's timer table and the two delivery logs. */
  datatype Service<P> = Service(
    inStatusMode: bool,
    lastChecked: Option<nat>,
    subscribers: seq<Callback>,          // the callbacks Set, in insertion order
    pollingInterval: Option<nat>,
    checkInterval: Option<nat>,
    pending: seq<PendingEntry<P>>,       // the pendingRequests Map, in insertion order
    timers: map<nat, TimerTask>,         // intervals currently registered with the browser
    nextTimer: nat,                      // the handle the browser gives the next interval
    notified: seq<Delivery<bool>>,       // every status callback invocation so far
    retried: seq<Delivery<P>>)           // every retry callback invocation so far

  function Initial<P>(): Service<P> {
    Service(false, None, [], None, None, [], map[], 1, [], [])
  }

  function Ids<P>(pending: seq<PendingEntry<P>>): (ids: seq<RequestId>)
    ensures |ids| == |pending| && forall k :: 0 <= k < |pending| ==> ids[k] == pending[k].id
  {
    seq(|pending|, k requires 0 <= k < |pending| => pending[k].id)
  }

  function HandleSet(h: Option<nat>): set<nat> {
    if h.Some? then {h.value} else {}
  }

  /** The handles of the live intervals that run the readiness probe. */
  function PollingTimers<P>(st: Service<P>): set<nat> {
    set h | h in st.timers && st.timers[h].ReadinessPolling?
  }

  /** The invariant every operation keeps: the callbacks and the request ids form sets,
      handles are truthy and fresh, and the browser runs exactly the intervals the
      service still holds a handle to. */
  ghost predicate Valid<P>(st: Service<P>) {
    && Distinct(st.subscribers)
    && Distinct(Ids(st.pending))
    && st.nextTimer >= 1
    && (forall h :: h in st.timers ==> 1 <= h < st.nextTimer)
    && st.timers.Keys == HandleSet(st.pollingInterval) + HandleSet(st.checkInterval)
    && (st.pollingInterval.Some? ==> st.timers[st.pollingInterval.value].ReadinessPolling?)
    && (st.checkInterval.Some? ==> st.timers[st.checkInterval.value].PageStatusCheck?)
  }

  // ---------------------------------------------------------------------------
  // Classifiers

  /** The response classifier of `checkResponseForStatusPage`, as written: three
      spellings of `appStatusApp` and four further phrases, all case-sensitive. */
  function IsStatusPageText(text: string): bool {
    var hasStatusApp :=
      Contains(text, "appStatusApp") ||
      Contains(text, "ng-app=\"appStatusApp\"") ||
      Contains(text, "ng-app='appStatusApp'");
    var hasStatusPageIndicators :=
      Contains(text, "Sitefinity is starting") ||
      Contains(text, "Please wait while the system is loading") ||
      Contains(text, "moduleStatusApp") ||
      Contains(text, "startup-status");
    hasStatusApp || hasStatusPageIndicators
  }

  /** The classifier the readiness probe runs on the `/api/default/sfhelp` body. An empty
      body short-circuits to a falsy value, which the probe reports as ready. */
  function ProbeSeesStatusPage(text: string): bool {
    text != "" && (
      Contains(text, "appStatusApp") ||
      Contains(text, "ng-app=\"appStatusApp\"") ||
      Contains(text, "ng-app='appStatusApp'") ||
      (Contains(text, "<html") && Contains(text, "ng-app")))
  }

  /** Whether `checkSitefinityReadiness` sees `result.ready` as truthy. */
  function ProbeReady(p: ProbeOutcome): bool {
    p.ProbeBody? && !ProbeSeesStatusPage(p.text)
  }

  // ---------------------------------------------------------------------------
  // Effects shared by several operations

  function NotifyRound(subscribers: seq<Callback>, v: bool): seq<Delivery<bool>> {
    seq(|subscribers|, k requires 0 <= k < |subscribers| => Delivery(subscribers[k], v))
  }

  function RetryRound<P>(pending: seq<PendingEntry<P>>): seq<Delivery<P>> {
    seq(|pending|, k requires 0 <= k < |pending| =>
      Delivery(pending[k].request.callback, pending[k].request.params))
  }

  /** `notifyCallbacks(v)`: every subscriber is called once, in insertion order; an
      exception is caught and the round goes on. */
  function Notify<P>(st: Service<P>, v: bool): Service<P> {
    st.(notified := st.notified + NotifyRound(st.subscribers, v))
  }

  function SetStatus<P>(st: Service<P>, v: bool, now: nat): Service<P> {
    st.(inStatusMode := v, lastChecked := Some(now))
  }

  /** `startPolling(ms)`: clears the interval it holds, if any, then registers a new one. */
  function StartPolling<P>(st: Service<P>, intervalMs: nat): Service<P> {
    var timers := if st.pollingInterval.Some? then st.timers - {st.pollingInterval.value} else st.timers;
    st.(pollingInterval := Some(st.nextTimer),
        timers := timers[st.nextTimer := ReadinessPolling(intervalMs)],
        nextTimer := st.nextTimer + 1)
  }

  /** `stopPolling()` */
  function StopPolling<P>(st: Service<P>): Service<P> {
    if st.pollingInterval.Some? then
      st.(timers := st.timers - {st.pollingInterval.value}, pollingInterval := None)
    else st
  }

  /** `startPeriodicCheck(ms)` */
  function StartPeriodicCheck<P>(st: Service<P>, intervalMs: nat): Service<P> {
    var timers := if st.checkInterval.Some? then st.timers - {st.checkInterval.value} else st.timers;
    st.(checkInterval := Some(st.nextTimer),
        timers := timers[st.nextTimer := PageStatusCheck(intervalMs)],
        nextTimer := st.nextTimer + 1)
  }

  /** `stopPeriodicCheck()` */
  function StopPeriodicCheck<P>(st: Service<P>): Service<P> {
    if st.checkInterval.Some? then
      st.(timers := st.timers - {st.checkInterval.value}, checkInterval := None)
    else st
  }

  /** `retryPendingRequests()`: every pending callback is called once with its own
      params, in map order, exceptions caught; then the map is cleared. */
  function RetryPending<P>(st: Service<P>): Service<P> {
    if |st.pending| == 0 then st
    else st.(retried := st.retried + RetryRound(st.pending), pending := [])
  }

  // ---------------------------------------------------------------------------
  // Operations

  /** `checkResponseForStatusPage(responseText)`: the new state and the return value. */
  function Observe<P>(st: Service<P>, body: ResponseBody, now: nat): (Service<P>, bool) {
    if body.NotText? || body.text == "" then (st, false)
    else
      var isStatusPage := IsStatusPageText(body.text);
      if isStatusPage == st.inStatusMode then (st, isStatusPage)
      else
        var changed := Notify(SetStatus(st, isStatusPage, now), isStatusPage);
        if isStatusPage then (StartPolling(changed, DefaultPollingMs), true)
        else (RetryPending(StopPolling(changed)), false)
  }

  /** The result handling of `checkSitefinityReadiness()`. */
  function CheckReadiness<P>(st: Service<P>, probe: ProbeOutcome, now: nat): (Service<P>, bool) {
    if ProbeReady(probe) then
      (RetryPending(StopPolling(Notify(SetStatus(st, false, now), false))), true)
    else (st, false)
  }

  /** The status a live-page evaluation reports as a boolean `isStatusPage`, if any. */
  function ReportedStatus(ev: PageEval): Option<bool> {
    match ev
    case PageScanned(html, _, _) => Some(IsStatusPageText(html))
    case PageScanFailed(_) => Some(false)
    case _ => None
  }

  /** What `checkCurrentPageStatus()` resolves to. */
  function PageReport(ev: PageEval): PageCheck {
    match ev
    case DevToolsUnavailable => PageCheckFailed("DevTools API not available")
    case EvalRejected(m) => PageCheckFailed(if m == "" then "Evaluation failed" else m)
    case PageScanned(html, url, title) => PageChecked(IsStatusPageText(html), url, title)
    case PageScanFailed(m) => PageCheckFailed(m)
    case NoResult => PageCheckEmpty
  }

  /** `checkCurrentPageStatus()` after the evaluation has ended. */
  function CheckCurrentPage<P>(st: Service<P>, ev: PageEval, now: nat): (Service<P>, PageCheck) {
    var reported := ReportedStatus(ev);
    var next :=
      if reported.Some? && reported.value != st.inStatusMode then
        Notify(SetStatus(st, reported.value, now), reported.value)
      else st;
    (next, PageReport(ev))
  }

  /** `clearStatus()` */
  function ClearStatus<P>(st: Service<P>, now: nat): Service<P> {
    if st.inStatusMode then Notify(SetStatus(st, false, now), false) else st
  }

  /** `onStatusChange(cb)`: registers, then calls `cb` with the current status outside
      any try/catch. */
  function Subscribe<P>(st: Service<P>, cb: Callback): (Service<P>, Subscription) {
    (st.(subscribers := SetAdd(st.subscribers, cb),
         notified := st.notified + [Delivery(cb, st.inStatusMode)]),
     if cb.throws then Raised(cb) else Unsubscriber(cb))
  }

  /** Calling the function `onStatusChange(cb)` returned. */
  function Unsubscribe<P>(st: Service<P>, cb: Callback): Service<P> {
    st.(subscribers := SetDelete(st.subscribers, cb))
  }

  /** `addPendingRequest(id, params, cb)`: `Map.set`, which keeps an existing key's place. */
  function AddPending<P>(st: Service<P>, id: RequestId, params: P, cb: Callback, now: nat): Service<P> {
    var entry := PendingEntry(id, PendingRequest(params, cb, now));
    var k := IndexOf(Ids(st.pending), id);
    st.(pending := if k < |st.pending| then st.pending[k := entry] else st.pending + [entry])
  }

  /** `removePendingRequest(id)`: `Map.delete`. */
  function RemovePending<P>(st: Service<P>, id: RequestId): Service<P> {
    var k := IndexOf(Ids(st.pending), id);
    if k < |st.pending| then st.(pending := RemoveAt(st.pending, k)) else st
  }

  /** `getCurrentStatus()` */
  function CurrentStatus<P>(st: Service<P>): StatusReport {
    StatusReport(st.inStatusMode, st.lastChecked)
  }
}
