/** SitefinityStatusService as an object whose methods update its fields in place.
    Each method is proved to move the object's abstract value, `Model()`, exactly as
    the matching function of StatusModel says; the properties proved there then hold
    of the object. */
module SitefinityStatusService {
  import opened Basics
  import opened StatusModel
  import StatusProperties

  class SitefinityStatusService<P> {
    var isInStatusMode: bool
    var callbacks: seq<Callback>
    var lastCheckedTimestamp: Option<nat>
    var pollingInterval: Option<nat>
    var checkInterval: Option<nat>
    var pendingRequests: seq<PendingEntry<P>>
    /** The handle `setInterval` hands out next. */
    var nextTimerHandle: nat
    /** The intervals the browser is running. */
    ghost var timers: map<nat, TimerTask>
    /** Every invocation of a status callback, and of a retry callback. */
    ghost var notified: seq<Delivery<bool>>
    ghost var retried: seq<Delivery<P>>

    ghost function Model(): Service<P>
      reads this
    {
      Service(isInStatusMode, lastCheckedTimestamp, callbacks, pollingInterval, checkInterval,
              pendingRequests, timers, nextTimerHandle, notified, retried)
    }

    ghost predicate Valid()
      reads this
    {
      StatusModel.Valid(Model())
    }

    constructor ()
      ensures Valid() && Model() == Initial<P>()
    {
      isInStatusMode := false;
      callbacks := [];
      lastCheckedTimestamp := None;
      pollingInterval := None;
      checkInterval := None;
      pendingRequests := [];
      nextTimerHandle := 1;
      timers := map[];
      notified := [];
      retried := [];
    }

    method CheckResponseForStatusPage(body: ResponseBody, now: nat) returns (isStatusPage: bool)
      requires Valid()
      modifies this
      ensures Valid()
      ensures (Model(), isStatusPage) == Observe(old(Model()), body, now)
    {
      if body.NotText? || body.text == "" {
        return false;
      }
      isStatusPage := IsStatusPageText(body.text);
      if isStatusPage != isInStatusMode {
        isInStatusMode := isStatusPage;
        lastCheckedTimestamp := Some(now);
        NotifyCallbacks(isStatusPage);
        if isStatusPage {
          StartPolling();
        } else {
          StopPolling();
          RetryPendingRequests();
        }
      }
    }

    /** The update that follows the live-page evaluation of `checkCurrentPageStatus`. */
    method CheckCurrentPageStatus(ev: PageEval, now: nat) returns (result: PageCheck)
      requires Valid()
      modifies this
      ensures Valid()
      ensures (Model(), result) == CheckCurrentPage(old(Model()), ev, now)
    {
      var reported: Option<bool>;
      match ev {
        case DevToolsUnavailable =>
          return PageCheckFailed("DevTools API not available");
        case EvalRejected(m) =>
          return PageCheckFailed(if m == "" then "Evaluation failed" else m);
        case PageScanned(html, url, title) =>
          result := PageChecked(IsStatusPageText(html), url, title);
          reported := Some(result.isStatusPage);
        case PageScanFailed(m) =>
          result := PageCheckFailed(m);
          reported := Some(false);
        case NoResult =>
          return PageCheckEmpty;
      }
      if reported.value != isInStatusMode {
        isInStatusMode := reported.value;
        lastCheckedTimestamp := Some(now);
        NotifyCallbacks(reported.value);
      }
    }

    method OnStatusChange(cb: Callback) returns (sub: Subscription)
      requires Valid()
      modifies this
      ensures Valid()
      ensures (Model(), sub) == Subscribe(old(Model()), cb)
    {
      if cb !in callbacks {
        callbacks := callbacks + [cb];
      }
      notified := notified + [Delivery(cb, isInStatusMode)];
      sub := if cb.throws then Raised(cb) else Unsubscriber(cb);
    }

    /** Runs the function `OnStatusChange` returned. */
    method Unsubscribe(u: Subscription)
      requires Valid() && u.Unsubscriber?
      modifies this
      ensures Valid()
      ensures Model() == StatusModel.Unsubscribe(old(Model()), u.callback)
    {
      var k := IndexOf(callbacks, u.callback);
      if k < |callbacks| {
        callbacks := callbacks[..k] + callbacks[k + 1..];
      }
    }

    method NotifyCallbacks(v: bool)
      requires Valid()
      modifies this
      ensures Valid()
      ensures Model() == Notify(old(Model()), v)
    {
      var i := 0;
      while i < |callbacks|
        invariant 0 <= i <= |callbacks|
        invariant Model() == old(Model()).(notified := old(notified) + NotifyRound(callbacks[..i], v))
      {
        // callbacks[i](v) runs inside try/catch: the round goes on whether or not it throws
        notified := notified + [Delivery(callbacks[i], v)];
        assert NotifyRound(callbacks[..i + 1], v) == NotifyRound(callbacks[..i], v) + [Delivery(callbacks[i], v)];
        i := i + 1;
      }
      assert callbacks[..i] == callbacks;
    }

    method GetCurrentStatus() returns (report: StatusReport)
      ensures report.isInStatusMode == isInStatusMode && report.lastChecked == lastCheckedTimestamp
    {
      report := StatusReport(isInStatusMode, lastCheckedTimestamp);
    }

    method ClearStatus(now: nat)
      requires Valid()
      modifies this
      ensures Valid()
      ensures Model() == StatusModel.ClearStatus(old(Model()), now)
    {
      if isInStatusMode {
        isInStatusMode := false;
        lastCheckedTimestamp := Some(now);
        NotifyCallbacks(false);
      }
    }

    method StartPeriodicCheck(intervalMs: nat := DefaultPeriodicCheckMs)
      requires Valid()
      modifies this
      ensures Valid()
      ensures Model() == StatusModel.StartPeriodicCheck(old(Model()), intervalMs)
    {
      StatusProperties.StartPeriodicCheckValid(Model(), intervalMs);
      if checkInterval.Some? {
        timers := timers - {checkInterval.value};
      }
      checkInterval := Some(nextTimerHandle);
      timers := timers[nextTimerHandle := PageStatusCheck(intervalMs)];
      nextTimerHandle := nextTimerHandle + 1;
    }

    method StopPeriodicCheck()
      requires Valid()
      modifies this
      ensures Valid()
      ensures Model() == StatusModel.StopPeriodicCheck(old(Model()))
    {
      if checkInterval.Some? {
        timers := timers - {checkInterval.value};
        checkInterval := None;
      }
    }

    method StartPolling(intervalMs: nat := DefaultPollingMs)
      requires Valid()
      modifies this
      ensures Valid()
      ensures Model() == StatusModel.StartPolling(old(Model()), intervalMs)
    {
      StatusProperties.StartPollingValid(Model(), intervalMs);
      if pollingInterval.Some? {
        timers := timers - {pollingInterval.value};
      }
      pollingInterval := Some(nextTimerHandle);
      timers := timers[nextTimerHandle := ReadinessPolling(intervalMs)];
      nextTimerHandle := nextTimerHandle + 1;
    }

    method StopPolling()
      requires Valid()
      modifies this
      ensures Valid()
      ensures Model() == StatusModel.StopPolling(old(Model()))
    {
      if pollingInterval.Some? {
        timers := timers - {pollingInterval.value};
        pollingInterval := None;
      }
    }

    /** `checkSitefinityReadiness()` once the probe has ended. */
    method CheckSitefinityReadiness(probe: ProbeOutcome, now: nat) returns (ready: bool)
      requires Valid()
      modifies this
      ensures Valid()
      ensures (Model(), ready) == CheckReadiness(old(Model()), probe, now)
    {
      if probe.ProbeBody? && !ProbeSeesStatusPage(probe.text) {
        isInStatusMode := false;
        lastCheckedTimestamp := Some(now);
        NotifyCallbacks(false);
        StopPolling();
        RetryPendingRequests();
        return true;
      }
      return false;
    }

    method AddPendingRequest(id: RequestId, params: P, cb: Callback, now: nat)
      requires Valid()
      modifies this
      ensures Valid()
      ensures Model() == AddPending(old(Model()), id, params, cb, now)
    {
      StatusProperties.AddPendingValid(Model(), id, params, cb, now);
      var entry := PendingEntry(id, PendingRequest(params, cb, now));
      var k := IndexOf(Ids(pendingRequests), id);
      if k < |pendingRequests| {
        pendingRequests := pendingRequests[k := entry];
      } else {
        pendingRequests := pendingRequests + [entry];
      }
    }

    method RemovePendingRequest(id: RequestId)
      requires Valid()
      modifies this
      ensures Valid()
      ensures Model() == RemovePending(old(Model()), id)
    {
      StatusProperties.RemovePendingValid(Model(), id);
      var k := IndexOf(Ids(pendingRequests), id);
      if k < |pendingRequests| {
        pendingRequests := pendingRequests[..k] + pendingRequests[k + 1..];
      }
    }

    method RetryPendingRequests()
      requires Valid()
      modifies this
      ensures Valid()
      ensures Model() == RetryPending(old(Model()))
    {
      if |pendingRequests| == 0 {
        return;
      }
      var i := 0;
      while i < |pendingRequests|
        invariant 0 <= i <= |pendingRequests|
        invariant Model() == old(Model()).(retried := old(retried) + RetryRound(pendingRequests[..i]))
      {
        // request.callback(request.params) runs inside try/catch
        var request := pendingRequests[i].request;
        retried := retried + [Delivery(request.callback, request.params)];
        assert RetryRound(pendingRequests[..i + 1]) == RetryRound(pendingRequests[..i]) + [Delivery(request.callback, request.params)];
        i := i + 1;
      }
      assert pendingRequests[..i] == pendingRequests;
      pendingRequests := [];
    }
  }
}
