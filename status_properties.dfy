/** What the start-up detector promises, proved about the operations of StatusModel. */
module StatusProperties {
  import opened Basics
  import opened StatusModel

  // ---------------------------------------------------------------------------
  // Classifiers

  /** The classifier fires iff the text contains, case-sensitively, one of the five
      markers; the two `ng-app=` spellings add nothing to plain `appStatusApp`. */
  lemma StatusPageMarkersDecide(text: string)
    ensures IsStatusPageText(text) <==> exists m :: m in StatusPageMarkers && Contains(text, m)
  {
    if Contains(text, "ng-app=\"appStatusApp\"") {
      assert "ng-app=\"appStatusApp\"" == "ng-app=\"" + "appStatusApp" + "\"";
      ContainsInfix(text, "ng-app=\"", "appStatusApp", "\"");
    }
    if Contains(text, "ng-app='appStatusApp'") {
      assert "ng-app='appStatusApp'" == "ng-app='" + "appStatusApp" + "'";
      ContainsInfix(text, "ng-app='", "appStatusApp", "'");
    }
    if IsStatusPageText(text) {
      if Contains(text, "appStatusApp") {
        assert StatusPageMarkers[0] in StatusPageMarkers;
      } else if Contains(text, "Sitefinity is starting") {
        assert StatusPageMarkers[1] in StatusPageMarkers;
      } else if Contains(text, "Please wait while the system is loading") {
        assert StatusPageMarkers[2] in StatusPageMarkers;
      } else if Contains(text, "moduleStatusApp") {
        assert StatusPageMarkers[3] in StatusPageMarkers;
      } else {
        assert StatusPageMarkers[4] in StatusPageMarkers;
      }
    }
  }

  /** The start-up phrase, exactly as written, is a marker. */
  lemma StartingPhraseIsStatusPage()
    ensures IsStatusPageText("Sitefinity is starting")
  {
    ContainsSelf("Sitefinity is starting");
  }

  /** A text lacking `S` and `P`, and `p` or `u`, holds none of the classifier's markers. */
  lemma NoMarkerCharsNoStatusPage(text: string)
    requires 'S' !in text && 'P' !in text && ('p' !in text || 'u' !in text)
    ensures !IsStatusPageText(text)
  {
    NotContainsMissingChar(text, "appStatusApp", 'S');
    NotContainsMissingChar(text, "ng-app=\"appStatusApp\"", 'S');
    NotContainsMissingChar(text, "ng-app='appStatusApp'", 'S');
    NotContainsMissingChar(text, "Sitefinity is starting", 'S');
    NotContainsMissingChar(text, "Please wait while the system is loading", 'P');
    NotContainsMissingChar(text, "moduleStatusApp", 'S');
    if 'p' !in text {
      NotContainsMissingChar(text, "startup-status", 'p');
    } else {
      NotContainsMissingChar(text, "startup-status", 'u');
    }
  }

  /** A text lacking `<`, and `p` or `S`, holds none of the probe's markers. */
  lemma NoMarkerCharsProbeReady(text: string)
    requires '<' !in text && ('p' !in text || 'S' !in text)
    ensures !ProbeSeesStatusPage(text)
  {
    var c := if 'p' !in text then 'p' else 'S';
    NotContainsMissingChar(text, "appStatusApp", c);
    NotContainsMissingChar(text, "ng-app=\"appStatusApp\"", c);
    NotContainsMissingChar(text, "ng-app='appStatusApp'", c);
    NotContainsMissingChar(text, "<html", '<');
  }

  /** Matching is case-sensitive: the start-up phrase in lower case is not a marker. */
  lemma ClassifierIsCaseSensitive()
    ensures !IsStatusPageText("sitefinity is starting")
  {
    NoMarkerCharsNoStatusPage("sitefinity is starting");
  }

  /** The probe looks for other markers than the response classifier: a page that only
      says it is starting is a status page to the classifier but ready to the probe. */
  lemma ProbeMissesStartingPhrase()
    ensures !ProbeSeesStatusPage("Sitefinity is starting")
  {
    NoMarkerCharsProbeReady("Sitefinity is starting");
  }

  /** Conversely, a bare `<html ng-app>` page is still starting to the probe only. */
  lemma ProbeSeesBareNgAppPage()
    ensures ProbeSeesStatusPage("<html ng-app>")
  {
    var b := "<html ng-app>";
    assert OccursAt(b, "<html", 0);
    assert OccursAt(b, "ng-app", 6);
  }

  lemma ClassifierMissesBareNgAppPage()
    ensures !IsStatusPageText("<html ng-app>")
  {
    NoMarkerCharsNoStatusPage("<html ng-app>");
  }

  /** A failed probe never declares readiness; an empty body does. */
  lemma ProbeReadiness(text: string)
    ensures !ProbeReady(ProbeFailed)
    ensures ProbeReady(ProbeBody(""))
    ensures ProbeReady(ProbeBody(text)) <==> !ProbeSeesStatusPage(text)
    ensures Contains(text, "appStatusApp") ==> !ProbeReady(ProbeBody(text))
  {
  }

  // ---------------------------------------------------------------------------
  // The invariant

  lemma InitialValid<P>()
    ensures Valid(Initial<P>())
  {
  }

  lemma StartPollingValid<P>(st: Service<P>, intervalMs: nat)
    requires Valid(st)
    ensures Valid(StartPolling(st, intervalMs))
  {
    var n := st.nextTimer;
    assert n !in st.timers;
    var timers := if st.pollingInterval.Some? then st.timers - {st.pollingInterval.value} else st.timers;
    assert st.checkInterval.Some? ==> st.checkInterval.value in timers;
  }

  lemma StopPollingValid<P>(st: Service<P>)
    requires Valid(st)
    ensures Valid(StopPolling(st))
  {
  }

  lemma StartPeriodicCheckValid<P>(st: Service<P>, intervalMs: nat)
    requires Valid(st)
    ensures Valid(StartPeriodicCheck(st, intervalMs))
  {
    var n := st.nextTimer;
    assert n !in st.timers;
    var timers := if st.checkInterval.Some? then st.timers - {st.checkInterval.value} else st.timers;
    assert st.pollingInterval.Some? ==> st.pollingInterval.value in timers;
  }

  lemma StopPeriodicCheckValid<P>(st: Service<P>)
    requires Valid(st)
    ensures Valid(StopPeriodicCheck(st))
  {
  }

  lemma ObserveValid<P>(st: Service<P>, body: ResponseBody, now: nat)
    requires Valid(st)
    ensures Valid(Observe(st, body, now).0)
  {
    if body.Text? && body.text != "" && IsStatusPageText(body.text) != st.inStatusMode {
      var changed := Notify(SetStatus(st, IsStatusPageText(body.text), now), IsStatusPageText(body.text));
      StartPollingValid(changed, DefaultPollingMs);
      StopPollingValid(changed);
    }
  }

  lemma CheckReadinessValid<P>(st: Service<P>, probe: ProbeOutcome, now: nat)
    requires Valid(st)
    ensures Valid(CheckReadiness(st, probe, now).0)
  {
    StopPollingValid(Notify(SetStatus(st, false, now), false));
  }

  /** `Map.set` keeps the request ids distinct, whether it replaces or appends. */
  lemma AddPendingValid<P>(st: Service<P>, id: RequestId, params: P, cb: Callback, now: nat)
    requires Valid(st)
    ensures Valid(AddPending(st, id, params, cb, now))
  {
    var k := IndexOf(Ids(st.pending), id);
    var next := AddPending(st, id, params, cb, now);
    if k < |st.pending| {
      assert Ids(next.pending) == Ids(st.pending);
    } else {
      assert Ids(next.pending) == Ids(st.pending) + [id];
    }
  }

  lemma RemovePendingValid<P>(st: Service<P>, id: RequestId)
    requires Valid(st)
    ensures Valid(RemovePending(st, id))
  {
    var k := IndexOf(Ids(st.pending), id);
    if k < |st.pending| {
      assert Ids(RemovePending(st, id).pending) == RemoveAt(Ids(st.pending), k);
    }
  }

  lemma SubscribeValid<P>(st: Service<P>, cb: Callback)
    requires Valid(st)
    ensures Valid(Subscribe(st, cb).0) && Valid(Unsubscribe(st, cb))
  {
  }

  lemma ClearStatusValid<P>(st: Service<P>, ev: PageEval, now: nat)
    requires Valid(st)
    ensures Valid(ClearStatus(st, now)) && Valid(CheckCurrentPage(st, ev, now).0)
  {
  }

  // ---------------------------------------------------------------------------
  // checkResponseForStatusPage

  /** Empty or non-string input answers false and touches nothing. */
  lemma ObserveIgnoresNonText<P>(st: Service<P>, body: ResponseBody, now: nat)
    requires body.NotText? || body.text == ""
    ensures Observe(st, body, now) == (st, false)
  {
  }

  /** An observation that agrees with the current status changes nothing at all:
      no notification, no timestamp, no polling change, no drain. */
  lemma ObserveSameStatusIsNoOp<P>(st: Service<P>, text: string, now: nat)
    requires text != "" && IsStatusPageText(text) == st.inStatusMode
    ensures Observe(st, Text(text), now) == (st, st.inStatusMode)
  {
  }

  /** Repeating an observation changes nothing further and answers the same. */
  lemma ObserveIdempotent<P>(st: Service<P>, body: ResponseBody, now: nat, later: nat)
    ensures var (s1, r1) := Observe(st, body, now);
            Observe(s1, body, later) == (s1, r1)
  {
  }

  /** Entering status mode: status and timestamp set, one round of `true`, exactly one
      live polling interval, nothing drained. */
  lemma ObserveEntersStatusMode<P>(st: Service<P>, text: string, now: nat)
    requires Valid(st) && !st.inStatusMode
    requires text != "" && IsStatusPageText(text)
    ensures var (s1, r) := Observe(st, Text(text), now);
      && r && s1.inStatusMode && s1.lastChecked == Some(now)
      && s1.notified == st.notified + NotifyRound(st.subscribers, true)
      && s1.pollingInterval.Some?
      && PollingTimers(s1) == {s1.pollingInterval.value}
      && s1.timers[s1.pollingInterval.value] == ReadinessPolling(DefaultPollingMs)
      && s1.pending == st.pending && s1.retried == st.retried
      && s1.subscribers == st.subscribers && s1.checkInterval == st.checkInterval
  {
    var changed := Notify(SetStatus(st, true, now), true);
    StartPollingLeavesOneInterval(changed, DefaultPollingMs);
  }

  /** Leaving status mode: status and timestamp set, one round of `false`, polling
      stopped, then every pending request retried once in map order and the map emptied. */
  lemma ObserveLeavesStatusMode<P>(st: Service<P>, text: string, now: nat)
    requires Valid(st) && st.inStatusMode
    requires text != "" && !IsStatusPageText(text)
    ensures var (s1, r) := Observe(st, Text(text), now);
      && !r && !s1.inStatusMode && s1.lastChecked == Some(now)
      && s1.notified == st.notified + NotifyRound(st.subscribers, false)
      && s1.pollingInterval == None && PollingTimers(s1) == {}
      && s1.pending == [] && s1.retried == st.retried + RetryRound(st.pending)
      && s1.subscribers == st.subscribers && s1.checkInterval == st.checkInterval
  {
    StopPollingLeavesNone(Notify(SetStatus(st, false, now), false));
  }

  // ---------------------------------------------------------------------------
  // Polling

  /** `startPolling` replaces: afterwards exactly one readiness interval is live, the
      previous one is cleared, and the periodic check is untouched. */
  lemma StartPollingLeavesOneInterval<P>(st: Service<P>, intervalMs: nat)
    requires Valid(st)
    ensures var s1 := StartPolling(st, intervalMs);
      && s1.pollingInterval.Some?
      && PollingTimers(s1) == {s1.pollingInterval.value}
      && s1.timers[s1.pollingInterval.value] == ReadinessPolling(intervalMs)
      && (st.pollingInterval.Some? ==> st.pollingInterval.value !in s1.timers)
      && s1.checkInterval == st.checkInterval
      && (st.checkInterval.Some? ==> s1.timers[st.checkInterval.value] == st.timers[st.checkInterval.value])
  {
    var s1 := StartPolling(st, intervalMs);
    StartPollingValid(st, intervalMs);
    forall h | h in PollingTimers(s1) ensures h == s1.pollingInterval.value {
      assert h in HandleSet(s1.pollingInterval) + HandleSet(s1.checkInterval);
    }
  }

  /** Starting twice without a stop still leaves a single live readiness interval. */
  lemma StartPollingTwice<P>(st: Service<P>, a: nat, b: nat)
    requires Valid(st)
    ensures var s2 := StartPolling(StartPolling(st, a), b);
      |PollingTimers(s2)| == 1 && s2.timers[s2.pollingInterval.value] == ReadinessPolling(b)
  {
    StartPollingValid(st, a);
    StartPollingLeavesOneInterval(StartPolling(st, a), b);
  }

  /** `stopPolling` leaves no readiness interval and no handle. */
  lemma StopPollingLeavesNone<P>(st: Service<P>)
    requires Valid(st)
    ensures StopPolling(st).pollingInterval == None && PollingTimers(StopPolling(st)) == {}
    ensures StopPolling(st).checkInterval == st.checkInterval
  {
    var s1 := StopPolling(st);
    forall h | h in s1.timers ensures !s1.timers[h].ReadinessPolling? {
      assert h in HandleSet(s1.checkInterval);
    }
  }

  /** `stopPolling` is idempotent. */
  lemma StopPollingIdempotent<P>(st: Service<P>)
    ensures StopPolling(StopPolling(st)) == StopPolling(st)
  {
  }

  /** `startPeriodicCheck` also replaces, and leaves the readiness polling alone. */
  lemma StartPeriodicCheckReplaces<P>(st: Service<P>, intervalMs: nat)
    requires Valid(st)
    ensures var s1 := StartPeriodicCheck(st, intervalMs);
      && s1.checkInterval.Some?
      && s1.timers[s1.checkInterval.value] == PageStatusCheck(intervalMs)
      && (st.checkInterval.Some? ==> st.checkInterval.value !in s1.timers)
      && s1.pollingInterval == st.pollingInterval && PollingTimers(s1) == PollingTimers(st)
  {
    StartPeriodicCheckValid(st, intervalMs);
  }

  /** `stopPeriodicCheck` is idempotent and leaves no handle. */
  lemma StopPeriodicCheckIdempotent<P>(st: Service<P>)
    ensures StopPeriodicCheck(StopPeriodicCheck(st)) == StopPeriodicCheck(st)
    ensures StopPeriodicCheck(st).checkInterval == None
    ensures StopPeriodicCheck(st).pollingInterval == st.pollingInterval
  {
  }

  // ---------------------------------------------------------------------------
  // checkSitefinityReadiness

  /** A ready probe clears the status and notifies `false` even when the service was
      already ready, stops polling and drains the pending requests. */
  lemma ReadyProbeClearsAndDrains<P>(st: Service<P>, probe: ProbeOutcome, now: nat)
    requires Valid(st) && ProbeReady(probe)
    ensures var (s1, r) := CheckReadiness(st, probe, now);
      && r && !s1.inStatusMode && s1.lastChecked == Some(now)
      && s1.notified == st.notified + NotifyRound(st.subscribers, false)
      && s1.pollingInterval == None && PollingTimers(s1) == {}
      && s1.pending == [] && s1.retried == st.retried + RetryRound(st.pending)
      && s1.subscribers == st.subscribers && s1.checkInterval == st.checkInterval
  {
    StopPollingLeavesNone(Notify(SetStatus(st, false, now), false));
  }

  /** A failed or not-ready probe changes nothing and answers false. */
  lemma NotReadyProbeChangesNothing<P>(st: Service<P>, probe: ProbeOutcome, now: nat)
    requires !ProbeReady(probe)
    ensures CheckReadiness(st, probe, now) == (st, false)
  {
  }

  // ---------------------------------------------------------------------------
  // checkCurrentPageStatus and clearStatus

  /** The live-page check changes at most the status, the timestamp and the log: it never
      starts or stops polling and never drains. It changes the status exactly when the
      evaluation reports a boolean different from the current one. */
  lemma CurrentPageLeavesPollingAlone<P>(st: Service<P>, ev: PageEval, now: nat)
    ensures var (s1, _) := CheckCurrentPage(st, ev, now);
      && s1.pollingInterval == st.pollingInterval && s1.checkInterval == st.checkInterval
      && s1.timers == st.timers && s1.pending == st.pending && s1.retried == st.retried
      && s1.subscribers == st.subscribers
      && (s1 != st <==> ReportedStatus(ev).Some? && ReportedStatus(ev).value != st.inStatusMode)
      && (s1 != st ==> s1.inStatusMode == ReportedStatus(ev).value
                       && s1.notified == st.notified + NotifyRound(st.subscribers, s1.inStatusMode))
  {
    var (s1, _) := CheckCurrentPage(st, ev, now);
    if ReportedStatus(ev).Some? && ReportedStatus(ev).value != st.inStatusMode {
      assert s1.inStatusMode != st.inStatusMode;
    }
  }

  /** An error caught inside the injected script still carries `isStatusPage: false`, so
      it ends status mode, while the readiness polling keeps running; a rejected
      evaluation changes nothing. */
  lemma ScanFailureEndsStatusModeButNotPolling<P>(st: Service<P>, msg: string, now: nat)
    requires Valid(st) && st.inStatusMode && st.pollingInterval.Some?
    ensures var (s1, r) := CheckCurrentPage(st, PageScanFailed(msg), now);
      && r == PageCheckFailed(msg)
      && !s1.inStatusMode && PollingTimers(s1) == PollingTimers(st) != {}
    ensures CheckCurrentPage(st, EvalRejected(msg), now).0 == st
  {
    assert st.pollingInterval.value in PollingTimers(st);
  }

  /** `clearStatus` notifies only on a real change and never touches polling or the map. */
  lemma ClearStatusOnlyOnChange<P>(st: Service<P>, now: nat)
    ensures !st.inStatusMode ==> ClearStatus(st, now) == st
    ensures st.inStatusMode ==>
      var s1 := ClearStatus(st, now);
      && !s1.inStatusMode && s1.lastChecked == Some(now)
      && s1.notified == st.notified + NotifyRound(st.subscribers, false)
      && s1.timers == st.timers && s1.pollingInterval == st.pollingInterval && s1.pending == st.pending
  {
  }

  // ---------------------------------------------------------------------------
  // Subscriptions

  /** `onStatusChange` registers the callback and delivers the current status to it
      once; a throwing callback stays registered and its caller gets the exception. */
  lemma SubscribeDeliversCurrentStatus<P>(st: Service<P>, cb: Callback)
    ensures var (s1, sub) := Subscribe(st, cb);
      && cb in s1.subscribers
      && s1.notified == st.notified + [Delivery(cb, st.inStatusMode)]
      && (sub.Raised? <==> cb.throws)
      && sub.callback == cb
      && s1.inStatusMode == st.inStatusMode && s1.pending == st.pending && s1.timers == st.timers
  {
  }

  /** The returned function removes only its own callback. */
  lemma UnsubscribeRemovesOnlyThatCallback<P>(st: Service<P>, cb: Callback)
    requires Valid(st)
    ensures forall c :: c in Unsubscribe(st, cb).subscribers <==> c in st.subscribers && c != cb
    ensures Unsubscribe(st, cb).notified == st.notified
  {
  }

  /** A notification round reaches every subscriber once, in insertion order, whether or
      not any of them throws. */
  lemma NotifyReachesEverySubscriber<P>(st: Service<P>, v: bool)
    ensures var round := Notify(st, v).notified[|st.notified|..];
      && |round| == |st.subscribers|
      && forall k :: 0 <= k < |round| ==> round[k] == Delivery(st.subscribers[k], v)
  {
  }

  // ---------------------------------------------------------------------------
  // Pending requests

  /** `addPendingRequest` with a known id replaces that entry where it stands. */
  lemma AddPendingReplacesInPlace<P>(st: Service<P>, id: RequestId, params: P, cb: Callback, now: nat)
    requires Valid(st) && id in Ids(st.pending)
    ensures var s1 := AddPending(st, id, params, cb, now);
      var k := IndexOf(Ids(st.pending), id);
      && Ids(s1.pending) == Ids(st.pending)
      && s1.pending[k].request == PendingRequest(params, cb, now)
      && forall j :: 0 <= j < |st.pending| && j != k ==> s1.pending[j] == st.pending[j]
  {
  }

  /** `addPendingRequest` with a new id appends it. */
  lemma AddPendingAppends<P>(st: Service<P>, id: RequestId, params: P, cb: Callback, now: nat)
    requires id !in Ids(st.pending)
    ensures AddPending(st, id, params, cb, now).pending
            == st.pending + [PendingEntry(id, PendingRequest(params, cb, now))]
  {
  }

  /** Adding under one id twice and draining calls the newer callback with the newer params
      and never the older one. */
  lemma OverwriteThenDrainCallsOnlyNewest<P>(st: Service<P>, id: RequestId, p1: P, cb1: Callback, p2: P, cb2: Callback, t1: nat, t2: nat)
    requires Valid(st)
    requires cb1 != cb2 && forall e :: e in st.pending ==> e.request.callback != cb1
    ensures var s2 := RetryPending(AddPending(AddPending(st, id, p1, cb1, t1), id, p2, cb2, t2));
      var round := s2.retried[|st.retried|..];
      && s2.pending == []
      && Delivery(cb2, p2) in round
      && forall d :: d in round ==> d.callback != cb1
  {
    var e1 := PendingEntry(id, PendingRequest(p1, cb1, t1));
    var e2 := PendingEntry(id, PendingRequest(p2, cb2, t2));
    var s1 := AddPending(st, id, p1, cb1, t1);
    var k0 := IndexOf(Ids(st.pending), id);
    // After the first add the id sits at k0 (replaced or appended); every other slot
    // still holds the entry it held before.
    assert |s1.pending| == if k0 < |st.pending| then |st.pending| else |st.pending| + 1;
    assert Ids(s1.pending)[k0] == id;
    assert IndexOf(Ids(s1.pending), id) == k0 by {
      AddPendingValid(st, id, p1, cb1, t1);
    }
    var s2 := AddPending(s1, id, p2, cb2, t2);
    assert s2.pending == s1.pending[k0 := e2];
    var round := RetryPending(s2).retried[|st.retried|..];
    assert round == RetryRound(s2.pending);
    assert round[k0] == Delivery(cb2, p2);
    forall j | 0 <= j < |round| ensures round[j].callback != cb1 {
      if j != k0 {
        assert j < |st.pending|;
        assert s2.pending[j] == st.pending[j];
        assert st.pending[j] in st.pending;
      }
    }
  }

  /** `removePendingRequest` of an absent id is a no-op; of a present id it deletes only
      that entry, and the other entries keep their contents and their order. */
  lemma RemovePendingDeletesOnlyThatId<P>(st: Service<P>, id: RequestId)
    requires Valid(st)
    ensures id !in Ids(st.pending) ==> RemovePending(st, id) == st
    ensures forall x :: x in Ids(RemovePending(st, id).pending) <==> x in Ids(st.pending) && x != id
    ensures forall e :: e in RemovePending(st, id).pending <==> e in st.pending && e.id != id
    ensures id in Ids(st.pending) ==>
      exists k :: 0 <= k < |st.pending| && st.pending[k].id == id
        && RemovePending(st, id).pending == st.pending[..k] + st.pending[k + 1..]
    ensures RemovePending(st, id).(pending := st.pending) == st
  {
    var k := IndexOf(Ids(st.pending), id);
    if k < |st.pending| {
      var r := RemovePending(st, id).pending;
      assert Ids(r) == RemoveAt(Ids(st.pending), k);
      assert SetDelete(Ids(st.pending), id) == Ids(r);
      assert st.pending[k].id == id;
      forall e | e in r ensures e in st.pending && e.id != id {
        var j :| 0 <= j < |r| && r[j] == e;
        if j < k {
          assert e == st.pending[j] && Ids(st.pending)[j] != Ids(st.pending)[k];
        } else {
          assert e == st.pending[j + 1] && Ids(st.pending)[j + 1] != Ids(st.pending)[k];
        }
      }
      forall e | e in st.pending && e.id != id ensures e in r {
        var j :| 0 <= j < |st.pending| && st.pending[j] == e;
        if j < k { assert r[j] == e; } else { assert j != k; assert r[j - 1] == e; }
      }
    } else {
      assert forall e :: e in st.pending ==> e.id in Ids(st.pending) by {
        forall e | e in st.pending ensures e.id in Ids(st.pending) {
          var j :| 0 <= j < |st.pending| && st.pending[j] == e;
          assert Ids(st.pending)[j] == e.id;
        }
      }
    }
  }

  /** Draining calls every pending callback once, with its own params, in map order,
      and leaves the map empty. */
  lemma RetryPendingDrainsInOrder<P>(st: Service<P>)
    ensures var s1 := RetryPending(st);
      var round := s1.retried[|st.retried|..];
      && s1.pending == []
      && |round| == |st.pending|
      && (forall k :: 0 <= k < |round| ==>
            round[k].callback == st.pending[k].request.callback
            && round[k].value == st.pending[k].request.params)
      && s1.notified == st.notified && s1.inStatusMode == st.inStatusMode
  {
  }

  // ---------------------------------------------------------------------------
  // A full start-up cycle

  /** From ready: a status page arrives, polling starts and subscribers hear `true`;
      then a probe body without markers makes the site ready, polling stops, subscribers
      hear `false` and every pending request is replayed once, in order. */
  lemma StartupCycle<P>(st: Service<P>, now1: nat, now2: nat)
    requires Valid(st) && !st.inStatusMode
    ensures var (s1, r1) := Observe(st, Text("<div ng-app=\"appStatusApp\">"), now1);
      var (s2, r2) := CheckReadiness(s1, ProbeBody("{\"ok\":true}"), now2);
      && r1 && s1.inStatusMode && |PollingTimers(s1)| == 1
      && s1.notified == st.notified + NotifyRound(st.subscribers, true)
      && r2 && !s2.inStatusMode && PollingTimers(s2) == {}
      && s2.notified == s1.notified + NotifyRound(st.subscribers, false)
      && s2.pending == [] && s2.retried == st.retried + RetryRound(st.pending)
  {
    var page := "<div ng-app=\"appStatusApp\">";
    assert OccursAt(page, "appStatusApp", 13);
    ObserveEntersStatusMode(st, page, now1);
    ObserveValid(st, Text(page), now1);
    var body := "{\"ok\":true}";
    NoMarkerCharsProbeReady(body);
    ReadyProbeClearsAndDrains(Observe(st, Text(page), now1).0, ProbeBody(body), now2);
  }
}
