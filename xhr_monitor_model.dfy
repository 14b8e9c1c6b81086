/** XhrMonitorService as a value: whether it monitors, its subscribers, the listener it
    registered and the listeners the browser's `onRequestFinished` event holds, and the log
    of every subscriber invocation. Whether `chrome.devtools.network.onRequestFinished`
    exists is the parameter `api`. */
module MonitorModel {
  import opened Basics
  import opened XhrCapture

  /** A listener is known by the identity of the closure `start` creates. */
  type ListenerId = nat

  datatype Monitor<J> = Monitor(
    isMonitoring: bool,
    subscribers: seq<Callback>,
    listener: Option<ListenerId>,
    /** The identity the next closure gets; every earlier one is below it. */
    nextListener: ListenerId,
    /** The listeners registered with the browser event. */
    attached: set<ListenerId>,
    delivered: seq<Delivery<Captured<J>>>)

  /** What `onRequest` returns: the function that unsubscribes its callback. */
  datatype RequestSubscription = RequestUnsubscriber(callback: Callback)

  function Initial<J>(): Monitor<J> {
    Monitor(false, [], None, 0, {}, [])
  }

  ghost predicate Valid<J>(m: Monitor<J>) {
    && Distinct(m.subscribers)
    && (m.isMonitoring <==> m.listener.Some?)
    && (m.listener.Some? ==> m.listener.value in m.attached)
    && forall l :: l in m.attached ==> l < m.nextListener
  }

  /** `start()`: nothing when already monitoring or when the API is missing; otherwise a
      new listener is registered and monitoring begins. */
  function Start<J>(m: Monitor<J>, api: bool): Monitor<J> {
    if m.isMonitoring || !api then m
    else
      var l := m.nextListener;
      m.(listener := Some(l), nextListener := l + 1, attached := m.attached + {l}, isMonitoring := true)
  }

  /** `stop()`: nothing unless monitoring with a listener; the listener is unregistered only
      when the API is there, but the service forgets it either way. */
  function Stop<J>(m: Monitor<J>, api: bool): Monitor<J> {
    if !m.isMonitoring || m.listener.None? then m
    else
      m.(attached := if api then m.attached - {m.listener.value} else m.attached,
         listener := None, isMonitoring := false)
  }

  /** `toggle()`: stop or start, then report `isMonitoring`. */
  function Toggle<J>(m: Monitor<J>, api: bool): (Monitor<J>, bool) {
    var m1 := if m.isMonitoring then Stop(m, api) else Start(m, api);
    (m1, m1.isMonitoring)
  }

  function OnRequest<J>(m: Monitor<J>, cb: Callback): Monitor<J> {
    m.(subscribers := SetAdd(m.subscribers, cb))
  }

  function Unsubscribe<J>(m: Monitor<J>, cb: Callback): Monitor<J> {
    m.(subscribers := SetDelete(m.subscribers, cb))
  }

  /** One invocation per subscriber, in subscription order. */
  function NotifyRound<J>(subs: seq<Callback>, c: Captured<J>): seq<Delivery<Captured<J>>> {
    seq(|subs|, k requires 0 <= k < |subs| => Delivery(subs[k], c))
  }

  /** `notifyCallbacks(request)`: a throwing subscriber is caught and the round goes on. */
  function Notify<J>(m: Monitor<J>, c: Captured<J>): Monitor<J> {
    m.(delivered := m.delivered + NotifyRound(m.subscribers, c))
  }

  /** `handleRequest(harEntry)` together with the `getContent` callback it schedules. */
  function HandleRequest<J>(m: Monitor<J>, entry: HarEntry, content: Option<string>, now: string,
                            parseJson: string -> Option<J>, parseUrl: string -> Option<UrlParts>): Monitor<J>
  {
    match Capture(entry, content, now, parseJson, parseUrl)
    case None => m
    case Some(c) => Notify(m, c)
  }

  // ---------------------------------------------------------------------------
  // Properties

  lemma InitialValid<J>()
    ensures Valid(Initial<J>()) && !Initial<J>().isMonitoring
  {
  }

  lemma StartValid<J>(m: Monitor<J>, api: bool)
    requires Valid(m)
    ensures Valid(Start(m, api))
  {
  }

  lemma StopValid<J>(m: Monitor<J>, api: bool)
    requires Valid(m)
    ensures Valid(Stop(m, api))
  {
  }

  lemma OnRequestValid<J>(m: Monitor<J>, cb: Callback)
    requires Valid(m)
    ensures Valid(OnRequest(m, cb)) && Valid(Unsubscribe(m, cb))
  {
  }

  lemma HandleRequestValid<J>(m: Monitor<J>, entry: HarEntry, content: Option<string>, now: string,
                              parseJson: string -> Option<J>, parseUrl: string -> Option<UrlParts>)
    requires Valid(m)
    ensures Valid(HandleRequest(m, entry, content, now, parseJson, parseUrl))
  {
  }

  /** A second `start`, or one without the API, changes nothing. */
  lemma StartIsNoOpWhenMonitoringOrUnavailable<J>(m: Monitor<J>, api: bool)
    requires m.isMonitoring || !api
    ensures Start(m, api) == m
  {
  }

  /** A successful `start` registers one listener the browser did not hold before and
      leaves the subscribers and the log alone. */
  lemma StartAttachesFreshListener<J>(m: Monitor<J>)
    requires Valid(m) && !m.isMonitoring
    ensures var m1 := Start(m, true);
      && m1.isMonitoring && m1.listener.Some?
      && m1.listener.value !in m.attached
      && m1.attached == m.attached + {m1.listener.value}
      && m1.subscribers == m.subscribers && m1.delivered == m.delivered
  {
  }

  /** After `stop` the service is not monitoring and holds no listener; its listener is
      unregistered when the API is there and stays registered when it is not. */
  lemma StopDetaches<J>(m: Monitor<J>, api: bool)
    requires Valid(m)
    ensures var m1 := Stop(m, api);
      && !m1.isMonitoring && m1.listener.None?
      && m1.subscribers == m.subscribers && m1.delivered == m.delivered
      && (m.isMonitoring && api ==> m1.attached == m.attached - {m.listener.value})
      && (m.isMonitoring && api ==> m.listener.value !in m1.attached)
      && (!api ==> m1.attached == m.attached)
  {
  }

  /** `stop` while not monitoring changes nothing, whether or not the API is there. */
  lemma StopIsNoOpWhenIdle<J>(m: Monitor<J>, api: bool)
    requires Valid(m) && !m.isMonitoring
    ensures Stop(m, api) == m
  {
  }

  lemma StopIdempotent<J>(m: Monitor<J>, api: bool)
    requires Valid(m)
    ensures Stop(Stop(m, api), api) == Stop(m, api)
  {
  }

  /** `toggle` reports the new state: the opposite of the old one with the API, and
      `false` without it. */
  lemma ToggleReportsNewState<J>(m: Monitor<J>, api: bool)
    requires Valid(m)
    ensures Toggle(m, api).1 == Toggle(m, api).0.isMonitoring
    ensures api ==> Toggle(m, api).1 == !m.isMonitoring
    ensures !api ==> !Toggle(m, api).1
  {
  }

  /** Two toggles with the API return to the original state of monitoring. */
  lemma ToggleTwiceRestoresMonitoring<J>(m: Monitor<J>)
    requires Valid(m)
    ensures var m2 := Toggle(Toggle(m, true).0, true).0;
      m2.isMonitoring == m.isMonitoring && m2.subscribers == m.subscribers
  {
  }

  /** Subscribing twice is subscribing once. */
  lemma OnRequestIdempotent<J>(m: Monitor<J>, cb: Callback)
    ensures OnRequest(OnRequest(m, cb), cb) == OnRequest(m, cb)
  {
  }

  /** Unsubscribing a new subscriber restores the earlier subscribers. */
  lemma {:induction false} UnsubscribeUndoesOnRequest<J>(m: Monitor<J>, cb: Callback)
    requires cb !in m.subscribers
    ensures Unsubscribe(OnRequest(m, cb), cb) == m
  {
    var s := m.subscribers + [cb];
    var k := IndexOf(s, cb);
    assert s[|m.subscribers|] == cb;
    assert forall j :: 0 <= j < |m.subscribers| ==> s[j] == m.subscribers[j] != cb;
    assert RemoveAt(s, k) == m.subscribers;
  }

  /** The function `onRequest` returns removes its own callback and no other. */
  lemma UnsubscribeRemovesOnlyThatCallback<J>(m: Monitor<J>, cb: Callback)
    requires Valid(m)
    ensures forall c :: c in Unsubscribe(m, cb).subscribers <==> c in m.subscribers && c != cb
    ensures Unsubscribe(m, cb).(subscribers := m.subscribers) == m
  {
  }

  /** Every subscriber receives the record once, in subscription order, and nothing else is
      invoked. */
  lemma NotifyReachesEverySubscriber<J>(m: Monitor<J>, c: Captured<J>)
    ensures var log := Notify(m, c).delivered;
      && |log| == |m.delivered| + |m.subscribers|
      && log[..|m.delivered|] == m.delivered
      && forall k :: 0 <= k < |m.subscribers| ==> log[|m.delivered| + k] == Delivery(m.subscribers[k], c)
  {
  }

  /** Exchanges other than XHR and fetch notify nobody; the others notify every subscriber
      with the captured record and change nothing else. */
  lemma HandleRequestNotifiesOnlyCaptured<J>(m: Monitor<J>, entry: HarEntry, content: Option<string>, now: string,
                                            parseJson: string -> Option<J>, parseUrl: string -> Option<UrlParts>)
    ensures var m1 := HandleRequest(m, entry, content, now, parseJson, parseUrl);
      && m1.(delivered := m.delivered) == m
      && (!IsCapturedType(entry.resourceType) ==> m1 == m)
      && (IsCapturedType(entry.resourceType) ==>
            m1.delivered == m.delivered + NotifyRound(m.subscribers, Capture(entry, content, now, parseJson, parseUrl).value))
  {
  }
}
