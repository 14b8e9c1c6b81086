/** XhrMonitorService as an object whose methods update its fields in place, each proved
    to move its abstract value `Model()` as the matching function of MonitorModel says. */
module XhrMonitorService {
  import opened Basics
  import opened XhrCapture
  import opened MonitorModel

  class XhrMonitorService<J> {
    var isMonitoring: bool
    var callbacks: seq<Callback>
    var listener: Option<ListenerId>
    /** The identity the next `(request) => this.handleRequest(request)` closure gets. */
    var nextListener: ListenerId
    /** The listeners registered with `onRequestFinished`. */
    ghost var attached: set<ListenerId>
    /** Every invocation of a subscriber. */
    ghost var delivered: seq<Delivery<Captured<J>>>

    ghost function Model(): Monitor<J>
      reads this
    {
      Monitor(isMonitoring, callbacks, listener, nextListener, attached, delivered)
    }

    ghost predicate Valid()
      reads this
    {
      MonitorModel.Valid(Model())
    }

    constructor ()
      ensures Valid() && Model() == Initial<J>()
    {
      isMonitoring := false;
      callbacks := [];
      listener := None;
      nextListener := 0;
      attached := {};
      delivered := [];
    }

    /** `start()`; `api` says whether `chrome.devtools.network.onRequestFinished` exists. */
    method Start(api: bool)
      requires Valid()
      modifies this
      ensures Valid()
      ensures Model() == MonitorModel.Start(old(Model()), api)
    {
      if isMonitoring {
        return;
      }
      if !api {
        return;
      }
      listener := Some(nextListener);
      nextListener := nextListener + 1;
      attached := attached + {listener.value};
      isMonitoring := true;
    }

    method Stop(api: bool)
      requires Valid()
      modifies this
      ensures Valid()
      ensures Model() == MonitorModel.Stop(old(Model()), api)
    {
      if !isMonitoring || listener.None? {
        return;
      }
      if api {
        attached := attached - {listener.value};
      }
      listener := None;
      isMonitoring := false;
    }

    /** `handleRequest(harEntry)`, with `requestInfo` built at time `now`, followed by the
        `getContent` callback, which receives `content`. */
    method HandleRequest(entry: HarEntry, content: Option<string>, now: string,
                         parseJson: string -> Option<J>, parseUrl: string -> Option<UrlParts>)
      requires Valid()
      modifies this
      ensures Valid()
      ensures Model() == MonitorModel.HandleRequest(old(Model()), entry, content, now, parseJson, parseUrl)
    {
      if !IsCapturedType(entry.resourceType) {
        return;
      }
      var captured := Capture(entry, content, now, parseJson, parseUrl).value;
      NotifyCallbacks(captured);
    }

    method OnRequest(cb: Callback) returns (u: RequestSubscription)
      requires Valid()
      modifies this
      ensures Valid()
      ensures Model() == MonitorModel.OnRequest(old(Model()), cb) && u == RequestUnsubscriber(cb)
    {
      if cb !in callbacks {
        callbacks := callbacks + [cb];
      }
      u := RequestUnsubscriber(cb);
    }

    /** Runs the function `OnRequest` returned. */
    method Unsubscribe(u: RequestSubscription)
      requires Valid()
      modifies this
      ensures Valid()
      ensures Model() == MonitorModel.Unsubscribe(old(Model()), u.callback)
    {
      var k := IndexOf(callbacks, u.callback);
      if k < |callbacks| {
        callbacks := callbacks[..k] + callbacks[k + 1..];
      }
    }

    method NotifyCallbacks(c: Captured<J>)
      requires Valid()
      modifies this
      ensures Valid()
      ensures Model() == Notify(old(Model()), c)
    {
      var i := 0;
      while i < |callbacks|
        invariant 0 <= i <= |callbacks|
        invariant Model() == old(Model()).(delivered := old(delivered) + NotifyRound(callbacks[..i], c))
      {
        // callback(request) runs inside try/catch
        delivered := delivered + [Delivery(callbacks[i], c)];
        assert NotifyRound(callbacks[..i + 1], c) == NotifyRound(callbacks[..i], c) + [Delivery(callbacks[i], c)];
        i := i + 1;
      }
      assert callbacks[..i] == callbacks;
    }

    method GetStatus() returns (monitoring: bool)
      requires Valid()
      ensures monitoring <==> listener.Some?
      ensures monitoring == isMonitoring
    {
      monitoring := isMonitoring;
    }

    method Toggle(api: bool) returns (monitoring: bool)
      requires Valid()
      modifies this
      ensures Valid()
      ensures (Model(), monitoring) == MonitorModel.Toggle(old(Model()), api)
    {
      if isMonitoring {
        Stop(api);
      } else {
        Start(api);
      }
      monitoring := isMonitoring;
    }
  }
}
