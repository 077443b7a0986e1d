/** The page-side registration glue (src/pwa/registerServiceWorker.ts): when
    it registers the worker, which workers it watches, and when it dispatches
    the `swUpdateReady` and `swControllerChange` window events. Browser
    callbacks are the input events; the dispatched window events are the output. */
module SwRegistration {
  import opened Wrappers
  import opened JsValues

  type RegistrationId = nat
  type WorkerId = nat

  /** `ServiceWorker.state` as the browser reports it. */
  datatype WorkerState = Parsed | Installing | Installed | Activating | Activated | Redundant

  /** The custom window events the glue dispatches. */
  datatype PageEvent = SwUpdateReady(registration: RegistrationId) | SwControllerChange

  /** What the browser tells the glue. `hasController` is whether
      `navigator.serviceWorker.controller` is set when the state change fires. */
  datatype BrowserEvent =
    | Load
    | RegisterResolved(registration: RegistrationId)
    | RegisterRejected(error: JsValue)
    | UpdateFound(installing: Option<WorkerId>)
    | StateChange(worker: WorkerId, state: WorkerState, hasController: bool)
    | ControllerChange

  /** Which listeners the glue has attached so far. */
  datatype Glue =
    | Unsupported
    | AwaitingLoad
    | Registering
    | Registered(registration: RegistrationId, watched: set<WorkerId>)
    | RegistrationFailed(error: JsValue)

  /** `registerServiceWorker()`: without `serviceWorker` in `navigator` nothing is attached at all. */
  function Init(serviceWorkerSupported: bool): (r: Glue)
    ensures r.Unsupported? <==> !serviceWorkerSupported
    ensures serviceWorkerSupported ==> r.AwaitingLoad?
  {
    if serviceWorkerSupported then AwaitingLoad else Unsupported
  }

  datatype Step = Step(glue: Glue, dispatched: seq<PageEvent>)

  /** An update is announced for a watched worker that reaches `installed`
      while a controller exists. */
  predicate AnnouncesUpdate(g: Glue, e: BrowserEvent) {
    g.Registered? && e.StateChange? && e.worker in g.watched && e.state == Installed && e.hasController
  }

  /** One browser callback. A rejected registration is logged and absorbed:
      the glue ends up with no listeners and nothing is rethrown. */
  function OnEvent(g: Glue, e: BrowserEvent): (r: Step)
    ensures |r.dispatched| <= 1
    ensures !g.Registered? ==> r.dispatched == []
    ensures g.Unsupported? ==> r == Step(g, [])
    ensures g.Registered? ==> r.glue.Registered? && r.glue.registration == g.registration
    ensures g.Registered? ==>
      r.glue.watched == if e.UpdateFound? && e.installing.Some? then g.watched + {e.installing.value} else g.watched
    ensures (exists x :: SwUpdateReady(x) in r.dispatched) <==> AnnouncesUpdate(g, e)
    ensures forall x :: SwUpdateReady(x) in r.dispatched ==> x == g.registration
    ensures e.ControllerChange? ==> r.dispatched == if g.Registered? then [SwControllerChange] else []
    ensures !e.ControllerChange? ==> SwControllerChange !in r.dispatched
    ensures e.StateChange? && !e.hasController ==> r.dispatched == []
    ensures e.Load? ==> r.glue == if g.AwaitingLoad? then Registering else g
    ensures e.RegisterResolved? ==> r.glue == if g.Registering? then Registered(e.registration, {}) else g
    ensures e.RegisterRejected? ==> r.glue == if g.Registering? then RegistrationFailed(e.error) else g
    ensures e.StateChange? || e.ControllerChange? ==> r.glue == g
    ensures e.UpdateFound? && !g.Registered? ==> r == Step(g, [])
  {
    match e
    case Load =>
      if g.AwaitingLoad? then Step(Registering, []) else Step(g, [])
    case RegisterResolved(reg) =>
      if g.Registering? then Step(Registered(reg, {}), []) else Step(g, [])
    case RegisterRejected(err) =>
      if g.Registering? then Step(RegistrationFailed(err), []) else Step(g, [])
    case UpdateFound(installing) =>
      if g.Registered? && installing.Some? then Step(g.(watched := g.watched + {installing.value}), [])
      else Step(g, [])
    case StateChange(w, state, controller) =>
      if AnnouncesUpdate(g, e) then Step(g, [SwUpdateReady(g.registration)]) else Step(g, [])
    case ControllerChange =>
      if g.Registered? then Step(g, [SwControllerChange]) else Step(g, [])
  }

  /** A run of browser callbacks, collecting every dispatched event in order. */
  function Run(g: Glue, events: seq<BrowserEvent>): Step
    decreases |events|
  {
    if events == [] then Step(g, [])
    else
      var first := OnEvent(g, events[0]);
      var rest := Run(first.glue, events[1..]);
      Step(rest.glue, first.dispatched + rest.dispatched)
  }

  function CountControllerChanges(events: seq<BrowserEvent>): nat {
    if events == [] then 0
    else (if events[0].ControllerChange? then 1 else 0) + CountControllerChanges(events[1..])
  }

  function CountDispatched(dispatched: seq<PageEvent>, pe: PageEvent): nat {
    if dispatched == [] then 0
    else (if dispatched[0] == pe then 1 else 0) + CountDispatched(dispatched[1..], pe)
  }

  lemma {:induction false} CountDispatchedAppend(a: seq<PageEvent>, b: seq<PageEvent>, pe: PageEvent)
    ensures CountDispatched(a + b, pe) == CountDispatched(a, pe) + CountDispatched(b, pe)
    decreases |a|
  {
    if a == [] {
      assert a + b == b;
    } else {
      assert (a + b)[0] == a[0];
      assert (a + b)[1..] == a[1..] + b;
      CountDispatchedAppend(a[1..], b, pe);
    }
  }

  /** Without service-worker support no window event is ever dispatched. */
  lemma {:induction false} UnsupportedIsSilent(events: seq<BrowserEvent>)
    ensures Run(Init(false), events) == Step(Unsupported, [])
    decreases |events|
  {
    if events != [] {
      UnsupportedIsSilent(events[1..]);
    }
  }

  /** After a failed registration no window event is ever dispatched. */
  lemma {:induction false} FailedRegistrationIsSilent(error: JsValue, events: seq<BrowserEvent>)
    ensures Run(RegistrationFailed(error), events) == Step(RegistrationFailed(error), [])
    decreases |events|
  {
    if events != [] {
      FailedRegistrationIsSilent(error, events[1..]);
    }
  }

  /** Once registered, each `controllerchange` dispatches exactly one
      `swControllerChange`, and nothing else does. */
  lemma {:induction false} OneControllerChangeEach(g: Glue, events: seq<BrowserEvent>)
    requires g.Registered?
    ensures CountDispatched(Run(g, events).dispatched, SwControllerChange) == CountControllerChanges(events)
    decreases |events|
  {
    if events != [] {
      var first := OnEvent(g, events[0]);
      OneControllerChangeEach(first.glue, events[1..]);
      CountDispatchedAppend(first.dispatched, Run(first.glue, events[1..]).dispatched, SwControllerChange);
    }
  }

  /** Every `swUpdateReady` of a registered glue carries that registration. */
  lemma {:induction false} UpdateReadyCarriesRegistration(g: Glue, events: seq<BrowserEvent>)
    requires g.Registered?
    ensures Run(g, events).glue.Registered? && Run(g, events).glue.registration == g.registration
    ensures forall x :: SwUpdateReady(x) in Run(g, events).dispatched ==> x == g.registration
    decreases |events|
  {
    if events != [] {
      var first := OnEvent(g, events[0]);
      UpdateReadyCarriesRegistration(first.glue, events[1..]);
    }
  }

  /** From page start, `load` and a resolved `register()` leave the glue
      registered with that registration for good, and every later
      `swUpdateReady` carries it. */
  lemma ResolvedRegistrationIsAnnounced(x: RegistrationId, rest: seq<BrowserEvent>)
    ensures Run(Init(true), [Load, RegisterResolved(x)] + rest).glue.Registered?
    ensures Run(Init(true), [Load, RegisterResolved(x)] + rest).glue.registration == x
    ensures forall y :: SwUpdateReady(y) in Run(Init(true), [Load, RegisterResolved(x)] + rest).dispatched ==> y == x
  {
    var events := [Load, RegisterResolved(x)] + rest;
    assert events[0] == Load && events[1..] == [RegisterResolved(x)] + rest;
    assert events[1..][0] == RegisterResolved(x) && events[1..][1..] == rest;
    assert Run(Registering, events[1..]) == Run(Registered(x, {}), rest);
    UpdateReadyCarriesRegistration(Registered(x, {}), rest);
  }

  /** A worker that was not the `installing` one at some `updatefound` is
      never announced, whatever state it reaches. */
  lemma {:induction false} UnwatchedWorkerIsSilent(g: Glue, events: seq<BrowserEvent>, w: WorkerId)
    requires g.Registered? && w !in g.watched
    requires forall i | 0 <= i < |events| :: events[i].UpdateFound? ==> events[i].installing != Some(w)
    ensures Run(g, events).glue.Registered? && w !in Run(g, events).glue.watched
    ensures forall x :: SwUpdateReady(x) in Run(g, events).dispatched ==>
      exists i | 0 <= i < |events| :: events[i].StateChange? && events[i].worker != w
    decreases |events|
  {
    if events != [] {
      var first := OnEvent(g, events[0]);
      UnwatchedWorkerIsSilent(first.glue, events[1..], w);
      forall x | SwUpdateReady(x) in Run(g, events).dispatched
        ensures exists i | 0 <= i < |events| :: events[i].StateChange? && events[i].worker != w
      {
        if SwUpdateReady(x) in first.dispatched {
          assert events[0].StateChange? && events[0].worker != w;
        } else {
          var i :| 0 <= i < |events[1..]| && events[1..][i].StateChange? && events[1..][i].worker != w;
          assert events[i + 1] == events[1..][i];
        }
      }
    }
  }

  /** A first install (no controller yet) is never announced, whatever the worker does. */
  lemma {:induction false} FirstInstallIsSilent(g: Glue, events: seq<BrowserEvent>)
    requires forall i | 0 <= i < |events| :: !events[i].ControllerChange?
    requires forall i | 0 <= i < |events| :: events[i].StateChange? ==> !events[i].hasController
    ensures Run(g, events).dispatched == []
    decreases |events|
  {
    if events != [] {
      FirstInstallIsSilent(OnEvent(g, events[0]).glue, events[1..]);
    }
  }
}
