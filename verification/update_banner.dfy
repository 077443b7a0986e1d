/** The update banner (src/components/PwaUpdateBanner.tsx): it listens for
    the window events of the registration glue, shows itself when an update is
    ready, and on Refresh asks the waiting worker to skip waiting and schedules
    a reload. */
module UpdateBanner {
  import opened Wrappers
  import opened JsValues
  import opened SwRegistration
  import ServiceWorker

  /** `showBanner` and the remembered registration (null as `None`). */
  datatype Banner = Banner(show: bool, registration: Option<RegistrationId>)

  const Initial := Banner(false, None)

  /** The delay before `window.location.reload()`, in milliseconds. */
  const ReloadDelayMs: nat := 100

  /** The payload posted to the waiting worker. */
  const SkipWaitingMessage: JsValue := Object(map["type" := Str("SKIP_WAITING")])

  /** Side effects of a Refresh click. */
  datatype Effect = PostMessage(worker: WorkerId, message: JsValue) | ScheduleReload(delayMs: nat)

  /** The banner's listener for one window event. */
  function OnPageEvent(b: Banner, pe: PageEvent): (r: Banner)
    ensures r.show <==> pe.SwUpdateReady?
    ensures r.registration == if pe.SwUpdateReady? then Some(pe.registration) else b.registration
  {
    match pe
    case SwUpdateReady(reg) => Banner(true, Some(reg))
    case SwControllerChange => b.(show := false)
  }

  /** The dismiss button hides the banner and keeps the registration. */
  function OnDismiss(b: Banner): (r: Banner)
    ensures !r.show && r.registration == b.registration
  {
    b.(show := false)
  }

  /** The Refresh button. `waiting` is the registration's waiting worker at
      the time of the click. Nothing happens unless both are present. */
  function OnRefresh(b: Banner, waiting: Option<WorkerId>): (r: seq<Effect>)
    ensures r == [] <==> b.registration.None? || waiting.None?
    ensures r != [] ==> r == [PostMessage(waiting.value, SkipWaitingMessage), ScheduleReload(ReloadDelayMs)]
  {
    if b.registration.Some? && waiting.Some? then
      [PostMessage(waiting.value, SkipWaitingMessage), ScheduleReload(ReloadDelayMs)]
    else []
  }

  /** The banner renders (anything at all) exactly when `showBanner` is set. */
  predicate Visible(b: Banner) {
    b.show
  }

  /** The banner after a sequence of window events. */
  function AfterEvents(b: Banner, events: seq<PageEvent>): Banner
    decreases |events|
  {
    if events == [] then b else AfterEvents(OnPageEvent(b, events[0]), events[1..])
  }

  /** After any non-empty run of window events the banner is visible exactly
      when the last one was `swUpdateReady`. */
  lemma {:induction false} VisibleIffLastIsUpdateReady(b: Banner, events: seq<PageEvent>)
    requires events != []
    ensures Visible(AfterEvents(b, events)) <==> events[|events| - 1].SwUpdateReady?
    decreases |events|
  {
    if |events| > 1 {
      VisibleIffLastIsUpdateReady(OnPageEvent(b, events[0]), events[1..]);
    }
  }

  /** The banner remembers a registration it was given, and only such a one. */
  lemma {:induction false} RegistrationComesFromEvents(b: Banner, events: seq<PageEvent>)
    ensures var r := AfterEvents(b, events).registration;
      r == b.registration || (r.Some? && exists i | 0 <= i < |events| :: events[i] == SwUpdateReady(r.value))
    decreases |events|
  {
    if events != [] {
      var b' := OnPageEvent(b, events[0]);
      RegistrationComesFromEvents(b', events[1..]);
      var r := AfterEvents(b, events).registration;
      if r != b'.registration {
        assert r.Some?;
        var i :| 0 <= i < |events[1..]| && events[1..][i] == SwUpdateReady(r.value);
        assert events[i + 1] == SwUpdateReady(r.value);
      } else if r != b.registration {
        assert r.Some?;
        assert events[0] == SwUpdateReady(r.value);
      }
    }
  }

  /** The message Refresh posts is one the worker's message handler accepts:
      a waiting worker moves on to activation. */
  lemma RefreshMessageSkipsWaiting(b: Banner, waiting: Option<WorkerId>)
    ensures forall e | e in OnRefresh(b, waiting) && e.PostMessage? ::
      ServiceWorker.RequestsSkipWaiting(e.message)
      && ServiceWorker.OnMessage(ServiceWorker.Waiting, e.message) == ServiceWorker.Activating
  {
    assert SkipWaitingMessage.Get("type") == Str(ServiceWorker.SkipWaitingType);
  }

  /** The glue and the banner together: when a registered glue sees a watched
      worker reach `installed` under a controller, the banner shows and holds
      the registration, so a Refresh while a worker waits posts the skip message. */
  lemma UpdateFlowReachesWorker(g: Glue, b: Banner, worker: WorkerId, waiting: WorkerId)
    requires g.Registered? && worker in g.watched
    ensures var step := OnEvent(g, StateChange(worker, Installed, true));
      var b' := AfterEvents(b, step.dispatched);
      && Visible(b')
      && b'.registration == Some(g.registration)
      && OnRefresh(b', Some(waiting))[0] == PostMessage(waiting, SkipWaitingMessage)
  {
    var step := OnEvent(g, StateChange(worker, Installed, true));
    assert step.dispatched == [SwUpdateReady(g.registration)];
    assert AfterEvents(b, step.dispatched) == AfterEvents(Banner(true, Some(g.registration)), []);
  }
}
