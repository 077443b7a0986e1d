/** The install prompt (src/components/PwaInstallPrompt.tsx): it defers the
    browser's `beforeinstallprompt` event, offers an Install button while one
    is held, falls back to manual instructions otherwise, and disappears for
    good once the app is installed. */
module InstallPrompt {
  import opened Wrappers

  /** Identifies a deferred `beforeinstallprompt` event. */
  type PromptId = nat

  /** `isInstalled`, `deferredPrompt` (null as `None`), `showPrompt`, and
      whether the window listeners are attached. */
  datatype Prompt = Prompt(installed: bool, deferred: Option<PromptId>, show: bool, listening: bool)

  datatype Choice = Accepted | Dismissed

  datatype PromptEvent =
    | BeforeInstallPrompt(prompt: PromptId)
    | AppInstalled
      /** Install clicked and the user's choice settled. */
    | InstallClicked(choice: Choice)
    | DismissClicked

  /** The new state, and the deferred event whose `prompt()` was called, if any. */
  datatype Transition = Transition(state: Prompt, prompted: Option<PromptId>)

  datatype View = Nothing | InstallButton | Instructions

  /** Only an offer that holds a deferred event is shown. */
  predicate Inv(s: Prompt) {
    s.show ==> s.deferred.Some?
  }

  /** The mount effect: in standalone display mode the app counts as installed
      and no listener is attached. */
  function Mount(standalone: bool): (r: Prompt)
    ensures r.installed == standalone && r.listening == !standalone
    ensures r.deferred.None? && !r.show
    ensures Inv(r)
  {
    if standalone then Prompt(true, None, false, false) else Prompt(false, None, false, true)
  }

  function OnEvent(s: Prompt, e: PromptEvent): (r: Transition)
    ensures Inv(s) ==> Inv(r.state)
    ensures s.installed ==> r.state.installed
    ensures r.prompted.Some? <==> e.InstallClicked? && s.deferred.Some?
    ensures r.prompted.Some? ==> r.prompted == s.deferred
    ensures !s.listening && (e.BeforeInstallPrompt? || e.AppInstalled?) ==> r.state == s
    ensures s.listening && e.BeforeInstallPrompt? ==> r.state == s.(deferred := Some(e.prompt), show := true)
    ensures s.listening && e.AppInstalled? ==> r.state == s.(installed := true, deferred := None, show := false)
    ensures e.InstallClicked? ==> r.state == if s.deferred.None? then s else s.(deferred := None, show := false)
    ensures e.DismissClicked? ==> r.state == s.(show := false)
    ensures r.state.listening == s.listening
  {
    match e
    case BeforeInstallPrompt(p) =>
      if s.listening then Transition(s.(deferred := Some(p), show := true), None) else Transition(s, None)
    case AppInstalled =>
      if s.listening then Transition(s.(installed := true, show := false, deferred := None), None)
      else Transition(s, None)
    case InstallClicked(_) =>
      if s.deferred.None? then Transition(s, None)
      else Transition(s.(deferred := None, show := false), s.deferred)
    case DismissClicked =>
      Transition(s.(show := false), None)
  }

  /** What the component renders. */
  function Render(s: Prompt): (v: View)
    ensures v == Nothing <==> s.installed || (s.deferred.Some? && !s.show)
    ensures v == InstallButton <==> !s.installed && s.deferred.Some? && s.show
    ensures v == Instructions <==> !s.installed && s.deferred.None?
  {
    if s.installed then Nothing
    else if s.deferred.Some? && s.show then InstallButton
    else if s.deferred.None? then Instructions
    else Nothing
  }

  function Run(s: Prompt, events: seq<PromptEvent>): Prompt
    decreases |events|
  {
    if events == [] then s else Run(OnEvent(s, events[0]).state, events[1..])
  }

  /** Every reachable state keeps the invariant. */
  lemma {:induction false} RunKeepsInv(s: Prompt, events: seq<PromptEvent>)
    requires Inv(s)
    ensures Inv(Run(s, events))
    decreases |events|
  {
    if events != [] {
      RunKeepsInv(OnEvent(s, events[0]).state, events[1..]);
    }
  }

  /** Installation is permanent: from then on nothing is rendered. */
  lemma {:induction false} InstalledRendersNothing(s: Prompt, events: seq<PromptEvent>)
    requires s.installed
    ensures Run(s, events).installed && Render(Run(s, events)) == Nothing
    decreases |events|
  {
    if events != [] {
      InstalledRendersNothing(OnEvent(s, events[0]).state, events[1..]);
    }
  }

  /** In standalone mode no event can make the component render anything. */
  lemma StandaloneRendersNothing(events: seq<PromptEvent>)
    ensures Render(Run(Mount(true), events)) == Nothing
  {
    InstalledRendersNothing(Mount(true), events);
  }

  /** In a reachable state the Install button shows exactly when the offer is
      on; without a deferred event (and not installed) the instructions show. */
  lemma ReachableRender(standalone: bool, events: seq<PromptEvent>)
    ensures var s := Run(Mount(standalone), events);
      Render(s) == InstallButton <==> !s.installed && s.show
  {
    RunKeepsInv(Mount(standalone), events);
  }
}
