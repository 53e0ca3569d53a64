/**
  The profile store filled in during onboarding: the arc title, the boss and
  the final form, stored exactly as given, and a completion flag that only
  ever rises. The setters stay usable after completion.
*/
module Onboarding {
  import opened JsString
  import opened Results

  /** `OnboardingState`. */
  datatype OnboardingState = OnboardingState(arcTitle: Str, boss: Str, finalForm: Str, isComplete: bool)

  /** The provider's initial state: three empty strings, not complete. */
  function Initial(): (s: OnboardingState)
    ensures s.arcTitle == [] && s.boss == [] && s.finalForm == []
    ensures !s.isComplete
  {
    OnboardingState([], [], [], false)
  }

  /** `setArcTitle`: stores the title verbatim, with no trimming or check. */
  function SetArcTitle(s: OnboardingState, title: Str): (r: OnboardingState)
    ensures r.arcTitle == title
    ensures r.boss == s.boss && r.finalForm == s.finalForm && r.isComplete == s.isComplete
  {
    s.(arcTitle := title)
  }

  /** `setBoss`: stores the boss verbatim. */
  function SetBoss(s: OnboardingState, boss: Str): (r: OnboardingState)
    ensures r.boss == boss
    ensures r.arcTitle == s.arcTitle && r.finalForm == s.finalForm && r.isComplete == s.isComplete
  {
    s.(boss := boss)
  }

  /** `setFinalForm`: stores the final form verbatim. */
  function SetFinalForm(s: OnboardingState, form: Str): (r: OnboardingState)
    ensures r.finalForm == form
    ensures r.arcTitle == s.arcTitle && r.boss == s.boss && r.isComplete == s.isComplete
  {
    s.(finalForm := form)
  }

  /** `completeOnboarding`: raises the flag and keeps the three strings. */
  function CompleteOnboarding(s: OnboardingState): (r: OnboardingState)
    ensures r.isComplete
    ensures r.arcTitle == s.arcTitle && r.boss == s.boss && r.finalForm == s.finalForm
  {
    s.(isComplete := true)
  }

  /** Completing twice is completing once. */
  lemma CompleteIdempotent(s: OnboardingState)
    ensures CompleteOnboarding(CompleteOnboarding(s)) == CompleteOnboarding(s)
  {
  }

  /** A call a screen can make on the store. */
  datatype Action = ArcTitle(title: Str) | Boss(boss: Str) | FinalForm(form: Str) | Complete

  /** The store after one action. */
  function Apply(s: OnboardingState, a: Action): OnboardingState {
    match a
    case ArcTitle(t) => SetArcTitle(s, t)
    case Boss(b) => SetBoss(s, b)
    case FinalForm(f) => SetFinalForm(s, f)
    case Complete => CompleteOnboarding(s)
  }

  /** The store after a sequence of actions, applied in order. */
  function Run(s: OnboardingState, acts: seq<Action>): OnboardingState
    decreases |acts|
  {
    if acts == [] then s else Run(Apply(s, acts[0]), acts[1..])
  }

  /** The arc title after `acts`: the last one set, or `current` if none. */
  function LastArcTitle(acts: seq<Action>, current: Str): Str
    decreases |acts|
  {
    if acts == [] then current
    else LastArcTitle(acts[1..], if acts[0].ArcTitle? then acts[0].title else current)
  }

  /** The completion flag never falls: after a run it is up exactly when it
      was up before or the run completed onboarding. */
  lemma {:induction false} RunComplete(s: OnboardingState, acts: seq<Action>)
    ensures Run(s, acts).isComplete <==> s.isComplete || Complete in acts
    decreases |acts|
  {
    if acts != [] {
      RunComplete(Apply(s, acts[0]), acts[1..]);
      assert acts == [acts[0]] + acts[1..];
    }
  }

  /** The setters are not guarded by completion: after completing, setting
      the arc title still takes effect, and the profile stays complete. */
  lemma SetAfterComplete(s: OnboardingState, title: Str)
    ensures var r := Run(s, [Complete, ArcTitle(title)]);
            r.arcTitle == title && r.isComplete
  {
    var c := CompleteOnboarding(s);
    assert Run(s, [Complete, ArcTitle(title)]) == Run(c, [ArcTitle(title)]);
    assert Run(c, [ArcTitle(title)]) == Run(SetArcTitle(c, title), []);
  }

  /** The last write wins: the arc title after a run is the last title set
      in it, or the old one when it sets none. */
  lemma {:induction false} RunArcTitle(s: OnboardingState, acts: seq<Action>)
    ensures Run(s, acts).arcTitle == LastArcTitle(acts, s.arcTitle)
    decreases |acts|
  {
    if acts != [] {
      RunArcTitle(Apply(s, acts[0]), acts[1..]);
      assert Apply(s, acts[0]).arcTitle == if acts[0].ArcTitle? then acts[0].title else s.arcTitle;
    }
  }

  const USE_ONBOARDING_ERROR: string := "useOnboarding must be used within an OnboardingProvider"

  /** `useOnboarding`: the profile when a provider is mounted, otherwise the
      hook's error. */
  function UseOnboarding(p: Provider<OnboardingState>): (r: Result<OnboardingState>)
    ensures r.Err? <==> p.Unmounted?
    ensures r.Ok? ==> r.value == p.current
    ensures r.Err? ==> r.message == USE_ONBOARDING_ERROR
  {
    UseContext(p, USE_ONBOARDING_ERROR)
  }
}
