/**
  The arc-title screen of onboarding: a validity check for the Next button
  and the Next handler, which stores the trimmed title. The handler has no
  guard of its own and the button ignores `disabled`, so a blank title is
  stored as the empty string, which the dialogue engine later reads as its
  default arc title.
*/
module OnboardingArcTitle {
  import opened JsString
  import opened Results
  import Onboarding
  import EvaPlaceholder

  /** `isValid`: the title is not blank once trimmed, that is, it holds
      something other than whitespace. */
  predicate IsValid(title: Str)
    ensures IsValid(title) <==> !AllWhitespace(title)
  {
    TrimEmptyIffAllWhitespace(title);
    |Trim(title)| > 0
  }

  /** `handleNext`: stores `title.trim()` in the profile, whatever it is.
      The stored title has no surrounding whitespace, is empty exactly when
      the title is not valid, and the rest of the profile is untouched. */
  function HandleNext(title: Str, profile: Onboarding.OnboardingState): (r: Onboarding.OnboardingState)
    ensures r.arcTitle == Trim(title)
    ensures IsTrimmed(r.arcTitle)
    ensures r.arcTitle == [] <==> !IsValid(title)
    ensures r.arcTitle == [] <==> AllWhitespace(title)
    ensures r.boss == profile.boss && r.finalForm == profile.finalForm
    ensures r.isComplete == profile.isComplete
  {
    TrimEmptyIffAllWhitespace(title);
    Onboarding.SetArcTitle(profile, Trim(title))
  }

  /** The stored title is its own trim, so pressing Next again with the
      stored title stores the same thing. */
  lemma StoredTitleIsFixed(title: Str, profile: Onboarding.OnboardingState)
    ensures var r := HandleNext(title, profile);
            Trim(r.arcTitle) == r.arcTitle && HandleNext(r.arcTitle, r) == r
  {
    TrimIdempotent(title);
  }

  /** The stored title lies inside the typed one: every unit of it was
      typed. */
  lemma StoredTitleFromTyped(title: Str, profile: Onboarding.OnboardingState, u: CodeUnit)
    requires u in HandleNext(title, profile).arcTitle
    ensures u in title
  {
    TrimUnitsFromSource(title, u);
  }

  /** A blank title is stored, as the empty string, and the dialogue engine
      then falls back to "Your Journey". */
  lemma BlankTitleStoresEmpty(title: Str, profile: Onboarding.OnboardingState)
    requires !IsValid(title)
    ensures HandleNext(title, profile).arcTitle == []
    ensures EvaPlaceholder.OrDefault(HandleNext(title, profile).arcTitle, EvaPlaceholder.DEFAULT_ARC_TITLE)
            == EvaPlaceholder.DEFAULT_ARC_TITLE
  {
  }

  /** What the screen evidently means to do: `disabled={!isValid}` was
      meant to keep Next from firing on a blank title. When it fires, the
      trimmed, non-empty title is stored; otherwise nothing happens. */
  function IntendedNext(title: Str, profile: Onboarding.OnboardingState): (r: Option<Onboarding.OnboardingState>)
    ensures r.Some? <==> IsValid(title)
    ensures r.Some? ==> r.value.arcTitle == Trim(title) && r.value.arcTitle != []
    ensures r.Some? ==> r.value == HandleNext(title, profile)
  {
    if IsValid(title) then Some(HandleNext(title, profile)) else None
  }

  /** A title of one space: the handler as written stores the empty title,
      where the intended screen would not have fired at all. */
  lemma SpaceTitleDiscrepancy(profile: Onboarding.OnboardingState)
    ensures HandleNext([0x20], profile).arcTitle == []
    ensures IntendedNext([0x20], profile).None?
  {
  }
}
