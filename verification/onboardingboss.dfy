/**
  The boss screen of onboarding: seven chips, one of which ("Other") opens a
  free-text box, a validity check for the Next button, and the Next handler,
  which stores the chosen boss in the profile only when there is a non-empty
  value to store. The button does not honour `disabled`, so the handler's own
  test is what keeps an empty boss out of the profile.
*/
module OnboardingBoss {
  import opened JsString
  import opened Results
  import Onboarding

  /** `BOSS_OPTIONS`, in chip order. */
  const BOSS_OPTIONS: seq<string> :=
    ["Stress", "Motivation", "Sleep", "Confidence", "Loneliness", "Overthinking", "Other"]

  /** The chip labels as code units. */
  function Options(): (options: seq<Str>)
    ensures |options| == |BOSS_OPTIONS| == 7
    ensures forall k :: 0 <= k < |options| ==> |options[k]| == |BOSS_OPTIONS[k]| > 0
  {
    seq(|BOSS_OPTIONS|, k requires 0 <= k < |BOSS_OPTIONS| => Units(BOSS_OPTIONS[k]))
  }

  /** The label of the chip that opens the free-text box. */
  function Other(): (other: Str)
    ensures other == Options()[6]
  {
    Units("Other")
  }

  /** The screen's state: the selected chip (`null` at first) and the text
      typed in the "Other" box. */
  datatype BossForm = BossForm(selectedBoss: Option<Str>, customBoss: Str)

  function Initial(): (form: BossForm)
    ensures form.selectedBoss.None? && form.customBoss == []
  {
    BossForm(None, [])
  }

  /** Pressing chip `k`: selects its label; the typed text is kept. */
  function SelectChip(form: BossForm, k: nat): (r: BossForm)
    requires k < |BOSS_OPTIONS|
    ensures r.selectedBoss == Some(Options()[k])
    ensures r.customBoss == form.customBoss
  {
    form.(selectedBoss := Some(Options()[k]))
  }

  /** `onChangeText={setCustomBoss}`. */
  function SetCustomBoss(form: BossForm, text: Str): (r: BossForm)
    ensures r.customBoss == text && r.selectedBoss == form.selectedBoss
  {
    form.(customBoss := text)
  }

  /** The selection is either empty or one of the chips. */
  predicate SelectionIsChip(form: BossForm) {
    form.selectedBoss.None? || form.selectedBoss.value in Options()
  }

  /** `isValid`: a chip is selected, and if it is "Other" the typed text is
      not blank, that is, holds something other than whitespace. */
  predicate IsValid(form: BossForm)
    ensures form.selectedBoss == Some(Other()) ==> (IsValid(form) <==> !AllWhitespace(form.customBoss))
    ensures form.selectedBoss != Some(Other()) ==> (IsValid(form) <==> form.selectedBoss.Some?)
  {
    TrimEmptyIffAllWhitespace(form.customBoss);
    form.selectedBoss.Some? && (form.selectedBoss != Some(Other()) || |Trim(form.customBoss)| > 0)
  }

  /** `bossValue`: the trimmed text when "Other" is selected, otherwise the
      selection itself (possibly `null`). */
  function BossValue(form: BossForm): (v: Option<Str>)
    ensures form.selectedBoss == Some(Other()) ==> v == Some(Trim(form.customBoss))
    ensures form.selectedBoss != Some(Other()) ==> v == form.selectedBoss
  {
    if form.selectedBoss == Some(Other()) then Some(Trim(form.customBoss)) else form.selectedBoss
  }

  /** The value `handleNext` passes to `setBoss`: `bossValue` when it is
      truthy, that is neither `null` nor empty; otherwise nothing. */
  function Submission(form: BossForm): (v: Option<Str>)
    ensures v.Some? ==> v.value != [] && BossValue(form) == v
    ensures v.None? ==> BossValue(form).None? || BossValue(form) == Some([])
  {
    match BossValue(form)
    case Some(b) => if b != [] then Some(b) else None
    case None => None
  }

  /** `handleNext`: stores the submission in the profile, or does nothing. */
  function HandleNext(form: BossForm, profile: Onboarding.OnboardingState): (r: Onboarding.OnboardingState)
    ensures Submission(form).Some? ==> r == Onboarding.SetBoss(profile, Submission(form).value)
    ensures Submission(form).None? ==> r == profile
  {
    match Submission(form)
    case Some(b) => Onboarding.SetBoss(profile, b)
    case None => profile
  }

  lemma InitialSelectionIsChip()
    ensures SelectionIsChip(Initial())
  {
  }

  /** Pressing chips and typing keep the selection among the chips. */
  lemma EditsKeepSelectionIsChip(form: BossForm, k: nat, text: Str)
    requires SelectionIsChip(form)
    requires k < |BOSS_OPTIONS|
    ensures SelectionIsChip(SelectChip(form, k))
    ensures SelectionIsChip(SetCustomBoss(form, text))
  {
  }

  /** On the screen's reachable states, the handler stores a boss exactly
      when the form is valid, and what it stores is never empty. */
  lemma SubmitsIffValid(form: BossForm)
    requires SelectionIsChip(form)
    ensures Submission(form).Some? <==> IsValid(form)
  {
    if form.selectedBoss.Some? && form.selectedBoss != Some(Other()) {
      var options := Options();
      var k :| 0 <= k < |options| && options[k] == form.selectedBoss.value;
      assert |form.selectedBoss.value| > 0;
    }
  }

  /** The validity check alone does not guard the handler: a selection
      outside the chips (an empty string) passes `isValid` yet stores
      nothing. */
  lemma ValidityNeedsChipSelection()
    ensures var form := BossForm(Some([]), []);
            IsValid(form) && Submission(form).None?
  {
    assert Other() != [];
  }

  /** With "Other" selected, the stored boss is the typed text, trimmed. */
  lemma OtherStoresTrimmedText(form: BossForm, profile: Onboarding.OnboardingState)
    requires form.selectedBoss == Some(Other())
    requires IsValid(form)
    ensures HandleNext(form, profile).boss == Trim(form.customBoss)
  {
  }

  /** With any other chip selected, its label is stored verbatim and the
      typed text is ignored. */
  lemma ChipStoresLabel(form: BossForm, k: nat, profile: Onboarding.OnboardingState)
    requires k < 6
    requires form.selectedBoss == Some(Options()[k])
    ensures HandleNext(form, profile).boss == Options()[k]
  {
    assert Options()[k] != Options()[6] by {
      assert |Options()[6]| == 5;
      if |Options()[k]| == 5 {
        assert k == 2;
        assert Options()[2][0] != Options()[6][0];
      }
    }
  }
}
