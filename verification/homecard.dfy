/**
  The home screen's task card: the label shown for each status, the "locked"
  look, and whether the card reacts to a press. The look and the press are
  decided separately: the look by status or `disabled`, the press by
  `disabled` alone.
*/
module HomeCard {
  import opened JsString
  import opened Results

  /** `CardStatus`. */
  datatype CardStatus = Active | Locked | Completed

  /** `getStatusLabel`. */
  function StatusLabel(status: CardStatus): (text: Str)
    ensures |text| > 0
  {
    match status
    case Active => Units("Active")
    case Locked => Units("Locked")
    case Completed => Units("Done")
  }

  /** Reading a label back: the status it is shown for, if any. */
  function StatusOfLabel(text: Str): (status: Option<CardStatus>)
  {
    if text == Units("Active") then Some(Active)
    else if text == Units("Locked") then Some(Locked)
    else if text == Units("Done") then Some(Completed)
    else None
  }

  /** Every status has its own label: reading the label back gives the
      status, so no two statuses share a label. */
  lemma StatusLabelRoundTrip(status: CardStatus)
    ensures StatusOfLabel(StatusLabel(status)) == Some(status)
  {
    assert Units("Active")[0] != Units("Locked")[0];
    assert Units("Active")[0] != Units("Done")[0];
    assert Units("Locked")[0] != Units("Done")[0];
  }

  lemma StatusLabelInjective(a: CardStatus, b: CardStatus)
    requires StatusLabel(a) == StatusLabel(b)
    ensures a == b
  {
    StatusLabelRoundTrip(a);
    StatusLabelRoundTrip(b);
  }

  /** The card's props that decide its behaviour; `disabled` is optional. */
  datatype Props = Props(status: CardStatus, disabled: Option<bool>)

  /** `disabled = false`: the destructuring default. */
  function Disabled(p: Props): (d: bool)
    ensures p.disabled.None? ==> !d
    ensures p.disabled.Some? ==> d == p.disabled.value
  {
    p.disabled.GetOr(false)
  }

  /** `isLocked`: the card is drawn locked when its status is locked or it
      is disabled. */
  function IsLocked(p: Props): (locked: bool)
    ensures locked <==> p.status == Locked || p.disabled == Some(true)
  {
    p.status == Locked || Disabled(p)
  }

  /** The touchable's `disabled={disabled}`: the card takes presses unless
      it is disabled, whatever its status. */
  function IsPressable(p: Props): (pressable: bool)
    ensures pressable <==> p.disabled != Some(true)
  {
    !Disabled(p)
  }

  /** Pressability ignores the status. */
  lemma PressableIgnoresStatus(p: Props, status: CardStatus)
    ensures IsPressable(p.(status := status)) == IsPressable(p)
  {
  }

  /** A locked card with no `disabled` prop looks locked yet still takes
      presses. */
  lemma LockedCardStillPressable()
    ensures var p := Props(Locked, None);
            IsLocked(p) && IsPressable(p)
  {
  }

  /** A card that cannot be pressed is always drawn locked. */
  lemma UnpressableIsLocked(p: Props)
    requires !IsPressable(p)
    ensures IsLocked(p)
  {
  }

  /** The three cards on the home screen, in order: check-in active,
      reflection and Zen quest locked, none passing `disabled`. */
  function HomeScreenCards(): (cards: seq<Props>)
    ensures |cards| == 3
    ensures cards[0].status == Active && cards[1].status == Locked && cards[2].status == Locked
    ensures forall k :: 0 <= k < |cards| ==> IsPressable(cards[k])
  {
    [Props(Active, None), Props(Locked, None), Props(Locked, None)]
  }
}
