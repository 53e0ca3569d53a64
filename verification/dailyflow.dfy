/**
  The daily-flow store: three flags recording whether the user has checked
  in, reflected and completed the Zen quest today, three setters that raise
  one flag each, and a reset that lowers all three. Nothing orders the
  setters: any flag may be raised whatever the others hold.
*/
module DailyFlow {
  import opened Results

  /** `DailyFlowState`. */
  datatype DailyFlowState = DailyFlowState(hasCheckedIn: bool, hasReflected: bool, hasCompletedZenQuest: bool)

  /** The three steps of a day, one per flag. */
  datatype Step = CheckedIn | Reflected | CompletedZenQuest

  /** The flag of `step` in `s`. */
  function Has(s: DailyFlowState, step: Step): bool {
    match step
    case CheckedIn => s.hasCheckedIn
    case Reflected => s.hasReflected
    case CompletedZenQuest => s.hasCompletedZenQuest
  }

  /** The provider's initial state: every `useState(false)`. */
  function Initial(): (s: DailyFlowState)
    ensures forall step: Step :: !Has(s, step)
  {
    DailyFlowState(false, false, false)
  }

  /** `markCheckedIn`. */
  function MarkCheckedIn(s: DailyFlowState): (r: DailyFlowState)
    ensures Has(r, CheckedIn)
    ensures Has(r, Reflected) == Has(s, Reflected)
    ensures Has(r, CompletedZenQuest) == Has(s, CompletedZenQuest)
  {
    s.(hasCheckedIn := true)
  }

  /** `markReflected`: raises its flag even when the user has not checked in. */
  function MarkReflected(s: DailyFlowState): (r: DailyFlowState)
    ensures Has(r, Reflected)
    ensures Has(r, CheckedIn) == Has(s, CheckedIn)
    ensures Has(r, CompletedZenQuest) == Has(s, CompletedZenQuest)
  {
    s.(hasReflected := true)
  }

  /** `markCompletedZenQuest`: raises its flag whatever the other two hold. */
  function MarkCompletedZenQuest(s: DailyFlowState): (r: DailyFlowState)
    ensures Has(r, CompletedZenQuest)
    ensures Has(r, CheckedIn) == Has(s, CheckedIn)
    ensures Has(r, Reflected) == Has(s, Reflected)
  {
    s.(hasCompletedZenQuest := true)
  }

  /** `resetDailyFlow`: every flag false, from any state. */
  function ResetDailyFlow(s: DailyFlowState): (r: DailyFlowState)
    ensures forall step: Step :: !Has(r, step)
    ensures r == Initial()
  {
    DailyFlowState(false, false, false)
  }

  /** A call a screen can make on the store. */
  datatype Action = Mark(step: Step) | Reset

  /** The store after one action. */
  function Apply(s: DailyFlowState, a: Action): (r: DailyFlowState)
    ensures a.Mark? ==> Has(r, a.step)
    ensures a.Mark? ==> forall other: Step :: other != a.step ==> Has(r, other) == Has(s, other)
    ensures a.Reset? ==> forall step: Step :: !Has(r, step)
  {
    match a
    case Mark(CheckedIn) => MarkCheckedIn(s)
    case Mark(Reflected) => MarkReflected(s)
    case Mark(CompletedZenQuest) => MarkCompletedZenQuest(s)
    case Reset => ResetDailyFlow(s)
  }

  /** The store after a sequence of actions, applied in order. */
  function Run(s: DailyFlowState, acts: seq<Action>): DailyFlowState
    decreases |acts|
  {
    if acts == [] then s else Run(Apply(s, acts[0]), acts[1..])
  }

  /** Marking the same step twice is marking it once. */
  lemma MarkIdempotent(s: DailyFlowState, step: Step)
    ensures Apply(Apply(s, Mark(step)), Mark(step)) == Apply(s, Mark(step))
  {
  }

  /** Marks commute, so the order in which the steps are done is irrelevant. */
  lemma MarksCommute(s: DailyFlowState, a: Step, b: Step)
    ensures Apply(Apply(s, Mark(a)), Mark(b)) == Apply(Apply(s, Mark(b)), Mark(a))
  {
  }

  /** No ordering is enforced: from the initial state, completing the Zen
      quest alone raises its flag while the other two stay down. */
  lemma ZenQuestNeedsNoEarlierStep()
    ensures var s := Apply(Initial(), Mark(CompletedZenQuest));
            Has(s, CompletedZenQuest) && !Has(s, CheckedIn) && !Has(s, Reflected)
  {
  }

  /** The actions after the last reset (all of them when there is none). */
  function AfterLastReset(acts: seq<Action>): (tail: seq<Action>)
    ensures Reset !in tail
    ensures |tail| <= |acts|
    decreases |acts|
  {
    if acts == [] then []
    else if Reset in acts[1..] then AfterLastReset(acts[1..])
    else if acts[0] == Reset then acts[1..]
    else acts
  }

  /** Flags only rise between resets: after a run, a flag is up exactly when
      its step was marked since the last reset, or it was already up and no
      reset happened. */
  lemma {:induction false} RunFlag(s: DailyFlowState, acts: seq<Action>, step: Step)
    ensures Has(Run(s, acts), step)
            <==> Mark(step) in AfterLastReset(acts) || (Reset !in acts && Has(s, step))
    decreases |acts|
  {
    if acts != [] {
      RunFlag(Apply(s, acts[0]), acts[1..], step);
      assert acts == [acts[0]] + acts[1..];
    }
  }

  /** Without a reset, no flag ever goes down. */
  lemma FlagsMonotone(s: DailyFlowState, acts: seq<Action>, step: Step)
    requires Reset !in acts
    requires Has(s, step)
    ensures Has(Run(s, acts), step)
  {
    RunFlag(s, acts, step);
  }

  const USE_DAILY_FLOW_ERROR: string := "useDailyFlow must be used within a DailyFlowProvider"

  /** `useDailyFlow`: the store when a provider is mounted, otherwise the
      hook's error; never a default state. */
  function UseDailyFlow(p: Provider<DailyFlowState>): (r: Result<DailyFlowState>)
    ensures r.Err? <==> p.Unmounted?
    ensures r.Ok? ==> r.value == p.current
    ensures r.Err? ==> r.message == USE_DAILY_FLOW_ERROR
  {
    UseContext(p, USE_DAILY_FLOW_ERROR)
  }
}
