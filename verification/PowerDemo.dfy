/** Switching an axis on through the drive's status and control words (CiA 402). */
module PowerDemo {
  // ---- the drive ----

  datatype DriveState =
    | NotReadyToSwitchOn | SwitchOnDisabled | ReadyToSwitchOn | SwitchedOn
    | OperationEnabled | QuickStopActive | FaultReactionActive | Fault

  /** The status word bits that the standard assigns to each state. */
  predicate Shows(stat: bv16, s: DriveState) {
    match s
    case NotReadyToSwitchOn => stat & 0x4F == 0x00
    case SwitchOnDisabled => stat & 0x4F == 0x40
    case ReadyToSwitchOn => stat & 0x6F == 0x21
    case SwitchedOn => stat & 0x6F == 0x23
    case OperationEnabled => stat & 0x6F == 0x27
    case QuickStopActive => stat & 0x6F == 0x07
    case FaultReactionActive => stat & 0x4F == 0x0F
    case Fault => stat & 0x4F == 0x08
  }

  /** The commands of the standard, by the bits of the control word that they ask for; a fault reset is an edge of
      bit 7, which no control word of this program sets. */
  datatype Command = Shutdown | SwitchOn | EnableOperation | DisableVoltage | QuickStop

  predicate Commands(control: bv16, c: Command) {
    match c
    case Shutdown => control & 0x87 == 0x06
    case SwitchOn => control & 0x8F == 0x07
    case EnableOperation => control & 0x8F == 0x0F
    case DisableVoltage => control & 0x82 == 0x00
    case QuickStop => control & 0x86 == 0x02
  }

  /** Where a control word moves the drive, if it does; leaving the first state needs none. To a drive that is
      operating, the switch-on pattern means disable operation. */
  function Next(s: DriveState, control: bv16): DriveState {
    var off := Commands(control, DisableVoltage) || Commands(control, QuickStop);
    match s
    case NotReadyToSwitchOn => SwitchOnDisabled
    case SwitchOnDisabled => if Commands(control, Shutdown) then ReadyToSwitchOn else s
    case ReadyToSwitchOn =>
      if Commands(control, SwitchOn) || Commands(control, EnableOperation) then SwitchedOn
      else if off then SwitchOnDisabled else s
    case SwitchedOn =>
      if Commands(control, EnableOperation) then OperationEnabled
      else if Commands(control, Shutdown) then ReadyToSwitchOn
      else if off then SwitchOnDisabled else s
    case OperationEnabled =>
      if Commands(control, Shutdown) then ReadyToSwitchOn
      else if Commands(control, SwitchOn) then SwitchedOn
      else if Commands(control, DisableVoltage) then SwitchOnDisabled
      else if Commands(control, QuickStop) then QuickStopActive else s
    case QuickStopActive =>
      if Commands(control, EnableOperation) then OperationEnabled
      else if Commands(control, DisableVoltage) then SwitchOnDisabled else s
    case FaultReactionActive => Fault
    case Fault => s
  }

  // ---- the controller ----

  const POLLS := 500

  const SHUTDOWN: bv16 := 6
  const SWITCH_ON: bv16 := 7
  const ENABLE: bv16 := 15
  const DISABLE_VOLTAGE: bv16 := 0

  datatype Reaction = Wait | Write(control: bv16) | Done | Fail(code: int)

  /** The branches of the polling loop, in the source's order. */
  function React(stat: bv16): Reaction {
    if stat & 0x4F == 0x00 then Wait
    else if stat & 0x4F == 0x40 then Write(SHUTDOWN)
    else if stat & 0x6F == 0x21 then Write(SWITCH_ON)
    else if stat & 0x6F == 0x23 then Write(ENABLE)
    else if stat & 0x6F == 0x27 then Done
    else if stat & 0x6F == 0x07 then Write(ENABLE)
    else if stat & 0x4F == 0x0F then Fail(-3)
    else if stat & 0x4F == 0x08 then Fail(-4)
    else Write(DISABLE_VOLTAGE)
  }

  /** What each state calls for, control words in numbers. */
  function ReactTo(s: DriveState): Reaction {
    match s
    case NotReadyToSwitchOn => Wait
    case SwitchOnDisabled => Write(6)
    case ReadyToSwitchOn => Write(7)
    case SwitchedOn => Write(15)
    case OperationEnabled => Done
    case QuickStopActive => Write(15)
    case FaultReactionActive => Fail(-3)
    case Fault => Fail(-4)
  }

  lemma MaskedAlike(stat: bv16)
    ensures (stat & 0x6F) & 0x4F == stat & 0x4F
  {
  }

  /** No status word shows two states, so the order of the branches does not matter. */
  lemma StateUnique(stat: bv16, s: DriveState, u: DriveState)
    requires Shows(stat, s) && Shows(stat, u)
    ensures s == u
  {
    MaskedAlike(stat);
  }

  predicate ShowsNone(stat: bv16) {
    forall s :: !Shows(stat, s)
  }

  /** The reaction depends on the state shown, and a word that shows none is answered with disable voltage. */
  lemma ReactByState(stat: bv16)
    ensures forall s :: Shows(stat, s) ==> React(stat) == ReactTo(s)
    ensures ShowsNone(stat) <==> React(stat) == Write(0)
  {
    if ShowsNone(stat) {
      assert !Shows(stat, NotReadyToSwitchOn) && !Shows(stat, SwitchOnDisabled) && !Shows(stat, ReadyToSwitchOn);
      assert !Shows(stat, SwitchedOn) && !Shows(stat, OperationEnabled) && !Shows(stat, QuickStopActive);
      assert !Shows(stat, FaultReactionActive) && !Shows(stat, Fault);
    }
  }

  datatype Outcome = Outcome(code: int, written: seq<bv16>, polls: nat)

  /** The call from poll k on, when the status words read are the given ones. */
  function PowerFrom(stats: seq<bv16>, k: nat): Outcome
    requires k <= POLLS <= |stats|
    decreases POLLS - k
  {
    if k == POLLS then Outcome(-2, [DISABLE_VOLTAGE], k)
    else match React(stats[k])
      case Wait => PowerFrom(stats, k + 1)
      case Write(c) => var rest := PowerFrom(stats, k + 1); rest.(written := [c] + rest.written)
      case Done => Outcome(0, [], k + 1)
      case Fail(code) => Outcome(code, [DISABLE_VOLTAGE], k + 1)
  }

  function Power(axisId: int, dof: int, stats: seq<bv16>): Outcome
    requires POLLS <= |stats|
  {
    if axisId <= 0 || axisId > dof then Outcome(-1, [], 0) else PowerFrom(stats, 0)
  }

  /**
   * The polling loop. The words of stats are what the polls read, one after the
   * other; written collects the control words in the order they are set.
   */
  method AxisPower(axisId: int, dof: int, stats: seq<bv16>) returns (code: int, written: seq<bv16>, polls: nat)
    requires POLLS <= |stats|
    ensures Outcome(code, written, polls) == Power(axisId, dof, stats)
  {
    written, polls := [], 0;
    if axisId <= 0 || axisId > dof {
      return -1, [], 0;
    }
    while true
      invariant polls <= POLLS
      invariant var rest := PowerFrom(stats, polls);
                Power(axisId, dof, stats) == rest.(written := written + rest.written)
      decreases POLLS - polls
    {
      if polls >= POLLS {
        written := written + [DISABLE_VOLTAGE];
        return -2, written, polls;
      }
      var stat := stats[polls];
      polls := polls + 1;
      match React(stat)
      case Wait =>
      case Write(control) =>
        ghost var rest := PowerFrom(stats, polls);
        assert (written + [control]) + rest.written == written + ([control] + rest.written);
        written := written + [control];
      case Done =>
        return 0, written, polls;
      case Fail(failure) =>
        written := written + [DISABLE_VOLTAGE];
        return failure, written, polls;
    }
  }

  // ---- what a return code means ----

  /** The status words that keep the loop going. */
  predicate Pending(stat: bv16) {
    React(stat).Wait? || React(stat).Write?
  }

  predicate PendingUpTo(stats: seq<bv16>, k: nat, n: nat)
    requires n <= |stats|
  {
    forall i :: k <= i < n ==> Pending(stats[i])
  }

  lemma {:induction false} PowerFromEnds(stats: seq<bv16>, k: nat)
    requires k <= POLLS <= |stats|
    ensures var o := PowerFrom(stats, k);
      && k <= o.polls <= POLLS
      && (o.code == -2 ==> o.polls == POLLS && PendingUpTo(stats, k, POLLS))
      && (o.code != -2 ==> k < o.polls && PendingUpTo(stats, k, o.polls - 1) && !Pending(stats[o.polls - 1]))
      && (o.code == 0 <==> o.code != -2 && React(stats[o.polls - 1]) == Done)
      && (o.code == 0 || o.code == -2 || React(stats[o.polls - 1]) == Fail(o.code))
      && (o.code != 0 ==> |o.written| > 0 && o.written[|o.written| - 1] == DISABLE_VOLTAGE)
    decreases POLLS - k
  {
    if k < POLLS && Pending(stats[k]) {
      PowerFromEnds(stats, k + 1);
    }
  }

  predicate ShownAt(stats: seq<bv16>, polls: nat, s: DriveState)
    requires polls <= |stats|
  {
    polls > 0 && Shows(stats[polls - 1], s)
  }

  lemma PendingByState(stat: bv16)
    ensures Pending(stat) <==> !Shows(stat, OperationEnabled) && !Shows(stat, FaultReactionActive) && !Shows(stat, Fault)
    ensures React(stat) == Done <==> Shows(stat, OperationEnabled)
    ensures React(stat) == Fail(-3) <==> Shows(stat, FaultReactionActive)
    ensures React(stat) == Fail(-4) <==> Shows(stat, Fault)
    ensures React(stat).Fail? ==> React(stat).code == -3 || React(stat).code == -4
  {
  }

  /**
   * Each return code, for every sequence of status words: the first word that
   * shows an enabled or faulty drive decides, and a call that does not succeed
   * leaves disable voltage as its last control word.
   */
  lemma CodeMeans(axisId: int, dof: int, stats: seq<bv16>)
    requires POLLS <= |stats|
    ensures var o := Power(axisId, dof, stats);
      && o.polls <= POLLS
      && (o.code == -1 <==> !(1 <= axisId <= dof)) && (o.code == -1 ==> o.written == [] && o.polls == 0)
      && (o.code != -1 && o.code != -2 ==> o.polls > 0 && PendingUpTo(stats, 0, o.polls - 1) && !Pending(stats[o.polls - 1]))
      && (o.code == 0 <==> o.code != -1 && ShownAt(stats, o.polls, OperationEnabled))
      && (o.code == -2 <==> 1 <= axisId <= dof && PendingUpTo(stats, 0, 500))
      && (o.code == -3 <==> o.code != -1 && ShownAt(stats, o.polls, FaultReactionActive))
      && (o.code == -4 <==> o.code != -1 && ShownAt(stats, o.polls, Fault))
      && (o.code < -1 ==> |o.written| > 0 && o.written[|o.written| - 1] == 0)
  {
    if 1 <= axisId <= dof {
      hide React;
      PowerFromEnds(stats, 0);
      var o := PowerFrom(stats, 0);
      if o.polls > 0 {
        PendingByState(stats[o.polls - 1]);
      }
    }
  }

  // ---- the loop closed over a drive ----

  /** The control word in force after poll k, with the one from before the call until the first write. */
  function InForce(stats: seq<bv16>, k: nat, before: bv16): bv16
    requires k < |stats|
  {
    match React(stats[k])
    case Write(c) => c
    case _ => if k == 0 then before else InForce(stats, k - 1, before)
  }

  /** Between two polls the drive stays, follows the control word in force, or faults. */
  predicate DriveStep(s: DriveState, control: bv16, s': DriveState) {
    s' == s || s' == Next(s, control) || s' == FaultReactionActive
  }

  predicate DriveObeys(stats: seq<bv16>, states: seq<DriveState>, before: bv16) {
    && POLLS <= |stats| == |states|
    && (forall k :: 0 <= k < |stats| ==> Shows(stats[k], states[k]))
    && (forall k :: 0 <= k < |stats| - 1 ==> DriveStep(states[k], InForce(stats, k, before), states[k + 1]))
  }

  /** The transitions still to go to the enabled state. */
  function Rank(s: DriveState): nat {
    match s
    case NotReadyToSwitchOn => 4
    case SwitchOnDisabled => 3
    case ReadyToSwitchOn => 2
    case SwitchedOn => 1
    case QuickStopActive => 1
    case _ => 0
  }

  /** In how many of the first n intervals the drive stayed where it was. */
  function Stalls(states: seq<DriveState>, n: nat): nat
    requires n < |states| || n == 0
  {
    if n == 0 then 0 else Stalls(states, n - 1) + if states[n] == states[n - 1] then 1 else 0
  }

  predicate Healthy(s: DriveState) {
    s != FaultReactionActive && s != Fault
  }

  /** Each control word is the one that takes the drive closer: obeying it is one transition towards the enabled
      state, and the drive makes it, unless it stands still. */
  lemma EachMoveProgresses(stats: seq<bv16>, states: seq<DriveState>, before: bv16, k: nat)
    requires DriveObeys(stats, states, before) && k + 1 < |stats|
    requires Pending(stats[k])
    ensures Rank(Next(states[k], InForce(stats, k, before))) == Rank(states[k]) - 1
    ensures Healthy(Next(states[k], InForce(stats, k, before)))
    ensures Healthy(states[k + 1]) ==> states[k + 1] == states[k] || states[k + 1] == Next(states[k], InForce(stats, k, before))
  {
    ReactByState(stats[k]);
    assert Shows(stats[k], states[k]);
    hide Shows, React;
    assert DriveStep(states[k], InForce(stats, k, before), states[k + 1]);
  }

  lemma PendingIsHealthy(stat: bv16, s: DriveState)
    requires Shows(stat, s)
    ensures Pending(stat) <==> Healthy(s) && s != OperationEnabled
  {
    ReactByState(stat);
    hide Shows, React;
  }

  lemma {:induction false} IntervalsAreMovesAndStalls(stats: seq<bv16>, states: seq<DriveState>, before: bv16, n: nat)
    requires DriveObeys(stats, states, before) && n < |stats|
    requires PendingUpTo(stats, 0, n) && Healthy(states[n])
    ensures n == Stalls(states, n) + Rank(states[0]) - Rank(states[n])
  {
    hide React, Shows, Pending;
    if n > 0 {
      assert Pending(stats[n - 1]);
      PendingIsHealthy(stats[n - 1], states[n - 1]);
      IntervalsAreMovesAndStalls(stats, states, before, n - 1);
      EachMoveProgresses(stats, states, before, n - 1);
    }
  }

  /**
   * For a drive that follows its control words and does not fault, whatever it
   * does with its time: the call fails only if the drive stood still in at least
   * 496 of the intervals between the polls, and otherwise it succeeds within
   * one poll per transition and one per interval of standing still.
   */
  lemma PowersUpUnlessStalled(axisId: int, dof: int, stats: seq<bv16>, states: seq<DriveState>, before: bv16)
    requires 1 <= axisId <= dof && DriveObeys(stats, states, before)
    requires forall k :: 0 <= k < |states| ==> Healthy(states[k])
    ensures var o := Power(axisId, dof, stats);
      && (o.code == 0 || o.code == -2)
      && (o.code == -2 ==> Stalls(states, 499) >= 496)
      && (o.code == 0 ==> 0 < o.polls <= 500 && states[o.polls - 1] == OperationEnabled
                          && o.polls == 1 + Rank(states[0]) + Stalls(states, o.polls - 1))
  {
    var o := Power(axisId, dof, stats);
    hide React, Shows, Pending, Power, Stalls, DriveObeys;
    CodeMeans(axisId, dof, stats);
    var n := if o.code == -2 then POLLS - 1 else o.polls - 1;
    ShownByDrive(stats, states, before, n);
    IntervalsAreMovesAndStalls(stats, states, before, n);
  }

  lemma ShownByDrive(stats: seq<bv16>, states: seq<DriveState>, before: bv16, n: nat)
    requires DriveObeys(stats, states, before) && n < |stats|
    ensures |states| == |stats| && Shows(stats[n], states[n])
    ensures Pending(stats[n]) <==> Healthy(states[n]) && states[n] != OperationEnabled
  {
    hide React;
    PendingIsHealthy(stats[n], states[n]);
  }

  /** The drive makes the commanded transition between any two polls. */
  predicate Prompt(stats: seq<bv16>, states: seq<DriveState>, before: bv16)
    requires |stats| == |states|
  {
    forall k :: 0 <= k < |stats| - 1 ==> states[k + 1] == Next(states[k], InForce(stats, k, before))
  }

  /** A drive without a fault that obeys at once is enabled after as many polls as it is transitions away, and one. */
  lemma PromptDrivePowersUp(axisId: int, dof: int, stats: seq<bv16>, states: seq<DriveState>, before: bv16)
    requires 1 <= axisId <= dof && DriveObeys(stats, states, before) && Prompt(stats, states, before) && Healthy(states[0])
    ensures Power(axisId, dof, stats).code == 0
    ensures Power(axisId, dof, stats).polls == 1 + Rank(states[0]) <= 5
  {
    hide React, Shows, Pending;
    EnabledAt(stats, states, before, 0);
  }

  lemma {:induction false} EnabledAt(stats: seq<bv16>, states: seq<DriveState>, before: bv16, k: nat)
    requires DriveObeys(stats, states, before) && Prompt(stats, states, before)
    requires k <= 4 && k < |states| && Healthy(states[k]) && Rank(states[k]) <= 4 - k
    ensures PowerFrom(stats, k).code == 0 && PowerFrom(stats, k).polls == k + 1 + Rank(states[k])
    decreases Rank(states[k])
  {
    ShownByDrive(stats, states, before, k);
    if Pending(stats[k]) {
      hide React, Shows;
      EachMoveProgresses(stats, states, before, k);
      EnabledAt(stats, states, before, k + 1);
    } else {
      PendingByState(stats[k]);
      ReactByState(stats[k]);
    }
  }
}
