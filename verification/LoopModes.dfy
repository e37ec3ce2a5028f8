/** How the control loop reacts to a lasting stop or pause, and to commands it does not know. */
module LoopModes {
  import opened MessageServer
  import opened RobotControl
  import opened Wrappers

  predicate KeepsMode(actions: seq<Action>, mode: uint8) {
    forall i | 0 <= i < |actions| && actions[i].SetMode? :: actions[i].mode == mode
  }

  predicate RobotFine(actions: seq<Action>) {
    forall i | 0 <= i < |actions| && actions[i].Loop? :: actions[i].robotOk
  }

  // ---- a lasting stop ----

  /** Batches that can still be issued from here while the mode stays stop. */
  function StopBudget(pc: Pc): nat {
    if pc in {WaitData, WaitStart, AskStop, AskStopPaused, Clear, Done} then 0 else 1
  }

  lemma StopStep(s: State, a: Action)
    requires s.mode == STOP && (a.SetMode? ==> a.mode == STOP)
    ensures Step(s, a).mode == STOP
    ensures |Step(s, a).issues| + StopBudget(Step(s, a).pc) <= |s.issues| + StopBudget(s.pc)
  {
    hide IsRun, BatchLength, Fetched;
    FetchKeeps(s);
  }

  lemma FetchKeeps(s: State)
    ensures var f := Fetched(s);
            f.mode == s.mode && f.issues == s.issues && f.pc == s.pc && f.time == s.time
  {
  }

  /** Once the mode is stop and stays stop, at most one more batch is issued. */
  lemma {:induction false} StopIssuesAtMostOne(s: State, actions: seq<Action>)
    requires s.mode == STOP && KeepsMode(actions, STOP)
    ensures |Run(s, actions).issues| <= |s.issues| + StopBudget(s.pc) <= |s.issues| + 1
    decreases |actions|
  {
    hide Step;
    if actions != [] {
      StopStep(s, actions[0]);
      StopIssuesAtMostOne(Step(s, actions[0]), actions[1..]);
    }
  }

  // ---- when a lasting stop or pause is acted upon ----

  /** Where the loop acts on the mode: it clears the queue, or stands in the inner loop of the pause. */
  predicate Acts(pc: Pc, mode: uint8) {
    if mode == STOP then pc == Clear else InPause(pc)
  }

  predicate InPause(pc: Pc) {
    pc in {Paused, AskContinue, AskStopPaused}
  }

  ghost predicate ComesToAct(s: State, actions: seq<Action>, mode: uint8)
    decreases |actions|
  {
    Acts(s.pc, mode) || (actions != [] && ComesToAct(Step(s, actions[0]), actions[1..], mode))
  }

  function LoopSteps(actions: seq<Action>): nat
    decreases |actions|
  {
    if actions == [] then 0 else (if actions[0].Loop? then 1 else 0) + LoopSteps(actions[1..])
  }

  predicate Pushes(actions: seq<Action>) {
    exists i :: 0 <= i < |actions| && actions[i].Push?
  }

  /** The next answer of robot_move_ok is yes. */
  predicate MovesNext(actions: seq<Action>)
    decreases |actions|
  {
    actions != [] && if actions[0].Loop? then actions[0].moveOk else MovesNext(actions[1..])
  }

  /** On the way to the mode checks without another fetch. */
  predicate OnTheWay(pc: Pc, mode: uint8) {
    pc in {First, Check, AskStop} || InPause(pc) || pc == if mode == STOP then Clear else AskPause
  }

  /** The loop is on its way to the mode checks, or a batch is in hand or in the queue to get there with. */
  predicate HasWork(s: State, mode: uint8) {
    OnTheWay(s.pc, mode) || s.queue != [] || !s.fetchNext
  }

  predicate FetchesWhenNeeded(s: State) {
    s.pc == Fetch ==> s.fetchNext
  }

  /** In the loop, with the fetch that enters it, and not about to leave it. */
  predicate Looping(s: State, mode: uint8) {
    s.pc !in {WaitData, WaitStart, WaitRobot, Done} && (mode == PAUSE ==> s.pc != Clear) && FetchesWhenNeeded(s)
  }

  /** Loop steps until the mode is acted upon, once there is work; the pause is asked for after the stop. */
  function StepsToAct(s: State, mode: uint8): (n: nat)
    ensures n <= 5
  {
    var later := if mode == STOP then 0 else 1;
    match s.pc
    case Clear => 0
    case AskStop => 1 + later
    case Check => 2 + later
    case Fetch => 3 + later
    case Top => if s.fetchNext then 4 + later else 3 + later
    case First => 4 + later
    case AskPause => if mode == PAUSE then 1 else if s.fetchNext then 5 else 4
    case AskStopPaused => if mode == PAUSE then 0 else 1
    case AskContinue => if mode == PAUSE then 0 else 2
    case _ => if mode == PAUSE then 0 else 3
  }

  predicate Lasting(s: State, mode: uint8, actions: seq<Action>) {
    mode in {STOP, PAUSE} && s.mode == mode && KeepsMode(actions, mode) && RobotFine(actions)
  }

  lemma Progress(s: State, a: Action, mode: uint8)
    requires Looping(s, mode) && Lasting(s, mode, [a]) && !Acts(s.pc, mode)
    ensures Looping(Step(s, a), mode)
    ensures HasWork(Step(s, a), mode) <==> HasWork(s, mode) || a.Push?
    ensures HasWork(s, mode) ==> StepsToAct(Step(s, a), mode) == StepsToAct(s, mode) - if a.Loop? then 1 else 0
  {
    hide IsRun, BatchLength;
    assert a in [a] && [a][0] == a;
  }

  lemma LastingStep(s: State, mode: uint8, actions: seq<Action>)
    requires Lasting(s, mode, actions) && actions != []
    ensures Lasting(s, mode, [actions[0]]) && Lasting(Step(s, actions[0]), mode, actions[1..])
  {
    hide LoopStep;
    ModeStays(s, actions[0]);
  }

  lemma ModeStays(s: State, a: Action)
    ensures !a.SetMode? ==> Step(s, a).mode == s.mode
  {
    hide IsRun, BatchLength;
  }

  lemma {:induction false} WorkComesToAct(s: State, actions: seq<Action>, mode: uint8)
    requires Looping(s, mode) && Lasting(s, mode, actions)
    requires HasWork(s, mode) && LoopSteps(actions) >= StepsToAct(s, mode)
    ensures ComesToAct(s, actions, mode)
    decreases |actions|
  {
    hide Step, HasWork, Looping, Lasting;
    if !Acts(s.pc, mode) && actions != [] {
      LastingStep(s, mode, actions);
      Progress(s, actions[0], mode);
      WorkComesToAct(Step(s, actions[0]), actions[1..], mode);
    } else if !Acts(s.pc, mode) {
      LastingMode(s, mode, actions);
      StepsLeft(s, mode);
    }
  }

  lemma StepsLeft(s: State, mode: uint8)
    requires Looping(s, mode) && mode in {STOP, PAUSE} && !Acts(s.pc, mode)
    ensures StepsToAct(s, mode) > 0
  {
  }

  lemma {:induction false} NoWorkNeverActs(s: State, actions: seq<Action>, mode: uint8)
    requires Looping(s, mode) && Lasting(s, mode, actions) && !HasWork(s, mode) && !Pushes(actions)
    ensures !ComesToAct(s, actions, mode)
    decreases |actions|
  {
    hide Step, Looping, Lasting;
    if actions != [] {
      LastingStep(s, mode, actions);
      Progress(s, actions[0], mode);
      FirstOrLater(actions);
      NoWorkNeverActs(Step(s, actions[0]), actions[1..], mode);
    }
  }

  lemma {:induction false} LoopingActsIff(s: State, actions: seq<Action>, rest: seq<Action>, mode: uint8)
    requires Looping(s, mode) && Lasting(s, mode, actions + rest) && LoopSteps(rest) >= 5 && !Pushes(rest)
    ensures ComesToAct(s, actions + rest, mode) <==> HasWork(s, mode) || Pushes(actions)
    decreases |actions|
  {
    hide Step, HasWork, Looping, Lasting, StepsToAct, Pushes;
    if actions == [] {
      assert actions + rest == rest && !Pushes(actions) by { NoPush(); }
      if HasWork(s, mode) { WorkComesToAct(s, rest, mode); } else { NoWorkNeverActs(s, rest, mode); }
    } else if Acts(s.pc, mode) {
      ActingIsWork(s, mode);
    } else {
      var a, later := actions[0], actions[1..];
      assert (actions + rest)[0] == a && (actions + rest)[1..] == later + rest;
      LastingStep(s, mode, actions + rest);
      Progress(s, a, mode);
      LoopingActsIff(Step(s, a), later, rest, mode);
      FirstOrLater(actions);
    }
  }

  lemma NoPush()
    ensures !Pushes([])
  {
  }

  lemma ActingIsWork(s: State, mode: uint8)
    requires Acts(s.pc, mode)
    ensures HasWork(s, mode)
  {
  }

  // ---- the states that wait for a start ----

  /** The loop waits for a message and the start mode, which does not come, and keeps the queue. */
  lemma {:induction false} WaitingNeverActs(s: State, actions: seq<Action>, mode: uint8)
    requires s.pc in {WaitData, WaitStart} && mode in {STOP, PAUSE} && s.mode == mode && KeepsMode(actions, mode)
    ensures !ComesToAct(s, actions, mode)
    ensures Run(s, actions).pc in {WaitData, WaitStart} && s.queue <= Run(s, actions).queue
    decreases |actions|
  {
    hide IsRun, BatchLength;
    if actions != [] { WaitingNeverActs(Step(s, actions[0]), actions[1..], mode); }
  }

  lemma {:induction false} DoneNeverActs(s: State, actions: seq<Action>, mode: uint8)
    requires s.pc == Done
    ensures !ComesToAct(s, actions, mode)
    decreases |actions|
  {
    if actions != [] { DoneNeverActs(Step(s, actions[0]), actions[1..], mode); }
  }

  /** Asked for robot_move_ok, the loop goes on to fetch, or back to waiting. */
  lemma AskedStep(s: State, a: Action)
    requires s.pc == WaitRobot
    ensures Step(s, a).pc == if !a.Loop? then WaitRobot else if a.moveOk then First else WaitData
  {
  }

  /** Loop steps that are enough from every state. */
  function Enough(pc: Pc, mode: uint8): nat {
    if pc == WaitRobot && mode == PAUSE then 6 else 5
  }

  lemma {:induction false} AskedActsIff(s: State, actions: seq<Action>, rest: seq<Action>, mode: uint8)
    requires s.pc == WaitRobot && Lasting(s, mode, actions + rest) && LoopSteps(rest) >= Enough(s.pc, mode)
    ensures ComesToAct(s, actions + rest, mode) <==> MovesNext(actions + rest)
    decreases |actions| + |rest|
  {
    hide Step, Lasting;
    var all := actions + rest;
    LastingMode(s, mode, all);
    assert all != [];
    AskedStep(s, all[0]);
    LastingStep(s, mode, all);
    var t, later := Step(s, all[0]), all[1..];
    LastingMode(t, mode, later);
    if !all[0].Loop? {
      if actions == [] {
        assert all == rest && [] + rest[1..] == later;
        AskedActsIff(t, [], rest[1..], mode);
      } else {
        assert later == actions[1..] + rest;
        AskedActsIff(t, actions[1..], rest, mode);
      }
    } else if all[0].moveOk {
      StepsRemain(actions, rest);
      WorkComesToAct(t, later, mode);
    } else {
      WaitingNeverActs(t, later, mode);
    }
  }

  lemma LastingMode(s: State, mode: uint8, actions: seq<Action>)
    requires Lasting(s, mode, actions)
    ensures mode in {STOP, PAUSE} && s.mode == mode && KeepsMode(actions, mode)
  {
  }

  /** One action taken off takes off at most one loop step. */
  lemma StepsRemain(actions: seq<Action>, rest: seq<Action>)
    requires LoopSteps(rest) >= 1
    ensures actions + rest != [] && LoopSteps((actions + rest)[1..]) >= LoopSteps(rest) - 1
  {
    if actions == [] {
      assert actions + rest == rest;
    } else {
      assert (actions + rest)[1..] == actions[1..] + rest;
      StepsOfRest(actions[1..], rest);
    }
  }

  lemma {:induction false} StepsOfRest(actions: seq<Action>, rest: seq<Action>)
    ensures LoopSteps(actions + rest) >= LoopSteps(rest)
    decreases |actions|
  {
    if actions == [] {
      assert actions + rest == rest;
    } else {
      assert (actions + rest)[1..] == actions[1..] + rest;
      StepsOfRest(actions[1..], rest);
    }
  }

  // ---- the exact conditions ----

  /** When a mode that lasts comes to be acted upon, by the place where the loop stands. */
  predicate WillAct(s: State, actions: seq<Action>, mode: uint8) {
    match s.pc
    case WaitData => false
    case WaitStart => false
    case WaitRobot => MovesNext(actions)
    case First => true
    case Clear => mode == STOP
    case Done => false
    case _ => HasWork(s, mode) || Pushes(actions)
  }

  lemma ActsIff(s: State, actions: seq<Action>, rest: seq<Action>, mode: uint8)
    requires FetchesWhenNeeded(s) && Lasting(s, mode, actions + rest) && LoopSteps(rest) >= Enough(s.pc, mode) && !Pushes(rest)
    ensures ComesToAct(s, actions + rest, mode) <==> WillAct(s, actions + rest, mode)
  {
    hide HasWork, Pushes, Step, Lasting;
    var all := actions + rest;
    PushesEither(actions, rest);
    LastingMode(s, mode, all);
    match s.pc {
      case WaitData => WaitingNeverActs(s, all, mode);
      case WaitStart => WaitingNeverActs(s, all, mode);
      case WaitRobot => AskedActsIff(s, actions, rest, mode);
      case Done => DoneNeverActs(s, all, mode);
      case Clear =>
        if mode == PAUSE {
          LastingStep(s, mode, all);
          LastingMode(Step(s, all[0]), mode, all[1..]);
          ClearedNeverPauses(s, all);
        }
      case First =>
        FirstIsWork(s, mode);
        LoopingActsIff(s, actions, rest, mode);
      case _ => LoopingActsIff(s, actions, rest, mode);
    }
  }

  lemma FirstIsWork(s: State, mode: uint8)
    requires s.pc == First
    ensures HasWork(s, mode)
  {
  }

  lemma PushesEither(actions: seq<Action>, rest: seq<Action>)
    ensures Pushes(actions + rest) <==> Pushes(actions) || Pushes(rest)
  {
    if i :| 0 <= i < |actions| && actions[i].Push? { assert (actions + rest)[i].Push?; }
    if i :| 0 <= i < |rest| && rest[i].Push? { assert (actions + rest)[|actions| + i].Push?; }
    if i :| 0 <= i < |actions + rest| && (actions + rest)[i].Push? {
      assert (actions + rest)[i] == if i < |actions| then actions[i] else rest[i - |actions|];
    }
  }

  /** A loop about to clear the queue goes on to wait for a start. */
  lemma {:induction false} ClearedNeverPauses(s: State, actions: seq<Action>)
    requires s.pc == Clear && s.mode == PAUSE && KeepsMode(actions, PAUSE)
    ensures !ComesToAct(s, actions, PAUSE)
    decreases |actions|
  {
    hide IsRun, BatchLength;
    if actions != [] {
      var t := Step(s, actions[0]);
      if actions[0].Loop? { WaitingNeverActs(t, actions[1..], PAUSE); } else { ClearedNeverPauses(t, actions[1..]); }
    }
  }

  /**
   * When a lasting stop is seen, from every state and over every interleaving with
   * clients: provided robot_ok keeps answering yes, the loop comes to clear the
   * queue if and only if it is in the loop with a batch or a message to go on with,
   * or one is pushed, or it is about to enter the loop. A loop that waits for a
   * start never does. The rest of the run has five loop steps and pushes nothing.
   */
  lemma StopSeenIff(s: State, actions: seq<Action>, rest: seq<Action>)
    requires FetchesWhenNeeded(s) && s.mode == STOP && KeepsMode(actions + rest, STOP) && RobotFine(actions + rest)
    requires LoopSteps(rest) >= 5 && !Pushes(rest)
    ensures ComesToAct(s, actions + rest, STOP) <==> WillAct(s, actions + rest, STOP)
  {
    hide ComesToAct, WillAct;
    ActsIff(s, actions, rest, STOP);
  }

  /** When a lasting pause is entered: under the same conditions, but a loop that clears the queue goes on to wait. */
  lemma PauseEnteredIff(s: State, actions: seq<Action>, rest: seq<Action>)
    requires FetchesWhenNeeded(s) && s.mode == PAUSE && KeepsMode(actions + rest, PAUSE) && RobotFine(actions + rest)
    requires LoopSteps(rest) >= Enough(s.pc, PAUSE) && !Pushes(rest)
    ensures ComesToAct(s, actions + rest, PAUSE) <==> WillAct(s, actions + rest, PAUSE)
  {
    hide ComesToAct, WillAct;
    ActsIff(s, actions, rest, PAUSE);
  }

  /** Every state of a run from power-on qualifies. */
  lemma EveryRunFetchesWhenNeeded(dt: uint64, actions: seq<Action>)
    ensures FetchesWhenNeeded(Run(Initial(dt), actions))
  {
    hide Run, Conserved, Numbered, IssuesTimely, Anchored;
    InitialInv(dt);
    RunInv(Initial(dt), actions);
  }

  lemma FirstOrLater(actions: seq<Action>)
    requires actions != []
    ensures Pushes(actions) <==> actions[0].Push? || Pushes(actions[1..])
  {
    if i :| 0 <= i < |actions[1..]| && actions[1..][i].Push? { assert actions[i + 1].Push?; }
    if i :| 0 <= i < |actions| && actions[i].Push? {
      if i > 0 { assert actions[1..][i - 1].Push?; }
    }
  }

  /** While the queue stays empty the loop never asks for the mode, whatever the clients set it to: the fetch that
      fails goes straight back to the top. */
  lemma {:induction false} StopUnseenWhileEmpty(s: State, actions: seq<Action>)
    requires s.pc in {Top, Fetch} && s.fetchNext && s.queue == []
    requires forall i | 0 <= i < |actions| :: !actions[i].Push? && (actions[i].Loop? ==> actions[i].robotOk)
    ensures Run(s, actions).pc in {Top, Fetch}
    decreases |actions|
  {
    hide IsRun, BatchLength;
    if actions != [] { StopUnseenWhileEmpty(Step(s, actions[0]), actions[1..]); }
  }

  // ---- a lasting pause ----

  function PauseBudget(pc: Pc): nat {
    if pc in {WaitData, WaitStart, AskStop, AskPause, Paused, AskContinue, AskStopPaused, Clear, Done} then 0 else 1
  }

  /** How often robot_ok answers no to the inner loop of the pause. */
  function Leaks(s: State, actions: seq<Action>): nat
    decreases |actions|
  {
    if actions == [] then 0 else
      (if Leak(s, actions[0]) then 1 else 0) + Leaks(Step(s, actions[0]), actions[1..])
  }

  predicate Leak(s: State, a: Action) {
    a.Loop? && s.pc == Paused && !a.robotOk
  }

  lemma PauseStep(s: State, a: Action)
    requires s.mode == PAUSE && (a.SetMode? ==> a.mode == PAUSE)
    ensures Step(s, a).mode == PAUSE
    ensures |Step(s, a).issues| + PauseBudget(Step(s, a).pc) <=
            |s.issues| + PauseBudget(s.pc) + if Leak(s, a) then 1 else 0
  {
    hide IsRun, BatchLength;
  }

  /** While the mode stays pause, at most one more batch is issued, and one for every no of robot_ok to the inner
      loop: without such an answer a pause holds. */
  lemma {:induction false} PauseIssuesBounded(s: State, actions: seq<Action>)
    requires s.mode == PAUSE && KeepsMode(actions, PAUSE)
    ensures |Run(s, actions).issues| <= |s.issues| + PauseBudget(s.pc) + Leaks(s, actions)
    ensures PauseBudget(s.pc) <= 1 && (RobotFine(actions) ==> Leaks(s, actions) == 0)
    decreases |actions|
  {
    hide Step;
    if actions != [] {
      PauseStep(s, actions[0]);
      PauseIssuesBounded(Step(s, actions[0]), actions[1..]);
    }
  }

  // ---- whether the clock stands while paused ----

  function NextInPause(pc: Pc): Pc {
    match pc
    case Paused => AskContinue
    case AskContinue => AskStopPaused
    case _ => Paused
  }

  /** The first answer of robot_ok from here on is yes. */
  predicate AnswersYes(actions: seq<Action>)
    decreases |actions|
  {
    actions != [] && if actions[0].Loop? then actions[0].robotOk else AnswersYes(actions[1..])
  }

  /** From the answers alone: robot_ok says no to the inner loop, and yes to the outer loop right after. */
  predicate Resumes(pc: Pc, actions: seq<Action>)
    decreases |actions|
  {
    actions != [] &&
    if !actions[0].Loop? then Resumes(pc, actions[1..])
    else if pc == Paused && !actions[0].robotOk then AnswersYes(actions[1..])
    else Resumes(NextInPause(pc), actions[1..])
  }

  lemma TickGrows(s: State, a: Action)
    ensures Step(s, a).tick == s.tick + if a.Loop? && s.pc == Top && a.robotOk then 1 else 0
    ensures Step(s, a).tick == s.tick ==> (s.pc in {Top, Done} || InPause(s.pc)) ==>
              Step(s, a).time == s.time && Step(s, a).issues == s.issues
  {
    hide IsRun, BatchLength;
  }

  lemma {:induction false} TicksGrow(s: State, actions: seq<Action>)
    ensures Run(s, actions).tick >= s.tick
    decreases |actions|
  {
    hide Step;
    if actions != [] {
      TickGrows(s, actions[0]);
      TicksGrow(Step(s, actions[0]), actions[1..]);
    }
  }

  lemma {:induction false} DoneStays(s: State, actions: seq<Action>)
    requires s.pc == Done
    ensures Run(s, actions).tick == s.tick && Run(s, actions).time == s.time && Run(s, actions).issues == s.issues
    decreases |actions|
  {
    if actions != [] { DoneStays(Step(s, actions[0]), actions[1..]); }
  }

  lemma {:induction false} TopTicksIff(s: State, actions: seq<Action>)
    requires s.pc == Top
    ensures Run(s, actions).tick == s.tick <==> !AnswersYes(actions)
    ensures !AnswersYes(actions) ==> Run(s, actions).time == s.time && Run(s, actions).issues == s.issues
    decreases |actions|
  {
    hide LoopStep;
    if actions != [] {
      var a, t := actions[0], Step(s, actions[0]);
      TickGrows(s, a);
      if !a.Loop? {
        TopTicksIff(t, actions[1..]);
      } else if a.robotOk {
        TicksGrow(t, actions[1..]);
      } else {
        TopStops(s, a);
        DoneStays(t, actions[1..]);
      }
    }
  }

  lemma TopStops(s: State, a: Action)
    requires s.pc == Top && a.Loop? && !a.robotOk
    ensures Step(s, a) == s.(pc := Done)
  {
  }

  lemma InPauseStep(s: State, a: Action)
    requires InPause(s.pc) && s.mode == PAUSE && a.Loop?
    ensures Step(s, a) == s.(pc := if Leak(s, a) then Top else NextInPause(s.pc))
  {
  }

  /** The clock of a paused loop stands, and nothing is issued, if and only if robot_ok does not say no to the inner
      loop and yes right after, whatever else the clients do without changing the mode. */
  lemma {:induction false} PauseHoldsIff(s: State, actions: seq<Action>)
    requires InPause(s.pc) && s.mode == PAUSE && KeepsMode(actions, PAUSE)
    ensures Run(s, actions).tick == s.tick <==> !Resumes(s.pc, actions)
    ensures !Resumes(s.pc, actions) ==> Run(s, actions).time == s.time && Run(s, actions).issues == s.issues
    decreases |actions|
  {
    hide LoopStep;
    if actions != [] {
      var a, t := actions[0], Step(s, actions[0]);
      if !a.Loop? {
        PauseHoldsIff(t, actions[1..]);
      } else {
        InPauseStep(s, a);
        if Leak(s, a) { TopTicksIff(t, actions[1..]); } else { PauseHoldsIff(t, actions[1..]); }
      }
    }
  }

  // ---- how a pause ends ----

  /** The first state of the run that is not in the inner loop of the pause. */
  function LeavesPause(s: State, actions: seq<Action>): Option<State>
    decreases |actions|
  {
    if !InPause(s.pc) then Some(s)
    else if actions == [] then None
    else LeavesPause(Step(s, actions[0]), actions[1..])
  }

  /** The clock stands, nothing is issued, the batch in hand stays there and no message is lost. */
  predicate Untouched(s: State, t: State) {
    && t.time == s.time && t.tick == s.tick && t.issues == s.issues
    && t.held == s.held && t.fetchNext == s.fetchNext && s.queue <= t.queue
  }

  /** Loop steps until the mode that ends the pause is asked for. */
  function StepsToEnd(pc: Pc, mode: uint8): (n: nat)
    ensures n <= 3
  {
    match pc
    case AskContinue => if mode == CONTINUE then 1 else 2
    case AskStopPaused => if mode == CONTINUE then 3 else 1
    case _ => if mode == CONTINUE then 2 else 3
  }

  lemma PausedTurn(s: State, a: Action)
    requires InPause(s.pc) && KeepsMode([a], s.mode) && RobotFine([a])
    ensures Untouched(s, Step(s, a)) && Step(s, a).mode == s.mode
    ensures s.mode !in {CONTINUE, STOP} ==> InPause(Step(s, a).pc)
    ensures s.mode in {CONTINUE, STOP} ==>
              if a.Loop? && StepsToEnd(s.pc, s.mode) == 1 then Step(s, a).pc == if s.mode == CONTINUE then Top else Clear
              else InPause(Step(s, a).pc) && StepsToEnd(Step(s, a).pc, s.mode) == StepsToEnd(s.pc, s.mode) - if a.Loop? then 1 else 0
  {
    assert [a][0] == a;
  }

  lemma FirstAndRest(actions: seq<Action>, mode: uint8)
    requires actions != [] && KeepsMode(actions, mode) && RobotFine(actions)
    ensures KeepsMode([actions[0]], mode) && RobotFine([actions[0]])
    ensures KeepsMode(actions[1..], mode) && RobotFine(actions[1..])
  {
  }

  /** While robot_ok answers yes, a pause in which the mode lasts ends exactly for two modes: continue (4) leads back
      to the top of the loop, with the clock and the batch in hand as they were, and stop (2) to clearing the queue.
      Under every other mode, the start mode (1) included, the loop stays in the pause. */
  lemma {:induction false} PauseEndsIff(s: State, actions: seq<Action>)
    requires InPause(s.pc) && KeepsMode(actions, s.mode) && RobotFine(actions)
    requires LoopSteps(actions) >= StepsToEnd(s.pc, s.mode)
    ensures LeavesPause(s, actions).Some? <==> s.mode == 4 || s.mode == 2
    ensures s.mode == 4 ==> LeavesPause(s, actions).value.pc == Top
    ensures s.mode == 2 ==> LeavesPause(s, actions).value.pc == Clear
    ensures LeavesPause(s, actions).Some? ==> Untouched(s, LeavesPause(s, actions).value)
    decreases |actions|
  {
    hide Step, StepsToEnd;
    if s.mode !in {CONTINUE, STOP} {
      PauseStays(s, actions);
    } else {
      StepsAreLeft(s.pc, s.mode);
      var a, t := actions[0], Step(s, actions[0]);
      FirstAndRest(actions, s.mode);
      PausedTurn(s, a);
      if InPause(t.pc) { PauseEndsIff(t, actions[1..]); }
    }
  }

  lemma StepsAreLeft(pc: Pc, mode: uint8)
    requires InPause(pc)
    ensures StepsToEnd(pc, mode) > 0
  {
  }

  lemma {:induction false} PauseStays(s: State, actions: seq<Action>)
    requires InPause(s.pc) && KeepsMode(actions, s.mode) && RobotFine(actions) && s.mode !in {CONTINUE, STOP}
    ensures LeavesPause(s, actions).None?
    ensures InPause(Run(s, actions).pc) && Untouched(s, Run(s, actions))
    decreases |actions|
  {
    hide Step, StepsToEnd;
    if actions != [] {
      FirstAndRest(actions, s.mode);
      PausedTurn(s, actions[0]);
      PauseStays(Step(s, actions[0]), actions[1..]);
    }
  }

  // ---- how the loop is entered, and how it runs under the other modes ----

  predicate MovesFine(actions: seq<Action>) {
    forall i | 0 <= i < |actions| && actions[i].Loop? :: actions[i].moveOk
  }

  ghost predicate ComesTo(s: State, actions: seq<Action>, pc: Pc)
    decreases |actions|
  {
    s.pc == pc || (actions != [] && ComesTo(Step(s, actions[0]), actions[1..], pc))
  }

  function StepsToEnter(pc: Pc): nat {
    match pc
    case WaitData => 3
    case WaitStart => 2
    case _ => 1
  }

  lemma WaitingTurn(s: State, a: Action)
    requires s.pc in {WaitData, WaitStart, WaitRobot} && s.queue != []
    requires (a.SetMode? ==> a.mode == s.mode) && (a.Loop? ==> a.moveOk)
    ensures Step(s, a).mode == s.mode && Step(s, a).queue != []
    ensures s.mode == START && a.Loop? ==>
              Step(s, a).pc == if s.pc == WaitData then WaitStart else if s.pc == WaitStart then WaitRobot else First
    ensures s.mode != START && a.Loop? && s.pc != WaitRobot ==> Step(s, a).pc in {WaitData, WaitStart}
    ensures !a.Loop? ==> Step(s, a).pc == s.pc
  {
  }

  /** A loop that waits with a message in its queue, while robot_move_ok answers yes and the mode lasts, fetches the
      message exactly under the start mode (1). */
  lemma {:induction false} EntersIff(s: State, actions: seq<Action>)
    requires s.pc in {WaitData, WaitStart} || (s.pc == WaitRobot && s.mode == START)
    requires s.queue != [] && KeepsMode(actions, s.mode) && MovesFine(actions)
    requires LoopSteps(actions) >= StepsToEnter(s.pc)
    ensures ComesTo(s, actions, First) <==> s.mode == 1
    decreases |actions|
  {
    hide Step;
    if s.mode != START {
      NeverEnters(s, actions);
    } else {
      var t := Step(s, actions[0]);
      WaitingTurn(s, actions[0]);
      if t.pc != First { EntersIff(t, actions[1..]); }
    }
  }

  lemma {:induction false} NeverEnters(s: State, actions: seq<Action>)
    requires s.pc in {WaitData, WaitStart} && s.mode != START
    requires s.queue != [] && KeepsMode(actions, s.mode) && MovesFine(actions)
    ensures !ComesTo(s, actions, First)
    decreases |actions|
  {
    hide Step;
    if actions != [] {
      WaitingTurn(s, actions[0]);
      NeverEnters(Step(s, actions[0]), actions[1..]);
    }
  }

  predicate NeverStarts(actions: seq<Action>) {
    forall i | 0 <= i < |actions| && actions[i].SetMode? :: actions[i].mode != 1
  }

  /** From power-on nothing is fetched or issued before some client sets the start mode (1), whatever else happens. */
  lemma NothingBeforeStart(dt: uint64, actions: seq<Action>)
    requires NeverStarts(actions)
    ensures Run(Initial(dt), actions).issues == [] && Run(Initial(dt), actions).pc in {WaitData, WaitStart}
  {
    hide Run;
    WaitsForStart(Initial(dt), actions);
  }

  lemma {:induction false} WaitsForStart(s: State, actions: seq<Action>)
    requires s.pc in {WaitData, WaitStart} && s.mode != START && NeverStarts(actions)
    ensures Run(s, actions).issues == s.issues && Run(s, actions).pc in {WaitData, WaitStart}
    decreases |actions|
  {
    hide IsRun, BatchLength;
    if actions != [] { WaitsForStart(Step(s, actions[0]), actions[1..]); }
  }

  /** Under a lasting mode other than stop and pause, known to the loop or not, the loop goes round and round. */
  lemma {:induction false} OtherModesRun(s: State, actions: seq<Action>)
    requires s.pc in {Top, Fetch, Check, AskStop, AskPause} && s.mode !in {STOP, PAUSE}
    requires KeepsMode(actions, s.mode) && RobotFine(actions)
    ensures Run(s, actions).pc in {Top, Fetch, Check, AskStop, AskPause}
    decreases |actions|
  {
    hide IsRun, BatchLength;
    if actions != [] { OtherModesRun(Step(s, actions[0]), actions[1..]); }
  }

  // ---- a run from power-on that issues a batch while paused ----

  lemma OneMoreAction(dt: uint64, actions: seq<Action>, s: State, a: Action) returns (more: seq<Action>, t: State)
    requires Run(Initial(dt), actions) == s
    ensures more == actions + [a] && t == Step(s, a) && Run(Initial(dt), more) == t
  {
    hide Step;
    more, t := actions + [a], Step(s, a);
    RunAppend(Initial(dt), actions, [a]);
    RunOne(s, a);
  }

  /** A message arrives, the start mode is set, and the loop is entered with the message in hand. */
  lemma EnteredRun(dt: uint64, m: Message) returns (actions: seq<Action>, s: State)
    requires m.timeNs == 0
    ensures Run(Initial(dt), actions) == s
    ensures s.pc == Top && s.mode == START && s.issues == [] && !s.fetchNext
    ensures s.held == s.pushed == [Item(0, m)] && s.queue == [] && s.time == 0 && s.dt == dt
  {
    hide Run, BatchLength;
    var step := Loop(true, true, {});
    RunNothing(Initial(dt));
    actions, s := OneMoreAction(dt, [], Initial(dt), Push(m));
    actions, s := OneMoreAction(dt, actions, s, SetMode(START));
    actions, s := OneMoreAction(dt, actions, s, step);
    actions, s := OneMoreAction(dt, actions, s, step);
    actions, s := OneMoreAction(dt, actions, s, step);
    FetchesOne(s, m);
    actions, s := OneMoreAction(dt, actions, s, step);
  }

  /** The message waits for a busy arm when the client pauses. */
  lemma PausedRun(dt: uint64, m: Message) returns (actions: seq<Action>, s: State)
    requires m.timeNs == 0 && m.kind == 0
    ensures Run(Initial(dt), actions) == s
    ensures s.pc == Paused && s.mode == PAUSE && s.issues == [] && !s.fetchNext && s.held == [Item(0, m)]
    ensures s.time == dt && s.dt == dt
  {
    hide Run, BatchLength;
    var step := Loop(true, true, {});
    actions, s := EnteredRun(dt, m);
    actions, s := OneMoreAction(dt, actions, s, step);
    assert LeftArm in GroupsOf(m.kind) && Msgs(s.held)[0] == m;
    actions, s := OneMoreAction(dt, actions, s, step);
    actions, s := OneMoreAction(dt, actions, s, SetMode(PAUSE));
    actions, s := OneMoreAction(dt, actions, s, step);
    actions, s := OneMoreAction(dt, actions, s, step);
  }

  lemma FetchesOne(s: State, m: Message)
    requires s.queue == [Item(0, m)]
    ensures Fetched(s).held == [Item(0, m)] && Fetched(s).queue == []
  {
    assert Msgs(s.queue) == [m];
    BatchIsMaximal([m], 1);
  }

  /** So a pause does leak, in a run from power-on: the mode is pause and nothing is issued, robot_ok answers no
      once, and two answers later a batch goes out. */
  lemma FlickerLeaksPause(dt: uint64) returns (before: seq<Action>, after: seq<Action>)
    ensures Run(Initial(dt), before).mode == 3 && Run(Initial(dt), before).issues == []
    ensures KeepsMode(after, PAUSE) && forall i | 0 <= i < |after| :: after[i].Loop?
    ensures |Run(Initial(dt), before + after).issues| == 1
  {
    hide Run;
    var s: State;
    before, s := PausedRun(dt, Message(0, 0, 0));
    var no, yes := Loop(false, true, {}), Loop(true, true, {(0, LeftArm)});
    after := [no, yes, yes];
    var all, t := OneMoreAction(dt, before, s, no);
    all, t := OneMoreAction(dt, all, t, yes);
    assert Msgs(t.held) == [Message(0, 0, 0)];
    all, t := OneMoreAction(dt, all, t, yes);
    assert all == before + after;
  }

  /** A run from power-on that pauses, holds its batch for as long as the clients like, and issues that batch when
      they set the continue mode. */
  lemma ContinuedRun(dt: uint64, m: Message) returns (paused: seq<Action>, continued: seq<Action>)
    requires m.timeNs == 0 && m.kind == 0
    ensures var s := Run(Initial(dt), paused); InPause(s.pc) && s.mode == PAUSE && s.issues == []
    ensures forall waiting | KeepsMode(waiting, PAUSE) && RobotFine(waiting) ::
              Run(Run(Initial(dt), paused), waiting).issues == []
    ensures var s := Run(Initial(dt), paused + continued);
            s.mode == CONTINUE && |s.issues| == 1 && s.issues[0].batch == [Item(0, m)] && s.issues[0].time == 2 * dt % TWO_64
  {
    hide Run, BatchLength;
    var s: State;
    paused, s := PausedRun(dt, m);
    forall waiting | KeepsMode(waiting, PAUSE) && RobotFine(waiting) ensures Run(s, waiting).issues == [] {
      PauseStays(s, waiting);
    }
    var yes := Loop(true, true, {(0, LeftArm)});
    continued := [SetMode(CONTINUE), yes, yes, yes, yes];
    var all, t := OneMoreAction(dt, paused, s, SetMode(CONTINUE));
    all, t := OneMoreAction(dt, all, t, yes);
    all, t := OneMoreAction(dt, all, t, yes);
    all, t := OneMoreAction(dt, all, t, yes);
    assert Msgs(t.held) == [m];
    all, t := OneMoreAction(dt, all, t, yes);
    assert all == paused + continued;
  }

  // ---- runs from power-on in which a mode is not acted upon ----

  /** The only message is issued and then a client sets a mode, stop or pause or any other: the loop ticks on and
      does not ask for it for as long as no message is pushed. */
  lemma UnseenRun(dt: uint64, mode: uint8) returns (actions: seq<Action>)
    ensures var s := Run(Initial(dt), actions);
            s.mode == mode && s.pc == Top && s.fetchNext && s.queue == [] && |s.issues| == 1
    ensures forall more | !Pushes(more) && RobotFine(more) :: Run(Run(Initial(dt), actions), more).pc in {Top, Fetch}
  {
    hide Run, BatchLength;
    var s: State;
    var m, yes := Message(0, 0, 0), Loop(true, true, {(0, LeftArm)});
    actions, s := EnteredRun(dt, m);
    actions, s := OneMoreAction(dt, actions, s, yes);
    assert Msgs(s.held) == [m];
    actions, s := OneMoreAction(dt, actions, s, yes);
    actions, s := OneMoreAction(dt, actions, s, yes);
    actions, s := OneMoreAction(dt, actions, s, yes);
    actions, s := OneMoreAction(dt, actions, s, SetMode(mode));
    forall more | !Pushes(more) && RobotFine(more) ensures Run(s, more).pc in {Top, Fetch} {
      StopUnseenWhileEmpty(s, more);
    }
  }

  /** A message is pushed and then the stop comes before any start. */
  lemma StoppedRun(dt: uint64, m: Message) returns (actions: seq<Action>, s: State)
    ensures Run(Initial(dt), actions) == s
    ensures s.mode == STOP && s.pc == WaitData && s.fetchNext && s.queue == [Item(0, m)]
  {
    hide Run, BatchLength;
    var step := Loop(true, true, {});
    RunNothing(Initial(dt));
    actions, s := OneMoreAction(dt, [], Initial(dt), Push(m));
    actions, s := OneMoreAction(dt, actions, s, SetMode(STOP));
    actions, s := OneMoreAction(dt, actions, s, step);
    actions, s := OneMoreAction(dt, actions, s, step);
  }

  /** Then the loop waits and never clears, and the message is still there when a start comes, to be the first that
      is fetched. */
  lemma StopKeepsMessage(dt: uint64, m: Message) returns (stopped: seq<Action>, started: seq<Action>)
    ensures var s := Run(Initial(dt), stopped); s.mode == STOP && s.queue == [Item(0, m)]
    ensures forall more | KeepsMode(more, STOP) :: !ComesToAct(Run(Initial(dt), stopped), more, STOP)
    ensures Run(Initial(dt), stopped + started).pc == Top && Run(Initial(dt), stopped + started).held == [Item(0, m)]
  {
    hide Run, BatchLength;
    var step, s := Loop(true, true, {}), Initial(dt);
    stopped, s := StoppedRun(dt, m);
    forall more | KeepsMode(more, STOP) ensures !ComesToAct(s, more, STOP) { WaitingNeverActs(s, more, STOP); }
    hide ComesToAct;
    started := [SetMode(START), step, step, step, step];
    var all, t := OneMoreAction(dt, stopped, s, SetMode(START));
    all, t := OneMoreAction(dt, all, t, step);
    all, t := OneMoreAction(dt, all, t, step);
    all, t := OneMoreAction(dt, all, t, step);
    FetchesOne(t, m);
    all, t := OneMoreAction(dt, all, t, step);
    assert all == stopped + started;
  }

  // ---- an unknown command kind blocks the loop ----

  predicate Stuck(s: State) {
    InLoop(s.pc) && s.pc != Fetch && !s.fetchNext && s.held != [] && |s.pushed| > 0 &&
    exists k :: 0 <= k < |s.held| && !Known(s.held[k].msg.kind)
  }

  lemma StuckStep(s: State, a: Action)
    requires Stuck(s)
    ensures s.base <= Step(s, a).base && Step(s, a).issues == s.issues
    ensures Step(s, a).base == s.base ==> Stuck(Step(s, a))
  {
    hide BatchLength, GroupsOf;
    var k :| 0 <= k < |s.held| && !Known(s.held[k].msg.kind);
    assert Msgs(s.held)[k].kind == s.held[k].msg.kind;
  }

  lemma {:induction false} BaseGrows(s: State, actions: seq<Action>)
    ensures s.base <= Run(s, actions).base
    decreases |actions|
  {
    hide IsRun, BatchLength;
    if actions != [] { BaseGrows(Step(s, actions[0]), actions[1..]); }
  }

  /** A fetched batch with a command kind that is_run does not know is never issued, nor is anything behind it,
      until a stop clears the queue. */
  lemma {:induction false} UnknownKindBlocks(s: State, actions: seq<Action>)
    requires Stuck(s)
    ensures Run(s, actions).base == s.base ==> Run(s, actions).issues == s.issues
    decreases |actions|
  {
    hide Step, Stuck;
    if actions != [] {
      var t := Step(s, actions[0]);
      StuckStep(s, actions[0]);
      BaseGrows(t, actions[1..]);
      if t.base == s.base { UnknownKindBlocks(t, actions[1..]); }
    }
  }

  /** Such a batch does get fetched, in a run from power-on, and nothing is issued before the next clear. */
  lemma StuckRun(dt: uint64) returns (actions: seq<Action>)
    ensures var s := Run(Initial(dt), actions);
            Stuck(s) && s.mode == START && s.issues == []
    ensures forall more | Run(Run(Initial(dt), actions), more).base == Run(Initial(dt), actions).base ::
              Run(Run(Initial(dt), actions), more).issues == []
  {
    hide Run;
    var m, s := Message(11, 0, 0), Initial(dt);
    actions, s := EnteredRun(dt, m);
    assert s.held[0].msg.kind == 11;
    forall more | Run(s, more).base == s.base ensures Run(s, more).issues == [] { UnknownKindBlocks(s, more); }
  }

  // ---- which batches is_run can let pass ----

  const GROUPS := {LeftArm, RightArm, Foot, Head, Waist}

  /** Every query answers idle. */
  function AllIdle(n: nat): set<(nat, Group)> {
    set i, g | 0 <= i < n && g in GROUPS :: (i, g)
  }

  lemma AllIdleHas(n: nat, i: nat, g: Group)
    requires i < n
    ensures (i, g) in AllIdle(n)
  {
    assert g in GROUPS;
  }

  /** Some answers of the axis groups let a batch pass if and only if it is due and its kinds are all known. */
  lemma PassesIff(time: uint64, batch: seq<Message>)
    requires batch != []
    ensures (exists idle :: IsRun(time, batch, idle)) <==>
            time >= batch[0].timeNs && forall i | 0 <= i < |batch| :: Known(batch[i].kind)
  {
    hide GroupsOf;
    if time >= batch[0].timeNs && forall i | 0 <= i < |batch| :: Known(batch[i].kind) {
      forall i, g | 0 <= i < |batch| && g in GroupsOf(batch[i].kind) ensures (i, g) in AllIdle(|batch|) {
        AllIdleHas(|batch|, i, g);
      }
      assert IsRun(time, batch, AllIdle(|batch|));
    }
  }

  /** At the point of the check the loop can issue the batch in hand if and only if it is due and knows its kinds. */
  lemma CheckCanIssueIff(s: State)
    requires s.pc == Check && s.held != []
    ensures (exists idle :: Step(s, Loop(true, true, idle)).issues != s.issues) <==>
            s.time >= s.held[0].msg.timeNs && forall i | 0 <= i < |s.held| :: Known(s.held[i].msg.kind)
  {
    hide IsRun;
    var ms := Msgs(s.held);
    PassesIff(s.time, ms);
    assert ms[0] == s.held[0].msg;
    assert (forall i | 0 <= i < |ms| :: Known(ms[i].kind)) <==> forall i | 0 <= i < |s.held| :: Known(s.held[i].msg.kind);
    if idle :| IsRun(s.time, ms, idle) {
      assert Step(s, Loop(true, true, idle)).issues != s.issues;
    }
  }
}
