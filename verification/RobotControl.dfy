/** RobotControl: the loop that issues timed batches of commands, as a machine of its atomic steps interleaved
    with the calls of client threads. */
module RobotControl {
  import opened MessageServer

  // ---- axis groups ----

  datatype Group = LeftArm | RightArm | Foot | Head | Waist

  /** The groups a command kind moves; is_run refuses kinds it does not know. */
  function GroupsOf(kind: uint8): set<Group> {
    match kind
    case 0 => {LeftArm}
    case 3 => {LeftArm}
    case 1 => {RightArm}
    case 4 => {RightArm}
    case 2 => {LeftArm, RightArm}
    case 5 => {LeftArm, RightArm}
    case 6 => {Foot}
    case 7 => {Head}
    case 8 => {Waist}
    case 9 => {LeftArm, RightArm, Foot, Head, Waist}
    case 10 => {LeftArm, RightArm, Foot, Head, Waist}
    case _ => {}
  }

  predicate Known(kind: uint8) {
    kind <= 10
  }

  // ---- the machine ----

  /** A pushed message with its place in the order of all pushes. */
  datatype Item = Item(serial: nat, msg: Message)

  /** A batch handed to move: the clock, the tick since power-on, and which queries (message index, group) had
      read idle. */
  datatype Issue = Issue(batch: seq<Item>, time: uint64, tick: nat, idle: set<(nat, Group)>)

  /** Where the loop stands between two atomic steps. */
  datatype Pc =
    | WaitData | WaitStart | WaitRobot | First
    | Top | Fetch | Check | AskStop | AskPause
    | Paused | AskContinue | AskStopPaused | Clear | Done

  datatype State = State(
    pc: Pc, queue: seq<Item>, mode: uint8, held: seq<Item>, fetchNext: bool, time: uint64, dt: uint64,
    // history
    pushed: seq<Item>, base: nat, issues: seq<Issue>, mark: nat, start: uint64, ticks: nat, tick: nat)

  /** Client calls, and one step of the loop with the answers that the robot gives to it. */
  datatype Action =
    | Push(msg: Message)
    | SetMode(mode: uint8)
    | Loop(robotOk: bool, moveOk: bool, idle: set<(nat, Group)>)

  function Msgs(items: seq<Item>): (ms: seq<Message>)
    ensures |ms| == |items| && forall i | 0 <= i < |items| :: ms[i] == items[i].msg
  {
    seq(|items|, i requires 0 <= i < |items| => items[i].msg)
  }

  /** is_run: due, and every axis group that the batch names reads idle. */
  predicate IsRun(time: uint64, batch: seq<Message>, idle: set<(nat, Group)>)
    requires batch != []
  {
    time >= batch[0].timeNs &&
    forall i | 0 <= i < |batch| :: Known(batch[i].kind) && forall g | g in GroupsOf(batch[i].kind) :: (i, g) in idle
  }

  function Initial(dt: uint64): State {
    State(WaitData, [], STOP, [], true, 0, dt, [], 0, [], 0, 0, 0, 0)
  }

  function Goto(s: State, pc: Pc): State {
    s.(pc := pc)
  }

  /** GetMessageData: the batch goes from the queue to the loop's own vector. */
  function Fetched(s: State): State {
    var n := BatchLength(Msgs(s.queue));
    s.(held := s.queue[..n], queue := s.queue[n..], fetchNext := false)
  }

  function LoopStep(s: State, robotOk: bool, moveOk: bool, idle: set<(nat, Group)>): State {
    match s.pc
    case WaitData => Goto(s, if s.queue == [] then WaitData else WaitStart)
    case WaitStart => Goto(s, if s.mode == START then WaitRobot else WaitData)
    case WaitRobot => Goto(s, if moveOk then First else WaitData)
    case First =>
      var f := Fetched(s);
      var t := if f.held == [] then 0 else f.held[0].msg.timeNs;
      f.(pc := Top, time := t, start := t, ticks := 0)
    case Top =>
      if robotOk then
        s.(pc := if s.fetchNext then Fetch else Check,
           time := (s.time + s.dt) % TWO_64, ticks := s.ticks + 1, tick := s.tick + 1)
      else Goto(s, Done)
    case Fetch => if s.queue == [] then Goto(s, Top) else Goto(Fetched(s), Check)
    case Check =>
      if s.held != [] && IsRun(s.time, Msgs(s.held), idle) then
        s.(pc := AskStop, fetchNext := true,
           issues := s.issues + [Issue(s.held, s.time, s.tick, idle)])
      else Goto(s, AskStop)
    case AskStop => Goto(s, if s.mode == STOP then Clear else AskPause)
    case AskPause => Goto(s, if s.mode == PAUSE then Paused else Top)
    case Paused => Goto(s, if robotOk then AskContinue else Top)
    case AskContinue => Goto(s, if s.mode == CONTINUE then Top else AskStopPaused)
    case AskStopPaused => Goto(s, if s.mode == STOP then Clear else Paused)
    case Clear =>
      s.(pc := WaitData, queue := [], held := [], fetchNext := true,
         pushed := [], base := s.base + |s.pushed|, mark := |s.issues|)
    case Done => s
  }

  function Step(s: State, a: Action): State {
    match a
    case Push(m) =>
      var item := Item(s.base + |s.pushed|, m);
      s.(queue := s.queue + [item], pushed := s.pushed + [item])
    case SetMode(m) => s.(mode := m)
    case Loop(robotOk, moveOk, idle) => LoopStep(s, robotOk, moveOk, idle)
  }

  function Run(s: State, actions: seq<Action>): State
    decreases |actions|
  {
    if actions == [] then s else Run(Step(s, actions[0]), actions[1..])
  }

  // ---- the invariant ----

  function Flatten(issues: seq<Issue>): seq<Item> {
    if issues == [] then [] else Flatten(issues[..|issues| - 1]) + issues[|issues| - 1].batch
  }

  /** The batch fetched and not yet issued. */
  function InHand(s: State): seq<Item> {
    if s.fetchNext then [] else s.held
  }

  /** Every message pushed since the last clear is accounted for, in order: issued, in hand, or queued. */
  predicate Conserved(s: State) {
    s.mark <= |s.issues| && Flatten(s.issues[s.mark..]) + InHand(s) + s.queue == s.pushed
  }

  predicate Numbered(s: State) {
    && (forall k | 0 <= k < |s.pushed| :: s.pushed[k].serial == s.base + k)
    && s.mark <= |s.issues|
    && (forall x | x in Flatten(s.issues[..s.mark]) :: x.serial < s.base)
    && Ascending(Flatten(s.issues[..s.mark]))
  }

  predicate Ascending(items: seq<Item>) {
    forall i, j | 0 <= i < j < |items| :: items[i].serial < items[j].serial
  }

  predicate SameTime(items: seq<Item>) {
    forall i | 0 <= i < |items| :: items[i].msg.timeNs == items[0].msg.timeNs
  }

  predicate InLoop(pc: Pc) {
    pc !in {WaitData, WaitStart, WaitRobot, First}
  }

  predicate Placed(s: State) {
    && (s.pc in {WaitStart, WaitRobot, First} ==> s.queue != [])
    && (!InLoop(s.pc) ==> s.fetchNext)
    && (s.pc == Fetch ==> s.fetchNext)
    && (s.pc == Check ==> !s.fetchNext)
    && (!s.fetchNext ==> s.held != [] && SameTime(s.held))
    && (InLoop(s.pc) ==> s.time == (s.start + s.ticks * s.dt) % TWO_64)
    && (s.pc in {Fetch, Check} ==> s.ticks >= 1 && (s.issues != [] ==> s.issues[|s.issues| - 1].tick < s.tick))
  }

  /** What holds of each issued batch. */
  predicate Timely(e: Issue) {
    && e.batch != [] && SameTime(e.batch)
    && IsRun(e.time, Msgs(e.batch), e.idle)
  }

  predicate IssuesTimely(s: State) {
    && (forall i | 0 <= i < |s.issues| :: Timely(s.issues[i]))
    && (forall i, j | 0 <= i < j < |s.issues| :: s.issues[i].tick < s.issues[j].tick)
    && (s.issues != [] ==> s.issues[|s.issues| - 1].tick <= s.tick)
  }

  /** The clock of the loop was set by the first batch fetched since the last clear: the first one issued since,
      or, while none is issued, the one in hand. */
  predicate Anchored(s: State) {
    && s.mark <= |s.issues|
    && (!InLoop(s.pc) ==> s.mark == |s.issues|)
    && (s.mark < |s.issues| ==> s.issues[s.mark].batch != [] && s.start == s.issues[s.mark].batch[0].msg.timeNs)
    && (InLoop(s.pc) && s.mark == |s.issues| ==> !s.fetchNext && s.held != [] && s.start == s.held[0].msg.timeNs)
  }

  predicate Inv(s: State) {
    Conserved(s) && Numbered(s) && Placed(s) && IssuesTimely(s) && Anchored(s)
  }

  lemma FlattenNone()
    ensures Flatten([]) == []
  {
  }

  lemma FlattenAppend(issues: seq<Issue>, mark: nat, e: Issue)
    requires mark <= |issues|
    ensures Flatten((issues + [e])[mark..]) == Flatten(issues[mark..]) + e.batch
    ensures (issues + [e])[..mark] == issues[..mark]
  {
    var later := (issues + [e])[mark..];
    assert later == issues[mark..] + [e];
    assert later[..|later| - 1] == issues[mark..];
  }

  lemma {:induction false} FlattenConcat(a: seq<Issue>, b: seq<Issue>)
    ensures Flatten(a + b) == Flatten(a) + Flatten(b)
    decreases |b|
  {
    if b == [] {
      assert a + b == a;
    } else {
      var most, e := b[..|b| - 1], b[|b| - 1];
      FlattenConcat(a, most);
      assert (a + b)[..|a + b| - 1] == a + most;
      assert Flatten(a) + (Flatten(most) + e.batch) == Flatten(a) + Flatten(most) + e.batch;
    }
  }

  lemma FetchedBatch(s: State)
    requires s.queue != []
    ensures var f := Fetched(s);
            f.held != [] && SameTime(f.held) && f.held + f.queue == s.queue
  {
    var ms := Msgs(s.queue);
    BatchIsMaximal(ms, BatchLength(ms));
    var f := Fetched(s);
    forall i | 0 <= i < |f.held| ensures f.held[i].msg.timeNs == f.held[0].msg.timeNs {
      assert ms[i].timeNs == ms[0].timeNs;
    }
  }

  lemma ConservedStep(s: State, a: Action)
    requires Inv(s)
    ensures Conserved(Step(s, a))
  {
    hide IsRun, Timely, IssuesTimely, Anchored, Numbered, SameTime, BatchLength, Msgs, Flatten;
    match a
    case Push(m) =>
      var item := Item(s.base + |s.pushed|, m);
      assert Flatten(s.issues[s.mark..]) + InHand(s) + (s.queue + [item]) == s.pushed + [item];
    case SetMode(_) =>
    case Loop(robotOk, moveOk, idle) =>
      match s.pc {
        case First =>
          FetchedBatch(s);
          FetchConserves(s);
        case Fetch =>
          if s.queue != [] {
            FetchedBatch(s);
            FetchConserves(s);
          }
        case Check =>
          if IsRun(s.time, Msgs(s.held), idle) {
            FlattenAppend(s.issues, s.mark, Issue(s.held, s.time, s.tick, idle));
            assert Flatten(s.issues[s.mark..]) + s.held + s.queue == Flatten(s.issues[s.mark..]) + s.held + [] + s.queue;
          }
        case Clear =>
          assert s.issues[|s.issues|..] == [];
          FlattenNone();
        case _ =>
      }
  }

  lemma FetchConserves(s: State)
    requires Conserved(s) && s.fetchNext && s.queue != []
    requires Fetched(s).held + Fetched(s).queue == s.queue
    ensures Conserved(Fetched(s))
  {
    hide Flatten, BatchLength;
    var f := Fetched(s);
    var done := Flatten(s.issues[s.mark..]);
    assert done + [] + (f.held + f.queue) == done + f.held + f.queue;
  }

  lemma NumberedStep(s: State, a: Action)
    requires Inv(s)
    ensures Numbered(Step(s, a))
  {
    hide IsRun, Timely, IssuesTimely, Anchored, SameTime, BatchLength, Msgs, Flatten, Ascending;
    match a
    case Push(m) =>
    case SetMode(_) =>
    case Loop(robotOk, moveOk, idle) =>
      match s.pc {
        case Check =>
          if IsRun(s.time, Msgs(s.held), idle) {
            FlattenAppend(s.issues, s.mark, Issue(s.held, s.time, s.tick, idle));
          }
        case Clear => ClearNumbered(s);
        case _ =>
      }
  }

  /** The messages issued up to now have ascending serial numbers below base + |pushed|. */
  lemma IssuedAscending(s: State)
    requires Conserved(s) && Numbered(s)
    ensures Ascending(Flatten(s.issues))
    ensures forall x | x in Flatten(s.issues) :: x.serial < s.base + |s.pushed|
  {
    var before, since := Flatten(s.issues[..s.mark]), Flatten(s.issues[s.mark..]);
    FlattenConcat(s.issues[..s.mark], s.issues[s.mark..]);
    assert s.issues[..s.mark] + s.issues[s.mark..] == s.issues;
    assert since <= s.pushed by {
      assert s.pushed == since + (InHand(s) + s.queue);
    }
    forall k | 0 <= k < |since| ensures since[k].serial == s.base + k { assert since[k] == s.pushed[k]; }
    var all := before + since;
    forall i, j | 0 <= i < j < |all| ensures all[i].serial < all[j].serial {
      if i < |before| <= j { assert all[i] in before && all[j] == since[j - |before|]; }
    }
  }

  lemma ClearNumbered(s: State)
    requires Conserved(s) && Numbered(s)
    ensures Numbered(LoopStep(s.(pc := Clear), true, true, {}))
  {
    IssuedAscending(s);
    assert s.issues[..|s.issues|] == s.issues;
  }

  lemma PlacedStep(s: State, a: Action)
    requires Inv(s)
    ensures Placed(Step(s, a))
  {
    hide IsRun, Timely, Anchored, Conserved, Numbered, SameTime, BatchLength, Msgs, Flatten;
    if a.Loop? && s.pc == Top {
      PlacedTick(s, a);
    } else if a.Loop? && (s.pc == First || (s.pc == Fetch && s.queue != [])) {
      FetchedBatch(s);
      PlacedFetch(s, a);
    }
  }

  lemma PlacedTick(s: State, a: Action)
    requires Placed(s) && IssuesTimely(s) && a.Loop? && s.pc == Top
    ensures Placed(Step(s, a))
  {
    hide Timely, SameTime;
    TickStamp(s.start, s.ticks, s.dt);
  }

  lemma PlacedFetch(s: State, a: Action)
    requires Placed(s) && a.Loop? && (s.pc == First || (s.pc == Fetch && s.queue != []))
    requires Fetched(s).held != [] && SameTime(Fetched(s).held)
    ensures Placed(Step(s, a))
  {
    hide SameTime, BatchLength, Msgs;
    if s.pc == First { FirstStamp(Fetched(s).held[0].msg.timeNs, s.dt); }
  }

  lemma FirstStamp(t: uint64, dt: uint64)
    ensures t == (t + 0 * dt) % TWO_64
  {
  }

  lemma TickStamp(start: uint64, ticks: nat, dt: uint64)
    ensures ((start + ticks * dt) % TWO_64 + dt) % TWO_64 == (start + (ticks + 1) * dt) % TWO_64
  {
    var x := start + ticks * dt;
    assert (ticks + 1) * dt == ticks * dt + dt;
    ModAdd(x, dt);
  }

  lemma ModAdd(x: nat, d: nat)
    ensures (x % TWO_64 + d) % TWO_64 == (x + d) % TWO_64
  {
    var q := x / TWO_64;
    assert x == q * TWO_64 + x % TWO_64;
    ModShift(x % TWO_64 + d, q);
  }

  lemma {:induction false} ModShift(y: nat, q: nat)
    ensures (y + q * TWO_64) % TWO_64 == y % TWO_64
    decreases q
  {
    if q > 0 { ModShift(y, q - 1); }
  }

  lemma IssuesTimelyStep(s: State, a: Action)
    requires Inv(s)
    ensures IssuesTimely(Step(s, a))
  {
    hide IsRun, Timely, Anchored, Conserved, Numbered, SameTime, BatchLength, Msgs, Flatten;
    if a.Loop? && s.pc == Check && IsRun(s.time, Msgs(s.held), a.idle) {
      NewIssueTimely(s, a.idle);
    }
  }

  lemma NewIssueTimely(s: State, idle: set<(nat, Group)>)
    requires Placed(s) && IssuesTimely(s) && s.pc == Check && IsRun(s.time, Msgs(s.held), idle)
    ensures IssuesTimely(LoopStep(s, true, true, idle))
  {
    hide IsRun, SameTime, Msgs;
    var e := Issue(s.held, s.time, s.tick, idle);
    assert Timely(e);
  }

  lemma AnchoredStep(s: State, a: Action)
    requires Inv(s)
    ensures Anchored(Step(s, a))
  {
    hide IsRun, Timely, Conserved, Numbered, SameTime, BatchLength, Msgs, Flatten;
    if a.Loop? && s.pc == First { FetchedBatch(s); }
  }

  lemma InvStep(s: State, a: Action)
    requires Inv(s)
    ensures Inv(Step(s, a))
  {
    hide *;
    InvParts(s);
    ConservedStep(s, a);
    NumberedStep(s, a);
    PlacedStep(s, a);
    IssuesTimelyStep(s, a);
    AnchoredStep(s, a);
    InvParts(Step(s, a));
  }

  lemma InvParts(s: State)
    ensures Inv(s) <==> Conserved(s) && Numbered(s) && Placed(s) && IssuesTimely(s) && Anchored(s)
  {
  }

  lemma InitialInv(dt: uint64)
    ensures Inv(Initial(dt))
  {
  }

  /** The invariant holds after every interleaving of client calls and loop steps. */
  lemma {:induction false} RunInv(s: State, actions: seq<Action>)
    requires Inv(s)
    ensures Inv(Run(s, actions))
    decreases |actions|
  {
    hide Inv, Step;
    if actions != [] {
      InvStep(s, actions[0]);
      RunInv(Step(s, actions[0]), actions[1..]);
    }
  }

  // ---- what follows for every run ----

  lemma {:induction false} RunAppend(s: State, a: seq<Action>, b: seq<Action>)
    ensures Run(s, a + b) == Run(Run(s, a), b)
    decreases |a|
  {
    hide Step;
    if a == [] {
      assert a + b == b;
    } else {
      assert (a + b)[1..] == a[1..] + b;
      RunAppend(Step(s, a[0]), a[1..], b);
    }
  }

  lemma RunOne(s: State, a: Action)
    ensures Run(s, [a]) == Step(s, a)
  {
    hide Step;
    assert [a][1..] == [];
  }

  /** The messages that clients pushed since the loop last cleared the queue, read off the actions alone. */
  function SentSinceClear(s: State, actions: seq<Action>): seq<Message>
    decreases |actions|
  {
    if actions == [] then [] else
      var most, a := actions[..|actions| - 1], actions[|actions| - 1];
      if a.Push? then SentSinceClear(s, most) + [a.msg]
      else if a.Loop? && Run(s, most).pc == Clear then []
      else SentSinceClear(s, most)
  }

  lemma {:induction false} PushedIsSent(dt: uint64, actions: seq<Action>)
    ensures Msgs(Run(Initial(dt), actions).pushed) == SentSinceClear(Initial(dt), actions)
    decreases |actions|
  {
    hide Run, LoopStep, Batch, BatchLength, RunLength;
    var s0 := Initial(dt);
    if actions == [] {
      RunNothing(s0);
    } else {
      var most, a := actions[..|actions| - 1], actions[|actions| - 1];
      PushedIsSent(dt, most);
      assert actions == most + [a];
      RunAppend(s0, most, [a]);
      RunOne(Run(s0, most), a);
      PushedStep(Run(s0, most), a);
    }
  }

  lemma RunNothing(s: State)
    ensures Run(s, []) == s
  {
  }

  lemma PushedStep(s: State, a: Action)
    ensures Msgs(Step(s, a).pushed) ==
            if a.Push? then Msgs(s.pushed) + [a.msg]
            else if a.Loop? && s.pc == Clear then []
            else Msgs(s.pushed)
  {
    hide IsRun, BatchLength;
  }

  /** Conservation and order, over every interleaving: the messages pushed since the last clear are exactly those
      issued since, then those in hand, then those queued, in the order of the pushes; no message is issued
      twice; at most one batch per timer tick. */
  lemma EveryRunConserves(dt: uint64, actions: seq<Action>)
    ensures var s := Run(Initial(dt), actions);
            s.mark <= |s.issues| &&
            Msgs(Flatten(s.issues[s.mark..]) + InHand(s) + s.queue) == SentSinceClear(Initial(dt), actions) &&
            Ascending(Flatten(s.issues)) &&
            forall i, j | 0 <= i < j < |s.issues| :: s.issues[i].tick < s.issues[j].tick
  {
    hide Run, Msgs, Flatten, SentSinceClear;
    InitialInv(dt);
    RunInv(Initial(dt), actions);
    IssuedAscending(Run(Initial(dt), actions));
    PushedIsSent(dt, actions);
  }

  /** How often the timer ticked since the loop was last entered, read off the run. */
  function TicksSinceStart(s: State, actions: seq<Action>): nat
    decreases |actions|
  {
    if actions == [] then 0 else
      var most, a := actions[..|actions| - 1], actions[|actions| - 1];
      var pc := Run(s, most).pc;
      if !a.Loop? then TicksSinceStart(s, most)
      else if pc == First then 0
      else if pc == Top && a.robotOk then TicksSinceStart(s, most) + 1
      else TicksSinceStart(s, most)
  }

  lemma {:induction false} TicksAreCounted(dt: uint64, actions: seq<Action>)
    ensures Run(Initial(dt), actions).ticks == TicksSinceStart(Initial(dt), actions)
    decreases |actions|
  {
    hide Run, LoopStep, Batch, BatchLength, RunLength;
    var s0 := Initial(dt);
    if actions == [] {
      RunNothing(s0);
    } else {
      var most, a := actions[..|actions| - 1], actions[|actions| - 1];
      TicksAreCounted(dt, most);
      assert actions == most + [a];
      RunAppend(s0, most, [a]);
      RunOne(Run(s0, most), a);
      TicksStep(Run(s0, most), a);
    }
  }

  lemma TicksStep(s: State, a: Action)
    ensures Step(s, a).ticks ==
            if !a.Loop? then s.ticks
            else if s.pc == First then 0
            else if s.pc == Top && a.robotOk then s.ticks + 1
            else s.ticks
  {
    hide IsRun, BatchLength;
  }

  lemma {:induction false} FlattenFirst(issues: seq<Issue>)
    requires issues != [] && issues[0].batch != []
    ensures Flatten(issues) != [] && Flatten(issues)[0] == issues[0].batch[0]
    decreases |issues|
  {
    var most := issues[..|issues| - 1];
    if most == [] {
      assert issues[..0] == [];
    } else {
      FlattenFirst(most);
    }
  }

  /** The clock started at the stamp of the first message pushed since the last clear. */
  lemma StartIsFirstStamp(s: State)
    requires Inv(s) && InLoop(s.pc)
    ensures s.pushed != [] && s.start == s.pushed[0].msg.timeNs
  {
    hide IsRun, Timely, Numbered, SameTime, Msgs, Flatten;
    var since := s.issues[s.mark..];
    if since == [] {
      FlattenNone();
    } else {
      FlattenFirst(since);
    }
  }

  /** What every issued batch is: one time group, due, of known kinds, with every group it names answering idle, and
      issued when the clock shows the stamp of the first message since the last clear plus one dt for every tick
      since (64-bit wrap included). */
  predicate IssuedInTime(e: Issue, first: Message, ticks: nat, dt: uint64, idle: set<(nat, Group)>) {
    && e.batch != [] && SameTime(e.batch) && e.time >= e.batch[0].msg.timeNs
    && ticks >= 1 && e.time == (first.timeNs + ticks * dt) % TWO_64
    && forall k | 0 <= k < |e.batch| :: Known(e.batch[k].msg.kind) && forall g | g in GroupsOf(e.batch[k].msg.kind) :: (k, g) in idle
  }

  predicate OneMore(before: seq<Issue>, after: seq<Issue>) {
    |after| == |before| + 1 && before == after[..|before|]
  }

  function Last(issues: seq<Issue>): Issue
    requires issues != []
  {
    issues[|issues| - 1]
  }

  /** Whatever step a run makes: it issues nothing, or one batch in time. */
  lemma EveryIssueTimely(dt: uint64, actions: seq<Action>, a: Action)
    ensures var s, sent := Run(Initial(dt), actions), SentSinceClear(Initial(dt), actions);
            Step(s, a).issues == s.issues ||
            (a.Loop? && sent != [] && OneMore(s.issues, Step(s, a).issues) &&
             IssuedInTime(Last(Step(s, a).issues), sent[0], TicksSinceStart(Initial(dt), actions), dt, a.idle))
  {
    hide Run, Flatten, SentSinceClear, TicksSinceStart, BatchLength, IssuedInTime;
    var s := Run(Initial(dt), actions);
    InitialInv(dt);
    RunInv(Initial(dt), actions);
    RunKeepsDt(Initial(dt), actions);
    PushedIsSent(dt, actions);
    TicksAreCounted(dt, actions);
    if Step(s, a).issues != s.issues {
      StartIsFirstStamp(s);
      IssueOfCheck(s, a);
    }
  }

  lemma IssueOfCheck(s: State, a: Action)
    requires Inv(s) && Step(s, a).issues != s.issues
    ensures a.Loop? && InLoop(s.pc)
    ensures OneMore(s.issues, Step(s, a).issues)
    ensures forall first: Message | first.timeNs == s.start ::
              IssuedInTime(Last(Step(s, a).issues), first, s.ticks, s.dt, a.idle)
  {
    hide Flatten, BatchLength;
    var e := Issue(s.held, s.time, s.tick, a.idle);
    assert Step(s, a).issues == s.issues + [e];
    assert Msgs(e.batch)[0] == e.batch[0].msg;
    forall k | 0 <= k < |e.batch| ensures Known(e.batch[k].msg.kind) &&
        forall g | g in GroupsOf(e.batch[k].msg.kind) :: (k, g) in a.idle {
      assert Msgs(e.batch)[k] == e.batch[k].msg;
    }
  }

  lemma {:induction false} RunKeepsDt(s: State, actions: seq<Action>)
    ensures Run(s, actions).dt == s.dt
    decreases |actions|
  {
    if actions != [] { RunKeepsDt(Step(s, actions[0]), actions[1..]); }
  }

  // ---- a cleared message is never issued ----

  /** The first serial number that could still be issued. */
  function Frontier(s: State): int {
    s.base + |s.pushed| - |InHand(s)| - |s.queue|
  }

  /** The fetched batch starts at the frontier. */
  lemma InHandFromFrontier(s: State)
    requires Conserved(s) && Numbered(s)
    ensures forall x | x in InHand(s) :: x.serial >= Frontier(s)
  {
    var since := Flatten(s.issues[s.mark..]);
    forall k | 0 <= k < |InHand(s)| ensures InHand(s)[k].serial >= Frontier(s) {
      assert s.pushed[|since| + k] == InHand(s)[k];
    }
  }

  lemma FrontierStep(s: State, a: Action)
    requires Inv(s)
    ensures Frontier(s) <= Frontier(Step(s, a))
    ensures Step(s, a).issues == s.issues ||
            exists e :: Step(s, a).issues == s.issues + [e] && forall x | x in e.batch :: x.serial >= Frontier(s)
  {
    hide IsRun, Msgs, Timely, Flatten, Ascending;
    InHandFromFrontier(s);
    FetchLength(s);
    if a.Loop? && s.pc == Check && IsRun(s.time, Msgs(s.held), a.idle) {
      var e := Issue(s.held, s.time, s.tick, a.idle);
      assert Step(s, a).issues == s.issues + [e];
      assert s.held == InHand(s);
    }
  }

  lemma FetchLength(s: State)
    ensures var f := Fetched(s); |f.held| + |f.queue| == |s.queue|
  {
  }

  lemma {:induction false} LaterIssuesFromFrontier(s: State, actions: seq<Action>)
    requires Inv(s)
    ensures s.issues <= Run(s, actions).issues
    ensures forall i | |s.issues| <= i < |Run(s, actions).issues| ::
              forall x | x in Run(s, actions).issues[i].batch :: x.serial >= Frontier(s)
    decreases |actions|
  {
    hide Inv, Step, Frontier;
    if actions != [] {
      var t := Step(s, actions[0]);
      FrontierStep(s, actions[0]);
      InvStep(s, actions[0]);
      LaterIssuesFromFrontier(t, actions[1..]);
      var issues := Run(t, actions[1..]).issues;
      assert forall i | 0 <= i < |t.issues| :: issues[i] == t.issues[i];
    }
  }

  /** No message pushed before a clear is issued after it, in any continuation. */
  lemma ClearedNeverIssued(s: State, a: Action, actions: seq<Action>)
    requires Inv(s) && s.pc == Clear && a.Loop?
    ensures var later := Run(Step(s, a), actions).issues;
            s.issues <= later &&
            forall x, i | x in s.pushed && |s.issues| <= i < |later| :: x !in later[i].batch
  {
    hide Run, Conserved, Placed, IssuesTimely, Anchored;
    InvStep(s, a);
    LaterIssuesFromFrontier(Step(s, a), actions);
    assert Frontier(Step(s, a)) == s.base + |s.pushed|;
  }

  // ---- the code ----

  lemma FetchTakesBatch(s: State)
    ensures var f, q := Fetched(s), Msgs(s.queue);
            Msgs(f.held) == Batch(q) && Msgs(f.queue) == q[|Batch(q)|..]
  {
    hide BatchLength;
  }

  lemma FetchForm(s: State, robotOk: bool, moveOk: bool, idle: set<(nat, Group)>)
    requires s.pc == Fetch
    ensures var t, q := LoopStep(s, robotOk, moveOk, idle), Msgs(s.queue);
            t.mode == s.mode && t.time == s.time && t.dt == s.dt &&
            if q == [] then t.pc == Top && t.fetchNext == s.fetchNext && t.held == s.held && t.queue == s.queue
            else t.pc == Check && !t.fetchNext && Msgs(t.held) == Batch(q) && Msgs(t.queue) == q[|Batch(q)|..]
  {
    hide BatchLength;
    FetchTakesBatch(s);
  }

  lemma FirstHasData(s: State)
    requires Inv(s) && s.pc == First
    ensures s.queue != [] && Fetched(s).held != []
  {
    FetchedBatch(s);
  }

  lemma CheckHasData(s: State)
    requires Inv(s) && s.pc == Check
    ensures s.held != [] && !s.fetchNext
  {
  }

  class RobotControl {
    const server: MessageServer
    const dt: uint64
    var time: uint64
    var data: seq<Message>
    var isGetData: bool
    var pc: Pc
    ghost var s: State

    ghost predicate Valid()
      reads this, server
    {
      && Inv(s)
      && s.pc == pc && s.fetchNext == isGetData && s.time == time && s.dt == dt
      && Msgs(s.queue) == server.serverData && s.mode == server.controlMode
      && (!isGetData ==> Msgs(s.held) == data)
    }

    constructor (server: MessageServer, dt: uint64)
      requires server.serverData == [] && server.controlMode == STOP
      ensures Valid() && s == Initial(dt) && this.server == server
    {
      this.server, this.dt := server, dt;
      time, data, isGetData, pc := 0, [], true, WaitData;
      s := Initial(dt);
      InitialInv(dt);
    }

    method RobotTimer()
      modifies this`time
      ensures time == (old(time) + dt) % TWO_64
    {
      time := (time + dt) % TWO_64;
    }

    method SyncTime(t: uint64)
      modifies this`time
      ensures time == t
    {
      time := t;
    }

    /** is_run: the switch over command kinds, group by group. */
    method IsRunNow(idle: set<(nat, Group)>) returns (run: bool)
      requires data != []
      ensures run == IsRun(time, data, idle)
    {
      if time < data[0].timeNs { return false; }
      for i := 0 to |data|
        invariant forall k | 0 <= k < i ::
                    Known(data[k].kind) && forall g | g in GroupsOf(data[k].kind) :: (k, g) in idle
      {
        var refused := false;
        match data[i].kind {
          case 0 | 3 => refused := (i, LeftArm) !in idle;
          case 1 | 4 => refused := (i, RightArm) !in idle;
          case 2 | 5 => refused := (i, LeftArm) !in idle || (i, RightArm) !in idle;
          case 6 => refused := (i, Foot) !in idle;
          case 7 => refused := (i, Head) !in idle;
          case 8 => refused := (i, Waist) !in idle;
          case 9 | 10 =>
            refused := (i, LeftArm) !in idle || (i, RightArm) !in idle || (i, Foot) !in idle ||
                       (i, Head) !in idle || (i, Waist) !in idle;
          case _ => refused := true;
        }
        assert refused <==> !(Known(data[i].kind) && forall g | g in GroupsOf(data[i].kind) :: (i, g) in idle);
        if refused { return false; }
      }
      return true;
    }

    /** One atomic step of LoopControl. */
    method Advance(robotOk: bool, moveOk: bool, idle: set<(nat, Group)>)
      requires Valid()
      modifies this, server
      ensures Valid() && s == Step(old(s), Loop(robotOk, moveOk, idle))
    {
      hide *;
      match pc {
        case First => TakeFirst(robotOk, moveOk, idle);
        case Top => Tick(robotOk, moveOk, idle);
        case Fetch => TakeNext(robotOk, moveOk, idle);
        case Check => TryIssue(robotOk, moveOk, idle);
        case Clear => Restart(robotOk, moveOk, idle);
        case _ => Ask(robotOk, moveOk, idle);
      }
    }

    /** The fetch before the loop; the clock starts at the first batch's time. */
    method TakeFirst(robotOk: bool, moveOk: bool, idle: set<(nat, Group)>)
      requires Valid() && pc == First
      modifies this, server
      ensures Valid() && s == Step(old(s), Loop(robotOk, moveOk, idle))
    {
      hide Inv, IsRun, BatchLength;
      InvStep(s, Loop(robotOk, moveOk, idle));
      FetchTakesBatch(s);
      FirstHasData(s);
      s := Step(s, Loop(robotOk, moveOk, idle));
      var _, batch := server.GetMessageData(data);
      data, isGetData := batch, false;
      SyncTime(data[0].timeNs);
      pc := Top;
    }

    method Tick(robotOk: bool, moveOk: bool, idle: set<(nat, Group)>)
      requires Valid() && pc == Top
      modifies this, server
      ensures Valid() && s == Step(old(s), Loop(robotOk, moveOk, idle))
    {
      hide Inv, IsRun, BatchLength;
      InvStep(s, Loop(robotOk, moveOk, idle));
      s := Step(s, Loop(robotOk, moveOk, idle));
      if robotOk {
        RobotTimer();
        pc := if isGetData then Fetch else Check;
      } else {
        pc := Done;
      }
    }

    method TakeNext(robotOk: bool, moveOk: bool, idle: set<(nat, Group)>)
      requires Valid() && pc == Fetch
      modifies this, server
      ensures Valid() && s == Step(old(s), Loop(robotOk, moveOk, idle))
    {
      hide Inv, IsRun, Batch, BatchLength, LoopStep, Fetched;
      InvStep(s, Loop(robotOk, moveOk, idle));
      FetchForm(s, robotOk, moveOk, idle);
      s := Step(s, Loop(robotOk, moveOk, idle));
      var ok, batch := server.GetMessageData(data);
      data := batch;
      if ok {
        isGetData := false;
        pc := Check;
      } else {
        pc := Top;
      }
    }

    method TryIssue(robotOk: bool, moveOk: bool, idle: set<(nat, Group)>)
      requires Valid() && pc == Check
      modifies this, server
      ensures Valid() && s == Step(old(s), Loop(robotOk, moveOk, idle))
    {
      hide Inv, IsRun, BatchLength;
      InvStep(s, Loop(robotOk, moveOk, idle));
      CheckHasData(s);
      s := Step(s, Loop(robotOk, moveOk, idle));
      var run := IsRunNow(idle);
      if run { isGetData := true; }
      pc := AskStop;
    }

    method Restart(robotOk: bool, moveOk: bool, idle: set<(nat, Group)>)
      requires Valid() && pc == Clear
      modifies this, server
      ensures Valid() && s == Step(old(s), Loop(robotOk, moveOk, idle))
    {
      hide Inv, IsRun, BatchLength;
      InvStep(s, Loop(robotOk, moveOk, idle));
      s := Step(s, Loop(robotOk, moveOk, idle));
      server.ClearMessageData();
      data, isGetData, pc := [], true, WaitData;
    }

    /** The steps that only look at the queue, the mode or the robot. */
    method Ask(robotOk: bool, moveOk: bool, idle: set<(nat, Group)>)
      requires Valid() && pc !in {First, Top, Fetch, Check, Clear}
      modifies this, server
      ensures Valid() && s == Step(old(s), Loop(robotOk, moveOk, idle))
    {
      hide Inv, IsRun, BatchLength;
      InvStep(s, Loop(robotOk, moveOk, idle));
      s := Step(s, Loop(robotOk, moveOk, idle));
      match pc {
        case WaitData => pc := if server.serverData == [] then WaitData else WaitStart;
        case WaitStart => pc := if server.controlMode == START then WaitRobot else WaitData;
        case WaitRobot => pc := if moveOk then First else WaitData;
        case AskStop => pc := if server.controlMode == STOP then Clear else AskPause;
        case AskPause => pc := if server.controlMode == PAUSE then Paused else Top;
        case Paused => pc := if robotOk then AskContinue else Top;
        case AskContinue => pc := if server.controlMode == CONTINUE then Top else AskStopPaused;
        case AskStopPaused => pc := if server.controlMode == STOP then Clear else Paused;
        case _ =>
      }
    }

    /** A client's calls. */
    method ClientPush(m: Message)
      requires Valid()
      modifies this`s, server
      ensures Valid() && s == Step(old(s), Push(m))
    {
      hide Inv, LoopStep;
      InvStep(s, Push(m));
      s := Step(s, Push(m));
      server.SetMessageData(m);
    }

    method ClientSetMode(mode: uint8)
      requires Valid()
      modifies this`s, server
      ensures Valid() && s == Step(old(s), SetMode(mode))
    {
      hide Inv, LoopStep;
      InvStep(s, SetMode(mode));
      s := Step(s, SetMode(mode));
      server.SetControlMode(mode);
    }
  }
}
