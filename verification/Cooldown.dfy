/** The lock-free cooldown of preset 99: threads claim a two-second window by compare-and-swap on the time stamp of
    the last re-initialisation. All accesses are relaxed, so a load may return any value not older than what its
    thread has already seen. */
module Cooldown {
  const WINDOW := 2000

  // ---- the machine ----

  /** Between two atomic accesses of a call: Entered holds the call's own time, Ready also the value it loaded. */
  datatype Pc = Idle | Entered | Ready | Sending

  /** seen is the position, in the order of modifications, of the newest value this thread has read; tries counts
      the compare-and-swaps of the current call that failed because the value had changed. */
  datatype Thread = Thread(pc: Pc, now: nat, seen: nat, tries: nat)

  /** stamps lists the values of last_reinit_ms_ in modification order, -1 first. */
  datatype State = State(stamps: seq<int>, threads: map<nat, Thread>, clock: nat, frames: nat)

  datatype Action =
    | Tick(ms: nat)
    | Enter(t: nat)
    | Load(t: nat, at: nat)
    | Swap(t: nat)
    | SwapFails(t: nat, at: nat)
    | Send(t: nat)

  function Initial(clock: nat): State {
    State([-1], map[], clock, 0)
  }

  function ThreadOf(s: State, t: nat): Thread {
    if t in s.threads then s.threads[t] else Thread(Idle, 0, 0, 0)
  }

  function WithThread(s: State, t: nat, th: Thread): State {
    s.(threads := s.threads[t := th])
  }

  /** The test between load and compare-and-swap. */
  predicate Cooling(now: nat, last: int) {
    last >= 0 && now - last < WINDOW
  }

  /** Which actions the memory model and the program allow. A failing swap reads any value it may; if that value
      is the expected one the failure is spurious. */
  predicate Enabled(s: State, a: Action) {
    match a
    case Tick(_) => true
    case Enter(t) => ThreadOf(s, t).pc == Idle
    case Load(t, at) => ThreadOf(s, t).pc == Entered && ThreadOf(s, t).seen <= at < |s.stamps|
    case Swap(t) =>
      ThreadOf(s, t).pc == Ready && ThreadOf(s, t).seen < |s.stamps| && s.stamps != [] &&
      s.stamps[|s.stamps| - 1] == s.stamps[ThreadOf(s, t).seen]
    case SwapFails(t, at) => ThreadOf(s, t).pc == Ready && ThreadOf(s, t).seen <= at < |s.stamps|
    case Send(t) => ThreadOf(s, t).pc == Sending
  }

  function Step(s: State, a: Action): State
    requires Enabled(s, a)
  {
    match a
    case Tick(ms) => s.(clock := s.clock + ms)
    case Enter(t) => WithThread(s, t, ThreadOf(s, t).(pc := Entered, now := s.clock, tries := 0))
    case Load(t, at) =>
      var th := ThreadOf(s, t);
      WithThread(s, t, th.(pc := if Cooling(th.now, s.stamps[at]) then Idle else Ready, seen := at))
    case Swap(t) =>
      var th := ThreadOf(s, t);
      WithThread(s.(stamps := s.stamps + [th.now]), t, th.(pc := Sending, seen := |s.stamps|))
    case SwapFails(t, at) =>
      var th := ThreadOf(s, t);
      var spurious := s.stamps[at] == s.stamps[th.seen];
      WithThread(s, t, th.(pc := Entered, seen := at, tries := if spurious then th.tries else th.tries + 1))
    case Send(t) => WithThread(s.(frames := s.frames + 1), t, ThreadOf(s, t).(pc := Idle))
  }

  predicate IsRun(s: State, actions: seq<Action>)
    decreases |actions|
  {
    actions == [] || (Enabled(s, actions[0]) && IsRun(Step(s, actions[0]), actions[1..]))
  }

  function Run(s: State, actions: seq<Action>): State
    requires IsRun(s, actions)
    decreases |actions|
  {
    if actions == [] then s else Run(Step(s, actions[0]), actions[1..])
  }

  // ---- the invariant ----

  /** -1 first, then claims at least a window apart. */
  predicate Spaced(stamps: seq<int>) {
    && stamps != [] && stamps[0] == -1
    && (forall i | 1 <= i < |stamps| :: stamps[i] >= 0)
    && forall i, j | 1 <= i < j < |stamps| :: stamps[j] - stamps[i] >= (j - i) * WINDOW
  }

  predicate ThreadFine(stamps: seq<int>, th: Thread) {
    && th.seen < |stamps|
    && (th.pc == Ready ==> !Cooling(th.now, stamps[th.seen]))
    && (th.tries >= 1 ==> th.seen >= th.tries)
    && (th.tries >= 2 ==> th.now - stamps[1] >= (th.tries - 1) * WINDOW)
  }

  function Senders(s: State): set<nat> {
    set t | t in s.threads && s.threads[t].pc == Sending
  }

  predicate Inv(s: State) {
    && Spaced(s.stamps)
    && (forall t | t in s.threads :: ThreadFine(s.stamps, s.threads[t]))
    && |s.stamps| - 1 == s.frames + |Senders(s)|
  }

  lemma SpacedAppend(stamps: seq<int>, now: nat)
    requires Spaced(stamps) && !Cooling(now, stamps[|stamps| - 1])
    ensures Spaced(stamps + [now])
  {
    var more := stamps + [now];
    forall i, j | 1 <= i < j < |more| ensures more[j] - more[i] >= (j - i) * WINDOW {
      if j == |stamps| && i < |stamps| - 1 {
        assert stamps[|stamps| - 1] - stamps[i] >= (|stamps| - 1 - i) * WINDOW;
      }
    }
  }

  /** Different positions hold different values, so a failure that is not spurious has seen a newer claim. */
  lemma StampsDistinct(stamps: seq<int>, i: nat, j: nat)
    requires Spaced(stamps) && i < j < |stamps|
    ensures stamps[i] < stamps[j]
  {
  }

  lemma ThreadFineGrows(stamps: seq<int>, now: nat, th: Thread)
    requires Spaced(stamps) && ThreadFine(stamps, th)
    ensures ThreadFine(stamps + [now], th)
  {
  }

  lemma FailedSwapFine(stamps: seq<int>, th: Thread, at: nat)
    requires Spaced(stamps) && ThreadFine(stamps, th) && th.pc == Ready && th.seen <= at < |stamps|
    ensures ThreadFine(stamps, th.(pc := Entered, seen := at,
              tries := if stamps[at] == stamps[th.seen] then th.tries else th.tries + 1))
  {
    if at > th.seen {
      StampsDistinct(stamps, th.seen, at);
      if th.tries >= 1 {
        if th.seen > 1 { assert stamps[th.seen] - stamps[1] >= (th.seen - 1) * WINDOW; }
      }
    }
  }

  lemma InvStep(s: State, a: Action)
    requires Inv(s) && Enabled(s, a)
    ensures Inv(Step(s, a))
  {
    if a.Tick? {
      SendersSame(s, Step(s, a));
    } else {
      var t := a.t;
      var th, th' := ThreadOf(s, t), Step(s, a).threads[t];
      if a.Swap? { SpacedAppend(s.stamps, th.now); }
      if a.SwapFails? { FailedSwapFine(s.stamps, th, a.at); }
      OthersFine(s, a, t);
      CountSenders(s, a, t);
    }
  }

  lemma SendersSame(s: State, u: State)
    requires s.threads == u.threads
    ensures Senders(s) == Senders(u)
  {
  }

  lemma OthersFine(s: State, a: Action, t: nat)
    requires Inv(s) && Enabled(s, a) && !a.Tick? && a.t == t
    ensures Step(s, a).threads.Keys == s.threads.Keys + {t}
    ensures forall u | u in s.threads && u != t :: ThreadFine(Step(s, a).stamps, Step(s, a).threads[u])
  {
    forall u | u in s.threads && u != t ensures ThreadFine(Step(s, a).stamps, Step(s, a).threads[u]) {
      if a.Swap? { ThreadFineGrows(s.stamps, ThreadOf(s, t).now, s.threads[u]); }
    }
  }

  lemma CountSenders(s: State, a: Action, t: nat)
    requires Enabled(s, a) && !a.Tick? && a.t == t
    ensures |Senders(Step(s, a))| == |Senders(s)| + (if a.Swap? then 1 else if a.Send? then -1 else 0)
  {
    var before, after := Senders(s), Senders(Step(s, a));
    if a.Swap? {
      assert after == before + {t} && t !in before;
    } else if a.Send? {
      assert before == after + {t} && t !in after;
    } else {
      assert after == before;
    }
  }

  lemma {:induction false} RunInv(s: State, actions: seq<Action>)
    requires Inv(s) && IsRun(s, actions)
    ensures Inv(Run(s, actions))
    decreases |actions|
  {
    hide Inv, Enabled, Step;
    if actions != [] {
      InvStep(s, actions[0]);
      RunInv(Step(s, actions[0]), actions[1..]);
    }
  }

  lemma InitialInv(clock: nat)
    ensures Inv(Initial(clock))
  {
    assert Senders(Initial(clock)) == {};
  }

  // ---- what holds in every run ----

  /** Under every interleaving, claims are at least 2000 ms apart, and each claim sends one re-initialisation:
      frames sent plus claimants about to send equal the claims. */
  lemma ClaimsApart(clock: nat, actions: seq<Action>)
    requires IsRun(Initial(clock), actions)
    ensures var s := Run(Initial(clock), actions);
            (forall i | 1 <= i < |s.stamps| - 1 :: s.stamps[i + 1] - s.stamps[i] >= 2000) &&
            |s.stamps| - 1 == s.frames + |Senders(s)|
  {
    hide Run, IsRun, Senders;
    InitialInv(clock);
    RunInv(Initial(clock), actions);
  }

  /** At some point of the run the clock showed this time and a call was entered. */
  ghost predicate EntryTime(clock: nat, actions: seq<Action>, time: int) {
    exists k: nat :: EnteredAt(clock, actions, k, time)
  }

  predicate EnteredAt(clock: nat, actions: seq<Action>, k: nat, time: int) {
    k < |actions| && actions[k].Enter? && IsRun(Initial(clock), actions[..k]) && Run(Initial(clock), actions[..k]).clock == time
  }

  /** A claim carries the time at which its call was entered, not that of the swap. */
  lemma {:induction false} ClaimsAreEntryTimes(clock: nat, actions: seq<Action>)
    requires IsRun(Initial(clock), actions)
    ensures var s := Run(Initial(clock), actions);
            (forall i | 1 <= i < |s.stamps| :: EntryTime(clock, actions, s.stamps[i])) &&
            forall t | t in s.threads && s.threads[t].pc != Idle :: EntryTime(clock, actions, s.threads[t].now)
    decreases |actions|
  {
    hide Run, IsRun, EntryTime, Enabled;
    if actions == [] {
      RunOfNone(Initial(clock));
    } else {
      var most, a := actions[..|actions| - 1], actions[|actions| - 1];
      RunOfMost(Initial(clock), actions);
      ClaimsAreEntryTimes(clock, most);
      var s := Run(Initial(clock), most);
      forall time: int | EntryTime(clock, most, time) ensures EntryTime(clock, actions, time) {
        EntryTimeStays(clock, actions, time);
      }
      if a.Enter? { EntryTimeNow(clock, actions); }
      SwapNeedsThread(s, a);
    }
  }

  lemma SwapNeedsThread(s: State, a: Action)
    requires Enabled(s, a)
    ensures a.Swap? ==> a.t in s.threads && s.threads[a.t].pc == Ready
    ensures a.Load? ==> a.t in s.threads && s.threads[a.t].pc == Entered
    ensures a.SwapFails? ==> a.t in s.threads && s.threads[a.t].pc == Ready
    ensures a.Send? ==> a.t in s.threads
  {
  }

  lemma RunOfNone(s: State)
    ensures IsRun(s, []) && Run(s, []) == s
  {
  }

  lemma {:induction false} RunOfMost(s: State, actions: seq<Action>)
    requires actions != [] && IsRun(s, actions)
    ensures var most := actions[..|actions| - 1];
            IsRun(s, most) && Enabled(Run(s, most), actions[|actions| - 1])
            && Run(s, actions) == Step(Run(s, most), actions[|actions| - 1])
    decreases |actions|
  {
    hide Enabled, Step;
    var most, t := actions[..|actions| - 1], Step(s, actions[0]);
    if |actions| == 1 {
      assert most == [] && actions[1..] == [];
    } else {
      RunOfMost(t, actions[1..]);
      assert most[1..] == actions[1..][..|actions[1..]| - 1];
      assert most[0] == actions[0];
    }
  }

  lemma EntryTimeStays(clock: nat, actions: seq<Action>, time: int)
    requires actions != [] && EntryTime(clock, actions[..|actions| - 1], time)
    ensures EntryTime(clock, actions, time)
  {
    hide Run, IsRun;
    var most := actions[..|actions| - 1];
    var k: nat :| EnteredAt(clock, most, k, time);
    assert most[..k] == actions[..k];
    assert EnteredAt(clock, actions, k, time);
  }

  lemma EntryTimeNow(clock: nat, actions: seq<Action>)
    requires actions != [] && actions[|actions| - 1].Enter? && IsRun(Initial(clock), actions[..|actions| - 1])
    ensures EntryTime(clock, actions, Run(Initial(clock), actions[..|actions| - 1]).clock)
  {
    hide Run, IsRun;
    assert EnteredAt(clock, actions, |actions| - 1, Run(Initial(clock), actions[..|actions| - 1]).clock);
  }

  /** A call fails at most one swap more than there are whole windows between the first claim and its own time;
      spurious failures do not count. */
  lemma RetriesBounded(clock: nat, actions: seq<Action>, t: nat)
    requires IsRun(Initial(clock), actions) && t in Run(Initial(clock), actions).threads
    ensures var s := Run(Initial(clock), actions);
            var th := s.threads[t];
            th.tries < |s.stamps| && (th.tries >= 2 ==> th.tries - 1 <= (th.now - s.stamps[1]) / 2000)
  {
    hide Run, IsRun, Senders;
    InitialInv(clock);
    RunInv(Initial(clock), actions);
    var s := Run(Initial(clock), actions);
    var th := s.threads[t];
    assert ThreadFine(s.stamps, th);
  }

  /** A command is dropped exactly if the value it has loaded is a claim less than two seconds older (or newer). */
  lemma DroppedIffClaimed(s: State, t: nat, at: nat)
    requires Inv(s) && Enabled(s, Load(t, at))
    ensures Step(s, Load(t, at)).threads[t].pc == Idle <==> at >= 1 && ThreadOf(s, t).now - s.stamps[at] < 2000
    ensures Step(s, Load(t, at)).stamps == s.stamps && Step(s, Load(t, at)).frames == s.frames
  {
    assert at >= 1 <==> s.stamps[at] >= 0;
  }

  // ---- the code of one call, other threads running between its accesses ----

  lemma NoClaim(stamps: seq<int>)
    ensures stamps + [] == stamps
  {
  }

  class EndEffectorDevice {
    /** Every value that last_reinit_ms_ has held. */
    var stamps: seq<int>
    var frames: seq<seq<bv8>>

    ghost predicate Valid()
      reads this
    {
      Spaced(stamps)
    }

    constructor ()
      ensures Valid() && stamps == [-1] && frames == []
    {
      stamps, frames := [-1], [];
    }

    /** Any number of claims by other threads. */
    method Others()
      requires Valid()
      modifies this`stamps
      ensures Valid() && old(stamps) <= stamps
    {
      NoClaim(stamps);
      var claims: seq<int> :| Spaced(stamps + claims);
      stamps := stamps + claims;
    }

    method Reinit()
      modifies this`frames
      ensures frames == old(frames) + [[0x02, 0xFF, 0x00]]
    {
      frames := frames + [[0x02, 0xFF, 0x00]];
    }

    /** HandlePreset(99): the loop ends, having either claimed the window and sent one frame, or met a claim that
        is less than a window old. Each retry has seen a claim at least a window newer. */
    method HandlePreset99(now: nat) returns (claimed: bool)
      requires Valid()
      modifies this
      ensures Valid() && old(stamps) <= stamps
      ensures claimed ==> frames == old(frames) + [[0x02, 0xFF, 0x00]]
      ensures claimed ==> exists i :: |old(stamps)| <= i < |stamps| && stamps[i] == now &&
                            forall j | 1 <= j < i :: now - stamps[j] >= 2000
      ensures !claimed ==> frames == old(frames)
      ensures !claimed ==> exists i :: 1 <= i < |stamps| && now - stamps[i] < 2000
    {
      hide Spaced, Cooling;
      claimed := false;
      ValidHasFirst(stamps);
      var seen: nat := 0;
      while true
        invariant Valid() && old(stamps) <= stamps && frames == old(frames) && !claimed
        invariant 0 <= seen < |stamps|
        decreases Behind(now, stamps[seen])
      {
        Others();
        var at: nat :| seen <= at < |stamps|;
        var last := stamps[at];
        if Cooling(now, last) {
          CoolingIsClaim(stamps, now, at);
          break;
        }
        Others();
        var current := stamps[|stamps| - 1];
        if current == last {
          ghost var before := stamps;
          Claim(now);
          claimed := true;
          assert stamps[|before|] == (before + [now])[|before|];
          assert forall j | 1 <= j < |before| :: stamps[j] == (before + [now])[j] && (before + [now])[j] == before[j];
          break;
        }
        RetryCloser(stamps, now, seen, at);
        seen := |stamps| - 1;
      }
    }

    /** The successful swap, and the frame it allows. */
    method Claim(now: nat)
      requires Valid() && !Cooling(now, stamps[|stamps| - 1])
      modifies this
      ensures Valid() && old(stamps) + [now] <= stamps && frames == old(frames) + [[0x02, 0xFF, 0x00]]
      ensures forall j | 1 <= j < |old(stamps)| :: now - old(stamps)[j] >= WINDOW
    {
      SpacedAppend(stamps, now);
      assert forall j | 1 <= j < |stamps| :: (stamps + [now])[|stamps|] - (stamps + [now])[j] >= WINDOW;
      stamps := stamps + [now];
      Others();
      Reinit();
    }
  }

  lemma ValidHasFirst(stamps: seq<int>)
    requires Spaced(stamps)
    ensures stamps != [] && stamps[0] == -1
  {
  }

  lemma CoolingIsClaim(stamps: seq<int>, now: nat, at: nat)
    requires Spaced(stamps) && at < |stamps| && Cooling(now, stamps[at])
    ensures at >= 1 && now - stamps[at] < WINDOW
  {
  }

  /** How far the newest value a call has read lies behind the call's own time. */
  function Behind(now: nat, last: int): nat {
    if last < 0 then now + 1 else if last <= now then now - last else 0
  }

  /** A swap that fails for a changed value brings the next read a window closer. */
  lemma RetryCloser(stamps: seq<int>, now: nat, seen: nat, at: nat)
    requires Spaced(stamps) && seen <= at < |stamps| && stamps[at] != stamps[|stamps| - 1] && !Cooling(now, stamps[at])
    ensures Behind(now, stamps[|stamps| - 1]) < Behind(now, stamps[seen])
    ensures stamps[seen] >= 0 && stamps[|stamps| - 1] <= now ==>
              Behind(now, stamps[|stamps| - 1]) + WINDOW <= Behind(now, stamps[seen])
  {
    StampsDistinct(stamps, at, |stamps| - 1);
    if seen < at { StampsDistinct(stamps, seen, at); }
  }
}
