/** move: sending the commands of a batch to the robot, and what a synchronous start says about the answers. */
module MoveCommands {
  import opened MessageServer
  import opened RobotControl

  /** A command by the place of its message in the batch and the group it goes to. */
  type Command = (nat, Group)

  // ---- which commands a batch consists of, and which answers decide ----

  /** The groups a kind is sent to, in order. */
  function Targets(kind: uint8): seq<Group> {
    match kind
    case 0 | 3 => [LeftArm]
    case 1 | 4 => [RightArm]
    case 2 | 5 => [LeftArm, RightArm]
    case 6 => [Foot]
    case 7 => [Head]
    case 8 => [Waist]
    case 9 | 10 => [LeftArm, RightArm, Foot, Head, Waist]
    case _ => []
  }

  /** A message is sent to exactly the groups that is_run asks about for its kind, and to each once. */
  lemma TargetsAreGroups(kind: uint8)
    ensures (set g | g in Targets(kind)) == GroupsOf(kind) && |Targets(kind)| == |GroupsOf(kind)|
  {
  }

  /** Which kinds each group takes part in. */
  lemma KindsOfGroup(kind: uint8)
    ensures LeftArm in Targets(kind) <==> kind in {0, 2, 3, 5, 9, 10}
    ensures RightArm in Targets(kind) <==> kind in {1, 2, 4, 5, 9, 10}
    ensures Foot in Targets(kind) <==> kind in {6, 9, 10}
    ensures Head in Targets(kind) <==> kind in {7, 9, 10}
    ensures Waist in Targets(kind) <==> kind in {8, 9, 10}
  {
  }

  /** The kinds that is_run knows are those that move sends something for. */
  lemma KnownIffSent(kind: uint8)
    ensures Known(kind) <==> Targets(kind) != []
  {
  }

  function Place(g: Group): nat {
    match g
    case LeftArm => 0
    case RightArm => 1
    case Foot => 2
    case Head => 3
    case Waist => 4
  }

  /** The left arm is sent to before the right one, and both before the body from the foot up. */
  lemma TargetsInOrder(kind: uint8, j: nat, k: nat)
    requires j < k < |Targets(kind)|
    ensures Place(Targets(kind)[j]) < Place(Targets(kind)[k])
  {
  }

  /** The answer to the left arm that the right arm's answer overwrites, in the two joint-space kinds for both arms. */
  predicate Unheeded(kind: uint8, g: Group) {
    (kind == 5 || kind == 10) && g == LeftArm
  }

  function CommandsOf(i: nat, kind: uint8): (cs: seq<Command>)
    ensures |cs| == |Targets(kind)| && forall k | 0 <= k < |cs| :: cs[k] == (i, Targets(kind)[k])
  {
    seq(|Targets(kind)|, k requires 0 <= k < |Targets(kind)| => (i, Targets(kind)[k]))
  }

  function CommandsFrom(batch: seq<Message>, i: nat): seq<Command>
    requires i <= |batch|
    decreases |batch| - i
  {
    if i == |batch| then [] else CommandsOf(i, batch[i].kind) + CommandsFrom(batch, i + 1)
  }

  /** The commands of a whole batch, in order. */
  function AllCommands(batch: seq<Message>): seq<Command> {
    CommandsFrom(batch, 0)
  }

  /** Whether sending goes on after a command. */
  predicate GoesOn(batch: seq<Message>, c: Command, accepted: set<Command>) {
    c in accepted || (c.0 < |batch| && Unheeded(batch[c.0].kind, c.1))
  }

  /** Sending all of the commands, or stopping right after the first refusal that is heeded. */
  predicate SentUpToRefusal(batch: seq<Message>, all: seq<Command>, sent: seq<Command>, ok: bool, accepted: set<Command>) {
    && sent <= all
    && (ok ==> sent == all && forall k | 0 <= k < |sent| :: GoesOn(batch, sent[k], accepted))
    && (!ok ==> sent != [] && !GoesOn(batch, sent[|sent| - 1], accepted)
                && forall k | 0 <= k < |sent| - 1 :: GoesOn(batch, sent[k], accepted))
  }

  // ---- the code ----

  /** The robot's error code for one command, zero when it is accepted. */
  function Answer(i: nat, g: Group, accepted: set<Command>): int {
    if (i, g) in accepted then 0 else -1
  }

  /** The three commands that end the two whole-robot kinds. */
  method SendBody(i: nat, accepted: set<Command>) returns (ret: int, sent: seq<Command>)
    ensures sent <= [(i, Foot), (i, Head), (i, Waist)]
    ensures ret == 0 ==> |sent| == 3 && forall k | 0 <= k < 3 :: sent[k] in accepted
    ensures ret != 0 ==> sent != [] && sent[|sent| - 1] !in accepted && forall k | 0 <= k < |sent| - 1 :: sent[k] in accepted
  {
    ret, sent := Answer(i, Foot, accepted), [(i, Foot)];
    if ret != 0 { return; }
    ret, sent := Answer(i, Head, accepted), sent + [(i, Head)];
    if ret != 0 { return; }
    ret, sent := Answer(i, Waist, accepted), sent + [(i, Waist)];
  }

  /** The switch over the kind of one message, with the one variable ret that every answer is written to. */
  method SendCommands(batch: seq<Message>, i: nat, accepted: set<Command>) returns (ret: int, sent: seq<Command>)
    requires i < |batch|
    ensures SentUpToRefusal(batch, CommandsOf(i, batch[i].kind), sent, ret == 0, accepted)
  {
    ret, sent := 0, [];
    ghost var all := CommandsOf(i, batch[i].kind);
    match batch[i].kind {
      case 0 | 3 =>
        ret, sent := Answer(i, LeftArm, accepted), sent + [(i, LeftArm)];
      case 1 | 4 =>
        ret, sent := Answer(i, RightArm, accepted), sent + [(i, RightArm)];
      case 2 =>
        ret, sent := Answer(i, LeftArm, accepted), sent + [(i, LeftArm)];
        if ret != 0 { return; }
        ret, sent := Answer(i, RightArm, accepted), sent + [(i, RightArm)];
      case 5 =>
        ret, sent := Answer(i, LeftArm, accepted), sent + [(i, LeftArm)];
        ret, sent := Answer(i, RightArm, accepted), sent + [(i, RightArm)];
      case 6 =>
        ret, sent := Answer(i, Foot, accepted), sent + [(i, Foot)];
      case 7 =>
        ret, sent := Answer(i, Head, accepted), sent + [(i, Head)];
      case 8 =>
        ret, sent := Answer(i, Waist, accepted), sent + [(i, Waist)];
      case 9 =>
        assert all == [(i, LeftArm), (i, RightArm), (i, Foot), (i, Head), (i, Waist)];
        ret, sent := Answer(i, LeftArm, accepted), sent + [(i, LeftArm)];
        if ret != 0 { return; }
        ret, sent := Answer(i, RightArm, accepted), sent + [(i, RightArm)];
        if ret != 0 { return; }
        var body;
        ret, body := SendBody(i, accepted);
        sent := sent + body;
      case 10 =>
        assert all == [(i, LeftArm), (i, RightArm), (i, Foot), (i, Head), (i, Waist)];
        ret, sent := Answer(i, LeftArm, accepted), sent + [(i, LeftArm)];
        ret, sent := Answer(i, RightArm, accepted), sent + [(i, RightArm)];
        if ret != 0 { return; }
        var body;
        ret, body := SendBody(i, accepted);
        sent := sent + body;
      case _ =>
    }
  }

  /** move: the commands of the messages in turn, and the synchronous start unless ret is left nonzero. */
  method Move(batch: seq<Message>, accepted: set<Command>) returns (sync: bool, sent: seq<Command>)
    ensures SentUpToRefusal(batch, AllCommands(batch), sent, sync, accepted)
    ensures sync <==> Starts(batch, accepted)
  {
    hide *;
    sent := [];
    NothingSent(batch, accepted);
    var i := 0;
    while i < |batch|
      invariant i <= |batch| && SentBefore(batch, i, sent, accepted)
    {
      var ret, more := SendCommands(batch, i, accepted);
      MoreSent(batch, i, sent, more, ret == 0, accepted);
      sent := sent + more;
      if ret != 0 {
        StartsIffSent(batch, sent, false, accepted);
        return false, sent;
      }
      i := i + 1;
    }
    EverythingSent(batch, sent, accepted);
    StartsIffSent(batch, sent, true, accepted);
    sync := true;
  }

  /** The commands before message i are sent, and none of them was refused in a way that is heeded. */
  predicate SentBefore(batch: seq<Message>, i: nat, sent: seq<Command>, accepted: set<Command>)
    requires i <= |batch|
  {
    sent + CommandsFrom(batch, i) == AllCommands(batch) && forall k | 0 <= k < |sent| :: GoesOn(batch, sent[k], accepted)
  }

  lemma NothingSent(batch: seq<Message>, accepted: set<Command>)
    ensures SentBefore(batch, 0, [], accepted)
  {
  }

  lemma MoreSent(batch: seq<Message>, i: nat, sent: seq<Command>, more: seq<Command>, ok: bool, accepted: set<Command>)
    requires i < |batch| && SentBefore(batch, i, sent, accepted)
    requires SentUpToRefusal(batch, CommandsOf(i, batch[i].kind), more, ok, accepted)
    ensures ok ==> SentBefore(batch, i + 1, sent + more, accepted)
    ensures !ok ==> SentUpToRefusal(batch, AllCommands(batch), sent + more, false, accepted)
  {
    hide GoesOn, CommandsOf, AllCommands;
    var these, rest := CommandsOf(i, batch[i].kind), CommandsFrom(batch, i + 1);
    assert sent + (these + rest) == sent + these + rest;
    if !ok { RefusalInside(batch, sent, these, rest, more, accepted); }
  }

  lemma EverythingSent(batch: seq<Message>, sent: seq<Command>, accepted: set<Command>)
    requires SentBefore(batch, |batch|, sent, accepted)
    ensures SentUpToRefusal(batch, AllCommands(batch), sent, true, accepted)
  {
    hide GoesOn;
    assert sent + [] == sent;
  }

  lemma StartsIffSent(batch: seq<Message>, sent: seq<Command>, ok: bool, accepted: set<Command>)
    requires SentUpToRefusal(batch, AllCommands(batch), sent, ok, accepted)
    ensures ok <==> Starts(batch, accepted)
  {
    hide GoesOn, AllCommands;
    if !ok { assert AllCommands(batch)[|sent| - 1] in AllCommands(batch); }
  }

  lemma RefusalInside(batch: seq<Message>, done: seq<Command>, these: seq<Command>, rest: seq<Command>,
                      more: seq<Command>, accepted: set<Command>)
    requires SentUpToRefusal(batch, these, more, false, accepted)
    requires forall k | 0 <= k < |done| :: GoesOn(batch, done[k], accepted)
    ensures SentUpToRefusal(batch, done + these + rest, done + more, false, accepted)
  {
    hide GoesOn;
    var sent := done + more;
    assert sent[|sent| - 1] == more[|more| - 1];
    forall k | 0 <= k < |sent| - 1 ensures GoesOn(batch, sent[k], accepted) {
      if k >= |done| { assert sent[k] == more[k - |done|]; }
    }
  }

  // ---- what a synchronous start means ----

  predicate Starts(batch: seq<Message>, accepted: set<Command>) {
    forall c | c in AllCommands(batch) :: GoesOn(batch, c, accepted)
  }

  predicate AllAccepted(batch: seq<Message>, accepted: set<Command>) {
    forall c | c in AllCommands(batch) :: c in accepted
  }

  lemma CommandsOfHave(i: nat, kind: uint8, c: Command)
    ensures c in CommandsOf(i, kind) <==> c.0 == i && c.1 in Targets(kind)
  {
    hide Targets;
    if c.0 == i && c.1 in Targets(kind) {
      var k :| 0 <= k < |Targets(kind)| && Targets(kind)[k] == c.1;
      assert CommandsOf(i, kind)[k] == c;
    }
  }

  lemma {:induction false} CommandsHave(batch: seq<Message>, i: nat, c: Command)
    requires i <= |batch|
    ensures c in CommandsFrom(batch, i) <==> i <= c.0 < |batch| && c.1 in Targets(batch[c.0].kind)
    decreases |batch| - i
  {
    hide CommandsOf, Targets;
    if i < |batch| {
      CommandsHave(batch, i + 1, c);
      CommandsOfHave(i, batch[i].kind, c);
    }
  }

  /** A synchronous start implies that every command was accepted, whatever the robot answers, if and only if no
      message is a joint-space command for both arms. */
  lemma StartMeansAcceptedIff(batch: seq<Message>)
    ensures (forall accepted :: Starts(batch, accepted) ==> AllAccepted(batch, accepted)) <==>
            forall i | 0 <= i < |batch| :: batch[i].kind != 5 && batch[i].kind != 10
  {
    hide AllCommands, Targets;
    if i :| 0 <= i < |batch| && (batch[i].kind == 5 || batch[i].kind == 10) {
      StartDespiteRefusal(batch, i);
    }
  }

  /** For such a message, refusing nothing but its left arm goes unnoticed. */
  lemma StartDespiteRefusal(batch: seq<Message>, i: nat)
    requires i < |batch| && (batch[i].kind == 5 || batch[i].kind == 10)
    ensures var accepted := (set c | c in AllCommands(batch)) - {(i, LeftArm)};
            Starts(batch, accepted) && !AllAccepted(batch, accepted)
  {
    CommandsHave(batch, 0, (i, LeftArm));
    hide AllCommands;
  }
}
