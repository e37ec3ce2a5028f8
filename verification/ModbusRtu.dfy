/** ModbusRtuMaster: writing and reading one holding register over an unreliable line. */
module ModbusRtu {
  import opened Wrappers
  import opened Crc16

  /** A register from its two bytes. */
  function Word(hi: byte, lo: byte): word {
    ((hi as word) << 8) | (lo as word)
  }

  // ---- frames (MODBUS Application Protocol V1.1b3, sections 6.3 and 6.6) ----

  function WriteRequest(slave: byte, reg: word, value: word): seq<byte> {
    Sealed([slave, 0x06, High(reg), Low(reg), High(value), Low(value)])
  }

  function ReadRequest(slave: byte, reg: word): seq<byte> {
    Sealed([slave, 0x03, High(reg), Low(reg), 0x00, 0x01])
  }

  function ReadReply(id: byte, value: word): seq<byte> {
    Sealed([id, 0x03, 0x02, High(value), Low(value)])
  }

  function ExceptionReply(id: byte, func: byte, code: byte): seq<byte> {
    Sealed([id, func | 0x80, code])
  }

  // ---- a slave that follows the standard ----

  /** A register address or content, wrapped so that it can sit in a map. */
  datatype Cell = Cell(w: word)

  datatype Device = Device(id: byte, regs: map<Cell, Cell>) {
    predicate Has(reg: word) {
      Cell(reg) in regs
    }

    function Holds(reg: word): word
      requires Has(reg)
    {
      regs[Cell(reg)].w
    }
  }

  function Written(dev: Device, reg: word, value: word): Device {
    if dev.Has(reg) then Device(dev.id, dev.regs[Cell(reg) := Cell(value)]) else dev
  }

  datatype Served = Served(dev: Device, reply: seq<byte>)

  /** Frames that are too short, damaged or meant for another slave are dropped; a broadcast is obeyed without
      a reply; a read asks for exactly one register, the only request this master sends. */
  function Serve(dev: Device, frame: seq<byte>): Served {
    if |frame| < 4 || Crc(frame) != 0 || (frame[0] != dev.id && frame[0] != 0) then Served(dev, [])
    else if |frame| == 8 && frame[1] == 0x06 then
      var reg, value := Word(frame[2], frame[3]), Word(frame[4], frame[5]);
      Served(Written(dev, reg, value), if frame[0] == 0 then [] else if dev.Has(reg) then frame else ExceptionReply(dev.id, 0x06, 0x02))
    else if frame[0] == 0 then Served(dev, [])
    else if |frame| == 8 && frame[1] == 0x03 then
      var reg := Word(frame[2], frame[3]);
      Served(dev, if Word(frame[4], frame[5]) != 1 then ExceptionReply(dev.id, 0x03, 0x03)
                  else if dev.Has(reg) then ReadReply(dev.id, dev.Holds(reg))
                  else ExceptionReply(dev.id, 0x03, 0x02))
    else Served(dev, ExceptionReply(dev.id, frame[1], 0x01))
  }

  // ---- the line ----

  type Flip = b: byte | b != 0 witness 1

  /** What happens to one attempt. Damage flips bits in one byte and possibly in the next one; positions count
      modulo the frame length. A reply never shows up in a later attempt. */
  datatype Fault =
    | Clean
    | ShortWrite(count: int)
    | RequestLost
    | RequestDamaged(at: nat, x: Flip, y: byte)
    | ReplyLost
    | ReplyCut(kept: nat)
    | ReplyDamaged(at: nat, x: Flip, y: byte)

  function Damaged(frame: seq<byte>, at: nat, x: Flip, y: byte): seq<byte>
    requires frame != []
  {
    var i := at % |frame|;
    var first := frame[i := frame[i] ^ x];
    if i + 1 < |frame| then first[i + 1 := first[i + 1] ^ y] else first
  }

  datatype Exchange = Exchange(dev: Device, written: int, arrived: seq<byte>)

  function Attempt(dev: Device, request: seq<byte>, f: Fault): Exchange
    requires request != []
  {
    match f
    case ShortWrite(n) => Exchange(dev, if n == |request| then -1 else n, [])
    case RequestLost => Exchange(dev, |request|, [])
    case RequestDamaged(at, x, y) =>
      var s := Serve(dev, Damaged(request, at, x, y));
      Exchange(s.dev, |request|, s.reply)
    case _ =>
      var s := Serve(dev, request);
      Exchange(s.dev, |request|, if s.reply == [] then [] else Delivered(s.reply, f))
  }

  /** What is left of a reply on its way back. */
  function Delivered(reply: seq<byte>, f: Fault): seq<byte>
    requires reply != []
  {
    match f
    case ReplyLost => []
    case ReplyCut(kept) => reply[..kept % |reply|]
    case ReplyDamaged(at, x, y) => Damaged(reply, at, x, y)
    case _ => reply
  }

  function FaultAt(faults: seq<Fault>, i: nat): Fault {
    if i < |faults| then faults[i] else Clean
  }

  function Later(faults: seq<Fault>): seq<Fault> {
    if faults == [] then [] else faults[1..]
  }

  predicate CleanWithin(faults: seq<Fault>, n: nat) {
    exists i :: 0 <= i < n && FaultAt(faults, i).Clean?
  }

  /** The number of attempts up to the first clean one, at most n. */
  function UntilClean(faults: seq<Fault>, n: nat): (k: nat)
    ensures k <= n
  {
    if n == 0 then 0 else if FaultAt(faults, 0).Clean? then 1 else 1 + UntilClean(Later(faults), n - 1)
  }

  // ---- what a run of attempts amounts to ----

  datatype Run = Run(dev: Device, value: Option<word>, sent: nat)

  predicate EchoMatches(request: seq<byte>, arrived: seq<byte>) {
    |arrived| >= 8 && arrived[..8] == request
  }

  /** The check on the seven bytes of a read reply. */
  predicate ReplyAccepted(slave: byte, b: seq<byte>)
    requires |b| == 7
  {
    Crc(b[..5]) == Word(b[6], b[5]) && b[0] == slave && b[1] == 0x03 && b[2] == 0x02
  }

  /** The value an attempt yields, if it succeeds; a write yields the value it wrote. */
  function WriteYield(request: seq<byte>, value: word, e: Exchange): Option<word> {
    if e.written == 8 && EchoMatches(request, e.arrived) then Some(value) else None
  }

  function ReadYield(slave: byte, e: Exchange): Option<word> {
    if e.written == 8 && |e.arrived| >= 7 && ReplyAccepted(slave, e.arrived[..7])
    then Some(Word(e.arrived[3], e.arrived[4])) else None
  }

  function WriteRun(dev: Device, faults: seq<Fault>, slave: byte, reg: word, value: word, retry: nat): Run
    decreases retry
  {
    if retry == 0 then Run(dev, None, 0) else
      var request := WriteRequest(slave, reg, value);
      var e := Attempt(dev, request, FaultAt(faults, 0));
      var y := WriteYield(request, value, e);
      if y.Some? then Run(e.dev, y, 1) else
        var rest := WriteRun(e.dev, Later(faults), slave, reg, value, retry - 1);
        Run(rest.dev, rest.value, rest.sent + 1)
  }

  function ReadRun(dev: Device, faults: seq<Fault>, slave: byte, reg: word, retry: nat): Run
    decreases retry
  {
    if retry == 0 then Run(dev, None, 0) else
      var e := Attempt(dev, ReadRequest(slave, reg), FaultAt(faults, 0));
      var y := ReadYield(slave, e);
      if y.Some? then Run(e.dev, y, 1) else
        var rest := ReadRun(e.dev, Later(faults), slave, reg, retry - 1);
        Run(rest.dev, rest.value, rest.sent + 1)
  }

  // ---- damage never goes unnoticed ----

  lemma DamageDetected(frame: seq<byte>, at: nat, x: Flip, y: byte)
    requires frame != [] && Crc(frame) == 0
    ensures Crc(Damaged(frame, at, x, y)) != 0
  {
    hide Crc;
    var i := at % |frame|;
    var n := if i + 1 < |frame| then 2 else 1;
    var damaged := Damaged(frame, at, x, y);
    FlipChanges(frame[i], x);
    assert frame == frame[..i] + frame[i..i + n] + frame[i + n..];
    assert damaged == frame[..i] + damaged[i..i + n] + frame[i + n..];
    assert frame[i..i + n][0] == frame[i] && damaged[i..i + n][0] == damaged[i];
    AdjacentBytesDetected(frame[..i], frame[i..i + n], damaged[i..i + n], frame[i + n..]);
  }

  lemma FlipChanges(b: byte, x: Flip)
    ensures b ^ x != b
  {
  }

  lemma SealedIsIntact(body: seq<byte>)
    ensures Crc(Sealed(body)) == 0
  {
    hide Crc, Low, High;
    ResidueZeroIffSealed(body, Low(Crc(body)), High(Crc(body)));
  }

  lemma WordParts(w: word)
    ensures Word(High(w), Low(w)) == w
  {
  }

  lemma PartsOfWord(hi: byte, lo: byte)
    ensures High(Word(hi, lo)) == hi && Low(Word(hi, lo)) == lo
  {
  }

  /** The comparison of computed and received checksum holds exactly for intact replies. */
  lemma AcceptedIsIntact(slave: byte, b: seq<byte>)
    requires |b| == 7
    ensures Crc(b[..5]) == Word(b[6], b[5]) <==> Crc(b) == 0
  {
    hide Crc, Low, High, Word;
    assert b == b[..5] + [b[5], b[6]];
    ResidueZeroIffSealed(b[..5], b[5], b[6]);
    WordParts(Crc(b[..5]));
    PartsOfWord(b[6], b[5]);
    assert Sealed(b[..5])[5] == Low(Crc(b[..5])) && Sealed(b[..5])[6] == High(Crc(b[..5]));
  }

  // ---- one attempt ----

  lemma RequestForms(slave: byte, reg: word, value: word)
    ensures var w := WriteRequest(slave, reg, value);
            |w| == 8 && Crc(w) == 0 && w[0] == slave && w[1] == 0x06 &&
            Word(w[2], w[3]) == reg && Word(w[4], w[5]) == value
    ensures var r := ReadRequest(slave, reg);
            |r| == 8 && Crc(r) == 0 && r[0] == slave && r[1] == 0x03 &&
            Word(r[2], r[3]) == reg && Word(r[4], r[5]) == 1
    ensures var p := ReadReply(slave, value);
            |p| == 7 && Crc(p) == 0 && p[0] == slave && p[1] == 0x03 && p[2] == 0x02 && Word(p[3], p[4]) == value
  {
    hide Crc, Low, High, Word;
    SealedIsIntact([slave, 0x06, High(reg), Low(reg), High(value), Low(value)]);
    SealedIsIntact([slave, 0x03, High(reg), Low(reg), 0x00, 0x01]);
    SealedIsIntact([slave, 0x03, 0x02, High(value), Low(value)]);
    WordParts(reg);
    WordParts(value);
    assert Word(0x00, 0x01) == 1 by { OneAsWord(); }
  }

  lemma OneAsWord()
    ensures Word(0x00, 0x01) == 1
  {
  }

  /** Whether the slave answers for the register: then a write is echoed and a read returns the value. */
  predicate Answers(dev: Device, slave: byte, reg: word) {
    slave == dev.id && slave != 0 && dev.Has(reg)
  }

  lemma ServeWrite(dev: Device, slave: byte, reg: word, value: word)
    ensures var s := Serve(dev, WriteRequest(slave, reg, value));
            s.dev == (if slave == dev.id || slave == 0 then Written(dev, reg, value) else dev) &&
            (Answers(dev, slave, reg) ==> s.reply == WriteRequest(slave, reg, value)) &&
            (!Answers(dev, slave, reg) ==> |s.reply| <= 5)
  {
    hide Crc, Low, High, Word, Sealed, WriteRequest;
    RequestForms(slave, reg, value);
    SealedLength([dev.id, 0x06 | 0x80, 0x02]);
  }

  lemma ServeRead(dev: Device, slave: byte, reg: word)
    ensures var s := Serve(dev, ReadRequest(slave, reg));
            s.dev == dev &&
            (Answers(dev, slave, reg) ==> s.reply == ReadReply(slave, dev.Holds(reg))) &&
            (!Answers(dev, slave, reg) ==> |s.reply| <= 5)
  {
    hide Crc, Low, High, Word, Sealed, ReadRequest;
    RequestForms(slave, reg, 0);
    SealedLength([dev.id, 0x03 | 0x80, 0x02]);
  }

  lemma SealedLength(body: seq<byte>)
    ensures |Sealed(body)| == |body| + 2
  {
    hide Crc;
  }

  lemma ServeDamaged(dev: Device, request: seq<byte>, at: nat, x: Flip, y: byte)
    requires |request| == 8 && Crc(request) == 0
    ensures Serve(dev, Damaged(request, at, x, y)) == Served(dev, [])
  {
    hide Crc, Word, ExceptionReply, ReadReply;
    DamageDetected(request, at, x, y);
  }

  /** An attempt to write succeeds exactly when it is clean and the slave answers; when it succeeds the register
      holds the value, and in no case does anything else in the slave change. */
  lemma WriteAttempt(dev: Device, slave: byte, reg: word, value: word, f: Fault)
    ensures var request := WriteRequest(slave, reg, value);
            var e := Attempt(dev, request, f);
            (e.dev == dev || e.dev == Written(dev, reg, value)) &&
            (WriteYield(request, value, e).Some? <==> f.Clean? && Answers(dev, slave, reg)) &&
            (WriteYield(request, value, e).Some? ==> e.dev == Written(dev, reg, value))
  {
    hide Crc, Low, High, Word, Sealed, WriteRequest, Serve, Damaged;
    var request := WriteRequest(slave, reg, value);
    RequestForms(slave, reg, value);
    ServeWrite(dev, slave, reg, value);
    var reply := Serve(dev, request).reply;
    if f.RequestDamaged? { ServeDamaged(dev, request, f.at, f.x, f.y); }
    if f.ReplyDamaged? && reply != [] { DamagedLength(reply, f.at, f.x, f.y); }
    if f.ReplyDamaged? && Answers(dev, slave, reg) { DamageDetected(reply, f.at, f.x, f.y); }
    assert request[..8] == request;
    if Attempt(dev, request, f).arrived != [] {
      assert Attempt(dev, request, f).arrived[..|Attempt(dev, request, f).arrived|] == Attempt(dev, request, f).arrived;
    }
  }

  lemma DamagedLength(frame: seq<byte>, at: nat, x: Flip, y: byte)
    requires frame != []
    ensures |Damaged(frame, at, x, y)| == |frame|
  {
  }

  lemma ReadAttempt(dev: Device, slave: byte, reg: word, f: Fault)
    ensures var e := Attempt(dev, ReadRequest(slave, reg), f);
            e.dev == dev &&
            ReadYield(slave, e) == if f.Clean? && Answers(dev, slave, reg) then Some(dev.Holds(reg)) else None
  {
    hide Crc, Low, High, Word, Sealed, ReadRequest, ReadReply, Serve, Damaged;
    var request := ReadRequest(slave, reg);
    RequestForms(slave, reg, 0);
    ServeRead(dev, slave, reg);
    var reply := Serve(dev, request).reply;
    if f.RequestDamaged? { ServeDamaged(dev, request, f.at, f.x, f.y); }
    if f.ReplyDamaged? && reply != [] { DamagedLength(reply, f.at, f.x, f.y); }
    if Answers(dev, slave, reg) {
      RequestForms(slave, reg, dev.Holds(reg));
      assert reply[..7] == reply;
      AcceptedIsIntact(slave, reply);
      if f.ReplyDamaged? {
        var damaged := Damaged(reply, f.at, f.x, f.y);
        DamageDetected(reply, f.at, f.x, f.y);
        assert damaged[..7] == damaged;
        AcceptedIsIntact(slave, damaged);
      }
    }
  }

  // ---- whole runs ----

  lemma CleanStep(faults: seq<Fault>, n: nat)
    requires n > 0
    ensures CleanWithin(faults, n) <==> FaultAt(faults, 0).Clean? || CleanWithin(Later(faults), n - 1)
  {
    assert forall i: nat :: FaultAt(Later(faults), i) == FaultAt(faults, i + 1);
    if i :| 0 <= i < n && FaultAt(faults, i).Clean? {
      if i > 0 { assert FaultAt(Later(faults), i - 1).Clean?; }
    }
    if i :| 0 <= i < n - 1 && FaultAt(Later(faults), i).Clean? {
      assert FaultAt(faults, i + 1).Clean?;
    }
  }

  lemma WriteRunStep(dev: Device, faults: seq<Fault>, slave: byte, reg: word, value: word, retry: nat)
    requires retry > 0
    ensures WriteRequest(slave, reg, value) != []
    ensures var e := Attempt(dev, WriteRequest(slave, reg, value), FaultAt(faults, 0));
            WriteRun(dev, faults, slave, reg, value, retry) ==
            if WriteYield(WriteRequest(slave, reg, value), value, e).Some? then Run(e.dev, Some(value), 1)
            else var rest := WriteRun(e.dev, Later(faults), slave, reg, value, retry - 1);
                 Run(rest.dev, rest.value, rest.sent + 1)
  {
    hide Attempt, EchoMatches;
  }

  /** Writing succeeds exactly when the slave answers and one of the allowed attempts is clean. On success the
      register holds the value; requests stop at the first clean attempt, or at the limit. */
  lemma {:induction false} WriteRunExact(dev: Device, faults: seq<Fault>, slave: byte, reg: word, value: word, retry: nat)
    ensures var r := WriteRun(dev, faults, slave, reg, value, retry);
            (r.value.Some? <==> Answers(dev, slave, reg) && CleanWithin(faults, retry)) &&
            (r.value.Some? ==> r.dev == Written(dev, reg, value)) &&
            (r.dev == dev || r.dev == Written(dev, reg, value)) &&
            r.sent == if Answers(dev, slave, reg) then UntilClean(faults, retry) else retry
    decreases retry
  {
    hide WriteRun, WriteYield, Attempt, WriteRequest, FaultAt;
    if retry == 0 {
      WriteRunNone(dev, faults, slave, reg, value);
    } else {
      WriteRunStep(dev, faults, slave, reg, value, retry);
      var e := Attempt(dev, WriteRequest(slave, reg, value), FaultAt(faults, 0));
      WriteAttempt(dev, slave, reg, value, FaultAt(faults, 0));
      CleanStep(faults, retry);
      WriteRunExact(e.dev, Later(faults), slave, reg, value, retry - 1);
    }
  }

  /** A negative limit allows no request, like zero. */
  function Allowed(retry: int): (n: nat)
    ensures n == if retry < 0 then 0 else retry
  {
    if retry < 0 then 0 else retry
  }

  lemma WriteRunNone(dev: Device, faults: seq<Fault>, slave: byte, reg: word, value: word)
    ensures WriteRun(dev, faults, slave, reg, value, 0) == Run(dev, None, 0)
    ensures ReadRun(dev, faults, slave, reg, 0) == Run(dev, None, 0)
  {
  }

  lemma ReadRunStep(dev: Device, faults: seq<Fault>, slave: byte, reg: word, retry: nat)
    requires retry > 0
    ensures ReadRequest(slave, reg) != []
    ensures var e := Attempt(dev, ReadRequest(slave, reg), FaultAt(faults, 0));
            ReadRun(dev, faults, slave, reg, retry) ==
            if ReadYield(slave, e).Some? then Run(e.dev, ReadYield(slave, e), 1)
            else var rest := ReadRun(e.dev, Later(faults), slave, reg, retry - 1);
                 Run(rest.dev, rest.value, rest.sent + 1)
  {
    hide Attempt, ReadYield;
  }

  /** Reading never changes the slave; it yields exactly the register's value, and does so exactly when the
      slave answers and one of the allowed attempts is clean. */
  lemma {:induction false} ReadRunExact(dev: Device, faults: seq<Fault>, slave: byte, reg: word, retry: nat)
    ensures var r := ReadRun(dev, faults, slave, reg, retry);
            r.dev == dev &&
            (r.value.Some? <==> Answers(dev, slave, reg) && CleanWithin(faults, retry)) &&
            (r.value.Some? ==> r.value.value == dev.Holds(reg)) &&
            r.sent == if Answers(dev, slave, reg) then UntilClean(faults, retry) else retry
    decreases retry
  {
    hide ReadRun, ReadYield, Attempt, ReadRequest, FaultAt;
    if retry == 0 {
      WriteRunNone(dev, faults, slave, reg, 0);
    } else {
      ReadRunStep(dev, faults, slave, reg, retry);
      ReadAttempt(dev, slave, reg, FaultAt(faults, 0));
      CleanStep(faults, retry);
      ReadRunExact(dev, Later(faults), slave, reg, retry - 1);
    }
  }

  /** A successful write followed by a successful read of the same register returns the value written, whatever
      the line did, and even a failed read leaves the value in place. */
  lemma WriteThenRead(dev: Device, during: seq<Fault>, between: seq<Fault>, slave: byte, reg: word, value: word, m: nat, n: nat)
    requires WriteRun(dev, during, slave, reg, value, m).value.Some?
    ensures var w := WriteRun(dev, during, slave, reg, value, m);
            var r := ReadRun(w.dev, between, slave, reg, n);
            (r.value.Some? ==> r.value.value == value) &&
            r.dev.Has(reg) && r.dev.Holds(reg) == value && w.sent <= m && r.sent <= n
  {
    hide WriteRun, ReadRun;
    var w := WriteRun(dev, during, slave, reg, value, m);
    WriteRunExact(dev, during, slave, reg, value, m);
    assert w.dev == Written(dev, reg, value) && w.dev.Has(reg);
    ReadRunExact(w.dev, between, slave, reg, n);
  }

  // ---- the code ----

  /** ITransport with the slave at its other end. */
  class Line {
    var dev: Device
    var faults: seq<Fault>
    var arrived: seq<byte>
    var requests: seq<seq<byte>>

    constructor (d: Device, fs: seq<Fault>)
      ensures dev == d && faults == fs && arrived == [] && requests == []
    {
      dev, faults, arrived, requests := d, fs, [], [];
    }

    method Write(buf: seq<byte>) returns (n: int)
      requires buf != []
      modifies this
      ensures var e := Attempt(old(dev), buf, FaultAt(old(faults), 0));
              dev == e.dev && n == e.written && arrived == e.arrived
      ensures faults == Later(old(faults))
      ensures requests == old(requests) + [buf]
    {
      var e := Attempt(dev, buf, FaultAt(faults, 0));
      faults := Later(faults);
      requests := requests + [buf];
      dev, n, arrived := e.dev, e.written, e.arrived;
    }

    method Read(size: nat) returns (buf: seq<byte>)
      ensures buf == if |arrived| < size then arrived else arrived[..size]
    {
      buf := if |arrived| < size then arrived else arrived[..size];
    }
  }

  class ModbusRtuMaster {
    var transport: Line?

    constructor (line: Line?)
      ensures transport == line
    {
      transport := line;
    }

    /** The first eight bytes of a request: six of body, then the checksum, low byte first. */
    static method Frame(body: seq<byte>) returns (buf: seq<byte>)
      ensures buf == Sealed(body)
    {
      hide *;
      var crc := CRC16(body, |body|);
      assert body[..|body|] == body;
      SealedForm(body);
      buf := body + [Low(crc), High(crc)];
    }

    /** One pass of the write loop. */
    static method TryWrite(line: Line, sendBuf: seq<byte>, value: word) returns (ok: bool)
      requires |sendBuf| == 8
      modifies line
      ensures var e := Attempt(old(line.dev), sendBuf, FaultAt(old(line.faults), 0));
              line.dev == e.dev && ok == WriteYield(sendBuf, value, e).Some?
      ensures line.faults == Later(old(line.faults))
      ensures |line.requests| == |old(line.requests)| + 1
    {
      hide *;
      WriteYieldMeans(sendBuf, value, Attempt(line.dev, sendBuf, FaultAt(line.faults, 0)));
      var wdlen := line.Write(sendBuf);
      if wdlen != 8 { return false; }
      var rev := line.Read(8);
      ok := |rev| == 8 && sendBuf == rev;
    }

    /** One pass of the read loop. */
    static method TryRead(line: Line, sendBuf: seq<byte>, slave: byte) returns (y: Option<word>)
      requires |sendBuf| == 8
      modifies line
      ensures var e := Attempt(old(line.dev), sendBuf, FaultAt(old(line.faults), 0));
              line.dev == e.dev && y == ReadYield(slave, e)
      ensures line.faults == Later(old(line.faults))
      ensures |line.requests| == |old(line.requests)| + 1
    {
      hide *;
      ReadYieldMeans(slave, Attempt(line.dev, sendBuf, FaultAt(line.faults, 0)));
      var wdlen := line.Write(sendBuf);
      if wdlen != 8 { return None; }
      var rev := line.Read(7);
      if |rev| != 7 { return None; }
      var ok, value := CheckReply(slave, rev);
      y := if ok then Some(value) else None;
    }

    method WriteRegisterFunc(slave: byte, reg: word, value: word, retry: int) returns (ret: bool)
      modifies transport
      ensures transport == old(transport)
      ensures transport == null ==> !ret
      ensures transport != null ==>
                var r := WriteRun(old(transport.dev), old(transport.faults), slave, reg, value, Allowed(retry));
                ret == r.value.Some? && transport.dev == r.dev &&
                |transport.requests| == |old(transport.requests)| + r.sent
    {
      if transport == null { return false; }
      hide *;
      var sendBuf := Frame([slave, 0x06, High(reg), Low(reg), High(value), Low(value)]);
      RequestFrames(slave, reg, value);
      ret := WriteLoop(transport, sendBuf, slave, reg, value, retry);
    }

    static method WriteLoop(line: Line, sendBuf: seq<byte>, slave: byte, reg: word, value: word, retry: int)
      returns (ret: bool)
      requires sendBuf == WriteRequest(slave, reg, value) && |sendBuf| == 8
      modifies line
      ensures var r := WriteRun(old(line.dev), old(line.faults), slave, reg, value, Allowed(retry));
              ret == r.value.Some? && line.dev == r.dev && |line.requests| == |old(line.requests)| + r.sent
    {
      hide *;
      ret := false;
      var retrycount: int := retry;
      ghost var limit := Allowed(retry);
      ghost var rest := WriteRun(line.dev, line.faults, slave, reg, value, limit);
      ghost var whole, before := rest, |line.requests|;
      while true
        invariant !ret && (retrycount == retry || 0 <= retrycount <= retry)
        invariant |line.requests| == before + limit - Allowed(retrycount)
        invariant rest == WriteRun(line.dev, line.faults, slave, reg, value, Allowed(retrycount))
        invariant whole.dev == rest.dev && whole.value == rest.value && whole.sent == rest.sent + (limit - Allowed(retrycount))
        decreases retrycount
      {
        retrycount := retrycount - 1;
        if retrycount < 0 {
          WriteRunNone(line.dev, line.faults, slave, reg, value);
          break;
        }
        WriteRunStep(line.dev, line.faults, slave, reg, value, retrycount + 1);
        ret := TryWrite(line, sendBuf, value);
        rest := WriteRun(line.dev, line.faults, slave, reg, value, retrycount);
        if ret { break; }
      }
    }

    method ReadRegisterFunc(slave: byte, reg: word, retry: int) returns (ret: bool, value: word)
      modifies transport
      ensures transport == old(transport)
      ensures transport == null ==> !ret
      ensures transport != null ==>
                var r := ReadRun(old(transport.dev), old(transport.faults), slave, reg, Allowed(retry));
                r.value == (if ret then Some(value) else None) && transport.dev == r.dev &&
                |transport.requests| == |old(transport.requests)| + r.sent
    {
      ret, value := false, 0;
      if transport == null { return; }
      hide *;
      var sendBuf := Frame([slave, 0x03, High(reg), Low(reg), 0x00, 0x01]);
      RequestFrames(slave, reg, 0);
      var y := ReadLoop(transport, sendBuf, slave, reg, retry);
      if y.Some? { ret, value := true, y.value; }
    }

    static method ReadLoop(line: Line, sendBuf: seq<byte>, slave: byte, reg: word, retry: int) returns (y: Option<word>)
      requires sendBuf == ReadRequest(slave, reg) && |sendBuf| == 8
      modifies line
      ensures var r := ReadRun(old(line.dev), old(line.faults), slave, reg, Allowed(retry));
              y == r.value && line.dev == r.dev && |line.requests| == |old(line.requests)| + r.sent
    {
      hide *;
      y := None;
      var retrycount: int := retry;
      ghost var limit := Allowed(retry);
      ghost var rest := ReadRun(line.dev, line.faults, slave, reg, limit);
      ghost var whole, before := rest, |line.requests|;
      while true
        invariant y == None && (retrycount == retry || 0 <= retrycount <= retry)
        invariant |line.requests| == before + limit - Allowed(retrycount)
        invariant rest == ReadRun(line.dev, line.faults, slave, reg, Allowed(retrycount))
        invariant whole.dev == rest.dev && whole.value == rest.value && whole.sent == rest.sent + (limit - Allowed(retrycount))
        decreases retrycount
      {
        retrycount := retrycount - 1;
        if retrycount < 0 {
          WriteRunNone(line.dev, line.faults, slave, reg, 0);
          break;
        }
        ReadRunStep(line.dev, line.faults, slave, reg, retrycount + 1);
        y := TryRead(line, sendBuf, slave);
        rest := ReadRun(line.dev, line.faults, slave, reg, retrycount);
        if y.Some? { break; }
      }
    }

    /** The checks on a reply of seven bytes, and the value it carries. */
    static method CheckReply(slave: byte, rev: seq<byte>) returns (checkrev: bool, value: word)
      requires |rev| == 7
      ensures checkrev <==> Crc(rev[..5]) == Word(rev[6], rev[5]) && rev[0] == slave && rev[1] == 0x03 && rev[2] == 0x02
      ensures checkrev ==> value == Word(rev[3], rev[4])
    {
      hide *;
      checkrev, value := true, 0;
      var crcCalc := CRC16(rev, 5);
      var revcrc := Word(rev[6], rev[5]);
      if crcCalc != revcrc { checkrev := false; }
      if rev[0] != slave || rev[1] != 0x03 || rev[2] != 0x02 { checkrev := false; }
      if checkrev { value := Word(rev[3], rev[4]); }
    }

    /** WriteSingleRegister: at most three requests. */
    method WriteSingleRegister(slave: byte, reg: word, value: word) returns (ok: bool)
      modifies transport
      ensures transport == old(transport) && (transport == null ==> !ok)
      ensures transport != null ==>
                (ok <==> Answers(old(transport.dev), slave, reg) && CleanWithin(old(transport.faults), 3)) &&
                (ok ==> transport.dev == Written(old(transport.dev), reg, value)) &&
                |transport.requests| <= |old(transport.requests)| + 3
    {
      hide WriteRun;
      if transport != null { WriteRunExact(transport.dev, transport.faults, slave, reg, value, 3); }
      ok := WriteRegisterFunc(slave, reg, value, 3);
    }

    /** ReadHoldingRegister: at most a hundred requests. */
    method ReadHoldingRegister(slave: byte, reg: word) returns (ok: bool, value: word)
      modifies transport
      ensures transport == old(transport) && (transport == null ==> !ok)
      ensures transport != null ==>
                (ok <==> Answers(old(transport.dev), slave, reg) && CleanWithin(old(transport.faults), 100)) &&
                (ok ==> value == old(transport.dev).Holds(reg)) && transport.dev == old(transport.dev) &&
                |transport.requests| <= |old(transport.requests)| + 100
    {
      hide ReadRun;
      if transport != null { ReadRunExact(transport.dev, transport.faults, slave, reg, 100); }
      ok, value := ReadRegisterFunc(slave, reg, 100);
    }
  }

  lemma WriteYieldMeans(request: seq<byte>, value: word, e: Exchange)
    requires |request| == 8
    ensures var rev := if |e.arrived| < 8 then e.arrived else e.arrived[..8];
            WriteYield(request, value, e) == if e.written == 8 && |rev| == 8 && request == rev then Some(value) else None
  {
  }

  lemma ReadYieldMeans(slave: byte, e: Exchange)
    ensures var rev := if |e.arrived| < 7 then e.arrived else e.arrived[..7];
            ReadYield(slave, e) ==
            if e.written == 8 && |rev| == 7 && Crc(rev[..5]) == Word(rev[6], rev[5])
               && rev[0] == slave && rev[1] == 0x03 && rev[2] == 0x02
            then Some(Word(rev[3], rev[4])) else None
  {
    hide Crc, Word;
  }

  lemma RequestFrames(slave: byte, reg: word, value: word)
    ensures WriteRequest(slave, reg, value) == Sealed([slave, 0x06, High(reg), Low(reg), High(value), Low(value)])
    ensures ReadRequest(slave, reg) == Sealed([slave, 0x03, High(reg), Low(reg), 0x00, 0x01])
    ensures |WriteRequest(slave, reg, value)| == 8 && |ReadRequest(slave, reg)| == 8
  {
    hide Crc, Low, High;
  }
}
