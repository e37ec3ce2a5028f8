/** CRC16: the table-driven checksum of Modbus RTU frames, and what it detects. */
module Crc16 {
  type byte = bv8
  type word = bv16

  // ---- the checksum, bit by bit (MODBUS over Serial Line V1.02, section 6.2.2) ----

  const INITIAL: word := 0xFFFF

  // The word operations are named so that proofs can keep them folded.

  function Xor(x: word, y: word): word {
    x ^ y
  }

  function Half(x: word): word {
    x >> 1
  }

  function Double(x: word): word {
    x << 1
  }

  predicate Odd(x: word) {
    x & 1 == 1
  }

  function Bit(b: bool): word {
    if b then 1 else 0
  }

  const POLYNOMIAL: word := 0xA001

  /** One shift of the register, polynomial reflected. */
  function Shift(x: word): word {
    if Odd(x) then Xor(Half(x), POLYNOMIAL) else Half(x)
  }

  function Shifts(x: word, k: nat): word
    decreases k
  {
    if k == 0 then x else Shifts(Shift(x), k - 1)
  }

  /** The register after feeding bits, one at a time. */
  function FeedBits(c: word, bits: seq<bool>): word
    decreases |bits|
  {
    if bits == [] then c else FeedBits(Shift(Xor(c, Bit(bits[0]))), bits[1..])
  }

  function CrcOfBits(bits: seq<bool>): word {
    FeedBits(INITIAL, bits)
  }

  function IsSet(b: byte, mask: byte): bool {
    b & mask != 0
  }

  /** Least significant bit first, as bytes travel on the line. */
  function BitsOfByte(b: byte): (bits: seq<bool>)
    ensures |bits| == 8
  {
    [IsSet(b, 0x01), IsSet(b, 0x02), IsSet(b, 0x04), IsSet(b, 0x08),
     IsSet(b, 0x10), IsSet(b, 0x20), IsSet(b, 0x40), IsSet(b, 0x80)]
  }

  function BitsOf(data: seq<byte>): (bits: seq<bool>)
    ensures |bits| == 8 * |data|
  {
    if data == [] then [] else BitsOfByte(data[0]) + BitsOf(data[1..])
  }

  /** The checksum of a message, by definition. */
  function Crc(data: seq<byte>): word {
    CrcOfBits(BitsOf(data))
  }

  // ---- byte steps and the table ----

  function Shift8(x: word): word {
    Shift(Shift(Shift(Shift(Shift(Shift(Shift(Shift(x))))))))
  }

  function Pick(l: byte, e0: word, e1: word, e2: word, e3: word, e4: word, e5: word, e6: word, e7: word,
                e8: word, e9: word, eA: word, eB: word, eC: word, eD: word, eE: word, eF: word): word {
    match l
    case 0x0 => e0
    case 0x1 => e1
    case 0x2 => e2
    case 0x3 => e3
    case 0x4 => e4
    case 0x5 => e5
    case 0x6 => e6
    case 0x7 => e7
    case 0x8 => e8
    case 0x9 => e9
    case 0xA => eA
    case 0xB => eB
    case 0xC => eC
    case 0xD => eD
    case 0xE => eE
    case _ => eF
  }

  /** wCRCTable, sixteen entries to a row. */
  function Table(n: byte): word {
    var l := n & 0xF;
    match n >> 4
    case 0x0 => Pick(l, 0x0000, 0xC0C1, 0xC181, 0x0140, 0xC301, 0x03C0, 0x0280, 0xC241,
                    0xC601, 0x06C0, 0x0780, 0xC741, 0x0500, 0xC5C1, 0xC481, 0x0440)
    case 0x1 => Pick(l, 0xCC01, 0x0CC0, 0x0D80, 0xCD41, 0x0F00, 0xCFC1, 0xCE81, 0x0E40,
                    0x0A00, 0xCAC1, 0xCB81, 0x0B40, 0xC901, 0x09C0, 0x0880, 0xC841)
    case 0x2 => Pick(l, 0xD801, 0x18C0, 0x1980, 0xD941, 0x1B00, 0xDBC1, 0xDA81, 0x1A40,
                    0x1E00, 0xDEC1, 0xDF81, 0x1F40, 0xDD01, 0x1DC0, 0x1C80, 0xDC41)
    case 0x3 => Pick(l, 0x1400, 0xD4C1, 0xD581, 0x1540, 0xD701, 0x17C0, 0x1680, 0xD641,
                    0xD201, 0x12C0, 0x1380, 0xD341, 0x1100, 0xD1C1, 0xD081, 0x1040)
    case 0x4 => Pick(l, 0xF001, 0x30C0, 0x3180, 0xF141, 0x3300, 0xF3C1, 0xF281, 0x3240,
                    0x3600, 0xF6C1, 0xF781, 0x3740, 0xF501, 0x35C0, 0x3480, 0xF441)
    case 0x5 => Pick(l, 0x3C00, 0xFCC1, 0xFD81, 0x3D40, 0xFF01, 0x3FC0, 0x3E80, 0xFE41,
                    0xFA01, 0x3AC0, 0x3B80, 0xFB41, 0x3900, 0xF9C1, 0xF881, 0x3840)
    case 0x6 => Pick(l, 0x2800, 0xE8C1, 0xE981, 0x2940, 0xEB01, 0x2BC0, 0x2A80, 0xEA41,
                    0xEE01, 0x2EC0, 0x2F80, 0xEF41, 0x2D00, 0xEDC1, 0xEC81, 0x2C40)
    case 0x7 => Pick(l, 0xE401, 0x24C0, 0x2580, 0xE541, 0x2700, 0xE7C1, 0xE681, 0x2640,
                    0x2200, 0xE2C1, 0xE381, 0x2340, 0xE101, 0x21C0, 0x2080, 0xE041)
    case 0x8 => Pick(l, 0xA001, 0x60C0, 0x6180, 0xA141, 0x6300, 0xA3C1, 0xA281, 0x6240,
                    0x6600, 0xA6C1, 0xA781, 0x6740, 0xA501, 0x65C0, 0x6480, 0xA441)
    case 0x9 => Pick(l, 0x6C00, 0xACC1, 0xAD81, 0x6D40, 0xAF01, 0x6FC0, 0x6E80, 0xAE41,
                    0xAA01, 0x6AC0, 0x6B80, 0xAB41, 0x6900, 0xA9C1, 0xA881, 0x6840)
    case 0xA => Pick(l, 0x7800, 0xB8C1, 0xB981, 0x7940, 0xBB01, 0x7BC0, 0x7A80, 0xBA41,
                    0xBE01, 0x7EC0, 0x7F80, 0xBF41, 0x7D00, 0xBDC1, 0xBC81, 0x7C40)
    case 0xB => Pick(l, 0xB401, 0x74C0, 0x7580, 0xB541, 0x7700, 0xB7C1, 0xB681, 0x7640,
                    0x7200, 0xB2C1, 0xB381, 0x7340, 0xB101, 0x71C0, 0x7080, 0xB041)
    case 0xC => Pick(l, 0x5000, 0x90C1, 0x9181, 0x5140, 0x9301, 0x53C0, 0x5280, 0x9241,
                    0x9601, 0x56C0, 0x5780, 0x9741, 0x5500, 0x95C1, 0x9481, 0x5440)
    case 0xD => Pick(l, 0x9C01, 0x5CC0, 0x5D80, 0x9D41, 0x5F00, 0x9FC1, 0x9E81, 0x5E40,
                    0x5A00, 0x9AC1, 0x9B81, 0x5B40, 0x9901, 0x59C0, 0x5880, 0x9841)
    case 0xE => Pick(l, 0x8801, 0x48C0, 0x4980, 0x8941, 0x4B00, 0x8BC1, 0x8A81, 0x4A40,
                    0x4E00, 0x8EC1, 0x8F81, 0x4F40, 0x8D01, 0x4DC0, 0x4C80, 0x8C41)
    case _ => Pick(l, 0x4400, 0x84C1, 0x8581, 0x4540, 0x8701, 0x47C0, 0x4680, 0x8641,
                  0x8201, 0x42C0, 0x4380, 0x8341, 0x4100, 0x81C1, 0x8081, 0x4040)
  }

  lemma TableRow0Low(n: byte)
    requires n >> 4 == 0 && n < 8
    ensures Table(n) == Shift8(n as word)
  {
  }

  lemma TableRow0High(n: byte)
    requires n >> 4 == 0 && 8 <= n < 16
    ensures Table(n) == Shift8(n as word)
  {
  }

  lemma TableRow1(n: byte)
    requires n >> 4 == 0x1
    ensures Table(n) == Shift8(n as word)
  {
  }

  lemma TableRow2(n: byte)
    requires n >> 4 == 0x2
    ensures Table(n) == Shift8(n as word)
  {
  }

  lemma TableRow3(n: byte)
    requires n >> 4 == 0x3
    ensures Table(n) == Shift8(n as word)
  {
  }

  lemma TableRow4(n: byte)
    requires n >> 4 == 0x4
    ensures Table(n) == Shift8(n as word)
  {
  }

  lemma TableRow5(n: byte)
    requires n >> 4 == 0x5
    ensures Table(n) == Shift8(n as word)
  {
  }

  lemma TableRow6(n: byte)
    requires n >> 4 == 0x6
    ensures Table(n) == Shift8(n as word)
  {
  }

  lemma TableRow7(n: byte)
    requires n >> 4 == 0x7
    ensures Table(n) == Shift8(n as word)
  {
  }

  lemma TableRow8(n: byte)
    requires n >> 4 == 0x8
    ensures Table(n) == Shift8(n as word)
  {
  }

  lemma TableRow9(n: byte)
    requires n >> 4 == 0x9
    ensures Table(n) == Shift8(n as word)
  {
  }

  lemma TableRowA(n: byte)
    requires n >> 4 == 0xA
    ensures Table(n) == Shift8(n as word)
  {
  }

  lemma TableRowB(n: byte)
    requires n >> 4 == 0xB
    ensures Table(n) == Shift8(n as word)
  {
  }

  lemma TableRowC(n: byte)
    requires n >> 4 == 0xC
    ensures Table(n) == Shift8(n as word)
  {
  }

  lemma TableRowD(n: byte)
    requires n >> 4 == 0xD
    ensures Table(n) == Shift8(n as word)
  {
  }

  lemma TableRowE(n: byte)
    requires n >> 4 == 0xE
    ensures Table(n) == Shift8(n as word)
  {
  }

  lemma TableRowF(n: byte)
    requires n >> 4 == 0xF
    ensures Table(n) == Shift8(n as word)
  {
  }

  lemma SmallByte(n: byte)
    requires n >> 4 == 0
    ensures n < 16
  {
  }

  /** Every entry of the table is its index shifted eight times. */
  lemma TableIsShift8(n: byte)
    ensures Table(n) == Shift8(n as word)
  {
    hide Table, Shift8;
    match n >> 4
    case 0x0 => if n < 8 { TableRow0Low(n); } else { SmallByte(n); TableRow0High(n); }
    case 0x1 => TableRow1(n);
    case 0x2 => TableRow2(n);
    case 0x3 => TableRow3(n);
    case 0x4 => TableRow4(n);
    case 0x5 => TableRow5(n);
    case 0x6 => TableRow6(n);
    case 0x7 => TableRow7(n);
    case 0x8 => TableRow8(n);
    case 0x9 => TableRow9(n);
    case 0xA => TableRowA(n);
    case 0xB => TableRowB(n);
    case 0xC => TableRowC(n);
    case 0xD => TableRowD(n);
    case 0xE => TableRowE(n);
    case _ => assert n >> 4 == 0xF; TableRowF(n);
  }

  // ---- linearity ----

  lemma XorAssociates(x: word, y: word, z: word)
    ensures Xor(Xor(x, y), z) == Xor(x, Xor(y, z))
  {
  }

  lemma XorCommutes(x: word, y: word)
    ensures Xor(x, y) == Xor(y, x)
  {
  }

  lemma XorCancels(x: word, y: word)
    ensures Xor(x, Xor(x, y)) == y && Xor(x, 0) == x && Xor(x, x) == 0
  {
  }

  lemma XorExchange(a: word, b: word, c: word, d: word)
    ensures Xor(Xor(a, b), Xor(c, d)) == Xor(Xor(a, c), Xor(b, d))
  {
    hide Xor;
    XorAssociates(a, b, Xor(c, d));
    XorAssociates(b, c, d);
    XorCommutes(b, c);
    XorAssociates(c, b, d);
    XorAssociates(a, c, Xor(b, d));
  }

  lemma HalfXor(x: word, y: word)
    ensures Half(Xor(x, y)) == Xor(Half(x), Half(y))
  {
  }

  lemma OddXor(x: word, y: word)
    ensures Odd(Xor(x, y)) <==> Odd(x) != Odd(y)
  {
  }

  /** The polynomial to add in when the outgoing bit is set. */
  function Feedback(odd: bool): word {
    if odd then POLYNOMIAL else 0
  }

  lemma ShiftIsHalfAndFeedback(x: word)
    ensures Shift(x) == Xor(Half(x), Feedback(Odd(x)))
  {
    hide Xor, Half, Odd, POLYNOMIAL;
    XorCancels(Half(x), 0);
  }

  lemma FeedbackXor(a: bool, b: bool)
    ensures Feedback(a != b) == Xor(Feedback(a), Feedback(b))
  {
    hide Xor, POLYNOMIAL;
    XorCancels(POLYNOMIAL, 0);
    XorCancels(0, 0);
    XorCommutes(0, POLYNOMIAL);
  }

  /** The register is linear over exclusive or. */
  lemma ShiftXor(x: word, y: word)
    ensures Shift(Xor(x, y)) == Xor(Shift(x), Shift(y))
  {
    hide *;
    ShiftIsHalfAndFeedback(x);
    ShiftIsHalfAndFeedback(y);
    ShiftIsHalfAndFeedback(Xor(x, y));
    HalfXor(x, y);
    OddXor(x, y);
    FeedbackXor(Odd(x), Odd(y));
    XorExchange(Half(x), Half(y), Feedback(Odd(x)), Feedback(Odd(y)));
  }

  lemma {:induction false} ShiftsXor(x: word, y: word, k: nat)
    ensures Shifts(Xor(x, y), k) == Xor(Shifts(x, k), Shifts(y, k))
    decreases k
  {
    hide Shift, Xor;
    if k > 0 {
      ShiftXor(x, y);
      ShiftsXor(Shift(x), Shift(y), k - 1);
    }
  }

  lemma ShiftInjective(x: word, y: word)
    requires Shift(x) == Shift(y)
    ensures x == y
  {
  }

  lemma {:induction false} ShiftsInjective(x: word, y: word, k: nat)
    requires Shifts(x, k) == Shifts(y, k)
    ensures x == y
    decreases k
  {
    hide Shift;
    if k > 0 {
      ShiftsInjective(Shift(x), Shift(y), k - 1);
      ShiftInjective(x, y);
    }
  }

  // ---- bits fed in are bits already standing in the register ----

  /** Up to sixteen bits as a word, the first one lowest. */
  function Pack(bits: seq<bool>): word {
    if bits == [] then 0 else Xor(Bit(bits[0]), Double(Pack(bits[1..])))
  }

  /** The largest word of k bits. */
  function Largest(k: nat): word
    requires k <= 16
  {
    match k
    case 0 => 0x0000
    case 1 => 0x0001
    case 2 => 0x0003
    case 3 => 0x0007
    case 4 => 0x000F
    case 5 => 0x001F
    case 6 => 0x003F
    case 7 => 0x007F
    case 8 => 0x00FF
    case 9 => 0x01FF
    case 10 => 0x03FF
    case 11 => 0x07FF
    case 12 => 0x0FFF
    case 13 => 0x1FFF
    case 14 => 0x3FFF
    case 15 => 0x7FFF
    case _ => 0xFFFF
  }

  lemma LargestStep(k: nat)
    requires k < 16
    ensures Largest(k + 1) == Xor(Double(Largest(k)), 1)
    ensures Largest(k) <= 0x7FFF
  {
  }

  lemma DoubleBounded(v: word, m: word, b: bool)
    requires v <= m <= 0x7FFF
    ensures Xor(Bit(b), Double(v)) <= Xor(Double(m), 1)
  {
  }

  lemma {:induction false} PackBounded(bits: seq<bool>)
    requires |bits| <= 16
    ensures Pack(bits) <= Largest(|bits|)
  {
    hide *;
    PackStep(bits);
    if bits != [] {
      PackBounded(bits[1..]);
      LargestStep(|bits| - 1);
      DoubleBounded(Pack(bits[1..]), Largest(|bits| - 1), bits[0]);
    }
  }

  lemma PackStep(bits: seq<bool>)
    ensures bits == [] ==> Pack(bits) == 0
    ensures bits != [] ==> Pack(bits) == Xor(Bit(bits[0]), Double(Pack(bits[1..])))
  {
  }

  lemma ShiftDouble(v: word)
    requires v <= 0x7FFF
    ensures Shift(Double(v)) == v
  {
  }

  lemma BitAndDouble(b: bool, c: bool, v: word, w: word)
    requires v <= 0x7FFF && w <= 0x7FFF
    requires Xor(Bit(b), Double(v)) == Xor(Bit(c), Double(w))
    ensures b == c && v == w
  {
  }

  lemma {:induction false} PackInjective(u: seq<bool>, v: seq<bool>)
    requires |u| == |v| <= 16 && Pack(u) == Pack(v)
    ensures u == v
  {
    hide *;
    if u != [] {
      PackStep(u);
      PackStep(v);
      PackBounded(u[1..]);
      PackBounded(v[1..]);
      LargestStep(|u| - 1);
      BitAndDouble(u[0], v[0], Pack(u[1..]), Pack(v[1..]));
      PackInjective(u[1..], v[1..]);
      assert u == [u[0]] + u[1..] && v == [v[0]] + v[1..];
    }
  }

  lemma FeedStep(c: word, bits: seq<bool>)
    requires bits != []
    ensures FeedBits(c, bits) == FeedBits(Shift(Xor(c, Bit(bits[0]))), bits[1..])
  {
  }

  lemma ShiftsStep(x: word, k: nat)
    requires k > 0
    ensures Shifts(x, k) == Shifts(Shift(x), k - 1)
  {
  }

  /** Up to sixteen bits fed one by one act like the same bits added to the register at once. */
  lemma {:induction false} FeedPacked(c: word, bits: seq<bool>)
    requires |bits| <= 16
    ensures FeedBits(c, bits) == Shifts(Xor(c, Pack(bits)), |bits|)
    decreases |bits|
  {
    hide *;
    PackStep(bits);
    if bits == [] {
      FeedNothing(c);
      XorCancels(c, 0);
    } else {
      var b, rest := Bit(bits[0]), Pack(bits[1..]);
      FeedStep(c, bits);
      FeedPacked(Shift(Xor(c, b)), bits[1..]);
      PackBounded(bits[1..]);
      LargestStep(|bits| - 1);
      ShiftDouble(rest);
      ShiftXor(Xor(c, b), Double(rest));
      XorAssociates(c, b, Double(rest));
      ShiftsStep(Xor(c, Pack(bits)), |bits|);
    }
  }

  lemma FeedNothing(c: word)
    ensures FeedBits(c, []) == c && Shifts(c, 0) == c
  {
  }

  lemma {:induction false} FeedConcat(c: word, a: seq<bool>, b: seq<bool>)
    ensures FeedBits(c, a + b) == FeedBits(FeedBits(c, a), b)
    decreases |a|
  {
    hide *;
    if a == [] {
      FeedNothing(c);
      assert a + b == b;
    } else {
      FeedStep(c, a);
      FeedStep(c, a + b);
      assert (a + b)[1..] == a[1..] + b;
      FeedConcat(Shift(Xor(c, Bit(a[0]))), a[1..], b);
    }
  }

  lemma XorInjective(c: word, x: word, y: word)
    requires Xor(c, x) == Xor(c, y)
    ensures x == y
  {
    hide Xor;
    XorCancels(c, x);
    XorCancels(c, y);
  }

  lemma {:induction false} FeedInjective(x: word, y: word, bits: seq<bool>)
    requires FeedBits(x, bits) == FeedBits(y, bits)
    ensures x == y
    decreases |bits|
  {
    hide *;
    if bits == [] {
      FeedNothing(x);
      FeedNothing(y);
    } else {
      var b := Bit(bits[0]);
      FeedStep(x, bits);
      FeedStep(y, bits);
      FeedInjective(Shift(Xor(x, b)), Shift(Xor(y, b)), bits[1..]);
      ShiftInjective(Xor(x, b), Xor(y, b));
      XorCommutes(x, b);
      XorCommutes(y, b);
      XorInjective(b, x, y);
    }
  }

  lemma WindowInjective(c: word, u: seq<bool>, v: seq<bool>)
    requires |u| == |v| <= 16 && FeedBits(c, u) == FeedBits(c, v)
    ensures u == v
  {
    hide *;
    FeedPacked(c, u);
    FeedPacked(c, v);
    ShiftsInjective(Xor(c, Pack(u)), Xor(c, Pack(v)), |u|);
    XorInjective(c, Pack(u), Pack(v));
    PackInjective(u, v);
  }

  /** Every burst error of up to sixteen bits is detected: two messages that differ only inside one window of
      sixteen consecutive bits have different checksums. */
  lemma BurstDetected(before: seq<bool>, u: seq<bool>, v: seq<bool>, after: seq<bool>)
    requires |u| == |v| <= 16 && u != v
    ensures CrcOfBits(before + u + after) != CrcOfBits(before + v + after)
  {
    hide FeedBits;
    var c := FeedBits(INITIAL, before);
    FeedConcat(INITIAL, before, u);
    FeedConcat(INITIAL, before, v);
    FeedConcat(INITIAL, before + u, after);
    FeedConcat(INITIAL, before + v, after);
    if FeedBits(FeedBits(c, u), after) == FeedBits(FeedBits(c, v), after) {
      FeedInjective(FeedBits(c, u), FeedBits(c, v), after);
      WindowInjective(c, u, v);
    }
  }

  // ---- bytes ----

  lemma {:induction false} BitsOfConcat(a: seq<byte>, b: seq<byte>)
    ensures BitsOf(a + b) == BitsOf(a) + BitsOf(b)
  {
    hide BitsOfByte;
    if a == [] {
      assert a + b == b;
    } else {
      assert (a + b)[1..] == a[1..] + b;
      BitsOfConcat(a[1..], b);
    }
  }

  lemma ByteBitsInjective(a: byte, b: byte)
    requires BitsOfByte(a) == BitsOfByte(b)
    ensures a == b
  {
    var x, y := BitsOfByte(a), BitsOfByte(b);
    assert x[0] == y[0] && x[1] == y[1] && x[2] == y[2] && x[3] == y[3];
    assert x[4] == y[4] && x[5] == y[5] && x[6] == y[6] && x[7] == y[7];
  }

  lemma {:induction false} BitsInjective(a: seq<byte>, b: seq<byte>)
    requires |a| == |b| && BitsOf(a) == BitsOf(b)
    ensures a == b
  {
    hide BitsOfByte;
    if a != [] {
      var x, y := BitsOfByte(a[0]), BitsOfByte(b[0]);
      assert x == BitsOf(a)[..8] && y == BitsOf(b)[..8];
      ByteBitsInjective(a[0], b[0]);
      assert BitsOf(a[1..]) == BitsOf(a)[8..] && BitsOf(b[1..]) == BitsOf(b)[8..];
      BitsInjective(a[1..], b[1..]);
      assert a == [a[0]] + a[1..] && b == [b[0]] + b[1..];
    }
  }

  /** Messages that differ only within two adjacent bytes have different checksums. */
  lemma AdjacentBytesDetected(before: seq<byte>, u: seq<byte>, v: seq<byte>, after: seq<byte>)
    requires |u| == |v| <= 2 && u != v
    ensures Crc(before + u + after) != Crc(before + v + after)
  {
    hide BitsOf, CrcOfBits;
    BitsOfConcat(before, u);
    BitsOfConcat(before, v);
    BitsOfConcat(before + u, after);
    BitsOfConcat(before + v, after);
    if BitsOf(u) == BitsOf(v) { BitsInjective(u, v); }
    BurstDetected(BitsOf(before), BitsOf(u), BitsOf(v), BitsOf(after));
  }

  lemma PackEight(b0: bool, b1: bool, b2: bool, b3: bool, b4: bool, b5: bool, b6: bool, b7: bool)
    ensures Pack([b0, b1, b2, b3, b4, b5, b6, b7]) ==
            Xor(Bit(b0), Double(Xor(Bit(b1), Double(Xor(Bit(b2), Double(Xor(Bit(b3), Double(
            Xor(Bit(b4), Double(Xor(Bit(b5), Double(Xor(Bit(b6), Double(Xor(Bit(b7), Double(0))))))))))))))))
  {
    hide *;
    PackFour(b4, b5, b6, b7, []);
    PackFour(b0, b1, b2, b3, [b4, b5, b6, b7]);
    PackStep([]);
    assert [b4, b5, b6, b7] + [] == [b4, b5, b6, b7];
    assert [b0, b1, b2, b3] + [b4, b5, b6, b7] == [b0, b1, b2, b3, b4, b5, b6, b7];
  }

  lemma PackFour(b0: bool, b1: bool, b2: bool, b3: bool, rest: seq<bool>)
    ensures Pack([b0, b1, b2, b3] + rest) ==
            Xor(Bit(b0), Double(Xor(Bit(b1), Double(Xor(Bit(b2), Double(Xor(Bit(b3), Double(Pack(rest)))))))))
  {
    hide *;
    PackCons(b3, rest);
    PackCons(b2, [b3] + rest);
    PackCons(b1, [b2] + ([b3] + rest));
    PackCons(b0, [b1] + ([b2] + ([b3] + rest)));
    assert [b0, b1, b2, b3] + rest == [b0] + ([b1] + ([b2] + ([b3] + rest)));
  }

  lemma PackCons(b: bool, rest: seq<bool>)
    ensures Pack([b] + rest) == Xor(Bit(b), Double(Pack(rest)))
  {
    PackStep([b] + rest);
    assert ([b] + rest)[1..] == rest;
  }

  lemma ByteFromBits(b: byte)
    ensures Xor(Bit(IsSet(b, 0x01)), Double(Xor(Bit(IsSet(b, 0x02)), Double(Xor(Bit(IsSet(b, 0x04)), Double(
            Xor(Bit(IsSet(b, 0x08)), Double(Xor(Bit(IsSet(b, 0x10)), Double(Xor(Bit(IsSet(b, 0x20)), Double(
            Xor(Bit(IsSet(b, 0x40)), Double(Xor(Bit(IsSet(b, 0x80)), Double(0)))))))))))))))) == b as word
  {
  }

  /** Feeding a byte, first bit lowest, is eight shifts of the register with the byte added in. */
  lemma FeedByte(c: word, b: byte)
    ensures FeedBits(c, BitsOfByte(b)) == Shift8(Xor(c, b as word))
  {
    hide Xor, Bit, Double, IsSet, FeedBits, Pack, Shifts, Shift8;
    FeedPacked(c, BitsOfByte(b));
    PackEight(IsSet(b, 0x01), IsSet(b, 0x02), IsSet(b, 0x04), IsSet(b, 0x08),
              IsSet(b, 0x10), IsSet(b, 0x20), IsSet(b, 0x40), IsSet(b, 0x80));
    ByteFromBits(b);
    Shift8IsShifts(Xor(c, b as word));
  }

  lemma Shift8IsShifts(x: word)
    ensures Shift8(x) == Shifts(x, 8)
  {
    hide Shift;
    assert Shifts(x, 8) == Shifts(Shift(Shift(Shift(Shift(x)))), 4);
  }

  /** A register whose low byte is clear just moves down. */
  lemma Shift8HighByte(x: word)
    requires x & 0xFF == 0
    ensures Shift8(x) == x >> 8
  {
    assert Shift(x) == x >> 1;
    assert Shift(x >> 1) == x >> 2;
    assert Shift(x >> 2) == x >> 3;
    assert Shift(x >> 3) == x >> 4;
    assert Shift(x >> 4) == x >> 5;
    assert Shift(x >> 5) == x >> 6;
    assert Shift(x >> 6) == x >> 7;
    assert Shift(x >> 7) == x >> 8;
  }

  function Low(x: word): byte {
    (x & 0xFF) as byte
  }

  function High(x: word): byte {
    (x >> 8) as byte
  }

  function HighOnly(x: word): word {
    x & 0xFF00
  }

  function Up8(x: word): word {
    x >> 8
  }

  /** static_cast<uint8_t>(byte ^ register): the index into the table. */
  function Index(c: word, b: byte): byte {
    Low(Xor(b as word, c))
  }

  lemma SplitRegister(c: word, b: byte)
    ensures Xor(c, b as word) == Xor(HighOnly(c), Index(c, b) as word)
  {
  }

  lemma HighOnlyMoves(c: word)
    ensures Shift8(HighOnly(c)) == Up8(c)
  {
    hide Shift8;
    assert HighOnly(c) & 0xFF == 0 && HighOnly(c) >> 8 == c >> 8;
    Shift8HighByte(HighOnly(c));
  }

  /** The code's step, one table look-up for a byte, is the eight bit steps. */
  lemma TableStep(c: word, b: byte)
    ensures Xor(Up8(c), Table(Index(c, b))) == FeedBits(c, BitsOfByte(b))
  {
    hide *;
    var n := Index(c, b);
    SplitRegister(c, b);
    TableIsShift8(n);
    HighOnlyMoves(c);
    FeedByte(c, b);
    Shift8IsShifts(HighOnly(c));
    Shift8IsShifts(n as word);
    Shift8IsShifts(Xor(c, b as word));
    ShiftsXor(HighOnly(c), n as word, 8);
  }

  /** CRC16: the code, one table look-up per byte. wLength counts down to the end of the buffer. */
  method CRC16(nData: seq<byte>, wLength: nat) returns (wCRCWord: word)
    requires wLength <= |nData|
    ensures wCRCWord == Crc(nData[..wLength])
  {
    hide *;
    wCRCWord := 0xFFFF;
    var i, left := 0, wLength;
    FeedAll(nData[..0]);
    while left > 0
      invariant i + left == wLength
      invariant wCRCWord == Crc(nData[..i])
    {
      left := left - 1;
      assert nData[..i + 1] == nData[..i] + [nData[i]];
      CrcOfNext(nData[..i], nData[i]);
      TableStep(wCRCWord, nData[i]);
      var nTemp := Index(wCRCWord, nData[i]);
      i := i + 1;
      wCRCWord := Up8(wCRCWord);
      wCRCWord := Xor(wCRCWord, Table(nTemp));
    }
    assert nData[..i] == nData[..wLength];
  }

  lemma FeedAll(none: seq<byte>)
    requires none == []
    ensures Crc(none) == 0xFFFF
  {
  }

  lemma CrcOfNext(data: seq<byte>, b: byte)
    ensures Crc(data + [b]) == FeedBits(Crc(data), BitsOfByte(b))
  {
    hide FeedBits, BitsOf, BitsOfByte;
    BitsOfConcat(data, [b]);
    BitsOfSingle(b);
    FeedConcat(INITIAL, BitsOf(data), BitsOfByte(b));
  }

  lemma BitsOfSingle(b: byte)
    ensures BitsOf([b]) == BitsOfByte(b)
  {
    hide BitsOfByte;
    assert [b][1..] == [] && BitsOf([]) == [];
  }

  /** The check value that catalogues give for this checksum: that of the nine digits 1 to 9. */
  lemma CheckValue()
    ensures Crc([0x31, 0x32, 0x33, 0x34, 0x35, 0x36, 0x37, 0x38, 0x39]) == 0x4B37
  {
    hide Crc;
    var data: seq<byte> := [0x31, 0x32, 0x33, 0x34, 0x35, 0x36, 0x37, 0x38, 0x39];
    FeedAll(data[..0]);
    CheckStep(data[..0], 0xFFFF, 0x31, 0x947E);
    assert data[..0] + [0x31] == data[..1];
    CheckStep(data[..1], 0x947E, 0x32, 0xF595);
    assert data[..1] + [0x32] == data[..2];
    CheckStep(data[..2], 0xF595, 0x33, 0x7A75);
    assert data[..2] + [0x33] == data[..3];
    CheckStep(data[..3], 0x7A75, 0x34, 0x30BA);
    assert data[..3] + [0x34] == data[..4];
    CheckStep(data[..4], 0x30BA, 0x35, 0xA471);
    assert data[..4] + [0x35] == data[..5];
    CheckStep(data[..5], 0xA471, 0x36, 0x32E4);
    assert data[..5] + [0x36] == data[..6];
    CheckStep(data[..6], 0x32E4, 0x37, 0x9D73);
    assert data[..6] + [0x37] == data[..7];
    CheckStep(data[..7], 0x9D73, 0x38, 0x37DD);
    assert data[..7] + [0x38] == data[..8];
    CheckStep(data[..8], 0x37DD, 0x39, 0x4B37);
    assert data[..8] + [0x39] == data[..9];
    assert data[..9] == data;
  }

  lemma CheckStep(data: seq<byte>, c: word, b: byte, d: word)
    requires Crc(data) == c && Xor(Up8(c), Table(Index(c, b))) == d
    ensures Crc(data + [b]) == d
  {
    hide *;
    CrcOfNext(data, b);
    TableStep(c, b);
  }

  // ---- messages that carry their checksum ----

  /** The checksum goes out low byte first. */
  function Sealed(body: seq<byte>): seq<byte> {
    body + [Low(Crc(body)), High(Crc(body))]
  }

  lemma LowFirst(c: word)
    ensures Xor(c, Low(c) as word) == HighOnly(c)
    ensures Xor(Up8(c), High(c) as word) == 0
    ensures Shift8(0) == 0
  {
  }

  /** A message followed by its checksum leaves the register at zero, and no other two bytes do. */
  lemma ResidueZeroIffSealed(body: seq<byte>, a: byte, b: byte)
    ensures Crc(body + [a, b]) == 0 <==> body + [a, b] == Sealed(body)
  {
    hide *;
    var c := Crc(body);
    var lo, hi := Low(c), High(c);
    SealedLeavesZero(body);
    var nothing: seq<byte> := [];
    if [a, b] != [lo, hi] {
      AdjacentBytesDetected(body, [a, b], [lo, hi], nothing);
      assert body + [a, b] + nothing == body + [a, b] && body + [lo, hi] + nothing == body + [lo, hi];
      assert (body + [a, b])[|body|] == a && (body + [a, b])[|body| + 1] == b;
      assert (body + [lo, hi])[|body|] == lo && (body + [lo, hi])[|body| + 1] == hi;
    }
    SealedForm(body);
  }

  lemma SealedForm(body: seq<byte>)
    ensures Sealed(body) == body + [Low(Crc(body)), High(Crc(body))]
  {
    hide Crc, Low, High;
  }

  lemma SealedLeavesZero(body: seq<byte>)
    ensures Crc(body + [Low(Crc(body)), High(Crc(body))]) == 0
  {
    hide *;
    var c := Crc(body);
    var lo, hi := Low(c), High(c);
    assert body + [lo, hi] == body + [lo] + [hi];
    CrcOfNext(body, lo);
    CrcOfNext(body + [lo], hi);
    FeedByte(c, lo);
    LowFirst(c);
    HighOnlyMoves(c);
    FeedByte(Up8(c), hi);
  }
}
