/** The write frames of the Inspire hand: an extended identifier of variable length, then the register values.
    Strings of binary and hexadecimal digits are kept as the digits they show, most significant first. */
module Inspire {
  import opened Wrappers
  import opened Digits

  datatype Error = OutOfRange

  /** std::bitset<k>(n).to_string(): the low k bits. */
  function FixedBits(n: nat, k: nat): (ds: seq<nat>)
    ensures |ds| == k && forall i | 0 <= i < k :: ds[i] < 2
    decreases k
  {
    if k == 0 then [] else FixedBits(n / 2, k - 1) + [n % 2]
  }

  /** find('1'): the position of the first one, or the length when there is none. */
  function FirstOne(ds: seq<nat>): (p: nat)
    ensures p <= |ds|
    ensures p < |ds| ==> ds[p] == 1
    ensures forall i | 0 <= i < p :: ds[i] != 1
  {
    if ds == [] || ds[0] == 1 then 0 else 1 + FirstOne(ds[1..])
  }

  /** convert_address_to_binary_write. substr throws when the address has no one among its low sixteen bits. */
  function ConvertAddressToBinaryWrite(address: int, id: int): Result<seq<nat>, Error> {
    var bits := FixedBits(address % 0x1_0000, 16);
    var pos := FirstOne(bits);
    if pos == |bits| then Failure(OutOfRange)
    else Success([0, 0, 0, 0, 0, 1, 0] + bits[pos..] + FixedBits(id % 0x4000, 14))
  }

  /** binary_to_hex. */
  function BinaryToHex(bits: seq<nat>): seq<nat> {
    Render(Value(bits, 2), 16)
  }

  /** Low byte, then high byte, of each value; C++'s & and >> on negative values keep two's complement. */
  function ValueBytes(values: seq<int>): seq<nat> {
    if values == [] then [] else
      ValueBytes(values[..|values| - 1]) + [values[|values| - 1] % 0x100, values[|values| - 1] / 0x100 % 0x100]
  }

  /** The frame that write_register sends. */
  function Encode(address: int, id: int, values: seq<int>): Result<seq<nat>, Error> {
    var bits :- ConvertAddressToBinaryWrite(address, id);
    Success(Render(Value(BinaryToHex(bits), 16), 256) + ValueBytes(values))
  }

  // ---- reading a frame back ----

  datatype Fields = Fields(address: nat, id: nat, values: seq<nat>)

  function DecodeValues(bytes: seq<nat>): seq<nat>
    decreases |bytes|
  {
    if |bytes| < 2 then [] else DecodeValues(bytes[..|bytes| - 2]) + [bytes[|bytes| - 2] + 0x100 * bytes[|bytes| - 1]]
  }

  /** An odd frame has a three-byte prefix, an even one a four-byte prefix; in the prefix's bits the first two are
      the command, the last fourteen the id, and the address lies between. */
  function Decode(frame: seq<nat>): Fields
    requires |frame| >= 4 || |frame| == 3
  {
    var k := if |frame| % 2 == 1 then 3 else 4;
    var bits := Render(Value(frame[..k], 256), 2);
    if |bits| < 16 then Fields(0, 0, []) else
      Fields(Value(bits[2..|bits| - 14], 2), Value(bits[|bits| - 14..], 2), DecodeValues(frame[k..]))
  }

  // ---- the identifier ----

  lemma {:induction false} FixedBitsValue(n: nat, k: nat)
    requires n < Power(2, k)
    ensures Value(FixedBits(n, k), 2) == n
    decreases k
  {
    if k > 0 {
      FixedBitsValue(n / 2, k - 1);
      assert FixedBits(n, k)[..k - 1] == FixedBits(n / 2, k - 1);
    }
  }

  lemma {:induction false} FirstOneCuts(ds: seq<nat>)
    requires forall i | 0 <= i < |ds| :: ds[i] < 2
    ensures FirstOne(ds) == |ds| <==> Value(ds, 2) == 0
    ensures Value(ds[FirstOne(ds)..], 2) == Value(ds, 2)
  {
    if ds != [] && ds[0] == 0 {
      LeadingZero(ds, 2);
      FirstOneCuts(ds[1..]);
      assert ds[FirstOne(ds)..] == ds[1..][FirstOne(ds[1..])..];
    } else if ds != [] {
      PositiveValue(ds, 2);
      assert ds[0..] == ds;
    }
  }

  /** Stripping the fixed-width address leaves its shortest numeral. */
  lemma StrippedAddress(a: nat)
    requires a < 0x1_0000
    ensures var bits := FixedBits(a, 16);
            (FirstOne(bits) == 16 <==> a == 0) && (a > 0 ==> bits[FirstOne(bits)..] == Render(a, 2))
  {
    PowersOfTwo();
    var bits := FixedBits(a, 16);
    FixedBitsValue(a, 16);
    FirstOneCuts(bits);
    if a > 0 { CanonicalIsRendered(bits[FirstOne(bits)..], 2); }
  }

  lemma PowersOfTwo()
    ensures Power(2, 8) == 0x100 && Power(2, 14) == 0x4000 && Power(2, 16) == 0x1_0000
    ensures Power(2, 24) == 0x100_0000 && Power(2, 32) == 0x1_0000_0000
    ensures Power(256, 2) == 0x1_0000 && Power(256, 3) == 0x100_0000 && Power(256, 4) == 0x1_0000_0000
  {
    assert Power(2, 4) == 16;
    assert Power(2, 6) == 64;
    PowerSum(2, 4, 4);
    PowerSum(2, 8, 6);
    PowerSum(2, 8, 8);
    PowerSum(2, 16, 8);
    PowerSum(2, 16, 16);
    assert Power(256, 1) == 256;
    PowerSum(256, 1, 1);
    PowerSum(256, 2, 1);
    PowerSum(256, 2, 2);
  }

  /** The identifier's bits from the leading one on: command, address, id. */
  function PrefixBits(a: nat, id: nat): seq<nat> {
    [1, 0] + Render(a, 2) + FixedBits(id, 14)
  }

  lemma DropZeros(bits: seq<nat>)
    ensures Value([0, 0, 0, 0, 0] + bits, 2) == Value(bits, 2)
  {
    hide Value;
    LeadingZero([0, 0, 0, 0, 0] + bits, 2);
    assert ([0, 0, 0, 0, 0] + bits)[1..] == [0, 0, 0, 0] + bits;
    LeadingZero([0, 0, 0, 0] + bits, 2);
    assert ([0, 0, 0, 0] + bits)[1..] == [0, 0, 0] + bits;
    LeadingZero([0, 0, 0] + bits, 2);
    assert ([0, 0, 0] + bits)[1..] == [0, 0] + bits;
    LeadingZero([0, 0] + bits, 2);
    assert ([0, 0] + bits)[1..] == [0] + bits;
    LeadingZero([0] + bits, 2);
    assert ([0] + bits)[1..] == bits;
  }

  /** The chain binary text, hexadecimal text, number keeps the identifier: encoding fails only for an address
      that is zero modulo 2^16, and otherwise starts with the bytes of the prefix bits' value. */
  lemma EncodeForm(address: int, id: int, values: seq<int>)
    ensures var a := address % 0x1_0000;
            Encode(address, id, values) ==
            if a == 0 then Failure(OutOfRange)
            else Success(Render(Value(PrefixBits(a, id % 0x4000), 2), 256) + ValueBytes(values))
  {
    hide Value, Render, FixedBits, FirstOne, ValueBytes, Power;
    var a, i := address % 0x1_0000, id % 0x4000;
    StrippedAddress(a);
    if a != 0 {
      var bits := [0, 0, 0, 0, 0, 1, 0] + Render(a, 2) + FixedBits(i, 14);
      assert bits == [0, 0, 0, 0, 0] + PrefixBits(a, i);
      DropZeros(PrefixBits(a, i));
      RenderReadsBack(Value(bits, 2), 16);
    }
  }

  lemma AddressLength(a: nat)
    requires 0 < a < 0x1_0000
    ensures 1 <= |Render(a, 2)| <= 16
  {
    hide Render, Value;
    var ds := Render(a, 2);
    RenderReadsBack(a, 2);
    ValueAtLeast(ds, 2);
    PowersOfTwo();
    if |ds| > 16 { PowerGrows(2, 16, |ds| - 1); }
  }

  lemma PrefixIsCanonical(a: nat, id: nat)
    requires 0 < a < 0x1_0000
    ensures Canonical(PrefixBits(a, id), 2)
    ensures Render(Value(PrefixBits(a, id), 2), 2) == PrefixBits(a, id)
  {
    hide Render, Value, FixedBits;
    RenderReadsBack(a, 2);
    var bits := PrefixBits(a, id);
    forall i | 0 <= i < |bits| ensures bits[i] < 2 {
      if 2 <= i < 2 + |Render(a, 2)| { assert bits[i] == Render(a, 2)[i - 2]; }
      if i >= 2 + |Render(a, 2)| { assert bits[i] == FixedBits(id, 14)[i - 2 - |Render(a, 2)|]; }
    }
    CanonicalIsRendered(bits, 2);
  }

  /** Short addresses give three prefix bytes, long ones four. */
  lemma PrefixLength(a: nat, id: nat)
    requires 0 < a < 0x1_0000
    ensures |Render(Value(PrefixBits(a, id), 2), 256)| == if |Render(a, 2)| <= 8 then 3 else 4
  {
    hide Render, Value, Power, FixedBits;
    var bits := PrefixBits(a, id);
    var n, len := Value(bits, 2), |Render(a, 2)|;
    AddressLength(a);
    PrefixIsCanonical(a, id);
    ValueBounded(bits, 2);
    ValueAtLeast(bits, 2);
    PowersOfTwo();
    if len <= 8 {
      PowerGrows(2, 16, len + 15);
      PowerGrows(2, len + 16, 24);
      RenderLength(n, 256, 3);
    } else {
      PowerGrows(2, 24, len + 15);
      PowerGrows(2, len + 16, 32);
      RenderLength(n, 256, 4);
    }
  }

  // ---- the values ----

  lemma {:induction false} ValueBytesLength(values: seq<int>)
    ensures |ValueBytes(values)| == 2 * |values|
  {
    if values != [] { ValueBytesLength(values[..|values| - 1]); }
  }

  function LowWords(values: seq<int>): seq<nat> {
    seq(|values|, i requires 0 <= i < |values| => values[i] % 0x1_0000)
  }

  lemma TwoBytes(v: int)
    ensures v % 0x100 + 0x100 * (v / 0x100 % 0x100) == v % 0x1_0000
  {
  }

  lemma {:induction false} ValuesReadBack(values: seq<int>)
    ensures DecodeValues(ValueBytes(values)) == LowWords(values)
  {
    if values != [] {
      var most, v := values[..|values| - 1], values[|values| - 1];
      ValueBytesLength(most);
      ValuesReadBack(most);
      TwoBytes(v);
      var bytes := ValueBytes(values);
      assert bytes[..|bytes| - 2] == ValueBytes(most);
      assert LowWords(values) == LowWords(most) + [v % 0x1_0000];
    }
  }

  // ---- whole frames ----

  /** Every frame reads back: the address modulo 2^16, the id modulo 2^14 and each value modulo 2^16. */
  lemma DecodeEncode(address: int, id: int, values: seq<int>)
    requires Encode(address, id, values).Success?
    ensures var frame := Encode(address, id, values).value;
            (|frame| >= 4 || |frame| == 3) &&
            Decode(frame) == Fields(address % 0x1_0000, id % 0x4000, LowWords(values))
  {
    hide Render, Value, Power, FixedBits, ValueBytes, DecodeValues, Encode;
    var a, i := address % 0x1_0000, id % 0x4000;
    EncodeForm(address, id, values);
    var prefix := Render(Value(PrefixBits(a, i), 2), 256);
    var frame := prefix + ValueBytes(values);
    PrefixLength(a, i);
    PrefixIsCanonical(a, i);
    ValueBytesLength(values);
    ValuesReadBack(values);
    RenderReadsBack(Value(PrefixBits(a, i), 2), 256);
    RenderReadsBack(a, 2);
    PowersOfTwo();
    FixedBitsValue(i, 14);
    var k := |prefix|;
    assert frame[..k] == prefix && frame[k..] == ValueBytes(values);
    var bits := PrefixBits(a, i);
    assert bits[2..|bits| - 14] == Render(a, 2);
    assert bits[|bits| - 14..] == FixedBits(i, 14);
  }

  /** Two commands have the same frame exactly when address, id and values agree in the bits that are sent. */
  lemma EncodingInjective(address: int, id: int, values: seq<int>, address': int, id': int, values': seq<int>)
    requires address % 0x1_0000 != 0 && address' % 0x1_0000 != 0
    ensures Encode(address, id, values) == Encode(address', id', values') <==>
            address % 0x1_0000 == address' % 0x1_0000 && id % 0x4000 == id' % 0x4000 &&
            LowWords(values) == LowWords(values')
  {
    hide Encode, Decode;
    EncodeForm(address, id, values);
    EncodeForm(address', id', values');
    DecodeEncode(address, id, values);
    DecodeEncode(address', id', values');
    if LowWords(values) == LowWords(values') { SameLowWords(values, values'); }
  }

  lemma {:induction false} SameLowWords(u: seq<int>, v: seq<int>)
    requires LowWords(u) == LowWords(v)
    ensures ValueBytes(u) == ValueBytes(v)
    decreases |u|
  {
    assert |u| == |v|;
    if u != [] {
      var n := |u| - 1;
      forall i | 0 <= i < n ensures LowWords(u[..n])[i] == LowWords(v[..n])[i] {
        assert LowWords(u)[i] == LowWords(v)[i];
      }
      SameLowWords(u[..n], v[..n]);
      assert LowWords(u)[n] == LowWords(v)[n];
      SameBytes(u[n], v[n]);
    }
  }

  lemma SameBytes(u: int, v: int)
    requires u % 0x1_0000 == v % 0x1_0000
    ensures u % 0x100 == v % 0x100 && u / 0x100 % 0x100 == v / 0x100 % 0x100
  {
    TwoBytes(u);
    TwoBytes(v);
  }

  /** What travels: a prefix whose number is the two command bits 10, the address and fourteen bits of id in a row, and
      then every value in two bytes, the low one first. */
  lemma FrameLayout(address: int, id: int, values: seq<int>)
    requires address % 0x1_0000 != 0
    ensures Encode(address, id, values).Success?
    ensures var a := address % 0x1_0000;
            var bits := |Render(a, 2)|;
            var k := if bits <= 8 then 3 else 4;
            var frame := Encode(address, id, values).value;
            |frame| == k + 2 * |values|
            && Value(frame[..k], 256) == (2 * Power(2, bits) + a) * 0x4000 + id % 0x4000
            && (forall i | 0 <= i < k :: frame[i] < 256)
            && forall i | 0 <= i < |values| ::
                 frame[k + 2 * i] == values[i] % 0x100 && frame[k + 2 * i + 1] == values[i] / 0x100 % 0x100
  {
    hide Render, Value, Power, FixedBits, ValueBytes, Encode;
    var a, i := address % 0x1_0000, id % 0x4000;
    EncodeForm(address, id, values);
    PrefixLength(a, i);
    PrefixNumber(a, i);
    var prefix := Render(Value(PrefixBits(a, i), 2), 256);
    RenderReadsBack(Value(PrefixBits(a, i), 2), 256);
    ValueBytesLength(values);
    ValueBytesAt(values);
    var frame := Encode(address, id, values).value;
    assert frame[..|prefix|] == prefix;
    forall n | 0 <= n < |values|
      ensures frame[|prefix| + 2 * n] == values[n] % 0x100 && frame[|prefix| + 2 * n + 1] == values[n] / 0x100 % 0x100
    {
      assert frame[|prefix| + 2 * n] == ValueBytes(values)[2 * n];
      assert frame[|prefix| + 2 * n + 1] == ValueBytes(values)[2 * n + 1];
    }
  }

  lemma {:induction false} ValueBytesAt(values: seq<int>)
    ensures |ValueBytes(values)| == 2 * |values|
    ensures forall i | 0 <= i < |values| ::
              ValueBytes(values)[2 * i] == values[i] % 0x100 && ValueBytes(values)[2 * i + 1] == values[i] / 0x100 % 0x100
  {
    if values != [] { ValueBytesAt(values[..|values| - 1]); }
  }

  lemma PrefixNumber(a: nat, id: nat)
    requires 0 < a < 0x1_0000 && id < 0x4000
    ensures Value(PrefixBits(a, id), 2) == (2 * Power(2, |Render(a, 2)|) + a) * 0x4000 + id
  {
    hide Render, Value, FixedBits, Power;
    PowersOfTwo();
    RenderReadsBack(a, 2);
    FixedBitsValue(id, 14);
    CommandBits();
    ValueConcat([1, 0], Render(a, 2), 2);
    ValueConcat([1, 0] + Render(a, 2), FixedBits(id, 14), 2);
  }

  lemma CommandBits()
    ensures Value([1, 0], 2) == 2
  {
    assert [1, 0][..1] == [1] && [1][..0] == [];
    assert Value([1], 2) == 1;
  }

  /** For example address 1000, id 1, value 258. */
  lemma FrameExample()
    ensures Encode(1000, 1, [258]) == Success([0x02, 0xFA, 0x00, 0x01, 0x02, 0x01])
  {
    hide Render, Value, Power, FixedBits, ValueBytes, Encode;
    var values := [258];
    AddressOf1000();
    FrameLayout(1000, 1, values);
    var frame := Encode(1000, 1, values).value;
    assert values[0] == 258;
    assert frame[4 + 2 * 0] == 0x02 && frame[4 + 2 * 0 + 1] == 0x01;
    FourBytes(frame[..4]);
    assert frame == frame[..4] + [frame[4], frame[5]] == [0x02, 0xFA, 0x00, 0x01, 0x02, 0x01];
  }

  lemma AddressOf1000()
    ensures |Render(1000, 2)| == 10 && Power(2, 10) == 1024
  {
    assert Power(2, 5) == 32;
    PowerSum(2, 5, 4);
    PowerSum(2, 5, 5);
    RenderLength(1000, 2, 10);
  }

  lemma FourBytes(bytes: seq<nat>)
    requires |bytes| == 4 && (forall i | 0 <= i < 4 :: bytes[i] < 256) && Value(bytes, 256) == 0x02FA_0001
    ensures bytes == [0x02, 0xFA, 0x00, 0x01]
  {
    assert bytes[..3][..2] == bytes[..2] && bytes[..2][..1] == bytes[..1] && bytes[..1][..0] == [];
    assert Value(bytes[..1], 256) == bytes[0];
    assert Value(bytes[..2], 256) == bytes[0] * 256 + bytes[1];
    assert Value(bytes[..3], 256) == (bytes[0] * 256 + bytes[1]) * 256 + bytes[2];
  }

  // ---- the code ----

  /** convert_number_to_bytes: bytes are put in front while the number is shifted down. */
  method ConvertNumberToBytes(number: nat) returns (bytes: seq<nat>)
    ensures bytes == Render(number, 256)
  {
    bytes := [];
    var n := number;
    while n > 0
      invariant n > 0 ==> Render(number, 256) == Render(n, 256) + bytes
      invariant n == 0 ==> bytes == Render(number, 256) || (number == 0 && bytes == [])
      decreases n
    {
      if n >= 256 { DivShrinks(n, 256); }
      bytes := [n % 256] + bytes;
      n := n / 256;
    }
    if bytes == [] {
      bytes := [0];
    }
  }

  /** write_register, up to the bytes handed to the serial port. */
  method WriteRegister(address: int, values: seq<int>, id: int) returns (sendBuffer: Result<seq<nat>, Error>)
    ensures sendBuffer == Encode(address, id, values)
  {
    hide Value, Render, FixedBits, FirstOne;
    var extIdBin := ConvertAddressToBinaryWrite(address, id);
    if extIdBin.Failure? { return Failure(extIdBin.error); }
    var extIdHex := BinaryToHex(extIdBin.value);
    var extIdNumber := Value(extIdHex, 16);
    var extIdBytes := ConvertNumberToBytes(extIdNumber);
    var buffer := extIdBytes;
    for i := 0 to |values|
      invariant buffer == extIdBytes + ValueBytes(values[..i])
    {
      assert values[..i + 1][..i] == values[..i];
      buffer := buffer + [values[i] % 0x100];
      buffer := buffer + [values[i] / 0x100 % 0x100];
    }
    assert values[..|values|] == values;
    sendBuffer := Success(buffer);
  }
}
