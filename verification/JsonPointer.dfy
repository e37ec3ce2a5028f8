/** JSON pointers: their text form, array indices, and reaching into a value. */
module JsonPointer {
  import opened Wrappers
  import opened JsonValue
  import Digits

  /** Exceptions, by class and id. */
  datatype Error = ParseError(id: nat) | OutOfRange(id: nat) | OtherError(id: nat)

  /** The reference tokens, unescaped. */
  type Pointer = seq<string>

  // ---- escaping of reference tokens (RFC 6901, section 4) ----

  /** replace_substring: replacements are made left to right and never rescanned. */
  function ReplaceAll(s: string, f: string, t: string): string
    requires f != ""
  {
    if |s| < |f| then s
    else if s[..|f|] == f then t + ReplaceAll(s[|f|..], f, t)
    else [s[0]] + ReplaceAll(s[1..], f, t)
  }

  function Escape(s: string): string {
    ReplaceAll(ReplaceAll(s, "~", "~0"), "/", "~1")
  }

  function Unescape(s: string): string {
    ReplaceAll(ReplaceAll(s, "~1", "/"), "~0", "~")
  }

  /** Escaping one character at a time: the form the two passes of Escape add up to. */
  function EscapeChar(c: char): string {
    if c == '~' then "~0" else if c == '/' then "~1" else [c]
  }

  function EscapeEach(s: string): string {
    if s == "" then "" else EscapeChar(s[0]) + EscapeEach(s[1..])
  }

  function EscapeTildes(s: string): string {
    if s == "" then "" else (if s[0] == '~' then "~0" else [s[0]]) + EscapeTildes(s[1..])
  }

  lemma KeepsHead(c: char, rest: string, f: string, t: string)
    requires f != "" && c != f[0]
    ensures ReplaceAll([c] + rest, f, t) == [c] + ReplaceAll(rest, f, t)
  {
    assert ([c] + rest)[1..] == rest;
    if |[c] + rest| >= |f| {
      assert ([c] + rest)[..|f|][0] == c;
    } else {
      assert |rest| < |f|;
    }
  }

  lemma {:induction false} TildePass(s: string)
    ensures ReplaceAll(s, "~", "~0") == EscapeTildes(s)
  {
    if s != "" {
      TildePass(s[1..]);
      if s[0] == '~' {
        assert s[..1] == "~";
      } else {
        KeepsHead(s[0], s[1..], "~", "~0");
        assert s == [s[0]] + s[1..];
      }
    }
  }

  lemma {:induction false} SlashPass(s: string)
    ensures ReplaceAll(EscapeTildes(s), "/", "~1") == EscapeEach(s)
  {
    if s != "" {
      SlashPass(s[1..]);
      var rest := EscapeTildes(s[1..]);
      if s[0] == '~' {
        KeepsHead('0', rest, "/", "~1");
        KeepsHead('~', "0" + rest, "/", "~1");
        assert "~0" + rest == "~" + ("0" + rest);
      } else if s[0] == '/' {
        assert ("/" + rest)[..1] == "/" && ("/" + rest)[1..] == rest;
      } else {
        KeepsHead(s[0], rest, "/", "~1");
      }
    }
  }

  lemma EscapeIsEach(s: string)
    ensures Escape(s) == EscapeEach(s)
  {
    TildePass(s);
    SlashPass(s);
  }

  /** The first pass of Unescape turns "~1" into "/" and leaves every "~0" alone. */
  lemma {:induction false} FirstUnescapePass(s: string)
    ensures ReplaceAll(EscapeEach(s), "~1", "/") == EscapeTildes(s)
  {
    if s != "" {
      FirstUnescapePass(s[1..]);
      var rest := EscapeEach(s[1..]);
      var c := EscapeChar(s[0]);
      assert EscapeEach(s) == c + rest;
      if s[0] == '/' {
        assert (c + rest)[..2] == "~1" && (c + rest)[2..] == rest;
      } else if s[0] == '~' {
        assert (c + rest)[..2] == "~0" && (c + rest)[1..] == "0" + rest;
        KeepsHead('0', rest, "~1", "/");
      } else {
        KeepsHead(s[0], rest, "~1", "/");
      }
    }
  }

  lemma {:induction false} SecondUnescapePass(s: string)
    ensures ReplaceAll(EscapeTildes(s), "~0", "~") == s
  {
    if s != "" {
      SecondUnescapePass(s[1..]);
      var rest := EscapeTildes(s[1..]);
      if s[0] == '~' {
        assert ("~0" + rest)[..2] == "~0" && ("~0" + rest)[2..] == rest;
      } else {
        KeepsHead(s[0], rest, "~0", "~");
      }
      assert s == [s[0]] + s[1..];
    }
  }

  lemma UnescapeEscape(s: string)
    ensures Unescape(Escape(s)) == s
  {
    EscapeIsEach(s);
    FirstUnescapePass(s);
    SecondUnescapePass(s);
  }

  /** The check split makes on each token: every '~' is followed by '0' or '1'. */
  predicate WellEscaped(s: string) {
    forall i | 0 <= i < |s| && s[i] == '~' :: i + 1 < |s| && (s[i + 1] == '0' || s[i + 1] == '1')
  }

  lemma {:induction false} EscapedIsWellEscaped(s: string)
    ensures WellEscaped(Escape(s)) && '/' !in Escape(s)
  {
    EscapeIsEach(s);
    if s != "" {
      EscapedIsWellEscaped(s[1..]);
      EscapeIsEach(s[1..]);
      var c, rest := EscapeChar(s[0]), EscapeEach(s[1..]);
      forall i | 0 <= i < |c + rest| && (c + rest)[i] == '~'
        ensures i + 1 < |c + rest| && ((c + rest)[i + 1] == '0' || (c + rest)[i + 1] == '1')
      {
        if i >= |c| { assert (c + rest)[i] == rest[i - |c|]; }
      }
    }
  }

  /** Every token text that split accepts is an escaped one. */
  lemma {:induction false} WellEscapedIsEscaped(x: string) returns (s: string)
    requires WellEscaped(x) && '/' !in x
    ensures x == Escape(s)
  {
    if x == "" {
      s := "";
    } else if x[0] == '~' {
      var rest := WellEscapedIsEscaped(x[2..]);
      s := [if x[1] == '0' then '~' else '/'] + rest;
      EscapeIsEach(rest);
      EscapeIsEach(s);
      assert s[1..] == rest && x == [x[0], x[1]] + x[2..];
    } else {
      assert forall i | 0 <= i < |x[1..]| :: x[1..][i] == x[i + 1];
      var rest := WellEscapedIsEscaped(x[1..]);
      s := [x[0]] + rest;
      EscapeIsEach(rest);
      EscapeIsEach(s);
      assert s[1..] == rest && x == [x[0]] + x[1..];
    }
  }

  lemma EscapeUnescape(x: string)
    requires WellEscaped(x) && '/' !in x
    ensures Escape(Unescape(x)) == x
  {
    var s := WellEscapedIsEscaped(x);
    UnescapeEscape(s);
  }

  // ---- text form of a pointer ----

  /** to_string. */
  function Text(ptr: Pointer): string {
    if ptr == [] then "" else Text(ptr[..|ptr| - 1]) + "/" + Escape(ptr[|ptr| - 1])
  }

  /** Index of the first '/', or the length. */
  function FirstSlash(s: string): (k: nat)
    ensures k <= |s|
    ensures forall i | 0 <= i < k :: s[i] != '/'
    ensures k < |s| ==> s[k] == '/'
  {
    if s == "" || s[0] == '/' then 0 else 1 + FirstSlash(s[1..])
  }

  /** The loop of split, from the start of a token on. */
  function SplitTokens(s: string): Result<Pointer, Error>
    decreases |s|
  {
    var k := FirstSlash(s);
    if !WellEscaped(s[..k]) then Failure(ParseError(108))
    else if k == |s| then Success([Unescape(s)])
    else
      var rest :- SplitTokens(s[k + 1..]);
      Success([Unescape(s[..k])] + rest)
  }

  /** The constructor from text. */
  function Split(s: string): Result<Pointer, Error> {
    if s == "" then Success([])
    else if s[0] != '/' then Failure(ParseError(107))
    else SplitTokens(s[1..])
  }

  lemma {:induction false} TextFromFront(token: string, ptr: Pointer)
    ensures Text([token] + ptr) == "/" + Escape(token) + Text(ptr)
  {
    hide ReplaceAll;
    if ptr == [] {
      assert [token] + ptr == [token];
      assert Text([token][..0]) == "";
    } else {
      var high := ptr[..|ptr| - 1];
      TextFromFront(token, high);
      assert ([token] + ptr)[..|ptr|] == [token] + high;
    }
  }

  lemma FirstSlashAt(a: string, b: string)
    requires '/' !in a && (b == "" || b[0] == '/')
    ensures FirstSlash(a + b) == |a|
  {
    var k := FirstSlash(a + b);
    assert |a| < |a + b| ==> (a + b)[|a|] == '/';
    assert forall i | 0 <= i < |a| :: (a + b)[i] == a[i];
  }

  /** What split does with the text of one token that is followed by the text of the others. */
  lemma SplitFirst(a: string, b: string)
    requires '/' !in a && WellEscaped(a) && (b == "" || b[0] == '/')
    ensures b == "" ==> SplitTokens(a + b) == Success([Unescape(a)])
    ensures b != "" && SplitTokens(b[1..]).Success? ==>
              SplitTokens(a + b) == Success([Unescape(a)] + SplitTokens(b[1..]).value)
  {
    FirstSlashAt(a, b);
    assert (a + b)[..|a|] == a;
    if b != "" {
      assert (a + b)[|a| + 1..] == b[1..];
    } else {
      assert a + b == a;
    }
  }

  lemma {:induction false} SplitText(ptr: Pointer)
    ensures Split(Text(ptr)) == Success(ptr)
    decreases |ptr|
  {
    if ptr != [] {
      var token, rest := ptr[0], ptr[1..];
      assert ptr == [token] + rest;
      SplitText(rest);
      EscapedIsWellEscaped(token);
      UnescapeEscape(token);
      TextStartsWithSlash(rest);
      TextFromFront(token, rest);
      PrependToken(token, Escape(token), Text(rest), rest);
    }
  }

  lemma TextStartsWithSlash(ptr: Pointer)
    ensures ptr == [] <==> Text(ptr) == ""
    ensures ptr != [] ==> Text(ptr)[0] == '/'
  {
    if ptr != [] {
      TextFromFront(ptr[0], ptr[1..]);
      assert ptr == [ptr[0]] + ptr[1..];
    }
  }

  lemma PrependToken(token: string, a: string, b: string, rest: Pointer)
    requires '/' !in a && WellEscaped(a) && Unescape(a) == token
    requires b == "" || b[0] == '/'
    requires Split(b) == Success(rest)
    ensures Split("/" + a + b) == Success([token] + rest)
  {
    hide Unescape, WellEscaped, FirstSlash;
    SplitFirst(a, b);
    var s := "/" + a + b;
    assert s[1..] == a + b;
    assert Split(s) == SplitTokens(a + b);
    if b == "" { assert [token] + rest == [token]; }
  }

  lemma {:induction false} TokensText(s: string, ptr: Pointer)
    requires SplitTokens(s) == Success(ptr)
    ensures Text(ptr) == "/" + s
    decreases |s|
  {
    hide ReplaceAll;
    var k := FirstSlash(s);
    EscapeUnescape(s[..k]);
    if k == |s| {
      assert s[..k] == s;
      JoinText(s, Unescape(s), "", []);
    } else {
      var rest := SplitTokens(s[k + 1..]).value;
      TokensText(s[k + 1..], rest);
      JoinText(s[..k], Unescape(s[..k]), "/" + s[k + 1..], rest);
      assert s == s[..k] + ("/" + s[k + 1..]);
    }
  }

  lemma JoinText(a: string, token: string, b: string, rest: Pointer)
    requires Escape(token) == a && Text(rest) == b
    ensures Text([token] + rest) == "/" + (a + b)
  {
    TextFromFront(token, rest);
  }

  /** Parsing and printing are inverse: a text parses to ptr exactly when it is ptr's text. */
  lemma SplitIffText(s: string, ptr: Pointer)
    ensures Split(s) == Success(ptr) <==> s == Text(ptr)
  {
    SplitText(ptr);
    if Split(s) == Success(ptr) && s != "" {
      TokensText(s[1..], ptr);
    }
  }

  /** split fails at the first character or at a tilde that begins no escape sequence, and nowhere else. */
  lemma SplitSucceedsIff(s: string)
    ensures Split(s).Success? <==> s == "" || (s[0] == '/' && WellEscaped(s))
    ensures Split(s).Failure? ==> Split(s).error == ParseError(if s[0] == '/' then 108 else 107)
  {
    if s != "" && s[0] == '/' {
      TokensSucceedIff(s[1..]);
      assert forall i | 0 <= i < |s[1..]| :: s[1..][i] == s[i + 1];
      assert forall i | 0 < i < |s| :: s[i] == s[1..][i - 1];
    }
  }

  lemma {:induction false} TokensSucceedIff(s: string)
    ensures SplitTokens(s).Success? <==> WellEscaped(s)
    ensures SplitTokens(s).Failure? ==> SplitTokens(s).error == ParseError(108)
    decreases |s|
  {
    hide Unescape, WellEscaped, FirstSlash;
    var k := FirstSlash(s);
    if k == |s| {
      assert s[..k] == s;
    } else {
      TokensSucceedIff(s[k + 1..]);
      WellEscapedParts(s, k);
    }
  }

  lemma WellEscapedParts(s: string, k: nat)
    requires k < |s| && s[k] == '/'
    ensures WellEscaped(s) <==> WellEscaped(s[..k]) && WellEscaped(s[k + 1..])
  {
    var a, b := s[..k], s[k + 1..];
    if WellEscaped(s) {
      forall i | 0 <= i < |b| && b[i] == '~' ensures i + 1 < |b| && (b[i + 1] == '0' || b[i + 1] == '1') {
        assert s[k + 1 + i] == '~';
      }
    }
    if WellEscaped(a) && WellEscaped(b) {
      forall i | 0 <= i < |s| && s[i] == '~' ensures i + 1 < |s| && (s[i + 1] == '0' || s[i + 1] == '1') {
        if i < k {
          assert a[i] == '~' && s[i + 1] == a[i + 1];
        } else {
          assert b[i - k - 1] == '~' && s[i + 1] == b[i - k];
        }
      }
    }
  }

  /** Examples of RFC 6901, section 5. */
  lemma RfcExamples()
    ensures Text(["a/b"]) == "/a~1b" && Text(["m~n"]) == "/m~0n"
  {
    hide ReplaceAll, Escape, EscapeEach;
    EscapeOne('a', '/', 'b');
    EscapeOne('m', '~', 'n');
    TextFromFront("a/b", []);
    TextFromFront("m~n", []);
    assert ["a/b"] + [] == ["a/b"] && ["m~n"] + [] == ["m~n"];
  }

  lemma EscapeOne(a: char, b: char, c: char)
    ensures Escape([a, b, c]) == EscapeChar(a) + EscapeChar(b) + EscapeChar(c)
  {
    hide ReplaceAll, EscapeChar;
    EscapeIsEach([a, b, c]);
    assert [a, b, c][1..] == [b, c] && [b, c][1..] == [c] && [c][1..] == "";
    assert EscapeEach([c]) == EscapeChar(c);
    assert EscapeEach([b, c]) == EscapeChar(b) + EscapeChar(c);
    assert EscapeEach([a, b, c]) == EscapeChar(a) + (EscapeChar(b) + EscapeChar(c));
  }

  // ---- array indices ----

  function DigitChar(d: nat): char
    requires d < 10
  {
    '0' + d as char
  }

  predicate IsDigit(c: char) {
    '0' <= c <= '9'
  }

  function DigitValue(c: char): nat
    requires IsDigit(c)
  {
    (c - '0') as nat
  }

  function DigitChars(ds: seq<nat>): (s: string)
    requires forall i | 0 <= i < |ds| :: ds[i] < 10
    ensures |s| == |ds| && forall i | 0 <= i < |ds| :: s[i] == DigitChar(ds[i])
  {
    seq(|ds|, i requires 0 <= i < |ds| => DigitChar(ds[i]))
  }

  function DigitValues(s: string): (ds: seq<nat>)
    requires forall i | 0 <= i < |s| :: IsDigit(s[i])
    ensures |ds| == |s| && forall i | 0 <= i < |s| :: ds[i] == DigitValue(s[i])
  {
    seq(|s|, i requires 0 <= i < |s| => DigitValue(s[i]))
  }

  /** to_string(std::size_t). */
  function Decimal(n: nat): string {
    Digits.RenderReadsBack(n, 10);
    DigitChars(Digits.Render(n, 10))
  }

  /** array_index. strtoull stops at the first non-digit; size_type's own maximum is refused too. */
  function ArrayIndex(s: string): Result<nat, Error> {
    if |s| > 1 && s[0] == '0' then Failure(ParseError(106))
    else if |s| > 1 && !('1' <= s[0] <= '9') then Failure(ParseError(109))
    else if s == "" || exists i | 0 <= i < |s| :: !IsDigit(s[i]) then Failure(OutOfRange(404))
    else
      var n := Digits.Value(DigitValues(s), 10);
      if n >= TWO_64 then Failure(OutOfRange(404))
      else if n == TWO_64 - 1 then Failure(OutOfRange(410))
      else Success(n)
  }

  /** array_index accepts exactly the decimal numerals that to_string prints, up to size_type. */
  lemma ArrayIndexIffDecimal(s: string, n: nat)
    ensures ArrayIndex(s) == Success(n) <==> s == Decimal(n) && n < TWO_64 - 1
  {
    if s == Decimal(n) { DecimalIsIndex(n); }
    if ArrayIndex(s) == Success(n) { IndexIsDecimal(s, n); }
  }

  lemma DecimalIsIndex(n: nat)
    ensures n < TWO_64 - 1 ==> ArrayIndex(Decimal(n)) == Success(n)
    ensures n >= TWO_64 - 1 ==> ArrayIndex(Decimal(n)).Failure?
  {
    Digits.RenderReadsBack(n, 10);
    NumeralIsIndex(Digits.Render(n, 10), n);
  }

  lemma NumeralIsIndex(ds: seq<nat>, n: nat)
    requires Digits.Canonical(ds, 10) && Digits.Value(ds, 10) == n
    ensures n < TWO_64 - 1 ==> ArrayIndex(DigitChars(ds)) == Success(n)
    ensures n >= TWO_64 - 1 ==> ArrayIndex(DigitChars(ds)).Failure?
  {
    var s := DigitChars(ds);
    DigitCharsAreDigits(ds);
    assert s[0] == DigitChar(ds[0]);
  }

  lemma DigitCharsAreDigits(ds: seq<nat>)
    requires forall i | 0 <= i < |ds| :: ds[i] < 10
    ensures forall i | 0 <= i < |ds| :: IsDigit(DigitChars(ds)[i]) && DigitValue(DigitChars(ds)[i]) == ds[i]
    ensures DigitValues(DigitChars(ds)) == ds
  {
  }

  lemma IndexIsDecimal(s: string, n: nat)
    requires ArrayIndex(s) == Success(n)
    ensures s == Decimal(n)
  {
    var vs := DigitValues(s);
    Digits.CanonicalIsRendered(vs, 10);
    assert s == DigitChars(vs);
  }

  /** The exceptions of array_index: a numeral with a leading zero, a numeral that begins with something else than a
      digit, and a number that size_type cannot index with. */
  lemma ArrayIndexErrors(s: string)
    requires ArrayIndex(s).Failure?
    ensures ArrayIndex(s).error ==
            if |s| > 1 && s[0] == '0' then ParseError(106)
            else if |s| > 1 && !IsDigit(s[0]) then ParseError(109)
            else OutOfRange(if s == Decimal(TWO_64 - 1) then 410 else 404)
  {
    var top := TWO_64 - 1;
    Digits.RenderReadsBack(top, 10);
    if s == Decimal(top) {
      DigitCharsAreDigits(Digits.Render(top, 10));
    } else if ArrayIndex(s).error == OutOfRange(410) {
      Digits.CanonicalIsRendered(DigitValues(s), 10);
    }
  }

  lemma ArrayIndexInjective(s: string, t: string)
    requires ArrayIndex(s).Success? && ArrayIndex(s) == ArrayIndex(t)
    ensures s == t
  {
    ArrayIndexIffDecimal(s, ArrayIndex(s).value);
    ArrayIndexIffDecimal(t, ArrayIndex(t).value);
  }

  lemma DashIsNoIndex()
    ensures ArrayIndex("-") == Failure(OutOfRange(404))
  {
    assert !IsDigit("-"[0]);
  }

  // ---- reaching into a value ----

  /** One step of get_checked: the child that a token names. */
  function Child(j: Json, token: string): Result<Json, Error> {
    match j
    case Obj(m) => if token in m then Success(m[token]) else Failure(OutOfRange(403))
    case Arr(xs) =>
      if token == "-" then Failure(OutOfRange(402)) else
        var idx :- ArrayIndex(token);
        if idx < |xs| then Success(xs[idx]) else Failure(OutOfRange(401))
    case _ => Failure(OutOfRange(404))
  }

  /** at(ptr). */
  function At(j: Json, ptr: Pointer): Result<Json, Error>
    decreases |ptr|
  {
    if ptr == [] then Success(j) else
      var c :- Child(j, ptr[0]);
      At(c, ptr[1..])
  }

  function SetChild(j: Json, token: string, v: Json): Json
    requires Child(j, token).Success?
  {
    match j
    case Obj(m) => Obj(m[token := v])
    case Arr(xs) => Arr(xs[ArrayIndex(token).value := v])
  }

  /** The whole value after assigning v through the reference that at(ptr) returns. */
  function Put(j: Json, ptr: Pointer, v: Json): Json
    requires At(j, ptr).Success?
    decreases |ptr|
  {
    if ptr == [] then v else
      var c := Child(j, ptr[0]).value;
      SetChild(j, ptr[0], Put(c, ptr[1..], v))
  }

  lemma {:induction false} AtConcat(j: Json, p: Pointer, q: Pointer)
    ensures At(j, p).Success? ==> At(j, p + q) == At(At(j, p).value, q)
    ensures At(j, p).Failure? ==> At(j, p + q) == At(j, p)
    decreases |p|
  {
    if p == [] {
      assert p + q == q;
    } else {
      assert (p + q)[1..] == p[1..] + q;
      if Child(j, p[0]).Success? { AtConcat(Child(j, p[0]).value, p[1..], q); }
    }
  }

  /** Why a value has no child of that name, by exception. */
  predicate Lacks(j: Json, token: string, e: Error) {
    match j
    case Obj(m) => token !in m && e == OutOfRange(403)
    case Arr(xs) =>
      if token == "-" then e == OutOfRange(402)
      else if ArrayIndex(token).Failure? then e == ArrayIndex(token).error
      else e == OutOfRange(401) && forall n: nat | n < |xs| :: token != Decimal(n)
    case _ => e == OutOfRange(404)
  }

  /** at fails with the exception of the first token whose value is lacking in what the tokens before it reach. */
  lemma {:induction false} AtFailsIff(j: Json, ptr: Pointer, e: Error)
    ensures At(j, ptr) == Failure(e) <==>
            exists k | 0 <= k < |ptr| :: At(j, ptr[..k]).Success? && Lacks(At(j, ptr[..k]).value, ptr[k], e)
    decreases |ptr|
  {
    hide Lacks, Child;
    if ptr != [] {
      ChildFailsIff(j, ptr[0], e);
      if At(j, ptr) == Failure(e) && Child(j, ptr[0]).Failure? {
        assert At(j, ptr[..0]).Success? && Lacks(At(j, ptr[..0]).value, ptr[0], e);
      }
      if Child(j, ptr[0]).Success? {
        var c := Child(j, ptr[0]).value;
        AtFailsIff(c, ptr[1..], e);
        assert forall k | 0 < k <= |ptr| :: ptr[..k][1..] == ptr[1..][..k - 1];
        if At(c, ptr[1..]) == Failure(e) {
          var k :| 0 <= k < |ptr[1..]| && At(c, ptr[1..][..k]).Success? && Lacks(At(c, ptr[1..][..k]).value, ptr[1..][k], e);
          assert At(j, ptr[..k + 1]) == At(c, ptr[1..][..k]);
          assert ptr[k + 1] == ptr[1..][k];
        }
        forall k | 0 <= k < |ptr| && At(j, ptr[..k]).Success? && Lacks(At(j, ptr[..k]).value, ptr[k], e)
          ensures At(j, ptr) == Failure(e)
        {
          ChildFailsIff(At(j, ptr[..k]).value, ptr[k], e);
          AtConcat(j, ptr[..k], ptr[k..]);
          assert ptr == ptr[..k] + ptr[k..];
        }
      }
    }
  }

  lemma ChildFailsIff(j: Json, token: string, e: Error)
    ensures Child(j, token) == Failure(e) <==> Lacks(j, token, e)
  {
    hide ArrayIndex, Decimal;
    if j.Arr? {
      forall n: nat ensures ArrayIndex(token) == Success(n) <==> token == Decimal(n) && n < TWO_64 - 1 {
        ArrayIndexIffDecimal(token, n);
      }
    }
  }

  lemma {:induction false} PutConcat(j: Json, p: Pointer, q: Pointer, v: Json)
    requires At(j, p).Success? && At(At(j, p).value, q).Success?
    ensures At(j, p + q).Success?
    ensures Put(j, p + q, v) == Put(j, p, Put(At(j, p).value, q, v))
    decreases |p|
  {
    AtConcat(j, p, q);
    if p == [] {
      assert p + q == q;
    } else {
      assert (p + q)[1..] == p[1..] + q;
      PutConcat(Child(j, p[0]).value, p[1..], q, v);
    }
  }

  lemma {:induction false} AtPut(j: Json, p: Pointer, v: Json)
    requires At(j, p).Success?
    ensures At(Put(j, p, v), p) == Success(v)
    decreases |p|
  {
    if p != [] { AtPut(Child(j, p[0]).value, p[1..], v); }
  }

  lemma {:induction false} PutPut(j: Json, p: Pointer, v: Json, w: Json)
    requires At(j, p).Success?
    ensures At(Put(j, p, v), p).Success?
    ensures Put(Put(j, p, v), p, w) == Put(j, p, w)
    decreases |p|
  {
    if p != [] {
      var c := Child(j, p[0]).value;
      PutPut(c, p[1..], v, w);
      if j.Obj? {
        assert j.fields[p[0] := Put(c, p[1..], v)][p[0] := Put(c, p[1..], w)] == j.fields[p[0] := Put(c, p[1..], w)];
      }
    }
  }

  lemma {:induction false} PutSame(j: Json, p: Pointer)
    requires At(j, p).Success?
    ensures Put(j, p, At(j, p).value) == j
    decreases |p|
  {
    if p != [] { PutSame(Child(j, p[0]).value, p[1..]); }
  }

  /** Two pointers that part at some token, so that neither is inside the other. */
  predicate Apart(p: Pointer, q: Pointer) {
    p != [] && q != [] && (p[0] != q[0] || Apart(p[1..], q[1..]))
  }

  /** Assigning through one pointer changes nothing at a pointer apart from it. */
  lemma {:induction false} AtPutApart(j: Json, p: Pointer, q: Pointer, v: Json)
    requires At(j, p).Success? && Apart(p, q)
    ensures At(Put(j, p, v), q) == At(j, q)
    decreases |p|
  {
    var c := Child(j, p[0]).value;
    if p[0] == q[0] {
      AtPutApart(c, p[1..], q[1..], v);
    } else {
      ChildSetApart(j, p[0], q[0], Put(c, p[1..], v));
    }
  }

  lemma ChildSetApart(j: Json, a: string, b: string, v: Json)
    requires Child(j, a).Success? && a != b
    ensures Child(SetChild(j, a, v), b) == Child(j, b)
  {
    if j.Arr? && ArrayIndex(b).Success? && ArrayIndex(a) == ArrayIndex(b) {
      ArrayIndexInjective(a, b);
    }
  }
}
