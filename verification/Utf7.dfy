/** Modified UTF-7 of mailbox names (section 5.1.3 of RFC 3501). */
module Utf7 {
  import opened Prelude

  const NO_RANK: nat := 255

  /** A sixteen-bit unit. */
  type Unit = u: int | 0 <= u < 0x1_0000

  /** The 64 digits, in order. */
  function Digit(i: nat): (c: char)
    requires i < 64
    ensures 0x2b <= c as int <= 0x7a && c != '-' && c != '&'
  {
    if i < 26 then (65 + i) as char
    else if i < 52 then (97 + (i - 26)) as char
    else if i < 62 then (48 + (i - 52)) as char
    else if i == 62 then '+'
    else ','
  }

  function Rank(c: char): nat {
    var n := c as int;
    if 65 <= n <= 90 then n - 65
    else if 97 <= n <= 122 then n - 97 + 26
    else if 48 <= n <= 57 then n - 48 + 52
    else if c == '+' then 62
    else if c == ',' then 63
    else NO_RANK
  }

  lemma RankInvertsDigit(c: char)
    ensures forall i: nat | i < 64 :: Rank(Digit(i)) == i
    ensures Rank(c) != NO_RANK ==> Rank(c) < 64 && Digit(Rank(c)) == c
  {
  }

  function Low16(c: char): Unit {
    c as int % 0x1_0000
  }

  predicate IsPrintable(unit: nat) {
    0x20 <= unit < 0x7f
  }

  // ---- Encoding ----

  /** Outside a base-64 run, or inside with some bits collected and not yet used. */
  datatype Run = Off | On(bits: nat, acc: nat)

  /** The encoder holds the last zero, two or four bits of the last unit. */
  predicate ValidRun(r: Run) {
    r.On? ==> (r.bits == 0 && r.acc == 0) || (r.bits == 2 && r.acc < 4) || (r.bits == 4 && r.acc < 16)
  }

  /** The pending bits padded to a digit, and the end mark. */
  function CloseRun(r: Run): string
    requires ValidRun(r)
  {
    if r.Off? then []
    else (if r.bits == 2 then [Digit(r.acc * 16)] else if r.bits == 4 then [Digit(r.acc * 4)] else []) + "-"
  }

  /** The digits a unit completes. */
  function DigitsOf(r: Run, x: Unit): string
    requires ValidRun(r)
  {
    if r.Off? || r.bits == 0 then [Digit(x / 1024), Digit(x / 16 % 64)]
    else if r.bits == 4 then [Digit(r.acc * 4 + x / 16384), Digit(x / 256 % 64), Digit(x / 4 % 64)]
    else [Digit(r.acc * 16 + x / 4096), Digit(x / 64 % 64), Digit(x % 64)]
  }

  /** The bits of a unit that are left pending. */
  function Pending(r: Run, x: Unit): (s: Run)
    requires ValidRun(r)
    ensures ValidRun(s) && s.On?
  {
    if r.Off? || r.bits == 0 then On(4, x % 16) else if r.bits == 4 then On(2, x % 4) else On(0, 0)
  }

  function EncodeFrom(text: string, r: Run): string
    requires ValidRun(r)
    decreases |text|
  {
    if text == [] then CloseRun(r)
    else
      var c, x := text[0], Low16(text[0]);
      if IsPrintable(x) then
        CloseRun(r) + (if x == 0x26 then "&-" else [c]) + EncodeFrom(text[1..], Off)
      else
        (if r.Off? then "&" else "") + DigitsOf(r, x) + EncodeFrom(text[1..], Pending(r, x))
  }

  function Encode(text: string): string {
    EncodeFrom(text, Off)
  }

  // ---- Decoding ----

  /** The bits below a complete unit. */
  function Below(bits: nat): nat {
    if bits == 16 then 1 else if bits == 18 then 4 else 16
  }

  /** The decoder holds fewer than sixteen bits, an even number of them. */
  predicate ValidPart(r: Run) {
    r.On? ==> r.bits < 16 && r.bits % 2 == 0 && r.acc < Span(r.bits)
  }

  /** Two to the number of bits held. */
  function Span(bits: nat): nat {
    match bits
    case 0 => 1
    case 2 => 4
    case 4 => 16
    case 6 => 64
    case 8 => 256
    case 10 => 1024
    case 12 => 4096
    case _ => 16384
  }

  /** One digit inside a run: a unit when sixteen bits are complete. */
  function TakeDigit(r: Run, rank: nat): (s: (seq<Unit>, Run))
    requires r.On? && ValidPart(r) && rank < 64
    ensures ValidPart(s.1) && s.1.On?
  {
    var bits, acc := r.bits + 6, r.acc * 64 + rank;
    if bits < 16 then ([], On(bits, acc)) else ([acc / Below(bits)], On(bits - 16, acc % Below(bits)))
  }

  function DecodeUnits(text: string, r: Run): Option<seq<Unit>>
    requires ValidPart(r)
    decreases |text|
  {
    if text == [] then Some([])
    else if r.On? then
      if text[0] == '-' then DecodeUnits(text[1..], Off)
      else if Rank(text[0]) == NO_RANK then None
      else
        RankInvertsDigit(text[0]);
        var (units, next) := TakeDigit(r, Rank(text[0]));
        Then(units, DecodeUnits(text[1..], next))
    else if text[0] == '&' && |text| > 1 then
      if text[1] == '-' then Then([0x26], DecodeUnits(text[2..], Off))
      else DecodeUnits(text[1..], On(0, 0))
    else Then([Low16(text[0])], DecodeUnits(text[1..], Off))
  }

  function Then(units: seq<Unit>, rest: Option<seq<Unit>>): Option<seq<Unit>> {
    if rest.None? then None else Some(units + rest.value)
  }

  predicate IsSurrogate(u: Unit) {
    0xd800 <= u < 0xe000
  }

  /** Sixteen-bit units as text; an unpaired surrogate is an error. */
  function FromUtf16(units: seq<Unit>): Option<string>
    decreases |units|
  {
    if units == [] then Some([])
    else if !IsSurrogate(units[0]) then
      var rest := FromUtf16(units[1..]);
      if rest.None? then None else Some([units[0] as char] + rest.value)
    else if units[0] < 0xdc00 && |units| > 1 && 0xdc00 <= units[1] < 0xe000 then
      var rest := FromUtf16(units[2..]);
      var hi: int, lo: int := units[0], units[1];
      var n := 0x1_0000 + (hi - 0xd800) * 0x400 + (lo - 0xdc00);
      if rest.None? then None else Some([n as char] + rest.value)
    else None
  }

  function Decode(text: string): Option<string> {
    var units := DecodeUnits(text, Off);
    if units.None? then None else FromUtf16(units.value)
  }

  // ---- Round trip on units ----

  function Units(text: string): seq<Unit> {
    seq(|text|, i requires 0 <= i < |text| => Low16(text[i]))
  }

  /** The state of the decoder when the encoder is in state `r` after the unit `last`:
      it has all bits of that unit but the pending ones. */
  function Counterpart(r: Run, last: Unit): Run
    requires ValidRun(r)
  {
    if r.Off? then Off
    else if r.bits == 0 then On(0, 0)
    else if r.bits == 2 then On(14, last / 4)
    else On(12, last / 16)
  }

  /** The pending bits are those of the unit `last`. */
  predicate Holds(r: Run, last: Unit) {
    ValidRun(r) && (r.On? && r.bits == 2 ==> r.acc == last % 4) && (r.On? && r.bits == 4 ==> r.acc == last % 16)
  }

  /** The unit still to come out of the decoder. */
  function Owed(r: Run, last: Unit): seq<Unit> {
    if r.On? && r.bits > 0 then [last] else []
  }

  lemma DecodeDigit(i: nat, rest: string, r: Run)
    requires r.On? && ValidPart(r) && i < 64
    ensures DecodeUnits([Digit(i)] + rest, r) == Then(TakeDigit(r, i).0, DecodeUnits(rest, TakeDigit(r, i).1))
  {
    RankInvertsDigit(Digit(i));
    assert ([Digit(i)] + rest)[1..] == rest;
  }

  lemma ThenThen(a: seq<Unit>, b: seq<Unit>, rest: Option<seq<Unit>>)
    ensures Then(a, Then(b, rest)) == Then(a + b, rest)
  {
    if rest.Some? { assert a + (b + rest.value) == a + b + rest.value; }
  }

  lemma ThenNothing(rest: Option<seq<Unit>>)
    ensures Then([], rest) == rest
  {
    if rest.Some? { assert [] + rest.value == rest.value; }
  }

  /** The decoder over three digits in a row. */
  lemma DecodeThree(a: nat, b: nat, c: nat, rest: string, r: Run)
    requires r.On? && ValidPart(r) && a < 64 && b < 64 && c < 64
    ensures var ta := TakeDigit(r, a); var tb := TakeDigit(ta.1, b); var tc := TakeDigit(tb.1, c);
            DecodeUnits([Digit(a), Digit(b), Digit(c)] + rest, r) == Then(ta.0 + tb.0 + tc.0, DecodeUnits(rest, tc.1))
  {
    var ta := TakeDigit(r, a);
    var tb := TakeDigit(ta.1, b);
    var tc := TakeDigit(tb.1, c);
    hide DecodeUnits, TakeDigit;
    assert [Digit(a), Digit(b), Digit(c)] + rest == [Digit(a)] + ([Digit(b)] + ([Digit(c)] + rest));
    DecodeDigit(a, [Digit(b)] + ([Digit(c)] + rest), r);
    DecodeDigit(b, [Digit(c)] + rest, ta.1);
    DecodeDigit(c, rest, tb.1);
    ThenThen(tb.0, tc.0, DecodeUnits(rest, tc.1));
    ThenThen(ta.0, tb.0 + tc.0, DecodeUnits(rest, tc.1));
    assert ta.0 + (tb.0 + tc.0) == ta.0 + tb.0 + tc.0;
  }

  /** With nothing pending: two digits, and the decoder has the unit but four bits. */
  lemma UnitFromZero(x: Unit, rest: string)
    ensures DecodeUnits([Digit(x / 1024), Digit(x / 16 % 64)] + rest, On(0, 0)) == DecodeUnits(rest, On(12, x / 16))
  {
    var d1, d2 := x / 1024, x / 16 % 64;
    assert TakeDigit(On(0, 0), d1) == ([], On(6, d1));
    assert TakeDigit(On(6, d1), d2) == ([], On(12, x / 16));
    hide DecodeUnits, TakeDigit;
    assert [Digit(d1), Digit(d2)] + rest == [Digit(d1)] + ([Digit(d2)] + rest);
    DecodeDigit(d1, [Digit(d2)] + rest, On(0, 0));
    DecodeDigit(d2, rest, On(6, d1));
    ThenNothing(DecodeUnits(rest, On(12, x / 16)));
    ThenNothing(DecodeUnits([Digit(d2)] + rest, On(6, d1)));
  }

  lemma FourthDigits(last: Unit, x: Unit)
    ensures TakeDigit(On(12, last / 16), last % 16 * 4 + x / 16384) == ([last], On(2, x / 16384))
    ensures TakeDigit(On(2, x / 16384), x / 256 % 64) == ([], On(8, x / 256))
    ensures TakeDigit(On(8, x / 256), x / 4 % 64) == ([], On(14, x / 4))
  {
    var acc := last / 16 * 64 + (last % 16 * 4 + x / 16384);
    assert acc / 4 == last && acc % 4 == x / 16384;
  }

  /** With four bits pending: three digits, the owed unit comes out, two bits are left. */
  lemma UnitFromFour(last: Unit, x: Unit, rest: string)
    ensures DecodeUnits(DigitsOf(On(4, last % 16), x) + rest, On(12, last / 16))
         == Then([last], DecodeUnits(rest, On(14, x / 4)))
  {
    var d1, d2, d3 := last % 16 * 4 + x / 16384, x / 256 % 64, x / 4 % 64;
    var top := x / 16384;
    FourthDigits(last, x);
    hide DecodeUnits, TakeDigit;
    DecodeThree(d1, d2, d3, rest, On(12, last / 16));
    assert [last] + [] + [] == [last];
  }

  /** With two bits pending: three digits, the owed unit and this one come out. */
  lemma UnitFromTwo(last: Unit, x: Unit, rest: string)
    ensures DecodeUnits(DigitsOf(On(2, last % 4), x) + rest, On(14, last / 4))
         == Then([last, x], DecodeUnits(rest, On(0, 0)))
  {
    var d1, d2, d3 := last % 4 * 16 + x / 4096, x / 64 % 64, x % 64;
    var top := x / 4096;
    assert TakeDigit(On(14, last / 4), d1) == ([last], On(4, top)) by {
      var acc := last / 4 * 64 + d1;
      assert acc / 16 == last && acc % 16 == top;
    }
    assert TakeDigit(On(4, top), d2) == ([], On(10, x / 64));
    assert TakeDigit(On(10, x / 64), d3) == ([x], On(0, 0));
    hide DecodeUnits, TakeDigit;
    DecodeThree(d1, d2, d3, rest, On(14, last / 4));
    assert [last] + [] + [x] == [last, x];
  }

  /** Closing a run brings out the owed unit and ends the decoder's run. */
  lemma CloseDecodes(r: Run, last: Unit, rest: string)
    requires Holds(r, last)
    ensures DecodeUnits(CloseRun(r) + rest, Counterpart(r, last)) == Then(Owed(r, last), DecodeUnits(rest, Off))
  {
    ThenNothing(DecodeUnits(rest, Off));
    forall part: Run | part.On? && ValidPart(part) ensures DecodeUnits("-" + rest, part) == DecodeUnits(rest, Off) {
      assert ("-" + rest)[1..] == rest;
    }
    hide DecodeUnits;
    if r.Off? {
      assert [] + rest == rest;
    } else if r.bits == 0 {
      assert CloseRun(r) + rest == "-" + rest;
    } else {
      var d := if r.bits == 2 then r.acc * 16 else r.acc * 4;
      CloseDigit(r, d, rest);
      hide CloseRun, Digit;
      var part := Counterpart(r, last);
      DecodeDigit(d, "-" + rest, part);
      PaddedDigit(r, last, d);
    }
  }

  lemma CloseDigit(r: Run, d: nat, rest: string)
    requires ValidRun(r) && r.On? && ((r.bits == 2 && d == r.acc * 16) || (r.bits == 4 && d == r.acc * 4))
    ensures CloseRun(r) + rest == [Digit(d)] + ("-" + rest)
  {
  }

  lemma PaddedDigit(r: Run, last: Unit, d: nat)
    requires Holds(r, last) && r.On? && ((r.bits == 2 && d == r.acc * 16) || (r.bits == 4 && d == r.acc * 4))
    ensures TakeDigit(Counterpart(r, last), d).0 == [last]
  {
    if r.bits == 2 {
      assert (last / 4 * 64 + last % 4 * 16) / 16 == last;
    } else {
      assert (last / 16 * 64 + last % 16 * 4) / 4 == last;
    }
  }

  /** A unit added to a run: the decoder keeps pace. */
  lemma AddDecodes(r: Run, last: Unit, x: Unit, rest: string, tail: Option<seq<Unit>>)
    requires Holds(r, last) && r.On?
    requires DecodeUnits(rest, Counterpart(Pending(r, x), x)) == Then(Owed(Pending(r, x), x), tail)
    ensures DecodeUnits(DigitsOf(r, x) + rest, Counterpart(r, last)) == Then(Owed(r, last) + [x], tail)
  {
    hide DecodeUnits;
    if r.bits == 0 {
      UnitFromZero(x, rest);
      assert [] + [x] == [x];
    } else if r.bits == 4 {
      UnitFromFour(last, x, rest);
      ThenThen([last], [x], tail);
    } else {
      UnitFromTwo(last, x, rest);
      ThenNothing(tail);
      assert [last] + [x] == [last, x];
    }
  }

  lemma UnitsCons(text: string)
    requires text != []
    ensures Units(text) == [Low16(text[0])] + Units(text[1..])
  {
  }

  /** The text of a character that stands for itself. */
  function Literal(c: char): string {
    if Low16(c) == 0x26 then "&-" else [c]
  }

  lemma EncodePrintable(text: string, r: Run)
    requires ValidRun(r) && text != [] && IsPrintable(Low16(text[0]))
    ensures EncodeFrom(text, r) == CloseRun(r) + (Literal(text[0]) + EncodeFrom(text[1..], Off))
  {
    var code := EncodeFrom(text[1..], Off);
    assert CloseRun(r) + Literal(text[0]) + code == CloseRun(r) + (Literal(text[0]) + code);
  }

  lemma DecodeLiteral(c: char, code: string)
    ensures DecodeUnits(Literal(c) + code, Off) == Then([Low16(c)], DecodeUnits(code, Off))
  {
    var mid := Literal(c) + code;
    if Low16(c) == 0x26 { assert mid[2..] == code; } else { assert mid[1..] == code; }
  }

  lemma EncodeOther(text: string, r: Run)
    requires ValidRun(r) && text != [] && !IsPrintable(Low16(text[0]))
    ensures var x := Low16(text[0]);
            EncodeFrom(text, r)
              == (if r.Off? then "&" else "") + (DigitsOf(r, x) + EncodeFrom(text[1..], Pending(r, x)))
  {
    var x := Low16(text[0]);
    var code := EncodeFrom(text[1..], Pending(r, x));
    assert (if r.Off? then "&" else "") + DigitsOf(r, x) + code == (if r.Off? then "&" else "") + (DigitsOf(r, x) + code);
  }

  /** The decoder reads back the sixteen-bit units of any text. */
  lemma {:induction false} UnitsRoundTrip(text: string, r: Run, last: Unit)
    requires Holds(r, last)
    ensures DecodeUnits(EncodeFrom(text, r), Counterpart(r, last)) == Some(Owed(r, last) + Units(text))
    decreases |text|
  {
    if text == [] {
      CloseDecodes(r, last, "");
      assert CloseRun(r) + "" == CloseRun(r) && Units(text) == [];
    } else {
      hide DecodeUnits, EncodeFrom, Units;
      var x, rest := Low16(text[0]), text[1..];
      UnitsCons(text);
      if IsPrintable(x) {
        var mid := Literal(text[0]) + EncodeFrom(rest, Off);
        UnitsRoundTrip(rest, Off, 0);
        assert [] + Units(rest) == Units(rest);
        EncodePrintable(text, r);
        DecodeLiteral(text[0], EncodeFrom(rest, Off));
        CloseDecodes(r, last, mid);
      } else {
        UnitsRoundTrip(rest, Pending(r, x), x);
        EncodeOther(text, r);
        RunDecodes(text, r, last);
      }
    }
  }

  lemma RunDecodes(text: string, r: Run, last: Unit)
    requires Holds(r, last) && text != [] && !IsPrintable(Low16(text[0]))
    requires var x := Low16(text[0]);
             var next := Pending(r, x);
             DecodeUnits(EncodeFrom(text[1..], next), Counterpart(next, x)) == Some(Owed(next, x) + Units(text[1..]))
    ensures var x := Low16(text[0]);
            var code := DigitsOf(r, x) + EncodeFrom(text[1..], Pending(r, x));
            DecodeUnits((if r.Off? then "&" else "") + code, Counterpart(r, last)) == Some(Owed(r, last) + Units(text))
  {
    hide DecodeUnits, EncodeFrom, Units;
    var x, rest, on := Low16(text[0]), text[1..], if r.Off? then On(0, 0) else r;
    var code := EncodeFrom(rest, Pending(r, x));
    UnitsCons(text);
    AddDecodes(on, last, x, code, Some(Units(rest)));
    assert Owed(on, last) + [x] + Units(rest) == Owed(r, last) + Units(text);
    if r.Off? {
      OpenRun(DigitsOf(on, x) + code, x);
    } else {
      assert "" + (DigitsOf(r, x) + code) == DigitsOf(r, x) + code;
    }
  }

  /** An ampersand before a digit opens a run. */
  lemma OpenRun(s: string, x: Unit)
    requires s != [] && s[0] == Digit(x / 1024)
    ensures DecodeUnits("&" + s, Off) == DecodeUnits(s, On(0, 0))
  {
    assert ("&" + s)[1..] == s;
  }

  // ---- Round trip on text ----

  predicate Bmp(c: char) {
    c as int < 0x1_0000
  }

  predicate AllBmp(text: string) {
    forall i | 0 <= i < |text| :: Bmp(text[i])
  }

  /** Units decode to a text of the same length only one for one. */
  lemma {:induction false} SameLength(units: seq<Unit>)
    ensures var t := FromUtf16(units);
            t.Some? ==> |t.value| <= |units| &&
                        (|t.value| == |units| ==> forall i | 0 <= i < |units| :: t.value[i] as int == units[i])
    decreases |units|
  {
    if units != [] {
      SameLength(units[1..]);
      if |units| > 1 { SameLength(units[2..]); }
      var t := FromUtf16(units);
      if t.Some? && !IsSurrogate(units[0]) {
        assert t.value[1..] == FromUtf16(units[1..]).value;
        assert forall i | 1 <= i < |units| :: units[i] == units[1..][i - 1];
      }
    }
  }

  lemma {:induction false} BmpUnits(text: string)
    requires AllBmp(text)
    ensures FromUtf16(Units(text)) == Some(text)
    decreases |text|
  {
    if text != [] {
      assert Bmp(text[0]);
      BmpUnits(text[1..]);
      UnitsCons(text);
      BmpUnit(text[0]);
      hide FromUtf16, Units, IsSurrogate, Low16;
      UnitFirst(Low16(text[0]), Units(text[1..]));
      assert text == [text[0]] + text[1..];
    }
  }

  lemma BmpUnit(c: char)
    requires Bmp(c)
    ensures !IsSurrogate(Low16(c)) && Low16(c) as char == c
  {
  }

  lemma UnitFirst(u: Unit, us: seq<Unit>)
    requires !IsSurrogate(u) && FromUtf16(us).Some?
    ensures FromUtf16([u] + us) == Some([u as char] + FromUtf16(us).value)
  {
    assert ([u] + us)[1..] == us;
  }

  /** A mailbox name survives encoding and decoding exactly when every character is in
      the basic multilingual plane. */
  lemma RoundTripIffBmp(text: string)
    ensures Decode(Encode(text)) == Some(text) <==> AllBmp(text)
  {
    UnitsRoundTrip(text, Off, 0);
    assert [] + Units(text) == Units(text);
    if AllBmp(text) {
      BmpUnits(text);
    } else {
      SameLength(Units(text));
      var i :| 0 <= i < |text| && !Bmp(text[i]);
      assert text[i] as int != Units(text)[i];
    }
  }

  /** A smiling face comes back as another character. */
  lemma FaceLost()
    ensures Decode(Encode("\U{1F600}")) == Some("\U{F600}")
  {
    var text := "\U{1F600}";
    var u: Unit := 0xf600;
    assert FromUtf16([u]) == Some([u as char]) by {
      UnitFirst(u, []);
      assert [u] + [] == [u] && [u as char] + [] == [u as char];
    }
    assert u as char == '\U{F600}' && Low16(text[0]) == u;
    assert [] + Units(text) == [u];
    hide EncodeFrom, DecodeUnits, FromUtf16;
    UnitsRoundTrip(text, Off, 0);
  }

  predicate Ascii(s: string) {
    forall i | 0 <= i < |s| :: IsPrintable(s[i] as int)
  }

  lemma AsciiConcat(a: string, b: string)
    ensures Ascii(a + b) <==> Ascii(a) && Ascii(b)
  {
    if Ascii(a + b) {
      assert forall i | 0 <= i < |a| :: (a + b)[i] == a[i];
      assert forall i | 0 <= i < |b| :: (a + b)[|a| + i] == b[i];
    }
  }

  /** The character is not passed through as it is, or is ASCII itself. */
  predicate StaysAscii(c: char) {
    Bmp(c) || !IsPrintable(Low16(c)) || Low16(c) == 0x26
  }

  lemma LiteralAscii(c: char)
    requires IsPrintable(Low16(c))
    ensures Ascii(Literal(c)) <==> StaysAscii(c)
  {
    if Low16(c) != 0x26 { assert Literal(c)[0] == c; }
  }

  lemma PartsAscii(r: Run, x: Unit)
    requires ValidRun(r)
    ensures Ascii(CloseRun(r)) && Ascii(DigitsOf(r, x))
  {
  }

  /** The encoding is printable ASCII exactly when no character outside the basic multilingual
      plane looks printable, other than the ampersand, in its low sixteen bits. */
  lemma {:induction false} EncodedAscii(text: string, r: Run)
    requires ValidRun(r)
    ensures Ascii(EncodeFrom(text, r)) <==> forall c <- text :: StaysAscii(c)
    decreases |text|
  {
    PartsAscii(r, if text == [] then 0 else Low16(text[0]));
    if text != [] {
      var c, rest, x := text[0], text[1..], Low16(text[0]);
      assert text == [c] + rest;
      LiteralAsciiIf(c);
      hide EncodeFrom, Digit, CloseRun, DigitsOf, StaysAscii, Ascii, Literal;
      if IsPrintable(x) {
        EncodedAscii(rest, Off);
        EncodePrintable(text, r);
        AsciiConcat(Literal(c), EncodeFrom(rest, Off));
        AsciiConcat(CloseRun(r), Literal(c) + EncodeFrom(rest, Off));
      } else {
        EncodedAscii(rest, Pending(r, x));
        EncodeOther(text, r);
        AsciiConcat(DigitsOf(r, x), EncodeFrom(rest, Pending(r, x)));
        AsciiConcat(if r.Off? then "&" else "", DigitsOf(r, x) + EncodeFrom(rest, Pending(r, x)));
      }
    }
  }

  /** A character above the plane whose low bits are those of the letter A is passed through. */
  lemma LetterLookalike()
    ensures !Ascii(Encode("\U{10041}"))
  {
    var text := "\U{10041}";
    assert text[0] in text && !StaysAscii(text[0]);
    EncodedAscii(text, Off);
  }

  lemma LiteralAsciiIf(c: char)
    ensures if IsPrintable(Low16(c)) then Ascii(Literal(c)) <==> StaysAscii(c) else StaysAscii(c)
    ensures Ascii("&") && Ascii("")
  {
    if IsPrintable(Low16(c)) { LiteralAscii(c); }
  }

  // ---- The loops ----

  /** Arithmetic of the accumulators is modulo this. */
  const U32: nat := 0x1_0000_0000

  /** What the encoder's variables stand for. */
  function RunOf(shifted: bool, bits: nat, u: nat): Run {
    if shifted then On(bits, u % Span(bits)) else Off
  }

  /** Each digit the inner loop shifts out is the one the unit completes. */
  lemma DigitAt(u: nat, b: nat, k: nat)
    requires (b == 0 || b == 2 || b == 4) && k < (b + 16) / 6
    ensures var r := On(b, u / 0x1_0000 % Span(b));
            ValidRun(r) && k < |DigitsOf(r, u % 0x1_0000)| == (b + 16) / 6 &&
            Digit(u / Span(b + 16 - 6 * (k + 1)) % 64) == DigitsOf(r, u % 0x1_0000)[k]
  {
    hide Digit;
    var q, x := u / 0x1_0000, u % 0x1_0000;
    if b == 0 {
      ShiftsFromZero(q, x);
    } else if b == 4 {
      ShiftsFromFour(q / 16, q % 16, x);
    } else {
      ShiftsFromTwo(q / 4, q % 4, x);
    }
  }

  lemma Distributes(d: int, p: int, k: int)
    ensures d * (p + k) == d * p + d * k
  {
  }

  lemma AtLeast(d: int, k: int)
    requires d > 0
    ensures k >= 1 ==> d * k >= d
    ensures k <= -1 ==> d * k <= -d
  {
  }

  /** Quotient and remainder are determined by the division equation. */
  lemma Divides(a: int, d: int, q: int, r: int)
    requires d > 0 && 0 <= r < d && a == d * q + r
    ensures a / d == q && a % d == r
  {
    var p, m := a / d, a % d;
    assert a == d * p + m;
    Distributes(d, p, q - p);
    AtLeast(d, q - p);
  }

  lemma ShiftsFromZero(q: nat, x: Unit)
    ensures var u := q * 0x1_0000 + x; u / 1024 % 64 == x / 1024 && u / 16 % 64 == x / 16 % 64
  {
    var u := q * 0x1_0000 + x;
    Divides(u, 1024, 64 * q + x / 1024, x % 1024);
    Divides(u, 16, 64 * (64 * q) + x / 16, x % 16);
    Divides(u / 1024, 64, q, x / 1024);
    Divides(u / 16, 64, 64 * q + x / 16 / 64, x / 16 % 64);
  }

  lemma ShiftsFromFour(q: nat, w: nat, x: Unit)
    requires w < 16
    ensures var u := (q * 16 + w) * 0x1_0000 + x;
            u / 16384 % 64 == w * 4 + x / 16384 && u / 256 % 64 == x / 256 % 64 && u / 4 % 64 == x / 4 % 64
  {
    var u := (q * 16 + w) * 0x1_0000 + x;
    Divides(u, 16384, 64 * q + (w * 4 + x / 16384), x % 16384);
    Divides(u, 256, 64 * (64 * q + 4 * w) + x / 256, x % 256);
    Divides(u, 4, 64 * (4096 * q + 256 * w) + x / 4, x % 4);
    Divides(u / 16384, 64, q, w * 4 + x / 16384);
    Divides(u / 256, 64, 64 * q + 4 * w + x / 256 / 64, x / 256 % 64);
    Divides(u / 4, 64, 4096 * q + 256 * w + x / 4 / 64, x / 4 % 64);
  }

  lemma ShiftsFromTwo(q: nat, w: nat, x: Unit)
    requires w < 4
    ensures var u := (q * 4 + w) * 0x1_0000 + x;
            u / 4096 % 64 == w * 16 + x / 4096 && u / 64 % 64 == x / 64 % 64 && u % 64 == x % 64
  {
    var u := (q * 4 + w) * 0x1_0000 + x;
    Divides(u, 4096, 64 * q + (w * 16 + x / 4096), x % 4096);
    Divides(u, 64, 64 * (64 * q + 16 * w) + x / 64, x % 64);
    Divides(u / 4096, 64, q, w * 16 + x / 4096);
    Divides(u / 64, 64, 64 * q + 16 * w + x / 64 / 64, x / 64 % 64);
  }

  /** The inner loop: whole digits from the top of the accumulator. */
  method TakeDigits(u: nat, total: nat) returns (out: string, bits: nat)
    requires total == 16 || total == 18 || total == 20
    ensures bits == total % 6
    ensures var r := On(total - 16, u / 0x1_0000 % Span(total - 16));
            ValidRun(r) && out == DigitsOf(r, u % 0x1_0000)
  {
    DigitAt(u, total - 16, 0);
    ghost var digits := DigitsOf(On(total - 16, u / 0x1_0000 % Span(total - 16)), u % 0x1_0000);
    hide Digit, DigitsOf;
    out, bits := "", total;
    while bits >= 6
      invariant bits <= total && bits == total - 6 * |out| && |out| <= total / 6 == |digits|
      invariant out == digits[..|out|]
    {
      DigitAt(u, total - 16, |out|);
      out := out + [Digit(u / Span(bits - 6) % 64)];
      bits := bits - 6;
    }
  }

  lemma ShiftIn(shifted: bool, bits: nat, u: nat, x: Unit)
    requires ValidRun(RunOf(shifted, bits, u)) && (!shifted ==> bits == 0) && u < U32
    ensures var v := (u * 0x1_0000 + x) % U32;
            && v % 0x1_0000 == x && v / 0x1_0000 % Span(bits) == u % Span(bits)
            && Pending(RunOf(true, bits, u), x) == RunOf(true, (bits + 16) % 6, v)
  {
    var h, l := u / 0x1_0000, u % 0x1_0000;
    var v := (u * 0x1_0000 + x) % U32;
    Divides(u * 0x1_0000 + x, U32, h, l * 0x1_0000 + x);
    Divides(v, 0x1_0000, l, x);
    Divides(u, 4, h * 16384 + l / 4, l % 4);
    Divides(u, 16, h * 4096 + l / 16, l % 16);
    Divides(v, 4, l * 16384 + x / 4, x % 4);
    Divides(v, 16, l * 4096 + x / 16, x % 16);
  }

  /** The end of a base-64 run: the pending bits, padded, and the end mark. */
  method FinishRun(shifted: bool, bits: nat, u: nat) returns (out: string)
    requires ValidRun(RunOf(shifted, bits, u)) && (shifted ==> bits == 0 || bits == 2 || bits == 4)
    ensures out == CloseRun(RunOf(shifted, bits, u))
  {
    out := "";
    if shifted {
      if bits > 0 {
        PadBits(bits, u);
        out := out + [Digit(u * Span(6 - bits) % U32 % 64)];
      }
      out := out + "-";
    }
  }

  lemma PadBits(bits: nat, u: nat)
    requires bits == 2 || bits == 4
    ensures u * Span(6 - bits) % U32 % 64 == u % Span(bits) * Span(6 - bits)
  {
    var s := u * Span(6 - bits);
    var j, w := s / U32, s % U32;
    assert s == U32 * j + w;
    if bits == 2 {
      Divides(w, 64, u / 4 - j * 0x400_0000, u % 4 * 16);
    } else {
      Divides(w, 64, u / 16 - j * 0x400_0000, u % 16 * 4);
    }
  }

  method EncodeText(text: string) returns (result: string)
    ensures result == Encode(text)
  {
    result := "";
    var shifted := false;
    var bits: nat, u: nat := 0, 0;
    assert text[0..] == text;
    for i := 0 to |text|
      invariant u < U32 && (!shifted ==> bits == 0) && (bits == 0 || bits == 2 || bits == 4)
      invariant ValidRun(RunOf(shifted, bits, u))
      invariant result + EncodeFrom(text[i..], RunOf(shifted, bits, u)) == Encode(text)
    {
      hide EncodeFrom, Digit, CloseRun, DigitsOf;
      var x := Low16(text[i]);
      ghost var r, rest, before := RunOf(shifted, bits, u), text[i..], result;
      assert rest[0] == text[i] && rest[1..] == text[i + 1..];
      if IsPrintable(x) {
        EncodePrintable(rest, r);
        var close := FinishRun(shifted, bits, u);
        shifted, bits := false, 0;
        result := result + close + if x == 0x26 then "&-" else [text[i]];
        FlattenFour(before, close, Literal(text[i]), EncodeFrom(text[i + 1..], Off));
      } else {
        EncodeOther(rest, r);
        ShiftIn(shifted, bits, u, x);
        SameDigits(r, x);
        var mark := if shifted then "" else "&";
        shifted := true;
        u := (u * 0x1_0000 + x) % U32;
        var digits;
        digits, bits := TakeDigits(u, bits + 16);
        result := result + mark + digits;
        FlattenFour(before, mark, digits, EncodeFrom(text[i + 1..], Pending(r, x)));
      }
    }
    assert text[|text|..] == [];
    var close := FinishRun(shifted, bits, u);
    result := result + close;
  }

  /** Opening a run counts as having nothing pending. */
  lemma SameDigits(r: Run, x: Unit)
    requires ValidRun(r)
    ensures r.Off? ==> DigitsOf(r, x) == DigitsOf(On(0, 0), x) && Pending(r, x) == Pending(On(0, 0), x)
  {
  }

  lemma FlattenFour(a: string, b: string, c: string, d: string)
    ensures a + (b + (c + d)) == a + b + c + d
  {
  }

  lemma TakenDigit(bits: nat, v: nat, rank: nat)
    requires bits < 16 && bits % 2 == 0 && v < U32 && rank < 64
    ensures var t := TakeDigit(On(bits, v % Span(bits)), rank);
            var w := (v * 64 + rank) % U32;
            if bits + 6 < 16 then t == ([], On(bits + 6, w % Span(bits + 6)))
            else t == ([w / Below(bits + 6) % 0x1_0000], On(bits - 10, w % Span(bits - 10)))
  {
    var k, acc := v / Span(bits), v % Span(bits);
    var sum := v * 64 + rank;
    var j, w := sum / U32, sum % U32;
    assert v == k * Span(bits) + acc;
    assert sum == j * U32 + w;
    if bits < 10 {
      CollectBits(bits, k, acc, rank, j, w);
    } else {
      CompleteUnit(bits, k, acc, rank, j, w);
    }
  }

  lemma CollectBits(bits: nat, k: nat, acc: nat, rank: nat, j: nat, w: nat)
    requires (bits == 0 || bits == 2 || bits == 4 || bits == 6 || bits == 8) && acc < Span(bits) && rank < 64
    requires (k * Span(bits) + acc) * 64 + rank == j * U32 + w && w < U32
    ensures w % Span(bits + 6) == acc * 64 + rank
  {
    var a := acc * 64 + rank;
    if bits == 0 {
      Divides(w, 64, k - j * 0x400_0000, a);
    } else if bits == 2 {
      Divides(w, 256, k - j * 0x100_0000, a);
    } else if bits == 4 {
      Divides(w, 1024, k - j * 0x40_0000, a);
    } else if bits == 6 {
      Divides(w, 4096, k - j * 0x10_0000, a);
    } else {
      Divides(w, 16384, k - j * 0x4_0000, a);
    }
  }

  lemma CompleteUnit(bits: nat, k: nat, acc: nat, rank: nat, j: nat, w: nat)
    requires (bits == 10 || bits == 12 || bits == 14) && acc < Span(bits) && rank < 64
    requires (k * Span(bits) + acc) * 64 + rank == j * U32 + w && w < U32
    ensures var a, low := acc * 64 + rank, Below(bits + 6);
            w / low % 0x1_0000 == a / low && w % Span(bits - 10) == a % low
  {
    var a := acc * 64 + rank;
    if bits == 10 {
      Divides(w, 0x1_0000, k - j * 0x1_0000, a);
    } else if bits == 12 {
      var m := k - j * 0x4000;
      Divides(w, 4, 0x1_0000 * m + a / 4, a % 4);
      Divides(w / 4, 0x1_0000, m, a / 4);
    } else {
      var m := k - j * 0x1000;
      Divides(w, 16, 0x1_0000 * m + a / 16, a % 16);
      Divides(w / 16, 0x1_0000, m, a / 16);
    }
  }

  /** The decoding loop up to the sixteen-bit units. */
  method DecodeText(text: string) returns (r: Option<string>)
    ensures r == Decode(text)
  {
    hide Rank, Digit;
    var units: seq<Unit>, shifted := [], false;
    var bits: nat, v: nat, i: nat := 0, 0, 0;
    assert text[0..] == text;
    ThenNothing(DecodeUnits(text, Off));
    while i < |text|
      invariant 0 <= i <= |text| && v < U32 && bits < 16 && bits % 2 == 0 && (!shifted ==> bits == 0 && v == 0)
      invariant ValidPart(RunOf(shifted, bits, v))
      invariant Then(units, DecodeUnits(text[i..], RunOf(shifted, bits, v))) == DecodeUnits(text, Off)
    {
      ghost var rest, before := text[i..], units;
      var c := text[i];
      assert rest[0] == c && rest[1..] == text[i + 1..];
      i := i + 1;
      if shifted {
        if c == '-' {
          shifted, bits, v := false, 0, 0;
        } else {
          var rank := Rank(c);
          if rank == NO_RANK {
            return None;
          }
          RankInvertsDigit(c);
          TakenDigit(bits, v, rank);
          v := (v * 64 + rank) % U32;
          bits := bits + 6;
          if bits >= 16 {
            var unit: Unit := v / Below(bits) % 0x1_0000;
            ThenThen(units, [unit], DecodeUnits(text[i..], On(bits - 16, v % Span(bits - 16))));
            units := units + [unit];
            bits := bits - 16;
          } else {
            ThenThen(units, [], DecodeUnits(text[i..], On(bits, v % Span(bits))));
            assert units + [] == units;
          }
        }
      } else if c == '&' && i < |text| {
        if text[i] == '-' {
          assert rest[2..] == text[i + 1..];
          ThenThen(units, [0x26], DecodeUnits(text[i + 1..], Off));
          units := units + [0x26];
          i := i + 1;
        } else {
          shifted := true;
        }
      } else {
        ThenThen(units, [Low16(c)], DecodeUnits(text[i..], Off));
        units := units + [Low16(c)];
      }
    }
    assert text[i..] == [] && units + [] == units;
    r := FromUtf16(units);
  }
}
