/** The base-64 runs of modified UTF-7, bit by bit. */
module Utf7Digits {
  import opened Prelude
  import opened Utf7

  /** The alphabet, eight digits to a row. */
  function Row(n: nat): (row: string)
    requires n < 8
    ensures |row| == 8
  {
    match n
    case 0 => "ABCDEFGH"
    case 1 => "IJKLMNOP"
    case 2 => "QRSTUVWX"
    case 3 => "YZabcdef"
    case 4 => "ghijklmn"
    case 5 => "opqrstuv"
    case 6 => "wxyz0123"
    case _ => "456789+,"
  }

  function Letter(i: nat): char
    requires i < 64
  {
    Row(i / 8)[i % 8]
  }

  lemma DigitIsLetter(i: nat)
    requires i < 64
    ensures Digit(i) == Letter(i)
  {
    var n, k := i / 8, i % 8;
    assert i == 8 * n + k;
    if n < 4 { LowLetter(n, k); } else { HighLetter(n, k); }
  }

  lemma LowLetter(n: nat, k: nat)
    requires n < 4 && k < 8
    ensures Digit(8 * n + k) == Row(n)[k]
  {
  }

  lemma HighLetter(n: nat, k: nat)
    requires 4 <= n < 8 && k < 8
    ensures Digit(8 * n + k) == Row(n)[k]
  {
  }

  // ---- Bits ----

  type Bit = b: nat | b < 2

  function Pow2(w: nat): (p: nat)
    ensures p > 0
  {
    if w == 0 then 1 else 2 * Pow2(w - 1)
  }

  /** The last bits of a number, most significant first. */
  function Bits(n: nat, w: nat): (bs: seq<Bit>)
    ensures |bs| == w
  {
    if w == 0 then [] else Bits(n / 2, w - 1) + [n % 2]
  }

  function Number(bs: seq<Bit>): (n: nat)
    ensures n < Pow2(|bs|)
  {
    if bs == [] then 0 else 2 * Number(bs[..|bs| - 1]) + bs[|bs| - 1]
  }

  lemma {:induction false} NumberOfBits(n: nat, w: nat)
    requires n < Pow2(w)
    ensures Number(Bits(n, w)) == n
    decreases w
  {
    if w > 0 {
      NumberOfBits(n / 2, w - 1);
      assert Bits(n, w)[..w - 1] == Bits(n / 2, w - 1);
    }
  }

  lemma {:induction false} SplitBits(n: nat, high: nat, m: nat, low: nat)
    requires m < Pow2(low)
    ensures Bits(n * Pow2(low) + m, high + low) == Bits(n, high) + Bits(m, low)
    decreases low
  {
    if low == 0 {
      assert Bits(n, high) + [] == Bits(n, high);
    } else {
      var x, p := n * Pow2(low) + m, Pow2(low - 1);
      Halves(n, p, m);
      SplitBits(n, high, m / 2, low - 1);
      Associate(Bits(n, high), Bits(m / 2, low - 1), [m % 2]);
    }
  }

  lemma Halves(n: nat, p: nat, m: nat)
    ensures (n * (2 * p) + m) / 2 == n * p + m / 2 && (n * (2 * p) + m) % 2 == m % 2
  {
    var q := n * p;
    assert n * (2 * p) == 2 * q;
  }

  /** Six bits to a letter. */
  function Sextet(bs: seq<Bit>): char
    requires |bs| == 6
  {
    assert Pow2(6) == 64;
    Letter(Number(bs))
  }

  /** The last bits are padded with zeros. */
  function Groups(bs: seq<Bit>): string {
    if bs == [] then []
    else if |bs| < 6 then [Sextet(bs + seq(6 - |bs|, _ => 0))]
    else [Sextet(bs[..6])] + Groups(bs[6..])
  }

  function AllBits(units: seq<Unit>): seq<Bit> {
    if units == [] then [] else Bits(units[0], 16) + AllBits(units[1..])
  }

  // ---- The encoding, run by run ----

  /** The low sixteen bits are those of a printable ASCII character. */
  predicate Plain(c: char) {
    0x20 <= c as int % 0x1_0000 <= 0x7e
  }

  /** The number of characters before the next printable one. */
  function Others(text: string): (n: nat)
    ensures n <= |text| && (n < |text| ==> Plain(text[n]))
    ensures forall i | 0 <= i < n :: !Plain(text[i])
  {
    if text == [] || Plain(text[0]) then 0 else 1 + Others(text[1..])
  }

  /** Printable characters as they are, an ampersand with a dash, and all others in runs: the bits
      of their units in groups of six between an ampersand and a dash. */
  function Spelled(text: string): string
    decreases |text|
  {
    if text == [] then []
    else if text[0] as int % 0x1_0000 == 0x26 then "&-" + Spelled(text[1..])
    else if Plain(text[0]) then [text[0]] + Spelled(text[1..])
    else
      var n := Others(text);
      "&" + (Groups(AllBits(Units(text[..n]))) + ("-" + Spelled(text[n..])))
  }

  /** The bits that the encoder holds back. */
  function Held(r: Run): seq<Bit>
    requires ValidRun(r)
  {
    if r.Off? then [] else Bits(r.acc, r.bits)
  }

  lemma SextetOf(d: nat, tail: seq<Bit>)
    requires d < 64
    ensures Groups(Bits(d, 6) + tail) == [Digit(d)] + Groups(tail)
  {
    assert Pow2(6) == 64;
    NumberOfBits(d, 6);
    DigitIsLetter(d);
    hide Number, Letter, Digit, Bits;
    assert (Bits(d, 6) + tail)[..6] == Bits(d, 6) && (Bits(d, 6) + tail)[6..] == tail;
  }

  /** A number cut in two. */
  lemma Cut(n: nat, a: nat, high: nat, m: nat, low: nat, p: nat)
    requires p == Pow2(low) && m < p && n == a * p + m
    ensures Bits(n, high + low) == Bits(a, high) + Bits(m, low)
  {
    SplitBits(a, high, m, low);
  }

  lemma {:induction false} Padded(bs: seq<Bit>, zeros: seq<Bit>)
    requires 0 < |bs| < 6 && |bs| + |zeros| == 6 && forall z <- zeros :: z == 0
    ensures Groups(bs) == Groups(bs + zeros)
  {
    var all, same := bs + zeros, bs + seq(6 - |bs|, _ => 0);
    forall i | 0 <= i < |zeros| ensures zeros[i] == 0 { assert zeros[i] in zeros; }
    assert seq(6 - |bs|, _ => 0) == zeros;
    hide Sextet;
    assert Groups(bs) == [Sextet(same)];
    assert all[..6] == all && all[6..] == [];
  }

  lemma PaddedSextet(acc: nat, w: nat, d: nat)
    requires (w == 2 && acc < 4 && d == acc * 16) || (w == 4 && acc < 16 && d == acc * 4)
    ensures Groups(Bits(acc, w)) == [Digit(d)]
  {
    var zeros := 6 - w;
    Powers();
    assert Groups([]) == [];
    hide Bits, Pow2, Digit, Groups;
    Cut(d, acc, w, 0, zeros, if w == 2 then 16 else 4);
    ZeroBits(zeros);
    Padded(Bits(acc, w), Bits(0, zeros));
    SextetOf(d, []);
    assert Bits(d, 6) + [] == Bits(d, 6);
  }

  lemma {:induction false} ZeroBits(w: nat)
    ensures forall z <- Bits(0, w) :: z == 0
  {
    if w > 0 { ZeroBits(w - 1); }
  }

  lemma CloseSpelled(r: Run)
    requires ValidRun(r) && r.On?
    ensures CloseRun(r) == Groups(Held(r)) + "-"
  {
    if r.bits > 0 { PaddedSextet(r.acc, r.bits, if r.bits == 2 then r.acc * 16 else r.acc * 4); }
  }

  // ---- One unit: two or three digits, and what is held then ----

  lemma FromZero(n: nat, rest: seq<Bit>)
    requires n < 65536
    ensures Groups(Bits(n, 16) + rest) == [Digit(n / 1024), Digit(n / 16 % 64)] + Groups(Bits(n % 16, 4) + rest)
  {
    Powers();
    hide Bits, Pow2, Digit, Groups;
    Cut(n, n / 1024, 6, n % 1024, 10, 1024);
    Cut(n % 1024, n / 16 % 64, 6, n % 16, 4, 16);
    TwoSextets(n / 1024, n / 16 % 64, Bits(n % 16, 4), rest);
  }

  lemma TwoSextets(a: nat, b: nat, last: seq<Bit>, rest: seq<Bit>)
    requires a < 64 && b < 64
    ensures Groups((Bits(a, 6) + (Bits(b, 6) + last)) + rest) == [Digit(a), Digit(b)] + Groups(last + rest)
  {
    hide Bits, Digit, Groups;
    Associate(Bits(a, 6), Bits(b, 6) + last, rest);
    Associate(Bits(b, 6), last, rest);
    SextetOf(a, Bits(b, 6) + (last + rest));
    SextetOf(b, last + rest);
  }

  lemma ThreeSextets(a: nat, b: nat, c: nat, last: seq<Bit>, rest: seq<Bit>)
    requires a < 64 && b < 64 && c < 64
    ensures Groups((Bits(a, 6) + (Bits(b, 6) + (Bits(c, 6) + last))) + rest)
         == [Digit(a), Digit(b), Digit(c)] + Groups(last + rest)
  {
    hide Bits, Digit, Groups;
    TwoSextets(a, b, Bits(c, 6) + last, rest);
    Associate(Bits(c, 6), last, rest);
    SextetOf(c, last + rest);
  }

  lemma FromFour(acc: nat, n: nat, rest: seq<Bit>)
    requires acc < 16 && n < 65536
    ensures Groups((Bits(acc, 4) + Bits(n, 16)) + rest)
         == [Digit(acc * 4 + n / 16384), Digit(n / 256 % 64), Digit(n / 4 % 64)] + Groups(Bits(n % 4, 2) + rest)
  {
    Powers();
    hide Bits, Pow2, Digit, Groups;
    var all := acc * 65536 + n;
    Cut(all, acc, 4, n, 16, 65536);
    Cut(all, acc * 4 + n / 16384, 6, n % 16384, 14, 16384);
    Cut(n % 16384, n / 256 % 64, 6, n % 256, 8, 256);
    Cut(n % 256, n / 4 % 64, 6, n % 4, 2, 4);
    ThreeSextets(acc * 4 + n / 16384, n / 256 % 64, n / 4 % 64, Bits(n % 4, 2), rest);
  }

  lemma FromTwo(acc: nat, n: nat, rest: seq<Bit>)
    requires acc < 4 && n < 65536
    ensures Groups((Bits(acc, 2) + Bits(n, 16)) + rest)
         == [Digit(acc * 16 + n / 4096), Digit(n / 64 % 64), Digit(n % 64)] + Groups(rest)
  {
    Powers();
    hide Bits, Pow2, Digit, Groups;
    var all := acc * 65536 + n;
    Cut(all, acc, 2, n, 16, 65536);
    Cut(all, acc * 16 + n / 4096, 6, n % 4096, 12, 4096);
    Cut(n % 4096, n / 64 % 64, 6, n % 64, 6, 64);
    assert Bits(n % 64, 6) + [] == Bits(n % 64, 6) && [] + rest == rest;
    ThreeSextets(acc * 16 + n / 4096, n / 64 % 64, n % 64, [], rest);
  }

  lemma UnitSpelled(r: Run, x: Unit, rest: seq<Bit>)
    requires ValidRun(r) && r.On?
    ensures Groups(Held(r) + (Bits(x, 16) + rest)) == DigitsOf(r, x) + Groups(Held(Pending(r, x)) + rest)
  {
    var n: nat := x;
    Associate(Held(r), Bits(n, 16), rest);
    if r.bits == 0 {
      assert Held(r) + Bits(n, 16) == Bits(n, 16);
      FromZero(n, rest);
    } else if r.bits == 4 {
      FromFour(r.acc, n, rest);
    } else {
      FromTwo(r.acc, n, rest);
      assert Held(On(0, 0)) + rest == rest;
    }
    hide Groups, Bits, Digit;
  }

  // ---- The whole text ----

  lemma OthersStep(text: string)
    requires text != [] && !IsPrintable(Low16(text[0]))
    ensures var n := Others(text);
            && n == 1 + Others(text[1..]) && text[n..] == text[1..][n - 1..]
            && AllBits(Units(text[..n])) == Bits(Low16(text[0]), 16) + AllBits(Units(text[1..][..n - 1]))
  {
    var n := Others(text);
    UnitsCons(text[..n]);
    assert text[..n][1..] == text[1..][..n - 1];
    var us := Units(text[..n]);
    assert us[1..] == Units(text[1..][..n - 1]);
    hide Bits;
  }

  lemma {:induction false} ClosesFirst(text: string, r: Run)
    requires ValidRun(r) && (text != [] ==> IsPrintable(Low16(text[0])))
    ensures EncodeFrom(text, r) == CloseRun(r) + Encode(text)
  {
    if text == [] {
      assert CloseRun(r) + [] == CloseRun(r);
    } else {
      var more := Literal(text[0]) + EncodeFrom(text[1..], Off);
      EncodePrintable(text, r);
      EncodePrintable(text, Off);
      assert CloseRun(Off) + more == more;
    }
  }

  lemma {:induction false} RunCloses(text: string, r: Run)
    requires ValidRun(r) && r.On? && (text != [] ==> IsPrintable(Low16(text[0])))
    ensures EncodeFrom(text, r) == Groups(Held(r)) + ("-" + Encode(text))
  {
    hide Groups, Held, CloseRun, EncodeFrom, Encode;
    ClosesFirst(text, r);
    CloseSpelled(r);
    Associate(Groups(Held(r)), "-", Encode(text));
  }

  lemma {:induction false} RunSpelled(text: string, r: Run)
    requires ValidRun(r) && r.On?
    ensures var n := Others(text);
            EncodeFrom(text, r) == Groups(Held(r) + AllBits(Units(text[..n]))) + ("-" + Encode(text[n..]))
    decreases |text|
  {
    var n := Others(text);
    if n == 0 {
      RunCloses(text, r);
      assert text[..0] == [] && text[0..] == text && Held(r) + [] == Held(r);
    } else {
      var x, next, k := Low16(text[0]), Pending(r, Low16(text[0])), n - 1;
      var bits := AllBits(Units(text[1..][..k]));
      EncodeOther(text, r);
      OthersStep(text);
      hide Groups, EncodeFrom, Held, Encode, Units, AllBits, Bits, DigitsOf, Pending;
      RunSpelled(text[1..], next);
      UnitSpelled(r, x, bits);
      Associate(DigitsOf(r, x), Groups(Held(next) + bits), "-" + Encode(text[n..]));
      assert "" + (DigitsOf(r, x) + EncodeFrom(text[1..], next)) == DigitsOf(r, x) + EncodeFrom(text[1..], next);
    }
  }

  /** The encoder writes exactly the spelled text. */
  lemma {:induction false} EncodeSpelled(text: string)
    ensures Encode(text) == Spelled(text)
    decreases |text|
  {
    if text != [] {
      if IsPrintable(Low16(text[0])) {
        EncodePrintable(text, Off);
        EncodeSpelled(text[1..]);
        assert CloseRun(Off) + (Literal(text[0]) + Encode(text[1..])) == Literal(text[0]) + Encode(text[1..]);
      } else {
        var n := Others(text);
        EncodeOther(text, Off);
        EncodeOther(text, On(0, 0));
        assert "" + (DigitsOf(On(0, 0), Low16(text[0])) + EncodeFrom(text[1..], Pending(Off, Low16(text[0]))))
            == DigitsOf(Off, Low16(text[0])) + EncodeFrom(text[1..], Pending(Off, Low16(text[0])));
        RunSpelled(text, On(0, 0));
        assert Held(On(0, 0)) + AllBits(Units(text[..n])) == AllBits(Units(text[..n]));
        EncodeSpelled(text[n..]);
      }
    }
  }

  lemma Powers()
    ensures Pow2(2) == 4 && Pow2(4) == 16 && Pow2(6) == 64 && Pow2(8) == 256
    ensures Pow2(10) == 1024 && Pow2(12) == 4096 && Pow2(14) == 16384 && Pow2(16) == 65536
  {
    assert Pow2(2) == 4 && Pow2(4) == 16 && Pow2(6) == 64 && Pow2(8) == 256;
    assert Pow2(10) == 1024 && Pow2(12) == 4096 && Pow2(14) == 16384;
  }

  // ---- Decoding, run by run ----

  /** Where a digit stands in the alphabet. */
  function Find(c: char, from: nat): Option<nat>
    requires from <= 64
    decreases 64 - from
  {
    if from == 64 then None else if Letter(from) == c then Some(from) else Find(c, from + 1)
  }

  lemma {:induction false} FindFirst(c: char, from: nat)
    requires from <= 64
    ensures Find(c, from).Some? ==> from <= Find(c, from).value < 64 && Letter(Find(c, from).value) == c
    ensures Find(c, from).None? ==> forall i | from <= i < 64 :: Letter(i) != c
    decreases 64 - from
  {
    hide Letter;
    if from < 64 { FindFirst(c, from + 1); }
  }

  lemma RankFound(c: char)
    ensures Rank(c) == NO_RANK ==> Find(c, 0) == None
    ensures Rank(c) != NO_RANK ==> Find(c, 0) == Some(Rank(c))
  {
    RankInvertsDigit(c);
    FindFirst(c, 0);
    if Find(c, 0).Some? { DigitIsLetter(Find(c, 0).value); }
    if Rank(c) != NO_RANK { DigitIsLetter(Rank(c)); }
  }

  /** The bits of the digits of a run, if they all are digits. */
  function DigitBits(run: string): Option<seq<Bit>> {
    if run == [] then Some([])
    else
      var first, rest := Find(run[0], 0), DigitBits(run[1..]);
      if first.None? || rest.None? then None else Some(Bits(first.value, 6) + rest.value)
  }

  /** The complete units of sixteen bits. */
  function Whole(bs: seq<Bit>): seq<Unit> {
    if |bs| < 16 then []
    else
      assert Pow2(16) == 0x1_0000 by { Powers(); }
      [Number(bs[..16])] + Whole(bs[16..])
  }

  function RunEnd(text: string): (n: nat)
    ensures n <= |text| && (n < |text| ==> text[n] == '-')
  {
    if text == [] || text[0] == '-' then 0 else 1 + RunEnd(text[1..])
  }

  function AfterRun(text: string): string {
    var n := RunEnd(text);
    if n < |text| then text[n + 1..] else []
  }

  /** An ampersand with a dash, or at the end, is itself; any other begins a run up to the next
      dash or the end, and bits short of a unit are dropped; all other characters are units. */
  function ReadUnits(text: string): Option<seq<Unit>>
    decreases |text|
  {
    if text == [] then Some([])
    else if text[0] != '&' || |text| == 1 then Then([text[0] as int % 0x1_0000], ReadUnits(text[1..]))
    else if text[1] == '-' then Then([0x26], ReadUnits(text[2..]))
    else
      var bits := DigitBits(text[1..][..RunEnd(text[1..])]);
      if bits.None? then None else Then(Whole(bits.value), ReadUnits(AfterRun(text[1..])))
  }

  function Kept(r: Run): seq<Bit>
    requires r.On?
  {
    Bits(r.acc, r.bits)
  }

  lemma JoinBits(r: Run, rank: nat, more: seq<Bit>)
    requires r.On? && rank < 64
    ensures Kept(r) + (Bits(rank, 6) + more) == Bits(r.acc * 64 + rank, r.bits + 6) + more
  {
    Powers();
    hide Bits, Pow2;
    Cut(r.acc * 64 + rank, r.acc, r.bits, rank, 6, 64);
    Associate(Kept(r), Bits(rank, 6), more);
  }

  lemma Filled(r: Run, rank: nat)
    requires r.On? && ValidPart(r) && rank < 64 && r.bits + 6 >= 16
    ensures var bits, acc := r.bits + 6, r.acc * 64 + rank;
            (bits == 16 && acc < 65536) || (bits == 18 && acc < 4 * 65536) || (bits == 20 && acc < 16 * 65536)
  {
  }

  /** One digit: its bits join those kept, and a complete unit is taken off. */
  lemma DigitTaken(r: Run, rank: nat, more: seq<Bit>)
    requires r.On? && ValidPart(r) && rank < 64
    ensures var t := TakeDigit(r, rank); Whole(Kept(r) + (Bits(rank, 6) + more)) == t.0 + Whole(Kept(t.1) + more)
  {
    var bits, acc, t := r.bits + 6, r.acc * 64 + rank, TakeDigit(r, rank);
    if bits >= 16 { Filled(r, rank); }
    hide Bits, Whole, Below, Span;
    JoinBits(r, rank, more);
    if bits < 16 {
      assert [] + Whole(Kept(t.1) + more) == Whole(Kept(t.1) + more);
    } else {
      UnitTaken(acc, bits, more);
    }
  }

  lemma UnitTaken(acc: nat, bits: nat, more: seq<Bit>)
    requires (bits == 16 && acc < 65536) || (bits == 18 && acc < 4 * 65536) || (bits == 20 && acc < 16 * 65536)
    ensures acc / Below(bits) < 65536
    ensures Whole(Bits(acc, bits) + more) == [acc / Below(bits)] + Whole(Bits(acc % Below(bits), bits - 16) + more)
  {
    var p := Below(bits);
    var unit, low := acc / p, acc % p;
    Powers();
    assert Pow2(0) == 1 && unit < 65536;
    hide Bits, Pow2, Number, Whole;
    Cut(acc, unit, 16, low, bits - 16, p);
    NumberOfBits(unit, 16);
    WholeFirst(Bits(unit, 16), Bits(low, bits - 16), more);
  }

  lemma WholeFirst(first: seq<Bit>, low: seq<Bit>, more: seq<Bit>)
    requires |first| == 16
    ensures Number(first) < 65536 && Whole((first + low) + more) == [Number(first)] + Whole(low + more)
  {
    var all := (first + low) + more;
    Powers();
    hide Number;
    assert all[..16] == first && all[16..] == low + more;
  }

  /** The rest of a run after some bits, and what follows it. */
  function RunMeaning(text: string, r: Run): Option<seq<Unit>>
    requires r.On?
  {
    match DigitBits(text[..RunEnd(text)])
    case None => None
    case Some(bits) => Then(Whole(Kept(r) + bits), DecodeUnits(AfterRun(text), Off))
  }

  lemma RunStep(text: string)
    requires text != [] && text[0] != '-'
    ensures AfterRun(text) == AfterRun(text[1..])
    ensures DigitBits(text[..RunEnd(text)])
         == match (Find(text[0], 0), DigitBits(text[1..][..RunEnd(text[1..])]))
            case (Some(d), Some(bits)) => Some(Bits(d, 6) + bits)
            case _ => None
  {
    var n := RunEnd(text);
    assert text[..n][1..] == text[1..][..n - 1];
    hide Find, Bits;
  }

  lemma {:induction false} DigitRead(text: string, r: Run)
    requires r.On? && ValidPart(r) && text != [] && text[0] != '-' && Rank(text[0]) < 64
    requires var next := TakeDigit(r, Rank(text[0])).1; DecodeUnits(text[1..], next) == RunMeaning(text[1..], next)
    ensures Then(TakeDigit(r, Rank(text[0])).0, DecodeUnits(text[1..], TakeDigit(r, Rank(text[0])).1)) == RunMeaning(text, r)
  {
    var rank, t := Rank(text[0]), TakeDigit(r, Rank(text[0]));
    RankFound(text[0]);
    RunStep(text);
    hide TakeDigit, Whole, Bits, Kept, DecodeUnits, Find, Rank, DigitBits, AfterRun;
    var bits := DigitBits(text[1..][..RunEnd(text[1..])]);
    if bits.Some? {
      DigitTaken(r, rank, bits.value);
      ThenThen(t.0, Whole(Kept(t.1) + bits.value), DecodeUnits(AfterRun(text), Off));
    }
  }

  lemma {:induction false} RunRead(text: string, r: Run)
    requires r.On? && ValidPart(r)
    ensures DecodeUnits(text, r) == RunMeaning(text, r)
    decreases |text|
  {
    if text == [] || text[0] == '-' {
      assert text[..0] == [] && Kept(r) + [] == Kept(r) && Whole(Kept(r)) == [];
      assert text != [] ==> AfterRun(text) == text[1..];
      ThenNothing(DecodeUnits(AfterRun(text), Off));
    } else if Rank(text[0]) == NO_RANK {
      RankFound(text[0]);
      RunStep(text);
    } else {
      RankInvertsDigit(text[0]);
      var next := TakeDigit(r, Rank(text[0])).1;
      RunRead(text[1..], next);
      DigitRead(text, r);
      hide RunMeaning, TakeDigit, Rank;
    }
  }

  /** The decoder reads exactly that. */
  lemma {:induction false} DecodeRead(text: string)
    ensures DecodeUnits(text, Off) == ReadUnits(text)
    decreases |text|
  {
    if text != [] {
      if text[0] != '&' || |text| == 1 {
        DecodeRead(text[1..]);
      } else if text[1] == '-' {
        DecodeRead(text[2..]);
      } else {
        var run := text[1..];
        RunRead(run, On(0, 0));
        DecodeRead(AfterRun(run));
        var bits := DigitBits(run[..RunEnd(run)]);
        if bits.Some? { assert Kept(On(0, 0)) + bits.value == bits.value; }
        hide DigitBits, Whole;
      }
    }
  }

  // ---- Sixteen-bit units ----

  /** A character outside the basic plane is a pair of surrogates. */
  function ToUtf16(text: string): seq<Unit> {
    if text == [] then []
    else
      var n := text[0] as int;
      (if n < 0x1_0000 then [n] else [0xd800 + (n - 0x1_0000) / 0x400, 0xdc00 + (n - 0x1_0000) % 0x400]) + ToUtf16(text[1..])
  }

  lemma {:induction false} Utf16RoundTrip(text: string)
    ensures FromUtf16(ToUtf16(text)) == Some(text)
    decreases |text|
  {
    if text != [] {
      var n, rest := text[0] as int, ToUtf16(text[1..]);
      var us := ToUtf16(text);
      Utf16RoundTrip(text[1..]);
      assert text == [text[0]] + text[1..];
      if n < 0x1_0000 {
        assert us[1..] == rest && !IsSurrogate(us[0]);
      } else {
        assert us[2..] == rest;
      }
    }
  }

  /** Units are read as a text exactly if they are that text in UTF-16. */
  lemma {:induction false} Utf16Exact(units: seq<Unit>)
    ensures FromUtf16(units).Some? ==> ToUtf16(FromUtf16(units).value) == units
    decreases |units|
  {
    if units != [] && FromUtf16(units).Some? {
      var text := FromUtf16(units).value;
      if !IsSurrogate(units[0]) {
        Utf16Exact(units[1..]);
        assert text[1..] == FromUtf16(units[1..]).value && units == [units[0]] + units[1..];
      } else {
        Utf16Exact(units[2..]);
        assert text[1..] == FromUtf16(units[2..]).value && units == [units[0], units[1]] + units[2..];
      }
    }
  }
}
