/** Which quoted strings the receiver takes, over all bodies, and which buffers have no bound. */
module ReceiverQuoted {
  import opened Prelude
  import opened Receiver
  import opened ReceiverSafety
  import opened ReceiverRoundTrip

  // ---- Every capped string has a body ----

  lemma CappedFits(x: Bytes)
    requires Capped(x) && (|x| > MAX_QUOTED ==> x[MAX_QUOTED] == BACKSLASH)
    ensures QuotedFits(x, 0)
  {
  }

  /** A backslash before a byte that needs none: both are kept, after one look at the length. */
  lemma PairRead<C>(cfg: Config<C>, s: State<C>, b: Byte)
    requires s.phase == Quoted(false) && |s.buf| < MAX_QUOTED && b != QUOTE && b != BACKSLASH && b != LF
    ensures Feed(cfg, s, [BACKSLASH, b]) == (s.(buf := s.buf + [BACKSLASH, b]), [])
  {
    FeedQuietStep(cfg, s, BACKSLASH, [b]);
    assert [BACKSLASH, b] == [BACKSLASH] + [b];
    FeedOne(cfg, Step(cfg, s, BACKSLASH).0, b);
    assert s.buf + [BACKSLASH] + [b] == s.buf + [BACKSLASH, b];
  }

  function BodyOf(x: Bytes): Bytes {
    if |x| > MAX_QUOTED && x[MAX_QUOTED] != BACKSLASH
    then Escape(x[..MAX_QUOTED - 1]) + ([BACKSLASH, x[MAX_QUOTED]] + Escape(x[MAX_QUOTED + 1..]))
    else Escape(x)
  }

  lemma CappedRead<C>(cfg: Config<C>, s: State<C>, x: Bytes)
    requires s.phase == Quoted(false) && s.buf == [] && Capped(x) && LF !in x
    ensures Feed(cfg, s, BodyOf(x)) == (s.(buf := x), [])
  {
    if |x| > MAX_QUOTED && x[MAX_QUOTED] != BACKSLASH {
      var a, b, c := x[..MAX_QUOTED - 1], x[MAX_QUOTED], x[MAX_QUOTED + 1..];
      assert x == a + [BACKSLASH, b] + c;
      assert LF !in a && LF !in c && b in x;
      var t := s.(buf := a);
      var u := s.(buf := a + [BACKSLASH, b]);
      assert [] + a == a;
      QuotedBody(cfg, s, a);
      PairRead(cfg, t, b);
      QuotedBody(cfg, u, c);
      hide Feed, Escape, Capped;
      FeedQuiet(cfg, s, Escape(a), [BACKSLASH, b] + Escape(c));
      FeedQuiet(cfg, t, [BACKSLASH, b], Escape(c));
    } else {
      CappedFits(x);
      assert [] + x == x;
      QuotedBody(cfg, s, x);
    }
  }

  // ---- Exactly the capped strings ----

  /** Some body leaves the string open with x read. */
  ghost predicate Readable<C>(cfg: Config<C>, s: State<C>, x: Bytes) {
    exists body :: Feed(cfg, s, body) == (s.(buf := x), [])
  }

  /** Over all bodies, escaped as they may be: a quoted string can hold x if and only if x has no
      line feed and is capped. */
  lemma ReadableIff<C>(cfg: Config<C>, s: State<C>, x: Bytes)
    requires ValidStart(cfg) && Invariant(cfg, s) && s.phase == Quoted(false) && s.buf == []
    ensures Readable(cfg, s, x) <==> Capped(x) && LF !in x
  {
    if Readable(cfg, s, x) {
      var body :| Feed(cfg, s, body) == (s.(buf := x), []);
      Reachable(cfg, s, body);
    }
    if Capped(x) && LF !in x {
      CappedRead(cfg, s, x);
    }
  }

  /** The closing quote makes the buffer one argument of the request. */
  lemma Closes<C>(cfg: Config<C>, s: State<C>)
    requires s.phase == Quoted(false) && s.buf != [] && s.size + |s.buf| <= cfg.maxSize
    ensures Feed(cfg, s, [QUOTE])
         == (AddToken(s, Argument(s.buf)).(buf := [], phase := Arg(SP), size := s.size + |s.buf|), [])
  {
    FeedOne(cfg, s, QUOTE);
  }

  /** 1023 letters, a backslash and a letter: an argument of 1025 bytes, the last one a letter. */
  lemma PairAtLimit<C>(cfg: Config<C>, s: State<C>)
    requires s.phase == Quoted(false) && s.buf == []
    ensures var letters: Bytes := seq(1023, _ => 97);
            && Feed(cfg, s, letters + [BACKSLASH, 97]) == (s.(buf := letters + [BACKSLASH, 97]), [])
            && !QuotedFits(letters + [BACKSLASH, 97], 0)
  {
    var letters: Bytes := seq(1023, _ => 97);
    var x := letters + [BACKSLASH, 97];
    assert x[1024] == 97;
    LettersEscape(1023);
    assert QuotedFits(letters, 0) && [] + letters == letters;
    QuotedBody(cfg, s, letters);
    PairRead(cfg, s.(buf := letters), 97);
    hide Feed;
    FeedQuiet(cfg, s, letters, [BACKSLASH, 97]);
  }

  lemma {:induction false} LettersEscape(n: nat)
    ensures Escape(seq(n, _ => 97)) == seq(n, _ => 97)
    decreases n
  {
    if n > 0 {
      var x, rest: Bytes := seq(n, _ => 97), seq(n - 1, _ => 97);
      assert x[1..] == rest && x == [97] + rest;
      LettersEscape(n - 1);
    }
  }

  // ---- Buffers without a bound ----

  /** The reachable buffers that are bounded, and by what: only atoms, quoted strings and the size
      of a literal are not. */
  lemma BufferBound<C>(cfg: Config<C>, s: State<C>, bytes: Bytes)
    requires ValidStart(cfg) && Invariant(cfg, s)
    ensures var t := Feed(cfg, s, bytes).0;
            match t.phase
            case Start => |t.buf| == 0
            case Tag => |t.buf| <= 128
            case Command(_) => |t.buf| <= 15
            case LiteralSeek(_, _) => |t.buf| == 0
            case LiteralData(_) => |t.buf| < cfg.maxSize
            case _ => true
  {
    Reachable(cfg, s, bytes);
  }

  function Times(b: Byte, n: nat): (x: Bytes)
    ensures n > 0 ==> x == [b] + Times(b, n - 1)
    ensures |x| == n
  {
    if n == 0 then [] else [b] + Times(b, n - 1)
  }

  /** Bytes that are kept and leave the phase as it is. */
  lemma {:induction false} KeptRun<C>(cfg: Config<C>, s: State<C>, b: Byte, n: nat)
    requires forall buf: Bytes :: Step(cfg, s.(buf := buf), b) == (s.(buf := buf + [b]), [])
    ensures Feed(cfg, s, Times(b, n)) == (s.(buf := s.buf + Times(b, n)), [])
    decreases n
  {
    if n == 0 {
      assert s.buf + [] == s.buf;
    } else {
      var t, rest := s.(buf := s.buf + [b]), Times(b, n - 1);
      assert Step(cfg, s.(buf := s.buf), b) == (t, []);
      Associate(s.buf, [b], rest);
      forall buf: Bytes ensures Step(cfg, t.(buf := buf), b) == (t.(buf := buf + [b]), []) {
        assert t.(buf := buf) == s.(buf := buf);
      }
      KeptRun(cfg, t, b, n - 1);
      hide Step;
      FeedQuietStep(cfg, s, b, rest);
    }
  }

  /** An atom grows to every length, and nothing is charged for it until it ends. */
  lemma AtomGrows<C>(cfg: Config<C>, s: State<C>, n: nat)
    requires AtRest(cfg, s) && n > 0
    ensures Feed(cfg, s, Times(97, n)) == (s.(buf := Times(97, n), phase := Arg(97)), [])
  {
    var t := s.(buf := [97], phase := Arg(97));
    assert s.buf + [97] == [97];
    assert Step(cfg, s, 97) == (t, []);
    KeptRun(cfg, t, 97, n - 1);
    hide Step;
    FeedQuietStep(cfg, s, 97, Times(97, n - 1));
  }

  /** So do the digits of a literal's size, and the escaped backslashes of a quoted string. */
  lemma SizeGrows<C>(cfg: Config<C>, s: State<C>, n: nat)
    requires s.phase == Literal(false)
    ensures Feed(cfg, s, Times(48, n)) == (s.(buf := s.buf + Times(48, n)), [])
  {
    KeptRun(cfg, s, 48, n);
  }

  lemma {:induction false} BackslashesGrow<C>(cfg: Config<C>, s: State<C>, n: nat)
    requires s.phase == Quoted(false)
    ensures Feed(cfg, s, Escape(Times(BACKSLASH, n))) == (s.(buf := s.buf + Times(BACKSLASH, n)), [])
  {
    OnlyOne(BACKSLASH, n);
    QuotedBody(cfg, s, Times(BACKSLASH, n));
  }

  lemma {:induction false} OnlyOne(b: Byte, n: nat)
    ensures forall i | 0 <= i < n :: Times(b, n)[i] == b
    decreases n
  {
    if n > 0 { OnlyOne(b, n - 1); }
  }
}
