/** Requests that break the syntax: the error each of them is answered with. The receiver is then
    as new. */
module ReceiverErrors {
  import opened Receiver
  import opened ReceiverRoundTrip
  import opened ReceiverSpacing

  /** The bytes are answered with this one error. */
  ghost predicate Errs<C>(cfg: Config<C>, s: State<C>, bytes: Bytes, why: Failure) {
    Feed(cfg, s, bytes) == (Fresh(cfg), [Failed(s.request.tag, why)])
  }

  /** The error comes with the last byte. */
  lemma ErrsAt<C>(cfg: Config<C>, s: State<C>, a: Bytes, t: State<C>, b: Byte, why: Failure)
    requires Feed(cfg, s, a) == (t, []) && t.request.tag == s.request.tag && Step(cfg, t, b) == Fail(cfg, t, why)
    ensures Errs(cfg, s, a + [b], why)
  {
    hide Step;
    FeedQuiet(cfg, s, a, [b]);
    FeedOne(cfg, t, b);
  }

  // ---- Tags ----

  lemma TagBuffered<C>(cfg: Config<C>, tag: Bytes)
    requires cfg.start.Start? && TagBytes(tag)
    ensures Feed(cfg, Fresh(cfg), tag) == (Fresh(cfg).(buf := tag, phase := Tag), [])
  {
    var s, t := Fresh(cfg), Fresh(cfg).(buf := [tag[0]], phase := Tag);
    assert tag == [tag[0]] + tag[1..] && [] + [tag[0]] == [tag[0]];
    assert Step(cfg, s, tag[0]) == (t, []);
    hide Step;
    FeedQuietStep(cfg, s, tag[0], tag[1..]);
    TagRuns(cfg, t, tag[1..]);
  }

  /** A tag that is not valid, one without a command, and one of more than 128 bytes. */
  lemma TagErrors<C>(cfg: Config<C>, tag: Bytes, b: Byte)
    requires cfg.start.Start? && TagBytes(tag)
    ensures !cfg.validTag(tag) ==> Errs(cfg, Fresh(cfg), tag + [SP], InvalidTag)
    ensures Errs(cfg, Fresh(cfg), tag + [LF], MissingCommand)
    ensures |tag| == 128 && b != SP && b != TAB && b != CR && b != LF ==> Errs(cfg, Fresh(cfg), tag + [b], TagTooLong)
  {
    var s, t := Fresh(cfg), Fresh(cfg).(buf := tag, phase := Tag);
    TagBuffered(cfg, tag);
    assert !cfg.validTag(tag) ==> Step(cfg, t, SP) == Fail(cfg, t, InvalidTag);
    assert Step(cfg, t, LF) == Fail(cfg, t, MissingCommand);
    if !cfg.validTag(tag) { ErrsAt(cfg, s, tag, t, SP, InvalidTag); }
    ErrsAt(cfg, s, tag, t, LF, MissingCommand);
    if |tag| == 128 && b != SP && b != TAB && b != CR && b != LF {
      assert Step(cfg, t, b) == Fail(cfg, t, TagTooLong);
      ErrsAt(cfg, s, tag, t, b, TagTooLong);
    }
  }

  // ---- Commands ----

  lemma NameBuffered<C>(cfg: Config<C>, s: State<C>, name: Bytes, lower: seq<bool>)
    requires s.phase.Command? && s.buf == [] && CommandBytes(name) && |lower| == |name|
    ensures Feed(cfg, s, Cased(name, lower)) == (s.(buf := name), [])
  {
    NameAnyCase(cfg, s, name, lower, []);
    assert Cased(name, lower) + [] == Cased(name, lower) && [] + name == name;
  }

  predicate LetterOrDigit(b: Byte) {
    48 <= b <= 57 || 65 <= b <= 90 || 97 <= b <= 122
  }

  /** A name that is no command, one of more than fifteen letters and digits, and one with
      another byte in it. */
  lemma CommandErrors<C>(cfg: Config<C>, s: State<C>, name: Bytes, lower: seq<bool>, b: Byte)
    requires s.phase.Command? && s.buf == [] && CommandBytes(name) && |lower| == |name|
    ensures cfg.parse(name, s.phase.isUid).None? && (Blank(b) || b == LF) ==>
              Errs(cfg, s, Cased(name, lower) + [b], UnknownCommand)
    ensures |name| == 15 && LetterOrDigit(b) ==> Errs(cfg, s, Cased(name, lower) + [b], CommandTooLong)
    ensures !LetterOrDigit(b) && !Blank(b) && b != LF ==> Errs(cfg, s, Cased(name, lower) + [b], InvalidCommandChar)
  {
    var t, bytes := s.(buf := name), Cased(name, lower);
    NameBuffered(cfg, s, name, lower);
    var why := if LetterOrDigit(b) then CommandTooLong else if Blank(b) || b == LF then UnknownCommand else InvalidCommandChar;
    if (why.CommandTooLong? ==> |name| == 15) && (why.UnknownCommand? ==> cfg.parse(name, s.phase.isUid).None?) {
      assert Step(cfg, t, b) == Fail(cfg, t, why);
      ErrsAt(cfg, s, bytes, t, b, why);
    }
  }

  // ---- Strings and literals ----

  /** The end of the line within a string. */
  lemma QuoteErrors<C>(cfg: Config<C>, s: State<C>, x: Bytes)
    requires AtRest(cfg, s) && LF !in x && QuotedFits(x, 0)
    ensures Errs(cfg, s, [QUOTE] + Escape(x) + [LF], UnterminatedQuote)
  {
    var q := s.(phase := Quoted(false));
    var t := q.(buf := x);
    assert Step(cfg, s, QUOTE) == (q, []) && Step(cfg, t, LF) == Fail(cfg, t, UnterminatedQuote);
    assert [] + x == x;
    QuotedBody(cfg, q, x);
    hide Step, Escape, QuotedFits, Feed;
    FeedQuietStep(cfg, s, QUOTE, Escape(x));
    ErrsAt(cfg, s, [QUOTE] + Escape(x), t, LF, UnterminatedQuote);
  }

  /** Digits after the opening brace, and a plus sign or none. */
  lemma SizeBuffered<C>(cfg: Config<C>, s: State<C>, ds: Bytes, plus: bool)
    requires AtRest(cfg, s) && (forall d <- ds :: IsDigit(d)) && (plus ==> ds != [])
    ensures Feed(cfg, s, [OPEN_BRACE] + ds + (if plus then [PLUS] else [])) == (s.(buf := ds, phase := Literal(plus)), [])
  {
    var l, t := s.(phase := Literal(false)), s.(buf := ds, phase := Literal(false));
    assert Step(cfg, s, OPEN_BRACE) == (l, []) && (plus ==> Step(cfg, t, PLUS) == (t.(phase := Literal(true)), []));
    assert [] + ds == ds;
    DigitsRun(cfg, l, ds);
    hide Feed, Step;
    FeedQuietStep(cfg, s, OPEN_BRACE, ds);
    if plus {
      FeedQuiet(cfg, s, [OPEN_BRACE] + ds, [PLUS]);
      FeedOne(cfg, t, PLUS);
    } else {
      assert [OPEN_BRACE] + ds + [] == [OPEN_BRACE] + ds;
    }
  }

  /** A literal without a size, with one that is no 32-bit number or more than the room left, with
      another byte in the braces, and with one between them and the end of the line. */
  lemma LiteralErrors<C>(cfg: Config<C>, s: State<C>, ds: Bytes, plus: bool, b: Byte)
    requires AtRest(cfg, s) && (forall d <- ds :: IsDigit(d)) && (plus ==> ds != [])
    ensures var open := [OPEN_BRACE] + ds + (if plus then [PLUS] else []);
            && (ds == [] ==> Errs(cfg, s, open + [CLOSE_BRACE], EmptyLiteral) && Errs(cfg, s, open + [PLUS], InvalidNonSync))
            && (ds != [] && Number(ds) >= 0x1_0000_0000 ==> Errs(cfg, s, open + [CLOSE_BRACE], BadLiteralSize))
            && (ds != [] && Number(ds) < 0x1_0000_0000 && s.size + Number(ds) > cfg.maxSize ==>
                  Errs(cfg, s, open + [CLOSE_BRACE], LiteralTooBig))
            && (b != CLOSE_BRACE && b != PLUS && (plus || !IsDigit(b)) ==> Errs(cfg, s, open + [b], InvalidLiteral))
  {
    var open, t := [OPEN_BRACE] + ds + (if plus then [PLUS] else []), s.(buf := ds, phase := Literal(plus));
    SizeBuffered(cfg, s, ds, plus);
    if ds == [] {
      assert Step(cfg, t, CLOSE_BRACE) == Fail(cfg, t, EmptyLiteral) && Step(cfg, t, PLUS) == Fail(cfg, t, InvalidNonSync);
      ErrsAt(cfg, s, open, t, CLOSE_BRACE, EmptyLiteral);
      ErrsAt(cfg, s, open, t, PLUS, InvalidNonSync);
    } else if Number(ds) >= 0x1_0000_0000 {
      assert Step(cfg, t, CLOSE_BRACE) == Fail(cfg, t, BadLiteralSize);
      ErrsAt(cfg, s, open, t, CLOSE_BRACE, BadLiteralSize);
    } else if s.size + Number(ds) > cfg.maxSize {
      assert Step(cfg, t, CLOSE_BRACE) == Fail(cfg, t, LiteralTooBig);
      ErrsAt(cfg, s, open, t, CLOSE_BRACE, LiteralTooBig);
    }
    if b != CLOSE_BRACE && b != PLUS && (plus || !IsDigit(b)) {
      assert Step(cfg, t, b) == Fail(cfg, t, InvalidLiteral);
      ErrsAt(cfg, s, open, t, b, InvalidLiteral);
    }
  }

  lemma NewlineExpected<C>(cfg: Config<C>, s: State<C>, ds: Bytes, plus: bool, g: Gap, b: Byte)
    requires AtRest(cfg, s) && (forall d <- ds :: IsDigit(d)) && ds != []
    requires Number(ds) < 0x1_0000_0000 && s.size + Number(ds) <= cfg.maxSize && !Blank(b) && b != LF
    ensures Errs(cfg, s, [OPEN_BRACE] + ds + (if plus then [PLUS] else []) + [CLOSE_BRACE] + g + [b], ExpectedNewline)
  {
    var open, t := [OPEN_BRACE] + ds + (if plus then [PLUS] else []), s.(buf := ds, phase := Literal(plus));
    var k := s.(phase := LiteralSeek(Number(ds), plus));
    SizeBuffered(cfg, s, ds, plus);
    assert Step(cfg, t, CLOSE_BRACE) == (k, []) && Step(cfg, k, b) == Fail(cfg, k, ExpectedNewline);
    GapSought(cfg, k, g);
    hide Step, Number, Feed;
    FeedQuiet(cfg, s, open, [CLOSE_BRACE]);
    FeedOne(cfg, t, CLOSE_BRACE);
    FeedQuiet(cfg, s, open + [CLOSE_BRACE], g);
    ErrsAt(cfg, s, open + [CLOSE_BRACE] + g, k, b, ExpectedNewline);
  }

  lemma {:induction false} GapSought<C>(cfg: Config<C>, s: State<C>, g: Gap)
    requires s.phase.LiteralSeek?
    ensures Feed(cfg, s, g) == (s, [])
    decreases |g|
  {
    if g != [] {
      assert g[0] in g && g == [g[0]] + g[1..];
      assert Step(cfg, s, g[0]) == (s, []);
      FeedQuietStep(cfg, s, g[0], g[1..]);
      GapSought(cfg, s, g[1..]);
    }
  }
}
