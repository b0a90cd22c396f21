/** What every byte keeps: size accounting, buffer discipline and literal reservation. */
module ReceiverSafety {
  import opened Receiver

  /** The bytes and structural tokens a token list charges for. */
  function Weight(ts: seq<Token>): nat {
    if ts == [] then 0
    else Weight(ts[..|ts| - 1]) +
         match ts[|ts| - 1]
         case Argument(bytes) => |bytes|
         case Nil => 0
         case _ => 1
  }

  lemma WeightPush(ts: seq<Token>, t: Token)
    ensures Weight(ts + [t]) == Weight(ts) + (if t.Argument? then |t.bytes| else if t.Nil? then 0 else 1)
  {
    assert (ts + [t])[..|ts|] == ts;
  }

  ghost predicate AllDigits(buf: Bytes) {
    forall d <- buf :: IsDigit(d)
  }

  /** What a quoted string can hold: beyond 1024 bytes only backslashes, or one byte other than a
      quote that a backslash came before. */
  predicate Capped(x: Bytes) {
    |x| > MAX_QUOTED ==>
      && (forall i | MAX_QUOTED < i < |x| :: x[i] == BACKSLASH)
      && (x[MAX_QUOTED] == BACKSLASH || (x[MAX_QUOTED - 1] == BACKSLASH && x[MAX_QUOTED] != QUOTE))
  }

  lemma CappedStep<C>(cfg: Config<C>, s: State<C>, b: Byte, escaped: bool)
    requires Capped(s.buf) && LF !in s.buf && s.phase == Quoted(escaped)
    ensures var t := StepQuoted(cfg, s, b, escaped).0; t.phase.Quoted? ==> Capped(t.buf) && LF !in t.buf
    ensures FlushTo(cfg, s, true, Arg(SP)).0.phase.Quoted? ==> cfg.start.Quoted?
  {
    var two := s.buf + [BACKSLASH] + [b];
    if |s.buf| < MAX_QUOTED {
      assert |two| <= MAX_QUOTED + 1;
      if |two| > MAX_QUOTED { assert two[MAX_QUOTED - 1] == BACKSLASH && two[MAX_QUOTED] == b; }
    }
  }

  /** What the phase says about the buffer and the room left. */
  ghost predicate PhaseOk<C>(cfg: Config<C>, s: State<C>) {
    match s.phase
    case Start => s == Fresh(cfg)
    case Tag => 1 <= |s.buf| <= MAX_TAG && s.request == EmptyRequest(cfg) && s.size == 0
    case Command(_) => |s.buf| <= MAX_COMMAND && s.request.tokens == [] && s.size == 0
    case Arg(last) => IsSpace(last) ==> s.buf == []
    case Quoted(_) => Capped(s.buf) && LF !in s.buf
    case Literal(_) => AllDigits(s.buf)
    case LiteralSeek(size, _) => s.buf == [] && s.size + size <= cfg.maxSize
    case LiteralData(remaining) => remaining >= 1 && s.size + |s.buf| + remaining <= cfg.maxSize
  }

  ghost predicate Invariant<C>(cfg: Config<C>, s: State<C>) {
    && Weight(s.request.tokens) <= s.size <= cfg.maxSize
    && PhaseOk(cfg, s)
  }

  /** The start states the servers use. */
  predicate ValidStart<C>(cfg: Config<C>) {
    cfg.start.Start? || cfg.start.Command?
  }

  lemma FreshOk<C>(cfg: Config<C>)
    requires ValidStart(cfg)
    ensures Invariant(cfg, Fresh(cfg))
  {
  }

  lemma PushArgumentOk<C>(cfg: Config<C>, s: State<C>, inQuote: bool)
    requires Weight(s.request.tokens) <= s.size <= cfg.maxSize && !ArgumentOverflows(cfg, s)
    ensures var r := PushArgument(s, inQuote); Weight(r.request.tokens) <= r.size <= cfg.maxSize && r.buf == []
  {
    hide Weight;
    if s.buf != [] {
      WeightPush(s.request.tokens, Argument(s.buf));
    } else if inQuote {
      WeightPush(s.request.tokens, Nil);
    }
  }

  lemma PunctuateOk<C>(cfg: Config<C>, s: State<C>, t: Token)
    requires Weight(s.request.tokens) <= s.size <= cfg.maxSize && s.phase.Arg? && !t.Argument? && ValidStart(cfg)
    ensures Invariant(cfg, Punctuate(cfg, s, t).0)
  {
    hide Weight;
    FreshOk(cfg);
    if !ArgumentOverflows(cfg, s) {
      PushArgumentOk(cfg, s, false);
      WeightPush(PushArgument(s, false).request.tokens, t);
    }
  }

  lemma StepArgOk<C>(cfg: Config<C>, s: State<C>, b: Byte)
    requires ValidStart(cfg) && Invariant(cfg, s) && s.phase.Arg?
    ensures Invariant(cfg, StepArg(cfg, s, b, s.phase.last).0)
  {
    hide Weight;
    FreshOk(cfg);
    if !ArgumentOverflows(cfg, s) { PushArgumentOk(cfg, s, false); }
    var p := Punctuation(b, cfg.tokenizeBrackets(s.request.command));
    if p.Some? { PunctuateOk(cfg, s, p.value); }
  }

  lemma StepOk<C>(cfg: Config<C>, s: State<C>, b: Byte)
    requires ValidStart(cfg) && Invariant(cfg, s)
    ensures Invariant(cfg, Step(cfg, s, b).0)
  {
    hide Weight;
    FreshOk(cfg);
    match s.phase
    case Start =>
    case Tag =>
    case Command(_) =>
    case Arg(_) => StepArgOk(cfg, s, b);
    case Quoted(_) => StepQuotedOk(cfg, s, b);
    case Literal(_) => StepLiteralOk(cfg, s, b);
    case LiteralSeek(_, _) => StepSeekOk(cfg, s, b);
    case LiteralData(_) => StepDataOk(cfg, s, b);
  }

  lemma StepQuotedOk<C>(cfg: Config<C>, s: State<C>, b: Byte)
    requires ValidStart(cfg) && Invariant(cfg, s) && s.phase.Quoted?
    ensures Invariant(cfg, StepQuoted(cfg, s, b, s.phase.escaped).0)
  {
    hide Weight;
    FreshOk(cfg);
    CappedStep(cfg, s, b, s.phase.escaped);
    hide Capped;
    if !ArgumentOverflows(cfg, s) { PushArgumentOk(cfg, s, true); }
  }

  lemma StepLiteralOk<C>(cfg: Config<C>, s: State<C>, b: Byte)
    requires ValidStart(cfg) && Invariant(cfg, s) && s.phase.Literal?
    ensures Invariant(cfg, StepLiteral(cfg, s, b, s.phase.nonSync).0)
  {
    hide Weight;
    FreshOk(cfg);
  }

  lemma StepSeekOk<C>(cfg: Config<C>, s: State<C>, b: Byte)
    requires ValidStart(cfg) && Invariant(cfg, s) && s.phase.LiteralSeek?
    ensures Invariant(cfg, StepSeek(cfg, s, b, s.phase.size, s.phase.nonSync).0)
  {
    hide Weight;
    FreshOk(cfg);
    WeightPush(s.request.tokens, Nil);
  }

  lemma StepDataOk<C>(cfg: Config<C>, s: State<C>, b: Byte)
    requires ValidStart(cfg) && Invariant(cfg, s) && s.phase.LiteralData?
    ensures Invariant(cfg, StepData(cfg, s, b, s.phase.remaining).0)
  {
    hide Weight;
    FreshOk(cfg);
    PushArgumentOk(cfg, s.(buf := s.buf + [b]), false);
  }

  /** In every reachable state the tokens held weigh no more than the accounted
      size, and that no more than the limit; a space before means an empty buffer;
      a literal being read has its room reserved; tags, commands and quoted strings
      are capped. */
  lemma {:induction false} Reachable<C>(cfg: Config<C>, s: State<C>, bytes: Bytes)
    requires ValidStart(cfg) && Invariant(cfg, s)
    ensures Invariant(cfg, Feed(cfg, s, bytes).0)
    decreases |bytes|
  {
    if bytes != [] {
      StepOk(cfg, s, bytes[0]);
      Reachable(cfg, Step(cfg, s, bytes[0]).0, bytes[1..]);
    }
  }

  /** No completed request weighs more than the limit. */
  lemma CompletedFits<C>(cfg: Config<C>, s: State<C>, b: Byte)
    requires ValidStart(cfg) && Invariant(cfg, s)
    ensures forall e <- Step(cfg, s, b).1 :: e.Complete? ==> Weight(e.request.tokens) <= cfg.maxSize
  {
    hide Weight;
    if s.phase.Arg? && !ArgumentOverflows(cfg, s) { PushArgumentOk(cfg, s, false); }
  }

  lemma {:induction false} EveryRequestFits<C>(cfg: Config<C>, s: State<C>, bytes: Bytes)
    requires ValidStart(cfg) && Invariant(cfg, s)
    ensures forall e <- Feed(cfg, s, bytes).1 :: e.Complete? ==> Weight(e.request.tokens) <= cfg.maxSize
    decreases |bytes|
  {
    if bytes != [] {
      CompletedFits(cfg, s, bytes[0]);
      StepOk(cfg, s, bytes[0]);
      EveryRequestFits(cfg, Step(cfg, s, bytes[0]).0, bytes[1..]);
    }
  }

  /** The rest of a literal: its bytes, whatever they are, end as one argument, and
      neither a size error nor any other event can occur on the way. */
  lemma {:induction false} LiteralBytes<C>(cfg: Config<C>, s: State<C>, bytes: Bytes)
    requires s.phase == LiteralData(|bytes|) && bytes != [] && s.size + |s.buf| + |bytes| <= cfg.maxSize
    ensures Feed(cfg, s, bytes)
         == (State([], AddToken(s, Argument(s.buf + bytes)).request, Arg(SP), s.size + |s.buf| + |bytes|), [])
    decreases |bytes|
  {
    var t := Step(cfg, s, bytes[0]);
    if |bytes| == 1 {
      FeedOne(cfg, s, bytes[0]);
      assert bytes == [bytes[0]];
    } else {
      assert s.buf + [bytes[0]] + bytes[1..] == s.buf + bytes;
      LiteralBytes(cfg, t.0, bytes[1..]);
    }
  }

  /** Once a literal is announced and its line ended, its room is kept: the bytes
      that follow become exactly one argument. */
  lemma LiteralKept<C>(cfg: Config<C>, s: State<C>, bytes: Bytes)
    requires Invariant(cfg, s) && s.phase.LiteralSeek? && s.phase.size == |bytes| > 0
    ensures Feed(cfg, s, [LF] + bytes).0
         == State([], AddToken(s, Argument(bytes)).request, Arg(SP), s.size + |bytes|)
    ensures Feed(cfg, s, [LF] + bytes).1 == if s.phase.nonSync then [] else [NeedsLiteral(|bytes|)]
  {
    var t := Step(cfg, s, LF);
    SplitIndependent(cfg, s, [LF], bytes);
    FeedOne(cfg, s, LF);
    LiteralBytes(cfg, t.0, bytes);
    assert [] + bytes == bytes;
  }
}
