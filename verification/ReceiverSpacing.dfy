/** Requests in any spacing: runs of blanks, or none where a structural token parts two tokens, and
    command names in either case. The tokens come back in printed order. */
module ReceiverSpacing {
  import opened Prelude
  import opened Receiver
  import opened ReceiverRoundTrip

  /** Tab, form feed, carriage return and space. */
  predicate Blank(b: Byte) {
    b == 9 || b == 12 || b == 13 || b == 32
  }

  predicate Blanks(g: Bytes) {
    forall b <- g :: Blank(b)
  }

  type Gap = g: Bytes | Blanks(g) witness []

  /** The tokens after the command, each followed by its gap, and a line feed. */
  function Text(ps: seq<Piece>, gaps: seq<Gap>): Bytes
    requires |ps| == |gaps|
  {
    if ps == [] then [LF] else Print(ps[0]) + (gaps[0] + Text(ps[1..], gaps[1..]))
  }

  /** A blank or the end of a string comes before what follows. A structural token changes nothing. */
  predicate SpacedAfter(p: Piece, gap: Gap, spaced: bool) {
    gap != [] || p.Str? || p.Lit? || (p.Sym? && spaced)
  }

  /** An atom ends at a blank, at a structural token or at the end of the line; strings and literals
      begin after a blank, or after structural tokens that follow one. */
  predicate Joined(ps: seq<Piece>, gaps: seq<Gap>, spaced: bool)
    requires |ps| == |gaps|
  {
    ps == [] ||
    (&& (ps[0].Str? || ps[0].Lit? ==> spaced)
     && (ps[0].Atom? && gaps[0] == [] && |ps| > 1 ==> ps[1].Sym?)
     && Joined(ps[1..], gaps[1..], SpacedAfter(ps[0], gaps[0], spaced)))
  }

  // ---- Blanks ----

  ghost predicate Clear<C>(cfg: Config<C>, s: State<C>) {
    s.buf == [] && s.phase.Arg? && s.size <= cfg.maxSize
  }

  function Past<C>(s: State<C>, g: Gap): State<C> {
    if g == [] then s else s.(phase := Arg(g[|g| - 1]))
  }

  lemma {:induction false} BlanksRun<C>(cfg: Config<C>, s: State<C>, g: Gap, rest: Bytes)
    requires Clear(cfg, s)
    ensures Feed(cfg, s, g + rest) == Feed(cfg, Past(s, g), rest) && Clear(cfg, Past(s, g))
    ensures g != [] ==> IsSpace(Past(s, g).phase.last)
    decreases |g|
  {
    if g == [] {
      assert g + rest == rest;
    } else {
      assert g[0] in g && g[|g| - 1] in g;
      var t := s.(phase := Arg(g[0]));
      assert Step(cfg, s, g[0]) == (t, []);
      assert g + rest == [g[0]] + (g[1..] + rest);
      FeedQuietStep(cfg, s, g[0], g[1..] + rest);
      BlanksRun(cfg, t, g[1..], rest);
      assert Past(t, g[1..]) == Past(s, g);
    }
  }

  /** Blanks before a tag or a command are skipped. */
  lemma {:induction false} BlanksSkipped<C>(cfg: Config<C>, s: State<C>, g: Gap, rest: Bytes)
    requires s.phase.Start? || (s.phase.Command? && s.buf == [])
    ensures Feed(cfg, s, g + rest) == Feed(cfg, s, rest)
    decreases |g|
  {
    if g == [] {
      assert g + rest == rest;
    } else {
      assert g[0] in g;
      assert Step(cfg, s, g[0]) == (s, []);
      assert g + rest == [g[0]] + (g[1..] + rest);
      FeedQuietStep(cfg, s, g[0], g[1..] + rest);
      BlanksSkipped(cfg, s, g[1..], rest);
    }
  }

  /** Tabs and carriage returns within a tag are dropped. */
  lemma TagBlanks<C>(cfg: Config<C>, s: State<C>, b: Byte, rest: Bytes)
    requires s.phase == Tag && (b == 9 || b == 13)
    ensures Feed(cfg, s, [b] + rest) == Feed(cfg, s, rest)
  {
    assert Step(cfg, s, b) == (s, []);
    FeedQuietStep(cfg, s, b, rest);
  }

  // ---- One token ----

  /** The token pushed, and the last byte that a quote or a brace would look at. */
  function Pushed<C>(s: State<C>, p: Piece): State<C>
    requires s.phase.Arg? && (p.Atom? ==> p.bytes != [])
  {
    After(s, p, if p.Atom? then p.bytes[|p.bytes| - 1] else if p.Sym? then s.phase.last else SP)
  }

  /** What ends an atom: a blank, a structural token or the line feed. */
  predicate Ends(b: Byte, brackets: bool) {
    Blank(b) || b == LF || b == 40 || b == 41 || (brackets && b in [91, 93, 60, 62, 46])
  }

  /** At such a byte a buffered argument counts as pushed. */
  lemma EndsStep<C>(cfg: Config<C>, s: State<C>, b: Byte)
    requires s.phase.Arg? && s.buf != [] && !IsSpace(s.phase.last) && s.size + |s.buf| <= cfg.maxSize
    requires Ends(b, cfg.tokenizeBrackets(s.request.command))
    ensures Step(cfg, s, b) == Step(cfg, PushArgument(s, false), b)
  {
    var u := PushArgument(s, false);
    assert u.buf == [] && PushArgument(u, false) == u;
    var p := Punctuation(b, cfg.tokenizeBrackets(s.request.command));
    if p.Some? {
      assert Punctuate(cfg, s, p.value) == Punctuate(cfg, u, p.value);
    }
  }

  lemma EndsArgument<C>(cfg: Config<C>, s: State<C>, b: Byte, rest: Bytes)
    requires s.phase.Arg? && s.buf != [] && !IsSpace(s.phase.last) && s.size + |s.buf| <= cfg.maxSize
    requires Ends(b, cfg.tokenizeBrackets(s.request.command))
    ensures Feed(cfg, s, [b] + rest) == Feed(cfg, PushArgument(s, false), [b] + rest)
  {
    EndsStep(cfg, s, b);
    hide Step;
    assert ([b] + rest)[0] == b;
  }

  lemma AtomBuffered<C>(cfg: Config<C>, s: State<C>, x: Bytes)
    requires Clear(cfg, s) && Printable(Atom(x), cfg.tokenizeBrackets(s.request.command))
    ensures Feed(cfg, s, x) == (s.(buf := x, phase := Arg(x[|x| - 1])), [])
  {
    assert x[0] in x && x[|x| - 1] in x;
    var t := s.(buf := [x[0]], phase := Arg(x[0]));
    assert [] + [x[0]] == [x[0]] && x == [x[0]] + x[1..];
    assert Step(cfg, s, x[0]) == (t, []);
    hide Step;
    FeedQuietStep(cfg, s, x[0], x[1..]);
    AtomTail(cfg, t, x[1..]);
  }

  lemma AtomAny<C>(cfg: Config<C>, s: State<C>, x: Bytes, b: Byte, rest: Bytes)
    requires Clear(cfg, s) && Printable(Atom(x), cfg.tokenizeBrackets(s.request.command))
    requires s.size + |x| <= cfg.maxSize && Ends(b, cfg.tokenizeBrackets(s.request.command))
    ensures Feed(cfg, s, x + ([b] + rest)) == Feed(cfg, Pushed(s, Atom(x)), [b] + rest)
  {
    assert x[|x| - 1] in x;
    var u := s.(buf := x, phase := Arg(x[|x| - 1]));
    assert PushArgument(u, false) == Pushed(s, Atom(x));
    assert !IsSpace(u.phase.last);
    hide Feed, Pushed, Printable, Ends, PushArgument;
    AtomBuffered(cfg, s, x);
    EndsArgument(cfg, u, b, rest);
    FeedQuiet(cfg, s, x, [b] + rest);
  }

  lemma SymAny<C>(cfg: Config<C>, s: State<C>, tok: Token, rest: Bytes)
    requires Clear(cfg, s) && Printable(Sym(tok), cfg.tokenizeBrackets(s.request.command)) && s.size + 1 <= cfg.maxSize
    ensures Feed(cfg, s, [SymByte(tok)] + rest) == Feed(cfg, Pushed(s, Sym(tok)), rest)
  {
    assert Step(cfg, s, SymByte(tok)) == (Pushed(s, Sym(tok)), []);
    FeedQuietStep(cfg, s, SymByte(tok), rest);
  }

  /** A token before what may follow it. */
  lemma TokenRuns<C>(cfg: Config<C>, s: State<C>, p: Piece, rest: Bytes)
    requires Clear(cfg, s) && Printable(p, cfg.tokenizeBrackets(s.request.command)) && s.size + Cost(p) <= cfg.maxSize
    requires p.Str? || p.Lit? ==> IsSpace(s.phase.last)
    requires p.Atom? ==> rest != [] && Ends(rest[0], cfg.tokenizeBrackets(s.request.command))
    ensures var u := Feed(cfg, Pushed(s, p), rest); Feed(cfg, s, Print(p) + rest) == (u.0, EventsOf(p) + u.1)
  {
    var u := Feed(cfg, Pushed(s, p), rest);
    match p
    case Atom(x) =>
      assert rest == [rest[0]] + rest[1..];
      AtomAny(cfg, s, x, rest[0], rest[1..]);
      assert [] + u.1 == u.1;
    case Sym(tok) =>
      SymAny(cfg, s, tok, rest);
      assert [] + u.1 == u.1;
    case Str(x) =>
      StrRuns(cfg, s, x);
      hide Feed, Print;
      JoinTurns(cfg, s, Print(p), rest, Pushed(s, p), EventsOf(p), u.0, u.1);
    case Lit(_, _, _) =>
      LitRuns(cfg, s, p);
      hide Feed, Print;
      JoinTurns(cfg, s, Print(p), rest, Pushed(s, p), EventsOf(p), u.0, u.1);
  }

  // ---- All tokens ----

  lemma TextEnd<C>(cfg: Config<C>, s: State<C>)
    requires Clear(cfg, s)
    ensures Feed(cfg, s, [LF]) == (Fresh(cfg), [Complete(s.request)])
  {
    FeedOne(cfg, s, LF);
  }

  /** What follows an atom ends it. */
  lemma AtomEnded(ps: seq<Piece>, gaps: seq<Gap>, spaced: bool, brackets: bool)
    requires |ps| == |gaps| > 0 && Joined(ps, gaps, spaced) && AllPrintable(ps, brackets)
    ensures var rest := gaps[0] + Text(ps[1..], gaps[1..]);
            ps[0].Atom? ==> rest != [] && Ends(rest[0], brackets)
  {
    if gaps[0] != [] {
      assert gaps[0][0] in gaps[0];
    } else if |ps| > 1 {
      assert ps[1] in ps;
      assert [] + Text(ps[1..], gaps[1..]) == Text(ps[1..], gaps[1..]);
    }
  }

  lemma {:induction false} TextRuns<C>(cfg: Config<C>, s: State<C>, ps: seq<Piece>, gaps: seq<Gap>, spaced: bool)
    requires |ps| == |gaps| && Clear(cfg, s) && (spaced ==> IsSpace(s.phase.last))
    requires AllPrintable(ps, cfg.tokenizeBrackets(s.request.command)) && Joined(ps, gaps, spaced)
    requires s.size + TotalCost(ps) <= cfg.maxSize
    ensures Feed(cfg, s, Text(ps, gaps)) == (Fresh(cfg), AllEvents(ps) + [Complete(Finished(s, ps))])
    decreases |ps|
  {
    if ps == [] {
      TextEnd(cfg, s);
      assert s.request.tokens + [] == s.request.tokens;
      assert AllEvents<C>([]) + [Complete(Finished(s, []))] == [Complete(Finished(s, []))];
    } else {
      var p, g, rest := ps[0], gaps[0], Text(ps[1..], gaps[1..]);
      assert p in ps;
      AtomEnded(ps, gaps, spaced, cfg.tokenizeBrackets(s.request.command));
      var t := Pushed(s, p);
      var u := Past(t, g);
      TailTokens(s, ps, u.phase.last);
      assert Finished(u, ps[1..]) == Finished(s, ps);
      assert SpacedAfter(p, g, spaced) && g == [] ==> IsSpace(t.phase.last);
      hide Feed, Step, Print, Printable, TokensOf, Finished;
      TokenRuns(cfg, s, p, g + rest);
      BlanksRun(cfg, t, g, rest);
      TextRuns(cfg, u, ps[1..], gaps[1..], SpacedAfter(p, g, spaced));
      Associate(EventsOf<C>(p), AllEvents(ps[1..]), [Complete(Finished(s, ps))]);
    }
  }

  // ---- The command ----

  /** An upper-case letter, in lower case if so marked. */
  function CasedByte(b: Byte, lower: bool): Byte {
    if 65 <= b <= 90 && lower then b + 32 else b
  }

  function Cased(name: Bytes, lower: seq<bool>): Bytes
    requires |name| == |lower|
  {
    if name == [] then [] else [CasedByte(name[0], lower[0])] + Cased(name[1..], lower[1..])
  }

  lemma NameByte<C>(cfg: Config<C>, s: State<C>, b: Byte, lower: bool)
    requires s.phase.Command? && |s.buf| < MAX_COMMAND && (IsDigit(b) || 65 <= b <= 90)
    ensures Step(cfg, s, CasedByte(b, lower)) == (s.(buf := s.buf + [b]), [])
  {
  }

  lemma {:induction false} NameAnyCase<C>(cfg: Config<C>, s: State<C>, name: Bytes, lower: seq<bool>, rest: Bytes)
    requires s.phase.Command? && |s.buf| + |name| <= MAX_COMMAND && |name| == |lower|
    requires forall b <- name :: IsDigit(b) || 65 <= b <= 90
    ensures Feed(cfg, s, Cased(name, lower) + rest) == Feed(cfg, s.(buf := s.buf + name), rest)
    decreases |name|
  {
    hide Feed, Step, CasedByte;
    if name == [] {
      assert s.buf + [] == s.buf && [] + rest == rest;
    } else {
      assert name[0] in name;
      var b := CasedByte(name[0], lower[0]);
      var t, more := s.(buf := s.buf + [name[0]]), Cased(name[1..], lower[1..]);
      NameByte(cfg, s, name[0], lower[0]);
      Associate([b], more, rest);
      Associate(s.buf, [name[0]], name[1..]);
      assert name == [name[0]] + name[1..];
      FeedQuietStep(cfg, s, b, more + rest);
      NameAnyCase(cfg, t, name[1..], lower[1..], rest);
    }
  }

  /** A request as clients may write it: blanks before the tag, after it and after the UID prefix,
      names in either case, and any joints between the tokens. */
  datatype Layout = Layout(before: Gap, afterTag: Gap, uid: seq<bool>, afterUid: Gap, lower: seq<bool>, afterName: Gap,
                           gaps: seq<Gap>)

  predicate Fitting(l: Layout, name: Bytes, isUid: bool, ps: seq<Piece>) {
    && |l.lower| == |name| && (isUid ==> |l.uid| == 3) && |l.gaps| == |ps| && Joined(ps, l.gaps, true)
    && (ps != [] ==> l.afterName != [])
  }

  function NameText(l: Layout, name: Bytes, ps: seq<Piece>): Bytes
    requires |l.lower| == |name| && |l.gaps| == |ps|
  {
    Cased(name, l.lower) + (l.afterName + Text(ps, l.gaps))
  }

  function CommandText(l: Layout, name: Bytes, isUid: bool, ps: seq<Piece>): Bytes
    requires Fitting(l, name, isUid, ps)
  {
    if isUid then Cased([85, 73, 68], l.uid) + ([SP] + (l.afterUid + NameText(l, name, ps))) else NameText(l, name, ps)
  }

  function RequestText<C>(cfg: Config<C>, l: Layout, tag: Bytes, name: Bytes, isUid: bool, ps: seq<Piece>): Bytes
    requires Fitting(l, name, isUid, ps)
  {
    var line := l.afterTag + CommandText(l, name, isUid, ps);
    if cfg.start.Start? then l.before + (tag + [SP] + line) else line
  }

  /** The bytes after a command name: at once the line feed, or blanks first. */
  lemma AfterName<C>(cfg: Config<C>, s: State<C>, c: C, g: Gap, rest: Bytes)
    requires s.phase.Command? && s.buf != [] && s.buf != UID && cfg.parse(s.buf, s.phase.isUid) == Some(c) && s.size == 0
    ensures g == [] ==> Feed(cfg, s, [LF]) == (Fresh(cfg), [Complete(s.request.(command := c))])
    ensures g != [] ==> exists w | IsSpace(w) ::
        Feed(cfg, s, g + rest) == Feed(cfg, State([], s.request.(command := c), Arg(w), 0), rest)
  {
    if g == [] {
      FeedOne(cfg, s, LF);
    } else {
      var u := State([], s.request.(command := c), Arg(SP), 0);
      assert g[0] in g && g + rest == [g[0]] + (g[1..] + rest);
      assert Step(cfg, s, g[0]) == (u, []);
      hide Step, Feed;
      FeedQuietStep(cfg, s, g[0], g[1..] + rest);
      BlanksRun(cfg, u, g[1..], rest);
      assert Past(u, g[1..]) == State([], s.request.(command := c), Past(u, g[1..]).phase, 0);
    }
  }

  lemma NameTextRuns<C>(cfg: Config<C>, s: State<C>, l: Layout, name: Bytes, isUid: bool, ps: seq<Piece>)
    requires s.phase == Command(isUid) && s.buf == [] && s.size == 0 && s.request.tokens == [] && Fitting(l, name, isUid, ps)
    requires CommandBytes(name) && cfg.parse(name, isUid).Some?
    requires AllPrintable(ps, cfg.tokenizeBrackets(cfg.parse(name, isUid).value)) && TotalCost(ps) <= cfg.maxSize
    ensures Feed(cfg, s, NameText(l, name, ps))
         == (Fresh(cfg), AllEvents(ps) + [Complete(Request(s.request.tag, cfg.parse(name, isUid).value, TokensOf(ps)))])
  {
    var c := cfg.parse(name, isUid).value;
    var r, text := s.request.(command := c), Text(ps, l.gaps);
    assert [] + name == name && [] + TokensOf(ps) == TokensOf(ps);
    NameAnyCase(cfg, s, name, l.lower, l.afterName + text);
    AfterName(cfg, s.(buf := name), c, l.afterName, text);
    if l.afterName == [] {
      assert l.afterName + text == [LF];
      assert AllEvents<C>(ps) + [Complete(r)] == [Complete(r)];
    } else {
      hide Feed, Printable, Text, AllEvents, TokensOf;
      var w :| IsSpace(w) && Feed(cfg, s.(buf := name), l.afterName + text) == Feed(cfg, State([], r, Arg(w), 0), text);
      TextRuns(cfg, State([], r, Arg(w), 0), ps, l.gaps, true);
    }
  }

  lemma CommandTextRuns<C>(cfg: Config<C>, s: State<C>, l: Layout, name: Bytes, isUid: bool, ps: seq<Piece>)
    requires s.phase == Command(false) && s.buf == [] && s.size == 0 && s.request.tokens == [] && Fitting(l, name, isUid, ps)
    requires CommandBytes(name) && cfg.parse(name, isUid).Some?
    requires AllPrintable(ps, cfg.tokenizeBrackets(cfg.parse(name, isUid).value)) && TotalCost(ps) <= cfg.maxSize
    ensures Feed(cfg, s, CommandText(l, name, isUid, ps))
         == (Fresh(cfg), AllEvents(ps) + [Complete(Request(s.request.tag, cfg.parse(name, isUid).value, TokensOf(ps)))])
  {
    NameTextRuns(cfg, s.(phase := Command(isUid)), l, name, isUid, ps);
    if isUid {
      var rest := l.afterUid + NameText(l, name, ps);
      assert [] + UID == UID;
      assert Step(cfg, s.(buf := UID), SP) == (s.(phase := Command(true)), []);
      hide Feed, Step, NameText, Printable, AllEvents, TokensOf;
      NameAnyCase(cfg, s, UID, l.uid, [SP] + rest);
      FeedQuietStep(cfg, s.(buf := UID), SP, rest);
      BlanksSkipped(cfg, s.(phase := Command(true)), l.afterUid, NameText(l, name, ps));
    }
  }

  /** Whatever the spacing and the case of the names, a request within the limit comes back as
      itself, its tokens in printed order, after one prompt per synchronizing literal. */
  lemma AnySpacing<C>(cfg: Config<C>, l: Layout, tag: Bytes, name: Bytes, isUid: bool, ps: seq<Piece>)
    requires PrintableRequest(cfg, tag, name, isUid, ps) && TotalCost(ps) <= cfg.maxSize && Fitting(l, name, isUid, ps)
    ensures Feed(cfg, Fresh(cfg), RequestText(cfg, l, tag, name, isUid, ps))
         == (Fresh(cfg), AllEvents(ps) + [Complete(Request(tag, cfg.parse(name, isUid).value, TokensOf(ps)))])
  {
    var s := State([], EmptyRequest(cfg).(tag := tag), Command(false), 0);
    var text := CommandText(l, name, isUid, ps);
    CommandTextRuns(cfg, s, l, name, isUid, ps);
    hide Feed, Step, Printable, CommandText, AllEvents, TokensOf;
    BlanksSkipped(cfg, s, l.afterTag, text);
    if cfg.start.Start? {
      BlanksSkipped(cfg, Fresh(cfg), l.before, tag + [SP] + (l.afterTag + text));
      TagLine(cfg, tag, l.afterTag + text);
    }
  }

  /** An atom between parentheses without a blank, as in a list of one flag. */
  lemma InParentheses<C>(cfg: Config<C>, s: State<C>, x: Bytes)
    requires Clear(cfg, s) && Printable(Atom(x), cfg.tokenizeBrackets(s.request.command)) && s.size + |x| + 2 <= cfg.maxSize
    ensures Feed(cfg, s, [40] + (x + ([41] + [LF])))
         == (Fresh(cfg), [Complete(s.request.(tokens :=
               s.request.tokens + [ParenthesisOpen, Argument(x), ParenthesisClose]))])
  {
    var t0 := Pushed(s, Sym(ParenthesisOpen));
    var t1 := Pushed(t0, Atom(x));
    var t2 := Pushed(t1, Sym(ParenthesisClose));
    assert t2.request.tokens == s.request.tokens + [ParenthesisOpen, Argument(x), ParenthesisClose];
    hide Feed, AtomBytes;
    SymAny(cfg, s, ParenthesisOpen, x + ([41] + [LF]));
    AtomAny(cfg, t0, x, 41, [LF]);
    SymAny(cfg, t1, ParenthesisClose, [LF]);
    TextEnd(cfg, t2);
  }
}
