/** Printed requests parse back: tag, command and tokens, one event per sync literal. */
module ReceiverRoundTrip {
  import opened Prelude
  import opened Receiver
  import opened ReceiverSafety

  /** The ways a client may write one token. */
  datatype Piece =
    | Atom(bytes: Bytes)
    | Str(bytes: Bytes)
    | Lit(bytes: Bytes, nonSync: bool, binary: bool)
    | Sym(tok: Token)

  function Escape(x: Bytes): Bytes {
    if x == [] then [] else EscapeByte(x[0]) + Escape(x[1..])
  }

  function EscapeByte(b: Byte): Bytes {
    if b == QUOTE || b == BACKSLASH then [BACKSLASH, b] else [b]
  }

  function Digits(n: nat): (ds: Bytes)
    ensures ds != [] && forall d <- ds :: IsDigit(d)
    ensures Number(ds) == n
  {
    if n < 10 then
      var ds: Bytes := [48 + n];
      assert ds[..0] == [];
      ds
    else
      var last: Byte := 48 + n % 10;
      var ds := Digits(n / 10) + [last];
      assert ds[..|ds| - 1] == Digits(n / 10);
      ds
  }

  function SymByte(t: Token): Byte {
    match t
    case ParenthesisOpen => 40
    case ParenthesisClose => 41
    case BracketOpen => 91
    case BracketClose => 93
    case Lt => 60
    case Gt => 62
    case _ => 46
  }

  /** A literal up to and including the line that announces it. */
  function Announce(n: nat, nonSync: bool, binary: bool): Bytes {
    (if binary then [TILDE] else []) + ([OPEN_BRACE] + (Digits(n) + ((if nonSync then [PLUS] else []) + [CLOSE_BRACE, CR, LF])))
  }

  function Print(p: Piece): Bytes {
    match p
    case Atom(bytes) => bytes
    case Str(bytes) => [QUOTE] + (Escape(bytes) + [QUOTE])
    case Lit(bytes, nonSync, binary) => Announce(|bytes|, nonSync, binary) + bytes
    case Sym(tok) => [SymByte(tok)]
  }

  function TokenOf(p: Piece): Token {
    match p
    case Sym(tok) => tok
    case _ => if p.bytes == [] then Nil else Argument(p.bytes)
  }

  /** What the piece is charged for: an empty literal costs one, an empty string nothing. */
  function Cost(p: Piece): nat {
    match p
    case Sym(_) => 1
    case Lit(bytes, _, _) => if bytes == [] then 1 else |bytes|
    case _ => |p.bytes|
  }

  function EventsOf<C>(p: Piece): seq<Event<C>> {
    if p.Lit? && !p.nonSync then [NeedsLiteral(|p.bytes|)] else []
  }

  /** The length check of quoted strings is made for every byte but a backslash. */
  predicate QuotedFits(x: Bytes, from: nat) {
    forall i | 0 <= i < |x| && x[i] != BACKSLASH :: from + i < MAX_QUOTED
  }

  /** No white space, no parenthesis, and none of `.<>[]` where these are tokens. */
  predicate AtomByte(b: Byte, brackets: bool) {
    && b != 9 && b != 10 && b != 12 && b != 13 && b != 32 && b != 40 && b != 41
    && (brackets ==> b != 46 && b != 60 && b != 62 && b != 91 && b != 93)
  }

  predicate AtomBytes(x: Bytes, brackets: bool) {
    forall b <- x :: AtomByte(b, brackets)
  }

  predicate Printable(p: Piece, brackets: bool) {
    match p
    case Atom(x) =>
      && x != [] && AtomBytes(x, brackets) && x[0] != QUOTE && x[0] != OPEN_BRACE
      && !([TILDE, OPEN_BRACE] <= x)
    case Str(x) => LF !in x && QuotedFits(x, 0)
    case Lit(x, _, _) => |x| < U32_LIMIT
    case Sym(t) => !t.Argument? && !t.Nil? && (brackets || t.ParenthesisOpen? || t.ParenthesisClose?)
  }

  /** Between tokens: a space has just been read. */
  ghost predicate AtRest<C>(cfg: Config<C>, s: State<C>) {
    s.buf == [] && s.phase.Arg? && IsSpace(s.phase.last) && s.size <= cfg.maxSize
  }

  function After<C>(s: State<C>, p: Piece, w: Byte): State<C> {
    State([], AddToken(s, TokenOf(p)).request, Arg(w), s.size + Cost(p))
  }

  lemma FeedThen<C>(cfg: Config<C>, s: State<C>, b: Byte, rest: Bytes)
    ensures Feed(cfg, s, [b] + rest).0 == Feed(cfg, Step(cfg, s, b).0, rest).0
    ensures Feed(cfg, s, [b] + rest).1 == Step(cfg, s, b).1 + Feed(cfg, Step(cfg, s, b).0, rest).1
  {
    assert ([b] + rest)[1..] == rest;
  }

  /** A run of bytes without events. */
  lemma FeedQuiet<C>(cfg: Config<C>, s: State<C>, a: Bytes, rest: Bytes)
    requires Feed(cfg, s, a).1 == []
    ensures Feed(cfg, s, a + rest) == Feed(cfg, Feed(cfg, s, a).0, rest)
  {
    SplitIndependent(cfg, s, a, rest);
    assert [] + Feed(cfg, Feed(cfg, s, a).0, rest).1 == Feed(cfg, Feed(cfg, s, a).0, rest).1;
  }

  lemma FeedQuietStep<C>(cfg: Config<C>, s: State<C>, b: Byte, rest: Bytes)
    requires Step(cfg, s, b).1 == []
    ensures Feed(cfg, s, [b] + rest) == Feed(cfg, Step(cfg, s, b).0, rest)
  {
    FeedThen(cfg, s, b, rest);
    assert [] + Feed(cfg, Step(cfg, s, b).0, rest).1 == Feed(cfg, Step(cfg, s, b).0, rest).1;
  }

  // ---- Quoted strings ----

  lemma EscapedByte<C>(cfg: Config<C>, s: State<C>, b: Byte)
    requires s.phase == Quoted(false) && b != LF
    ensures (b == BACKSLASH || |s.buf| < MAX_QUOTED) ==>
              Feed(cfg, s, EscapeByte(b)) == (s.(buf := s.buf + [b]), [])
    ensures !(b == BACKSLASH || |s.buf| < MAX_QUOTED) ==>
              Feed(cfg, s, EscapeByte(b)) == (Fresh(cfg), [Failed(s.request.tag, QuotedTooLong)])
  {
    if b == QUOTE || b == BACKSLASH {
      FeedQuietStep(cfg, s, BACKSLASH, [b]);
      assert [BACKSLASH, b] == [BACKSLASH] + [b];
      FeedOne(cfg, Step(cfg, s, BACKSLASH).0, b);
    } else {
      FeedOne(cfg, s, b);
    }
  }

  /** The body of a quoted string is read back exactly when the string fits; otherwise
      the receiver fails with the length error as its first event. */
  lemma {:induction false} QuotedBody<C>(cfg: Config<C>, s: State<C>, x: Bytes)
    requires s.phase == Quoted(false) && LF !in x
    ensures QuotedFits(x, |s.buf|) ==> Feed(cfg, s, Escape(x)) == (s.(buf := s.buf + x), [])
    ensures !QuotedFits(x, |s.buf|) ==> [Failed(s.request.tag, QuotedTooLong)] <= Feed(cfg, s, Escape(x)).1
    decreases |x|
  {
    if x == [] {
      assert s.buf + [] == s.buf;
    } else {
      var first, rest, t := EscapeByte(x[0]), Escape(x[1..]), s.(buf := s.buf + [x[0]]);
      assert Escape(x) == first + rest;
      hide Feed, QuotedFits, Escape, EscapeByte;
      EscapedByte(cfg, s, x[0]);
      FitsTail(x, |s.buf|);
      Associate(s.buf, [x[0]], x[1..]);
      assert x == [x[0]] + x[1..];
      if x[0] == BACKSLASH || |s.buf| < MAX_QUOTED {
        FeedQuiet(cfg, s, first, rest);
        assert LF !in x[1..];
        QuotedBody(cfg, t, x[1..]);
      } else {
        SplitIndependent(cfg, s, first, rest);
      }
    }
  }

  /** 1025 letters are refused, and 1025 backslashes are read back. */
  lemma QuotedAtLimit<C>(cfg: Config<C>, s: State<C>)
    requires s.phase == Quoted(false) && s.buf == []
    ensures [Failed(s.request.tag, QuotedTooLong)] <= Feed(cfg, s, Escape(seq(1025, _ => 97))).1
    ensures Feed(cfg, s, Escape(seq(1025, _ => BACKSLASH))) == (s.(buf := seq(1025, _ => BACKSLASH)), [])
  {
    var letters, slashes: Bytes := seq(1025, _ => 97), seq(1025, _ => BACKSLASH);
    assert letters[1024] != BACKSLASH;
    QuotedBody(cfg, s, letters);
    QuotedBody(cfg, s, slashes);
    assert [] + slashes == slashes;
  }

  lemma FitsTail(x: Bytes, from: nat)
    requires x != []
    ensures QuotedFits(x, from) <==> (x[0] == BACKSLASH || from < MAX_QUOTED) && QuotedFits(x[1..], from + 1)
  {
    if (x[0] == BACKSLASH || from < MAX_QUOTED) && QuotedFits(x[1..], from + 1) {
      forall i | 0 <= i < |x| && x[i] != BACKSLASH ensures from + i < MAX_QUOTED {
        if i > 0 { assert x[1..][i - 1] == x[i]; }
      }
    }
    if QuotedFits(x, from) {
      forall i | 0 <= i < |x| - 1 && x[1..][i] != BACKSLASH ensures from + 1 + i < MAX_QUOTED {
        assert x[i + 1] != BACKSLASH;
      }
    }
  }

  lemma StrRuns<C>(cfg: Config<C>, s: State<C>, x: Bytes)
    requires AtRest(cfg, s) && LF !in x && QuotedFits(x, 0) && s.size + |x| <= cfg.maxSize
    ensures Feed(cfg, s, Print(Str(x))) == (After(s, Str(x), SP), [])
  {
    var q := s.(phase := Quoted(false));
    assert Step(cfg, s, QUOTE) == (q, []);
    assert Step(cfg, q.(buf := x), QUOTE) == (After(s, Str(x), SP), []);
    QuotedBody(cfg, q, x);
    assert [] + x == x;
    hide Feed, Step, Escape, QuotedFits;
    FeedQuietStep(cfg, s, QUOTE, Escape(x) + [QUOTE]);
    FeedQuiet(cfg, q, Escape(x), [QUOTE]);
    FeedOne(cfg, q.(buf := x), QUOTE);
  }

  // ---- Atoms ----

  lemma {:induction false} AtomTail<C>(cfg: Config<C>, s: State<C>, x: Bytes)
    requires s.phase.Arg? && s.buf != [] && !IsSpace(s.phase.last)
    requires AtomBytes(x, cfg.tokenizeBrackets(s.request.command))
    requires |s.buf| == 1 && s.phase.last == TILDE && x != [] ==> x[0] != OPEN_BRACE
    ensures Feed(cfg, s, x) == (s.(buf := s.buf + x, phase := Arg(if x == [] then s.phase.last else x[|x| - 1])), [])
    decreases |x|
  {
    if x == [] {
      assert s.buf + [] == s.buf;
    } else {
      assert x[0] in x;
      var t := s.(buf := s.buf + [x[0]], phase := Arg(x[0]));
      assert Step(cfg, s, x[0]) == (t, []);
      assert x == [x[0]] + x[1..];
      FeedQuietStep(cfg, s, x[0], x[1..]);
      AtomTail(cfg, t, x[1..]);
      assert s.buf + [x[0]] + x[1..] == s.buf + x;
    }
  }

  lemma AtomRuns<C>(cfg: Config<C>, s: State<C>, x: Bytes)
    requires AtRest(cfg, s) && Printable(Atom(x), cfg.tokenizeBrackets(s.request.command))
    ensures Feed(cfg, s, x) == (s.(buf := x, phase := Arg(x[|x| - 1])), [])
    ensures !IsSpace(x[|x| - 1])
  {
    assert x[0] in x && x[|x| - 1] in x;
    var t := s.(buf := [x[0]], phase := Arg(x[0]));
    assert [] + [x[0]] == [x[0]];
    assert Step(cfg, s, x[0]) == (t, []);
    assert x == [x[0]] + x[1..];
    FeedQuietStep(cfg, s, x[0], x[1..]);
    AtomTail(cfg, t, x[1..]);
  }

  // ---- Literals ----

  lemma {:induction false} DigitsRun<C>(cfg: Config<C>, s: State<C>, ds: Bytes)
    requires s.phase == Literal(false) && forall d <- ds :: IsDigit(d)
    ensures Feed(cfg, s, ds) == (s.(buf := s.buf + ds), [])
    decreases |ds|
  {
    if ds == [] {
      assert s.buf + [] == s.buf;
    } else {
      assert ds[0] in ds;
      assert ds == [ds[0]] + ds[1..];
      FeedQuietStep(cfg, s, ds[0], ds[1..]);
      DigitsRun(cfg, s.(buf := s.buf + [ds[0]]), ds[1..]);
      assert s.buf + [ds[0]] + ds[1..] == s.buf + ds;
    }
  }

  /** From the opening brace up to the closing one. */
  lemma SizeRuns<C>(cfg: Config<C>, s: State<C>, n: nat, nonSync: bool, rest: Bytes)
    requires s.phase == Literal(false) && s.buf == [] && n < U32_LIMIT && s.size + n <= cfg.maxSize
    ensures Feed(cfg, s, Digits(n) + ((if nonSync then [PLUS] else []) + ([CLOSE_BRACE] + rest)))
         == Feed(cfg, s.(phase := LiteralSeek(n, nonSync)), rest)
  {
    var ds := Digits(n);
    DigitsRun(cfg, s, ds);
    assert [] + ds == ds;
    CloseRuns(cfg, s, ds, nonSync, rest);
    hide Feed, Step, Digits, Number;
    FeedQuiet(cfg, s, ds, (if nonSync then [PLUS] else []) + ([CLOSE_BRACE] + rest));
  }

  lemma CloseRuns<C>(cfg: Config<C>, s: State<C>, ds: Bytes, nonSync: bool, rest: Bytes)
    requires s.phase == Literal(false) && s.buf == [] && ds != [] && forall d <- ds :: IsDigit(d)
    requires Number(ds) < U32_LIMIT && s.size + Number(ds) <= cfg.maxSize
    ensures Feed(cfg, s.(buf := ds), (if nonSync then [PLUS] else []) + ([CLOSE_BRACE] + rest))
         == Feed(cfg, s.(phase := LiteralSeek(Number(ds), nonSync)), rest)
  {
    var t, u := s.(buf := ds), s.(buf := ds, phase := Literal(nonSync));
    assert Step(cfg, t, PLUS) == (t.(phase := Literal(true)), []);
    assert Step(cfg, u, CLOSE_BRACE) == (s.(phase := LiteralSeek(Number(ds), nonSync)), []);
    hide Feed, Step, Number;
    if nonSync {
      FeedQuietStep(cfg, t, PLUS, [CLOSE_BRACE] + rest);
    } else {
      assert [] + ([CLOSE_BRACE] + rest) == [CLOSE_BRACE] + rest;
    }
    FeedQuietStep(cfg, u, CLOSE_BRACE, rest);
  }

  lemma BraceRuns<C>(cfg: Config<C>, s: State<C>, binary: bool, body: Bytes)
    requires AtRest(cfg, s)
    ensures Feed(cfg, s, (if binary then [TILDE] else []) + ([OPEN_BRACE] + body))
         == Feed(cfg, s.(phase := Literal(false)), body)
  {
    var l, t := s.(phase := Literal(false)), s.(buf := [TILDE], phase := Arg(TILDE));
    assert [] + [TILDE] == [TILDE];
    assert Step(cfg, s, TILDE) == (t, []);
    assert Step(cfg, t, OPEN_BRACE) == (l, []);
    assert Step(cfg, s, OPEN_BRACE) == (l, []);
    hide Feed, Step;
    if binary {
      FeedQuietStep(cfg, s, TILDE, [OPEN_BRACE] + body);
      FeedQuietStep(cfg, t, OPEN_BRACE, body);
    } else {
      assert [] + ([OPEN_BRACE] + body) == [OPEN_BRACE] + body;
      FeedQuietStep(cfg, s, OPEN_BRACE, body);
    }
  }

  lemma AnnounceBytes(n: nat, nonSync: bool, binary: bool, rest: Bytes)
    ensures var body := Digits(n) + ((if nonSync then [PLUS] else []) + ([CLOSE_BRACE] + ([CR] + ([LF] + rest))));
            Announce(n, nonSync, binary) + rest == (if binary then [TILDE] else []) + ([OPEN_BRACE] + body)
  {
    hide Digits;
  }

  lemma AnnounceRuns<C>(cfg: Config<C>, s: State<C>, n: nat, nonSync: bool, binary: bool, rest: Bytes)
    requires AtRest(cfg, s) && n < U32_LIMIT && s.size + n <= cfg.maxSize
    ensures Feed(cfg, s, Announce(n, nonSync, binary) + rest)
         == Feed(cfg, s.(phase := LiteralSeek(n, nonSync)), [LF] + rest)
  {
    var k := s.(phase := LiteralSeek(n, nonSync));
    var end := [CR] + ([LF] + rest);
    var body := Digits(n) + ((if nonSync then [PLUS] else []) + ([CLOSE_BRACE] + end));
    assert Step(cfg, k, CR) == (k, []);
    AnnounceBytes(n, nonSync, binary, rest);
    hide Feed, Step, Digits, Announce;
    BraceRuns(cfg, s, binary, body);
    SizeRuns(cfg, s.(phase := Literal(false)), n, nonSync, end);
    FeedQuietStep(cfg, k, CR, [LF] + rest);
  }

  lemma LitRuns<C>(cfg: Config<C>, s: State<C>, p: Piece)
    requires AtRest(cfg, s) && p.Lit? && |p.bytes| < U32_LIMIT && s.size + Cost(p) <= cfg.maxSize
    ensures Feed(cfg, s, Print(p)) == (After(s, p, SP), EventsOf(p))
  {
    var n := |p.bytes|;
    var k := s.(phase := LiteralSeek(n, p.nonSync));
    AnnounceRuns(cfg, s, n, p.nonSync, p.binary, p.bytes);
    hide Announce, Digits;
    FeedOne(cfg, k, LF);
    var t := Step(cfg, k, LF);
    assert t.1 == EventsOf(p);
    LitData(cfg, s, t.0, p);
    hide Feed, Step;
    JoinTurns(cfg, k, [LF], p.bytes, t.0, EventsOf(p), After(s, p, SP), []);
    assert EventsOf(p) + [] == EventsOf<C>(p);
  }

  lemma LitData<C>(cfg: Config<C>, s: State<C>, t: State<C>, p: Piece)
    requires AtRest(cfg, s) && p.Lit? && s.size + Cost(p) <= cfg.maxSize
    requires t == Step(cfg, s.(phase := LiteralSeek(|p.bytes|, p.nonSync)), LF).0
    ensures Feed(cfg, t, p.bytes) == (After(s, p, SP), [])
  {
    if p.bytes != [] {
      LiteralBytes(cfg, t, p.bytes);
      assert [] + p.bytes == p.bytes;
    } else {
      FeedNothing(cfg, t, p.bytes);
    }
  }

  lemma FeedNothing<C>(cfg: Config<C>, s: State<C>, none: Bytes)
    requires none == []
    ensures Feed(cfg, s, none) == (s, [])
  {
  }

  // ---- Pieces and requests ----

  /** One printed token and the space after it. */
  lemma PieceRuns<C>(cfg: Config<C>, s: State<C>, p: Piece, w: Byte)
    requires AtRest(cfg, s) && Printable(p, cfg.tokenizeBrackets(s.request.command))
    requires s.size + Cost(p) <= cfg.maxSize && IsSpace(w) && w != LF
    ensures Feed(cfg, s, Print(p) + [w]) == (After(s, p, w), EventsOf(p))
  {
    var t := Feed(cfg, s, Print(p));
    PieceBody(cfg, s, p);
    SpaceAfter(cfg, s, p, t.0, w);
    hide Feed, Step, Print, Printable;
    SplitIndependent(cfg, s, Print(p), [w]);
    FeedOne(cfg, t.0, w);
    assert EventsOf(p) + [] == EventsOf<C>(p);
  }

  /** The state once a printed token is read: an atom is still in the buffer, any
      other token is pushed. */
  ghost predicate Read<C>(s: State<C>, p: Piece, t: State<C>)
    requires s.phase.Arg? && (p.Atom? ==> p.bytes != [])
  {
    if p.Atom? then t == s.(buf := p.bytes, phase := Arg(p.bytes[|p.bytes| - 1])) && !IsSpace(t.phase.last)
    else t == After(s, p, if p.Sym? then s.phase.last else SP)
  }

  lemma SpaceAfter<C>(cfg: Config<C>, s: State<C>, p: Piece, t: State<C>, w: Byte)
    requires AtRest(cfg, s) && (p.Atom? ==> p.bytes != []) && Read(s, p, t)
    requires s.size + Cost(p) <= cfg.maxSize && IsSpace(w) && w != LF
    ensures Step(cfg, t, w) == (After(s, p, w), [])
  {
  }

  lemma PieceBody<C>(cfg: Config<C>, s: State<C>, p: Piece)
    requires AtRest(cfg, s) && Printable(p, cfg.tokenizeBrackets(s.request.command))
    requires s.size + Cost(p) <= cfg.maxSize
    ensures Feed(cfg, s, Print(p)).1 == EventsOf(p)
    ensures Read(s, p, Feed(cfg, s, Print(p)).0)
  {
    hide Feed;
    match p
    case Atom(x) => AtomRuns(cfg, s, x);
    case Str(x) => StrRuns(cfg, s, x);
    case Lit(_, _, _) => LitRuns(cfg, s, p);
    case Sym(tok) => FeedOne(cfg, s, SymByte(tok));
  }

  /** The tokens after the command, each followed by a space, the last by CR, and LF. */
  function Tail(ps: seq<Piece>): Bytes {
    if ps == [] then [LF]
    else Print(ps[0]) + [if |ps| == 1 then CR else SP] + Tail(ps[1..])
  }

  function TotalCost(ps: seq<Piece>): nat {
    if ps == [] then 0 else Cost(ps[0]) + TotalCost(ps[1..])
  }

  function TokensOf(ps: seq<Piece>): seq<Token> {
    if ps == [] then [] else [TokenOf(ps[0])] + TokensOf(ps[1..])
  }

  function AllEvents<C>(ps: seq<Piece>): seq<Event<C>> {
    if ps == [] then [] else EventsOf(ps[0]) + AllEvents(ps[1..])
  }

  predicate AllPrintable(ps: seq<Piece>, brackets: bool) {
    forall p <- ps :: Printable(p, brackets)
  }

  lemma {:induction false} TailRuns<C>(cfg: Config<C>, s: State<C>, ps: seq<Piece>)
    requires AtRest(cfg, s) && AllPrintable(ps, cfg.tokenizeBrackets(s.request.command))
    requires s.size + TotalCost(ps) <= cfg.maxSize
    ensures Feed(cfg, s, Tail(ps)).0 == Fresh(cfg)
    ensures Feed(cfg, s, Tail(ps)).1
         == AllEvents(ps) + [Complete(Finished(s, ps))]
    decreases |ps|
  {
    if ps == [] {
      TailEnd(cfg, s);
    } else {
      hide Step;
      var p, w, rest := ps[0], if |ps| == 1 then CR else SP, ps[1..];
      assert ps[0] in ps;
      PieceRuns(cfg, s, p, w);
      TailTokens(s, ps, w);
      var mid := After(s, p, w);
      assert AtRest(cfg, mid) && mid.request.command == s.request.command && mid.size == s.size + Cost(p);
      assert Tail(ps) == Print(p) + [w] + Tail(rest) && AllEvents<C>(ps) == EventsOf(p) + AllEvents(rest);
      hide Feed, Print, Printable, After, TokensOf, AtRest, Tail, AllEvents, EventsOf, Finished;
      TailRuns(cfg, mid, rest);
      var done := Complete(Finished(s, ps));
      JoinTurns(cfg, s, Print(p) + [w], Tail(rest), mid, EventsOf(p), Fresh(cfg), AllEvents(rest) + [done]);
      Associate(EventsOf<C>(p), AllEvents(rest), [done]);
    }
  }

  lemma TailEnd<C>(cfg: Config<C>, s: State<C>)
    requires AtRest(cfg, s)
    ensures Feed(cfg, s, Tail([])) == (Fresh(cfg), AllEvents([]) + [Complete(Finished(s, []))])
  {
    FeedOne(cfg, s, LF);
    assert s.request.tokens + [] == s.request.tokens;
    var done := [Complete(Finished(s, []))];
    assert AllEvents<C>([]) + done == done;
  }

  lemma JoinTurns<C>(cfg: Config<C>, s: State<C>, a: Bytes, b: Bytes,
                     t: State<C>, ea: seq<Event<C>>, u: State<C>, eb: seq<Event<C>>)
    requires Feed(cfg, s, a) == (t, ea) && Feed(cfg, t, b) == (u, eb)
    ensures Feed(cfg, s, a + b) == (u, ea + eb)
  {
    SplitIndependent(cfg, s, a, b);
  }

  /** The request a state and the tokens still to come make up. */
  function Finished<C>(s: State<C>, ps: seq<Piece>): Request<C> {
    s.request.(tokens := s.request.tokens + TokensOf(ps))
  }

  lemma TailTokens<C>(s: State<C>, ps: seq<Piece>, w: Byte)
    requires ps != []
    ensures Finished(After(s, ps[0], w), ps[1..]) == Finished(s, ps)
  {
    assert s.request.tokens + [TokenOf(ps[0])] + TokensOf(ps[1..]) == s.request.tokens + TokensOf(ps);
  }

  predicate TagByte(b: Byte) {
    b != SP && b != TAB && b != CR && b != LF
  }

  predicate TagBytes(tag: Bytes) {
    && 1 <= |tag| <= MAX_TAG && !IsSpace(tag[0])
    && forall b <- tag :: TagByte(b)
  }

  predicate CommandBytes(name: Bytes) {
    1 <= |name| <= MAX_COMMAND && name != UID && forall b <- name :: IsDigit(b) || 65 <= b <= 90
  }

  lemma {:induction false} TagRuns<C>(cfg: Config<C>, s: State<C>, x: Bytes)
    requires s.phase == Tag && |s.buf| + |x| <= MAX_TAG
    requires forall b <- x :: TagByte(b)
    ensures Feed(cfg, s, x) == (s.(buf := s.buf + x), [])
    decreases |x|
  {
    if x == [] {
      assert s.buf + [] == s.buf;
    } else {
      assert x[0] in x;
      assert x == [x[0]] + x[1..];
      FeedQuietStep(cfg, s, x[0], x[1..]);
      TagRuns(cfg, s.(buf := s.buf + [x[0]]), x[1..]);
      assert s.buf + [x[0]] + x[1..] == s.buf + x;
    }
  }

  lemma {:induction false} NameRuns<C>(cfg: Config<C>, s: State<C>, x: Bytes)
    requires s.phase.Command? && |s.buf| + |x| <= MAX_COMMAND
    requires forall b <- x :: IsDigit(b) || 65 <= b <= 90
    ensures Feed(cfg, s, x) == (s.(buf := s.buf + x), [])
    decreases |x|
  {
    if x == [] {
      assert s.buf + [] == s.buf;
    } else {
      assert x[0] in x;
      assert x == [x[0]] + x[1..];
      FeedQuietStep(cfg, s, x[0], x[1..]);
      NameRuns(cfg, s.(buf := s.buf + [x[0]]), x[1..]);
      assert s.buf + [x[0]] + x[1..] == s.buf + x;
    }
  }

  /** A command line from the command name on. */
  function CommandLine(name: Bytes, isUid: bool, ps: seq<Piece>): Bytes {
    (if isUid then UID + [SP] else []) + (name + ([if ps == [] then CR else SP] + Tail(ps)))
  }

  lemma NameLine<C>(cfg: Config<C>, s: State<C>, name: Bytes, isUid: bool, w: Byte, tail: Bytes)
    requires s.phase == Command(isUid) && s.buf == []
    requires CommandBytes(name) && cfg.parse(name, isUid).Some? && IsSpace(w) && w != LF
    ensures Feed(cfg, s, name + ([w] + tail))
         == Feed(cfg, State([], s.request.(command := cfg.parse(name, isUid).value), Arg(SP), s.size), tail)
  {
    var t := s.(buf := name);
    NameRuns(cfg, s, name);
    assert [] + name == name;
    assert Step(cfg, t, w) == (State([], s.request.(command := cfg.parse(name, isUid).value), Arg(SP), s.size), []);
    hide Feed, Step;
    FeedQuiet(cfg, s, name, [w] + tail);
    FeedQuietStep(cfg, t, w, tail);
  }

  lemma UidRuns<C>(cfg: Config<C>, s: State<C>, rest: Bytes)
    requires s.phase == Command(false) && s.buf == []
    ensures Feed(cfg, s, UID + [SP] + rest) == Feed(cfg, s.(phase := Command(true)), rest)
  {
    NameRuns(cfg, s, UID);
    assert [] + UID == UID;
    assert UID + [SP] + rest == UID + ([SP] + rest);
    FeedQuiet(cfg, s, UID, [SP] + rest);
    FeedQuietStep(cfg, s.(buf := UID), SP, rest);
  }

  /** A whole request as a client prints it: with a tag where the receiver starts
      with one, without where it starts at the command. */
  function RequestBytes<C>(cfg: Config<C>, tag: Bytes, name: Bytes, isUid: bool, ps: seq<Piece>): Bytes {
    (if cfg.start.Start? then tag + [SP] else []) + CommandLine(name, isUid, ps)
  }

  predicate PrintableRequest<C>(cfg: Config<C>, tag: Bytes, name: Bytes, isUid: bool, ps: seq<Piece>) {
    && (if cfg.start.Start? then TagBytes(tag) && cfg.validTag(tag) else cfg.start == Command(false) && tag == [])
    && CommandBytes(name) && cfg.parse(name, isUid).Some?
    && AllPrintable(ps, cfg.tokenizeBrackets(cfg.parse(name, isUid).value))
  }

  /** Round trip: a printed request within the limit yields its sync-literal prompts
      and then exactly itself, and leaves the receiver fresh. */
  lemma RoundTrip<C>(cfg: Config<C>, tag: Bytes, name: Bytes, isUid: bool, ps: seq<Piece>)
    requires PrintableRequest(cfg, tag, name, isUid, ps) && TotalCost(ps) <= cfg.maxSize
    ensures Feed(cfg, Fresh(cfg), RequestBytes(cfg, tag, name, isUid, ps)).0 == Fresh(cfg)
    ensures Feed(cfg, Fresh(cfg), RequestBytes(cfg, tag, name, isUid, ps)).1
         == AllEvents(ps) + [Complete(Request(tag, cfg.parse(name, isUid).value, TokensOf(ps)))]
  {
    hide Feed, Step, Tail, Printable, TokensOf;
    HeaderRuns(cfg, tag, name, isUid, ps);
    TailRuns(cfg, State([], Request(tag, cfg.parse(name, isUid).value, []), Arg(SP), 0), ps);
    assert [] + TokensOf(ps) == TokensOf(ps);
  }

  lemma HeaderRuns<C>(cfg: Config<C>, tag: Bytes, name: Bytes, isUid: bool, ps: seq<Piece>)
    requires PrintableRequest(cfg, tag, name, isUid, ps)
    ensures Feed(cfg, Fresh(cfg), RequestBytes(cfg, tag, name, isUid, ps))
         == Feed(cfg, State([], Request(tag, cfg.parse(name, isUid).value, []), Arg(SP), 0), Tail(ps))
  {
    var line := CommandLine(name, isUid, ps);
    var s := State([], EmptyRequest(cfg).(tag := tag), Command(false), 0);
    hide Feed, Step, Tail, Printable;
    if cfg.start.Start? {
      TagLine(cfg, tag, line);
    } else {
      assert [] + line == line;
    }
    var w, tail := if ps == [] then CR else SP, Tail(ps);
    if isUid {
      UidRuns(cfg, s, name + ([w] + tail));
    } else {
      assert [] + (name + ([w] + tail)) == name + ([w] + tail);
    }
    NameLine(cfg, s.(phase := Command(isUid)), name, isUid, w, tail);
  }


  lemma TagLine<C>(cfg: Config<C>, tag: Bytes, line: Bytes)
    requires cfg.start.Start? && TagBytes(tag) && cfg.validTag(tag)
    ensures Feed(cfg, Fresh(cfg), tag + [SP] + line)
         == Feed(cfg, State([], EmptyRequest(cfg).(tag := tag), Command(false), 0), line)
  {
    var f := Fresh(cfg);
    var s := f.(buf := [tag[0]], phase := Tag);
    assert [] + [tag[0]] == [tag[0]];
    assert tag + [SP] + line == [tag[0]] + (tag[1..] + ([SP] + line));
    FeedQuietStep(cfg, f, tag[0], tag[1..] + ([SP] + line));
    TagRuns(cfg, s, tag[1..]);
    assert [tag[0]] + tag[1..] == tag;
    FeedQuiet(cfg, s, tag[1..], [SP] + line);
    FeedQuietStep(cfg, s.(buf := tag), SP, line);
  }
}
