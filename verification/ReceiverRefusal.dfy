/** Printed requests over the size limit are refused: with RoundTrip, a printed
    request is answered by itself exactly when it is within the limit. */
module ReceiverRefusal {
  import opened Receiver
  import opened ReceiverRoundTrip

  /** The first event is a size failure for the request's tag. */
  ghost predicate Refused<C>(s: State<C>, events: seq<Event<C>>) {
    |events| > 0 && (events[0] == Failed(s.request.tag, RequestTooBig) || events[0] == Failed(s.request.tag, LiteralTooBig))
  }

  lemma RefusedPrefix<C>(cfg: Config<C>, s: State<C>, a: Bytes, b: Bytes)
    requires Refused(s, Feed(cfg, s, a).1)
    ensures Refused(s, Feed(cfg, s, a + b).1)
  {
    SplitIndependent(cfg, s, a, b);
  }

  /** A quiet run leads to a byte that fails. */
  lemma RefusedAt<C>(cfg: Config<C>, s: State<C>, a: Bytes, t: State<C>, b: Byte)
    requires Feed(cfg, s, a) == (t, []) && t.request.tag == s.request.tag && Refused(s, Step(cfg, t, b).1)
    ensures Refused(s, Feed(cfg, s, a + [b]).1)
  {
    hide Feed, Step;
    SplitIndependent(cfg, s, a, [b]);
    FeedOne(cfg, t, b);
  }

  lemma StrRefused<C>(cfg: Config<C>, s: State<C>, x: Bytes)
    requires AtRest(cfg, s) && LF !in x && QuotedFits(x, 0) && s.size + |x| > cfg.maxSize
    ensures Refused(s, Feed(cfg, s, Print(Str(x))).1)
  {
    var q := s.(phase := Quoted(false));
    assert Step(cfg, s, QUOTE) == (q, []);
    assert Refused(s, Step(cfg, q.(buf := x), QUOTE).1);
    QuotedBody(cfg, q, x);
    assert [] + x == x;
    hide Feed, Step, Escape, QuotedFits;
    FeedQuietStep(cfg, s, QUOTE, Escape(x) + [QUOTE]);
    RefusedAt(cfg, q, Escape(x), q.(buf := x), QUOTE);
  }

  /** A literal too big for the room left fails where its size is closed. */
  lemma SizeRefused<C>(cfg: Config<C>, s: State<C>, n: nat, nonSync: bool, rest: Bytes)
    requires s.phase == Literal(false) && s.buf == [] && n < U32_LIMIT && s.size + n > cfg.maxSize
    ensures Refused(s, Feed(cfg, s, Digits(n) + ((if nonSync then [PLUS] else []) + ([CLOSE_BRACE] + rest))).1)
  {
    var ds := Digits(n);
    DigitsRun(cfg, s, ds);
    assert [] + ds == ds;
    CloseRefused(cfg, s, ds, nonSync, rest);
    hide Feed, Step, Digits, Number;
    FeedQuiet(cfg, s, ds, (if nonSync then [PLUS] else []) + ([CLOSE_BRACE] + rest));
  }

  lemma CloseRefused<C>(cfg: Config<C>, s: State<C>, ds: Bytes, nonSync: bool, rest: Bytes)
    requires s.phase == Literal(false) && s.buf == [] && ds != [] && forall d <- ds :: IsDigit(d)
    requires Number(ds) < U32_LIMIT && s.size + Number(ds) > cfg.maxSize
    ensures Refused(s, Feed(cfg, s.(buf := ds), (if nonSync then [PLUS] else []) + ([CLOSE_BRACE] + rest)).1)
  {
    var t, u := s.(buf := ds), s.(buf := ds, phase := Literal(nonSync));
    assert Step(cfg, t, PLUS) == (t.(phase := Literal(true)), []);
    assert Refused(s, Step(cfg, u, CLOSE_BRACE).1);
    hide Feed, Step, Number;
    if nonSync {
      FeedQuietStep(cfg, t, PLUS, [CLOSE_BRACE] + rest);
    } else {
      assert [] + ([CLOSE_BRACE] + rest) == [CLOSE_BRACE] + rest;
    }
    FeedThen(cfg, u, CLOSE_BRACE, rest);
  }

  lemma LitRefused<C>(cfg: Config<C>, s: State<C>, p: Piece)
    requires AtRest(cfg, s) && p.Lit? && |p.bytes| < U32_LIMIT && s.size + Cost(p) > cfg.maxSize
    ensures Refused(s, Feed(cfg, s, Print(p)).1)
  {
    if p.bytes == [] { EmptyLitRefused(cfg, s, p); } else { FullLitRefused(cfg, s, p); }
  }

  lemma FullLitRefused<C>(cfg: Config<C>, s: State<C>, p: Piece)
    requires AtRest(cfg, s) && p.Lit? && |p.bytes| < U32_LIMIT && s.size + |p.bytes| > cfg.maxSize
    ensures Refused(s, Feed(cfg, s, Print(p)).1)
  {
    hide Feed, Step, Digits;
    var end := [CR] + ([LF] + p.bytes);
    var body := Digits(|p.bytes|) + ((if p.nonSync then [PLUS] else []) + ([CLOSE_BRACE] + end));
    assert Print(p) == (if p.binary then [TILDE] else []) + ([OPEN_BRACE] + body);
    hide Print, Announce;
    BraceRuns(cfg, s, p.binary, body);
    SizeRefused(cfg, s.(phase := Literal(false)), |p.bytes|, p.nonSync, end);
  }

  lemma EmptyLitRefused<C>(cfg: Config<C>, s: State<C>, p: Piece)
    requires AtRest(cfg, s) && p.Lit? && p.bytes == [] && s.size + 1 > cfg.maxSize
    ensures Refused(s, Feed(cfg, s, Print(p)).1)
  {
    var k := s.(phase := LiteralSeek(0, p.nonSync));
    assert Refused(s, Step(cfg, k, LF).1);
    hide Feed, Step, Digits, Announce;
    AnnounceRuns(cfg, s, 0, p.nonSync, p.binary, p.bytes);
    FeedThen(cfg, k, LF, p.bytes);
  }

  lemma PieceRefused<C>(cfg: Config<C>, s: State<C>, p: Piece, w: Byte)
    requires AtRest(cfg, s) && Printable(p, cfg.tokenizeBrackets(s.request.command))
    requires s.size + Cost(p) > cfg.maxSize && IsSpace(w) && w != LF
    ensures Refused(s, Feed(cfg, s, Print(p) + [w]).1)
  {
    if p.Atom? {
      AtomRuns(cfg, s, p.bytes);
      var t := s.(buf := p.bytes, phase := Arg(p.bytes[|p.bytes| - 1]));
      assert Refused(s, Step(cfg, t, w).1);
      RefusedAt(cfg, s, Print(p), t, w);
    } else {
      if p.Str? {
        StrRefused(cfg, s, p.bytes);
      } else if p.Lit? {
        LitRefused(cfg, s, p);
      } else {
        FeedOne(cfg, s, SymByte(p.tok));
      }
      hide Feed, Step, Print;
      RefusedPrefix(cfg, s, Print(p), [w]);
    }
  }

  /** Over the limit, the first event after the prompts of some leading pieces is a
      size failure. */
  ghost predicate RefusedAfter<C>(s: State<C>, ps: seq<Piece>, events: seq<Event<C>>, j: nat) {
    j <= |ps| && AllEvents(ps[..j]) <= events && Refused(s, events[|AllEvents<C>(ps[..j])|..])
  }

  lemma {:induction false} TailRefused<C>(cfg: Config<C>, s: State<C>, ps: seq<Piece>) returns (j: nat)
    requires AtRest(cfg, s) && AllPrintable(ps, cfg.tokenizeBrackets(s.request.command))
    requires s.size + TotalCost(ps) > cfg.maxSize
    ensures RefusedAfter(s, ps, Feed(cfg, s, Tail(ps)).1, j)
    decreases |ps|
  {
    var p, w, rest := ps[0], if |ps| == 1 then CR else SP, ps[1..];
    assert ps[0] in ps;
    var events := Feed(cfg, s, Tail(ps)).1;
    if s.size + Cost(p) > cfg.maxSize {
      PieceRefused(cfg, s, p, w);
      hide Feed, Step, Print, Printable, Cost;
      RefusedPrefix(cfg, s, Print(p) + [w], Tail(rest));
      j := 0;
      assert ps[..0] == [] && events[0..] == events;
    } else {
      PieceRuns(cfg, s, p, w);
      var mid := After(s, p, w);
      assert AtRest(cfg, mid) && mid.request.tag == s.request.tag && mid.request.command == s.request.command;
      hide Feed, Step, Print, Printable, AtRest;
      var i := TailRefused(cfg, mid, rest);
      SplitIndependent(cfg, s, Print(p) + [w], Tail(rest));
      j := i + 1;
      ShiftRefused(mid, s, p, ps, Feed(cfg, mid, Tail(rest)).1, i);
    }
  }

  lemma ShiftRefused<C>(mid: State<C>, s: State<C>, p: Piece, ps: seq<Piece>, events: seq<Event<C>>, i: nat)
    requires ps != [] && p == ps[0] && mid.request.tag == s.request.tag && RefusedAfter(mid, ps[1..], events, i)
    ensures RefusedAfter(s, ps, EventsOf(p) + events, i + 1)
  {
    var es := AllEvents<C>(ps[1..][..i]);
    assert ps[..i + 1][1..] == ps[1..][..i];
    assert AllEvents<C>(ps[..i + 1]) == EventsOf(p) + es;
    assert (EventsOf(p) + events)[|EventsOf<C>(p) + es|..] == events[|es|..];
  }

  /** A printed request is answered by itself if and only if its tokens fit the limit;
      otherwise the first event that is not a prompt is a size failure. */
  lemma AnsweredIffFits<C>(cfg: Config<C>, tag: Bytes, name: Bytes, isUid: bool, ps: seq<Piece>) returns (j: nat)
    requires PrintableRequest(cfg, tag, name, isUid, ps)
    ensures j <= |ps|
    ensures var events := Feed(cfg, Fresh(cfg), RequestBytes(cfg, tag, name, isUid, ps)).1;
            && AllEvents(ps[..j]) <= events && |events| > |AllEvents<C>(ps[..j])|
            && var e := events[|AllEvents<C>(ps[..j])|];
               if TotalCost(ps) <= cfg.maxSize
               then j == |ps| && e == Complete(Request(tag, cfg.parse(name, isUid).value, TokensOf(ps)))
               else e == Failed(tag, RequestTooBig) || e == Failed(tag, LiteralTooBig)
  {
    if TotalCost(ps) <= cfg.maxSize {
      RoundTrip(cfg, tag, name, isUid, ps);
      j := |ps|;
      assert ps[..j] == ps;
    } else {
      var s2 := State([], Request(tag, cfg.parse(name, isUid).value, []), Arg(SP), 0);
      HeaderRuns(cfg, tag, name, isUid, ps);
      j := TailRefused(cfg, s2, ps);
    }
  }
}
