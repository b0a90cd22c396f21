/** The receiver as the object that updates its buffer, request, phase and size byte by byte. */
module ReceiverObject {
  import opened Prelude
  import opened Receiver
  import opened ReceiverSafety

  class RequestReceiver<C> {
    const cfg: Config<C>
    var buf: Bytes
    var request: Request<C>
    var phase: Phase
    var currentRequestSize: nat

    function Now(): State<C>
      reads this
    {
      State(buf, request, phase, currentRequestSize)
    }

    ghost predicate Valid()
      reads this
    {
      ValidStart(cfg) && Invariant(cfg, Now())
    }

    constructor (cfg: Config<C>)
      requires ValidStart(cfg)
      ensures this.cfg == cfg && Valid() && Now() == Fresh(cfg)
    {
      this.cfg := cfg;
      buf, request, phase, currentRequestSize := [], EmptyRequest(cfg), cfg.start, 0;
    }

    method ErrorReset(why: Failure) returns (e: Event<C>)
      modifies this
      ensures (Now(), [e]) == Fail(cfg, old(Now()), why)
    {
      e := Failed(request.tag, why);
      request := EmptyRequest(cfg);
      buf, phase, currentRequestSize := [], cfg.start, 0;
    }

    /** Moves the buffer to the token list; false when that exceeds the limit. */
    method TakeArgument(inQuote: bool) returns (ok: bool)
      modifies this`buf, this`request, this`currentRequestSize
      ensures ok <==> !ArgumentOverflows(cfg, old(Now()))
      ensures ok ==> Now() == PushArgument(old(Now()), inQuote)
      ensures !ok ==> request == old(request)
    {
      ok := true;
      if |buf| > 0 {
        currentRequestSize := currentRequestSize + |buf|;
        if currentRequestSize > cfg.maxSize {
          return false;
        }
        request := request.(tokens := request.tokens + [Argument(buf)]);
        buf := [];
      } else if inQuote {
        request := request.(tokens := request.tokens + [Nil]);
      }
    }

    method AppendToken(t: Token) returns (ok: bool)
      modifies this`request, this`currentRequestSize
      ensures ok <==> currentRequestSize <= cfg.maxSize
      ensures currentRequestSize == old(currentRequestSize) + 1
      ensures request == if ok then AddToken(old(Now()), t).request else old(request)
    {
      currentRequestSize := currentRequestSize + 1;
      ok := currentRequestSize <= cfg.maxSize;
      if ok {
        request := request.(tokens := request.tokens + [t]);
      }
    }

    /** The request done: hand it out and start over. The buffer is empty by now. */
    method Finish() returns (e: Event<C>)
      requires buf == []
      modifies this`request, this`phase, this`currentRequestSize
      ensures Now() == Fresh(cfg) && e == Complete(old(request))
    {
      e := Complete(request);
      request := EmptyRequest(cfg);
      phase, currentRequestSize := cfg.start, 0;
    }

    method AcceptTag(b: Byte) returns (event: Option<Event<C>>)
      requires phase.Tag?
      modifies this
      ensures (Now(), Listed(event)) == StepTag(cfg, old(Now()), b)
    {
      event := None;
      var why := None;
      if b == SP {
        if |buf| > 0 {
          if cfg.validTag(buf) {
            request := request.(tag := buf);
            buf, phase := [], Command(false);
          } else {
            why := Some(InvalidTag);
          }
        }
      } else if b == LF {
        why := Some(MissingCommand);
      } else if b != TAB && b != CR {
        if |buf| < MAX_TAG {
          buf := buf + [b];
        } else {
          why := Some(TagTooLong);
        }
      }
      if why.Some? {
        var e := ErrorReset(why.value);
        event := Some(e);
      }
    }

    method AcceptCommand(b: Byte) returns (event: Option<Event<C>>)
      requires phase.Command?
      modifies this
      ensures (Now(), Listed(event)) == StepCommand(cfg, old(Now()), b, old(phase).isUid)
    {
      event := None;
      var why := None;
      if IsAlphanumeric(b) {
        if |buf| < MAX_COMMAND {
          buf := buf + [ToUpper(b)];
        } else {
          why := Some(CommandTooLong);
        }
      } else if IsSpace(b) {
        if |buf| > 0 {
          if buf != UID {
            var c := cfg.parse(buf, phase.isUid);
            if c.None? {
              why := Some(UnknownCommand);
            } else {
              request := request.(command := c.value);
              buf := [];
              if b != LF {
                phase := Arg(SP);
              } else {
                var e := Finish();
                return Some(e);
              }
            }
          } else {
            buf, phase := [], Command(true);
          }
        }
      } else {
        why := Some(InvalidCommandChar);
      }
      if why.Some? {
        var e := ErrorReset(why.value);
        event := Some(e);
      }
    }

    method AcceptArg(b: Byte) returns (event: Option<Event<C>>)
      requires phase.Arg?
      modifies this
      ensures (Now(), Listed(event)) == StepArg(cfg, old(Now()), b, old(phase).last)
    {
      event := None;
      var last, ok := phase.last, true;
      var p := Punctuation(b, cfg.tokenizeBrackets(request.command));
      if b == QUOTE && IsSpace(last) {
        ok := TakeArgument(false);
        phase := Quoted(false);
      } else if b == OPEN_BRACE && IsSpace(last) {
        ok := TakeArgument(false);
        phase := Literal(false);
      } else if b == OPEN_BRACE && last == TILDE && |buf| == 1 {
        buf, phase := [], Literal(false);
      } else if p.Some? {
        ok := TakeArgument(false);
        if ok {
          ok := AppendToken(p.value);
        }
      } else if b == LF {
        ok := TakeArgument(false);
        if ok {
          var e := Finish();
          return Some(e);
        }
      } else if IsSpace(b) {
        ok := TakeArgument(false);
        phase := Arg(b);
      } else {
        buf, phase := buf + [b], Arg(b);
      }
      if !ok {
        var e := ErrorReset(RequestTooBig);
        event := Some(e);
      }
    }

    method AcceptQuoted(b: Byte) returns (event: Option<Event<C>>)
      requires phase.Quoted?
      modifies this
      ensures (Now(), Listed(event)) == StepQuoted(cfg, old(Now()), b, old(phase).escaped)
    {
      event := None;
      var escaped, why := phase.escaped, None;
      if b == QUOTE {
        if !escaped {
          var ok := TakeArgument(true);
          phase := Arg(SP);
          if !ok {
            why := Some(RequestTooBig);
          }
        } else if |buf| < MAX_QUOTED {
          buf, phase := buf + [b], Quoted(false);
        } else {
          why := Some(QuotedTooLong);
        }
      } else if b == BACKSLASH {
        if escaped {
          buf := buf + [b];
        }
        phase := Quoted(!escaped);
      } else if b == LF {
        why := Some(UnterminatedQuote);
      } else if |buf| < MAX_QUOTED {
        if escaped {
          buf := buf + [BACKSLASH];
        }
        buf, phase := buf + [b], Quoted(false);
      } else {
        why := Some(QuotedTooLong);
      }
      if why.Some? {
        var e := ErrorReset(why.value);
        event := Some(e);
      }
    }

    /** The buffer holds only digits here, so reading it as a number cannot panic. */
    method AcceptLiteral(b: Byte) returns (event: Option<Event<C>>)
      requires Valid() && phase.Literal?
      modifies this
      ensures (Now(), Listed(event)) == StepLiteral(cfg, old(Now()), b, old(phase).nonSync)
    {
      event := None;
      var nonSync, why := phase.nonSync, None;
      if b == CLOSE_BRACE {
        if |buf| > 0 {
          assert AllDigits(buf);
          var size := Number(buf);
          if size >= U32_LIMIT {
            why := Some(BadLiteralSize);
          } else if currentRequestSize + size > cfg.maxSize {
            why := Some(LiteralTooBig);
          } else {
            buf, phase := [], LiteralSeek(size, nonSync);
          }
        } else {
          why := Some(EmptyLiteral);
        }
      } else if b == PLUS {
        if |buf| > 0 {
          phase := Literal(true);
        } else {
          why := Some(InvalidNonSync);
        }
      } else if IsDigit(b) && !nonSync {
        buf := buf + [b];
      } else {
        why := Some(InvalidLiteral);
      }
      if why.Some? {
        var e := ErrorReset(why.value);
        event := Some(e);
      }
    }

    method AcceptSeek(b: Byte) returns (event: Option<Event<C>>)
      requires phase.LiteralSeek?
      modifies this
      ensures (Now(), Listed(event)) == StepSeek(cfg, old(Now()), b, old(phase).size, old(phase).nonSync)
    {
      event := None;
      var size, nonSync := phase.size, phase.nonSync;
      if b == LF {
        if size > 0 {
          phase := LiteralData(size);
        } else {
          phase := Arg(SP);
          var ok := AppendToken(Nil);
          if !ok {
            var e := ErrorReset(RequestTooBig);
            return Some(e);
          }
        }
        if !nonSync {
          event := Some(NeedsLiteral(size));
        }
      } else if !IsSpace(b) {
        var e := ErrorReset(ExpectedNewline);
        event := Some(e);
      }
    }

    method AcceptData(b: Byte) returns (event: Option<Event<C>>)
      requires phase.LiteralData?
      modifies this
      ensures (Now(), Listed(event)) == StepData(cfg, old(Now()), b, old(phase).remaining)
    {
      event := None;
      buf := buf + [b];
      if phase.remaining > 1 {
        phase := LiteralData(phase.remaining - 1);
      } else {
        var ok := TakeArgument(false);
        phase := Arg(SP);
        if !ok {
          var e := ErrorReset(RequestTooBig);
          event := Some(e);
        }
      }
    }

    method Accept(b: Byte) returns (event: Option<Event<C>>)
      requires Valid()
      modifies this
      ensures Valid() && (Now(), Listed(event)) == Step(cfg, old(Now()), b)
    {
      StepOk(cfg, Now(), b);
      hide Invariant;
      event := None;
      match phase
      case Start =>
        if !IsSpace(b) {
          buf, phase := buf + [b], Tag;
        }
      case Tag => event := AcceptTag(b);
      case Command(_) => event := AcceptCommand(b);
      case Arg(_) => event := AcceptArg(b);
      case Quoted(_) => event := AcceptQuoted(b);
      case Literal(_) => event := AcceptLiteral(b);
      case LiteralSeek(_, _) => event := AcceptSeek(b);
      case LiteralData(_) => event := AcceptData(b);
    }

    /** Reads bytes from position `from` up to the first event; no event means the
        bytes ran out and more are needed. */
    method Parse(bytes: Bytes, from: nat) returns (event: Option<Event<C>>, next: nat)
      requires Valid() && from <= |bytes|
      modifies this
      ensures Valid() && from <= next <= |bytes|
      ensures event.None? ==> next == |bytes|
      ensures event.Some? ==> from < next
      ensures Feed(cfg, old(Now()), bytes[from..next]) == (Now(), Listed(event))
    {
      hide Invariant;
      next := from;
      while next < |bytes|
        invariant Valid() && from <= next <= |bytes|
        invariant Feed(cfg, old(Now()), bytes[from..next]) == (Now(), [])
      {
        ghost var before := Now();
        event := Accept(bytes[next]);
        FeedSnoc(cfg, old(Now()), bytes[from..next], before, bytes[next]);
        assert bytes[from..next] + [bytes[next]] == bytes[from..next + 1];
        next := next + 1;
        if event.Some? {
          return;
        }
      }
      event := None;
    }

    /** One read from the connection: parse until more data is needed. However the
        stream is cut into reads, the events are those of the whole stream. */
    method ReadChunk(chunk: Bytes) returns (events: seq<Event<C>>)
      requires Valid()
      modifies this
      ensures Valid() && (Now(), events) == Feed(cfg, old(Now()), chunk)
    {
      hide Invariant;
      events := [];
      var at := 0;
      while at < |chunk|
        invariant Valid() && at <= |chunk|
        invariant Feed(cfg, old(Now()), chunk[..at]) == (Now(), events)
      {
        ghost var before, start := Now(), at;
        var event;
        event, at := Parse(chunk, at);
        SplitIndependent(cfg, old(Now()), chunk[..start], chunk[start..at]);
        assert chunk[..start] + chunk[start..at] == chunk[..at];
        events := events + Listed(event);
        if event.None? { break; }
      }
      assert chunk[..at] == chunk;
    }
  }

  /** Two receivers in the same state: one reads two chunks, the other reads both at once. They
      report the same events and end in the same state. */
  method ReadTwice<C>(r: RequestReceiver<C>, whole: RequestReceiver<C>, a: Bytes, b: Bytes)
    returns (first: seq<Event<C>>, second: seq<Event<C>>, all: seq<Event<C>>)
    requires r != whole && r.Valid() && whole.Valid() && r.cfg == whole.cfg && r.Now() == whole.Now()
    modifies r, whole
    ensures r.Now() == whole.Now() && first + second == all
  {
    SplitIndependent(r.cfg, r.Now(), a, b);
    hide Feed;
    first := r.ReadChunk(a);
    second := r.ReadChunk(b);
    all := whole.ReadChunk(a + b);
  }

  function Listed<C>(event: Option<Event<C>>): seq<Event<C>> {
    if event.Some? then [event.value] else []
  }

  lemma FeedSnoc<C>(cfg: Config<C>, s: State<C>, a: Bytes, t: State<C>, b: Byte)
    requires Feed(cfg, s, a) == (t, [])
    ensures Feed(cfg, s, a + [b]) == Step(cfg, t, b)
  {
    hide Step;
    SplitIndependent(cfg, s, a, [b]);
    FeedOne(cfg, t, b);
    assert [] + Step(cfg, t, b).1 == Step(cfg, t, b).1;
  }
}
