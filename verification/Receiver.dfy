/** The incremental request receiver: a byte machine with quoted strings, literals,
    size accounting and error recovery. */
module Receiver {
  import opened Prelude

  type Byte = b: int | 0 <= b < 256

  type Bytes = seq<Byte>

  const SP: Byte := 32
  const TAB: Byte := 9
  const CR: Byte := 13
  const LF: Byte := 10
  const QUOTE: Byte := 34
  const BACKSLASH: Byte := 92
  const OPEN_BRACE: Byte := 123
  const CLOSE_BRACE: Byte := 125
  const PLUS: Byte := 43
  const TILDE: Byte := 126
  const UID: Bytes := [85, 73, 68]

  const MAX_TAG := 128
  const MAX_COMMAND := 15
  const MAX_QUOTED := 1024
  const U32_LIMIT := 0x1_0000_0000

  predicate IsSpace(b: Byte) {
    b == SP || b == TAB || b == LF || b == 12 || b == CR
  }

  predicate IsDigit(b: Byte) {
    48 <= b <= 57
  }

  predicate IsAlphanumeric(b: Byte) {
    IsDigit(b) || 65 <= b <= 90 || 97 <= b <= 122
  }

  function ToUpper(b: Byte): Byte {
    if 97 <= b <= 122 then b - 32 else b
  }

  datatype Token =
    | Argument(bytes: Bytes)
    | ParenthesisOpen | ParenthesisClose
    | BracketOpen | BracketClose
    | Lt | Gt | Dot
    | Nil

  datatype Phase =
    | Start
    | Tag
    | Command(isUid: bool)
    | Arg(last: Byte)
    | Quoted(escaped: bool)
    | Literal(nonSync: bool)
    | LiteralSeek(size: nat, nonSync: bool)
    | LiteralData(remaining: nat)

  datatype Request<C> = Request(tag: Bytes, command: C, tokens: seq<Token>)

  /** The command table and the receiver's settings. */
  datatype Config<!C> = Config(
    parse: (Bytes, bool) -> Option<C>,
    tokenizeBrackets: C -> bool,
    noCommand: C,
    validTag: Bytes -> bool,
    start: Phase,
    maxSize: nat
  )

  datatype Failure =
    | InvalidTag | MissingCommand | TagTooLong
    | CommandTooLong | UnknownCommand | InvalidCommandChar
    | RequestTooBig
    | QuotedTooLong | UnterminatedQuote
    | BadLiteralSize | LiteralTooBig | EmptyLiteral | InvalidNonSync | InvalidLiteral
    | ExpectedNewline

  datatype Event<C> =
    | Complete(request: Request<C>)
    | NeedsLiteral(size: nat)
    | Failed(tag: Bytes, why: Failure)

  /** The receiver's mutable state. */
  datatype State<C> = State(buf: Bytes, request: Request<C>, phase: Phase, size: nat)

  type Turn<C> = (State<C>, seq<Event<C>>)

  function EmptyRequest<C>(cfg: Config<C>): Request<C> {
    Request([], cfg.noCommand, [])
  }

  function Fresh<C>(cfg: Config<C>): State<C> {
    State([], EmptyRequest(cfg), cfg.start, 0)
  }

  function Fail<C>(cfg: Config<C>, s: State<C>, why: Failure): Turn<C> {
    (Fresh(cfg), [Failed(s.request.tag, why)])
  }

  function Go<C>(s: State<C>, phase: Phase): Turn<C> {
    (s.(phase := phase), [])
  }

  function Keep<C>(s: State<C>, b: Byte, phase: Phase): Turn<C> {
    (s.(buf := s.buf + [b], phase := phase), [])
  }

  function AddToken<C>(s: State<C>, t: Token): State<C> {
    s.(request := s.request.(tokens := s.request.tokens + [t]))
  }

  /** Does pushing the buffered argument exceed the limit? */
  predicate ArgumentOverflows<C>(cfg: Config<C>, s: State<C>) {
    s.buf != [] && s.size + |s.buf| > cfg.maxSize
  }

  /** The buffered argument pushed; an empty quoted string is a Nil token. */
  function PushArgument<C>(s: State<C>, inQuote: bool): State<C> {
    if s.buf != [] then AddToken(s, Argument(s.buf)).(buf := [], size := s.size + |s.buf|)
    else if inQuote then AddToken(s, Nil)
    else s
  }

  function PushToken<C>(cfg: Config<C>, s: State<C>, t: Token): Turn<C> {
    if s.size + 1 > cfg.maxSize then Fail(cfg, s, RequestTooBig)
    else (AddToken(s, t).(size := s.size + 1), [])
  }

  /** Push the buffered argument, then a structural token. */
  function Punctuate<C>(cfg: Config<C>, s: State<C>, t: Token): Turn<C> {
    if ArgumentOverflows(cfg, s) then Fail(cfg, s, RequestTooBig)
    else PushToken(cfg, PushArgument(s, false), t)
  }

  /** Push the buffered argument, then enter a phase. */
  function FlushTo<C>(cfg: Config<C>, s: State<C>, inQuote: bool, phase: Phase): Turn<C> {
    if ArgumentOverflows(cfg, s) then Fail(cfg, s, RequestTooBig)
    else Go(PushArgument(s, inQuote), phase)
  }

  /** The request is handed out; the buffer is left as it is. */
  function Completed<C>(cfg: Config<C>, s: State<C>): Turn<C> {
    (s.(request := EmptyRequest(cfg), phase := cfg.start, size := 0), [Complete(s.request)])
  }

  function StepTag<C>(cfg: Config<C>, s: State<C>, b: Byte): Turn<C> {
    if b == SP then
      if s.buf == [] then (s, [])
      else if !cfg.validTag(s.buf) then Fail(cfg, s, InvalidTag)
      else (s.(buf := [], request := s.request.(tag := s.buf), phase := Command(false)), [])
    else if b == TAB || b == CR then (s, [])
    else if b == LF then Fail(cfg, s, MissingCommand)
    else if |s.buf| < MAX_TAG then Keep(s, b, Tag)
    else Fail(cfg, s, TagTooLong)
  }

  function StepCommand<C>(cfg: Config<C>, s: State<C>, b: Byte, isUid: bool): Turn<C> {
    if IsAlphanumeric(b) then
      if |s.buf| < MAX_COMMAND then Keep(s, ToUpper(b), s.phase) else Fail(cfg, s, CommandTooLong)
    else if IsSpace(b) then
      if s.buf == [] then (s, [])
      else if s.buf == UID then (s.(buf := [], phase := Command(true)), [])
      else
        var c := cfg.parse(s.buf, isUid);
        if c.None? then Fail(cfg, s, UnknownCommand)
        else
          var r := s.request.(command := c.value);
          if b == LF then Completed(cfg, s.(buf := [], request := r))
          else (s.(buf := [], request := r, phase := Arg(SP)), [])
    else Fail(cfg, s, InvalidCommandChar)
  }

  /** The structural token a byte stands for. */
  function Punctuation(b: Byte, brackets: bool): Option<Token> {
    if b == 40 then Some(ParenthesisOpen)
    else if b == 41 then Some(ParenthesisClose)
    else if !brackets then None
    else if b == 91 then Some(BracketOpen)
    else if b == 93 then Some(BracketClose)
    else if b == 60 then Some(Lt)
    else if b == 62 then Some(Gt)
    else if b == 46 then Some(Dot)
    else None
  }

  function StepArg<C>(cfg: Config<C>, s: State<C>, b: Byte, last: Byte): Turn<C> {
    var p := Punctuation(b, cfg.tokenizeBrackets(s.request.command));
    if b == QUOTE && IsSpace(last) then FlushTo(cfg, s, false, Quoted(false))
    else if b == OPEN_BRACE && IsSpace(last) then FlushTo(cfg, s, false, Literal(false))
    else if b == OPEN_BRACE && last == TILDE && |s.buf| == 1 then Go(s.(buf := []), Literal(false))
    else if p.Some? then Punctuate(cfg, s, p.value)
    else if b == LF then
      if ArgumentOverflows(cfg, s) then Fail(cfg, s, RequestTooBig)
      else Completed(cfg, PushArgument(s, false))
    else if IsSpace(b) then FlushTo(cfg, s, false, Arg(b))
    else Keep(s, b, Arg(b))
  }

  function StepQuoted<C>(cfg: Config<C>, s: State<C>, b: Byte, escaped: bool): Turn<C> {
    if b == QUOTE then
      if !escaped then FlushTo(cfg, s, true, Arg(SP))
      else if |s.buf| < MAX_QUOTED then Keep(s, b, Quoted(false))
      else Fail(cfg, s, QuotedTooLong)
    else if b == BACKSLASH then
      if escaped then Keep(s, b, Quoted(false)) else Go(s, Quoted(true))
    else if b == LF then Fail(cfg, s, UnterminatedQuote)
    else if |s.buf| < MAX_QUOTED then
      if escaped then Keep(s.(buf := s.buf + [BACKSLASH]), b, Quoted(false)) else Keep(s, b, Quoted(false))
    else Fail(cfg, s, QuotedTooLong)
  }

  /** The number a string of digits denotes. */
  function Number(digits: Bytes): nat
    requires forall d <- digits :: IsDigit(d)
  {
    if digits == [] then 0
    else
      var last: int := digits[|digits| - 1];
      assert IsDigit(digits[|digits| - 1]);
      Number(digits[..|digits| - 1]) * 10 + (last - 48)
  }

  function StepLiteral<C>(cfg: Config<C>, s: State<C>, b: Byte, nonSync: bool): Turn<C> {
    if b == CLOSE_BRACE then
      if s.buf == [] then Fail(cfg, s, EmptyLiteral)
      else if (exists d <- s.buf :: !IsDigit(d)) || Number(s.buf) >= U32_LIMIT then Fail(cfg, s, BadLiteralSize)
      else if s.size + Number(s.buf) > cfg.maxSize then Fail(cfg, s, LiteralTooBig)
      else Go(s.(buf := []), LiteralSeek(Number(s.buf), nonSync))
    else if b == PLUS then
      if s.buf == [] then Fail(cfg, s, InvalidNonSync) else Go(s, Literal(true))
    else if IsDigit(b) && !nonSync then Keep(s, b, s.phase)
    else Fail(cfg, s, InvalidLiteral)
  }

  function StepSeek<C>(cfg: Config<C>, s: State<C>, b: Byte, size: nat, nonSync: bool): Turn<C> {
    if b == LF then
      var t := if size > 0 then Go(s, LiteralData(size)) else PushToken(cfg, s.(phase := Arg(SP)), Nil);
      if nonSync || t.1 != [] then t else (t.0, [NeedsLiteral(size)])
    else if IsSpace(b) then (s, [])
    else Fail(cfg, s, ExpectedNewline)
  }

  function StepData<C>(cfg: Config<C>, s: State<C>, b: Byte, remaining: nat): Turn<C> {
    var k := s.(buf := s.buf + [b]);
    if remaining > 1 then Go(k, LiteralData(remaining - 1)) else FlushTo(cfg, k, false, Arg(SP))
  }

  /** What one byte does. */
  function Step<C>(cfg: Config<C>, s: State<C>, b: Byte): Turn<C> {
    match s.phase
    case Start => if IsSpace(b) then (s, []) else Keep(s, b, Tag)
    case Tag => StepTag(cfg, s, b)
    case Command(isUid) => StepCommand(cfg, s, b, isUid)
    case Arg(last) => StepArg(cfg, s, b, last)
    case Quoted(escaped) => StepQuoted(cfg, s, b, escaped)
    case Literal(nonSync) => StepLiteral(cfg, s, b, nonSync)
    case LiteralSeek(size, nonSync) => StepSeek(cfg, s, b, size, nonSync)
    case LiteralData(remaining) => StepData(cfg, s, b, remaining)
  }

  /** What a run of bytes does: the final state and the events, in order. */
  function Feed<C>(cfg: Config<C>, s: State<C>, bytes: Bytes): Turn<C>
    decreases |bytes|
  {
    if bytes == [] then (s, [])
    else
      var t := Step(cfg, s, bytes[0]);
      var u := Feed(cfg, t.0, bytes[1..]);
      (u.0, t.1 + u.1)
  }

  /** How the bytes are cut into reads does not matter. */
  lemma {:induction false} SplitIndependent<C>(cfg: Config<C>, s: State<C>, a: Bytes, b: Bytes)
    ensures Feed(cfg, s, a + b)
         == var t := Feed(cfg, s, a); var u := Feed(cfg, t.0, b); (u.0, t.1 + u.1)
    decreases |a|
  {
    if a == [] {
      assert a + b == b;
      assert [] + Feed(cfg, s, b).1 == Feed(cfg, s, b).1;
    } else {
      assert (a + b)[1..] == a[1..] + b;
      var first := Step(cfg, s, a[0]);
      SplitIndependent(cfg, first.0, a[1..], b);
      var t := Feed(cfg, first.0, a[1..]);
      assert first.1 + (t.1 + Feed(cfg, t.0, b).1) == (first.1 + t.1) + Feed(cfg, t.0, b).1;
    }
  }

  lemma FeedOne<C>(cfg: Config<C>, s: State<C>, b: Byte)
    ensures Feed(cfg, s, [b]) == Step(cfg, s, b)
  {
    assert [b][1..] == [];
    assert Step(cfg, s, b).1 + [] == Step(cfg, s, b).1;
  }

  /** After a completed request or a failure nothing of the past is left. */
  lemma EndsFresh<C>(cfg: Config<C>, s: State<C>, b: Byte)
    requires exists e <- Step(cfg, s, b).1 :: !e.NeedsLiteral?
    ensures Step(cfg, s, b).0 == Fresh(cfg)
  {
  }

  /** A stream that has just completed or failed a request goes on as a new stream would. */
  lemma HistoryIndependent<C>(cfg: Config<C>, a: Bytes, b: Byte, rest: Bytes)
    requires exists e <- Step(cfg, Feed(cfg, Fresh(cfg), a).0, b).1 :: !e.NeedsLiteral?
    ensures Feed(cfg, Fresh(cfg), a + [b] + rest).0 == Feed(cfg, Fresh(cfg), rest).0
    ensures Feed(cfg, Fresh(cfg), a + [b] + rest).1
         == Feed(cfg, Fresh(cfg), a + [b]).1 + Feed(cfg, Fresh(cfg), rest).1
  {
    var s := Feed(cfg, Fresh(cfg), a).0;
    SplitIndependent(cfg, Fresh(cfg), a, [b]);
    FeedOne(cfg, s, b);
    EndsFresh(cfg, s, b);
    SplitIndependent(cfg, Fresh(cfg), a + [b], rest);
  }
}
