/** The shunting-yard parser: what one token does to the parser's state. */
module ExprParser {
  import opened Prelude
  import opened ExprSyntax

  datatype ParseError =
    | MismatchedParentheses
    | WrongArgumentCount
    | MissingArrayIndex
    | MatchesArgumentCount
    | InvalidOperatorStack
    | Panic

  /** An operator-stack entry; `jmp` is the output position of the jump to patch. */
  datatype Pending = Pending(tok: Token, jmp: Option<nat>)

  /** The code emitted so far and the operator stack. */
  datatype Work = Work(output: seq<Item>, ops: seq<Pending>)

  datatype State = State(work: Work, args: seq<int>, lastIsVar: bool)

  type Parsed = Result<State, ParseError>

  const INITIAL := State(Work([], []), [], false)

  function IncArgs(args: seq<int>): seq<int> {
    if args == [] then [] else args[|args| - 1 := args[|args| - 1] + 1]
  }

  function DecArgs(args: seq<int>): seq<int> {
    if args == [] then [] else args[|args| - 1 := args[|args| - 1] - 1]
  }

  predicate IsArrayBuild(p: Pending) {
    p.tok.Function? && p.tok.fid == ID_ARRAY_BUILD
  }

  /** Count one more element in the array literal two slots down, if there is one. */
  function BumpArray(ops: seq<Pending>): (r: seq<Pending>)
    ensures |r| == |ops|
  {
    var k := if |ops| >= 2 then |ops| - 2 else 0;
    if k < |ops| && IsArrayBuild(ops[k]) then
      ops[k := ops[k].(tok := ops[k].tok.(numArgs := ops[k].tok.numArgs + 1))]
    else ops
  }

  function CountOperand(st: State): State {
    if st.args == [] then st
    else st.(args := IncArgs(st.args), work := st.work.(ops := BumpArray(st.work.ops)))
  }

  /** Point the jump at `jmp` at the end of the output. */
  function Patch(output: seq<Item>, jmp: Option<nat>): (r: seq<Item>)
    ensures |r| == |output|
  {
    if jmp.Some? && jmp.value < |output| && output[jmp.value].JmpIf?
    then output[jmp.value := JmpIf(output[jmp.value].val, |output| - jmp.value)]
    else output
  }

  /** Does a pop loop with threshold `p` move this entry to the output? */
  predicate Yields(e: Pending, p: int) {
    e.tok.UnaryOp? || (e.tok.BinaryOp? && p <= Precedence(e.tok.bop))
  }

  function PopOne(w: Work): Work
    requires w.ops != [] && Yields(w.ops[|w.ops| - 1], 0)
  {
    var e := w.ops[|w.ops| - 1];
    var output :=
      if e.tok.UnaryOp? then w.output + [Unary(e.tok.uop)]
      else Patch(w.output, e.jmp) + [Binary(e.tok.bop)];
    Work(output, w.ops[..|w.ops| - 1])
  }

  function PopOps(w: Work, p: int): Work
    requires p >= 0
    decreases |w.ops|
  {
    if w.ops == [] || !Yields(w.ops[|w.ops| - 1], p) then w else PopOps(PopOne(w), p)
  }

  /** The end of a group: what the entry below the opening token asks for. */
  function EndGroup(w: Work, args: seq<int>): Parsed {
    if w.ops == [] then Ok(State(w, args, true))
    else
      var n, a := |w.ops| - 1, |args| - 1;
      match w.ops[n].tok
      case Function(_, fid, numArgs) =>
        if a < 0 then Err(Panic)
        else if args[a] != numArgs then
          Err(if fid != ID_ARRAY_ACCESS then WrongArgumentCount else MissingArrayIndex)
        else
          var item :=
            if fid == ID_ARRAY_ACCESS then ArrayAccess
            else if fid == ID_ARRAY_BUILD then ArrayBuild(numArgs)
            else CallFunction(fid, numArgs);
          Ok(State(Work(w.output + [item], w.ops[..n]), args[..a], true))
      case Regex(re) =>
        if a < 0 then Err(Panic)
        else if args[a] != 1 then Err(MatchesArgumentCount)
        else Ok(State(Work(w.output + [MatchRegex(re)], w.ops[..n]), args[..a], true))
      case _ => Ok(State(w, args, true))
  }

  function Close(w: Work, args: seq<int>, open: Token): Parsed {
    var done := PopOps(w, 0);
    if done.ops == [] || done.ops[|done.ops| - 1].tok != open then Err(MismatchedParentheses)
    else EndGroup(done.(ops := done.ops[..|done.ops| - 1]), args)
  }

  function PushOp(w: Work, tok: Token): Work {
    w.(ops := w.ops + [Pending(tok, None)])
  }

  /** Push an operator, after its jump if it short-circuits. */
  function PushBinary(w: Work, op: BinaryOperator): Work {
    if ShortCircuits(op)
    then Work(w.output + [JmpIf(op.Or?, 0)], w.ops + [Pending(BinaryOp(op), Some(|w.output|))])
    else PushOp(w, BinaryOp(op))
  }

  function Emit(st: State, item: Item, isVar: bool): State {
    var s := CountOperand(st);
    State(s.work.(output := s.work.output + [item]), s.args, isVar)
  }

  function OpenCall(st: State, tok: Token): State {
    var s := CountOperand(st);
    State(PushOp(s.work, tok), s.args + [0], false)
  }

  function OpenArray(st: State): State {
    if st.lastIsVar then
      State(PushOp(PushOp(st.work, Function("array", ID_ARRAY_ACCESS, 2)), OpenBracket), st.args + [1], false)
    else
      var s := OpenCall(st, Function("array", ID_ARRAY_BUILD, 0));
      s.(work := PushOp(s.work, OpenBracket))
  }

  function Step(st: State, tok: Token): Parsed {
    match tok
    case Variable(id) => Ok(Emit(st, PushVariable(id), true))
    case Constant(c) => Ok(Emit(st, PushConstant(c), false))
    case Capture(idx) => Ok(Emit(st, PushCapture(idx), false))
    case UnaryOp(_) => Ok(State(PushOp(st.work, tok), st.args, false))
    case OpenParen => Ok(State(PushOp(st.work, tok), st.args, false))
    case CloseParen => Close(st.work, st.args, OpenParen)
    case CloseBracket => Close(st.work, st.args, OpenBracket)
    case BinaryOp(op) => Ok(State(PushBinary(PopOps(st.work, Precedence(op)), op), DecArgs(st.args), false))
    case Function(_, _, _) => Ok(OpenCall(st, tok))
    case Regex(_) => Ok(OpenCall(st, tok))
    case OpenBracket => Ok(OpenArray(st))
    case Comma => Ok(State(PopOps(st.work, 0), st.args, false))
  }

  function Run(st: State, toks: seq<Token>): Parsed
    decreases |toks|
  {
    if toks == [] then Ok(st)
    else
      var r := Step(st, toks[0]);
      if r.Err? then r else Run(r.value, toks[1..])
  }

  function Finish(w: Work): Result<seq<Item>, ParseError> {
    var done := PopOps(w, 0);
    if done.ops == [] then Ok(done.output) else Err(InvalidOperatorStack)
  }

  function Parse(toks: seq<Token>): Result<seq<Item>, ParseError> {
    var r := Run(INITIAL, toks);
    if r.Err? then Err(r.error) else Finish(r.value.work)
  }

  lemma {:induction false} RunConcat(st: State, a: seq<Token>, b: seq<Token>)
    ensures Run(st, a + b) == if Run(st, a).Err? then Run(st, a) else Run(Run(st, a).value, b)
    decreases |a|
  {
    if a == [] {
      assert a + b == b;
    } else {
      assert (a + b)[1..] == a[1..] + b;
      if Step(st, a[0]).Ok? { RunConcat(Step(st, a[0]).value, a[1..], b); }
    }
  }
}
