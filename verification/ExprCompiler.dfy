/** Parsing a printed tree yields the tree's compiled code, for exactly the accepted trees. */
module ExprCompiler {
  import opened Prelude
  import opened ExprSyntax
  import opened ExprParser

  /** Postfix code of a tree, with every jump resolved. */
  function Compile(e: Expr): seq<Item> {
    match e
    case Var(id) => [PushVariable(id)]
    case Const(c) => [PushConstant(c)]
    case Capt(idx) => [PushCapture(idx)]
    case Call(_, fid, arity, args) => CompileAll(args) + [CallFunction(fid, arity)]
    case Matches(re, arg) => Compile(arg) + [MatchRegex(re)]
    case Arr(elems) => CompileAll(elems) + [ArrayBuild(Len(elems))]
    case Index(base, index) => Compile(base) + Compile(index) + [ArrayAccess]
    case Paren(x) => Compile(x)
    case Un(op, x) => Compile(x) + [Unary(op)]
    case Bin(op, l, r) => Compile(l) + Jump(op, 1 + |Compile(r)|) + Compile(r) + [Binary(op)]
  }

  function CompileAll(es: Exprs): seq<Item> {
    match es
    case Nil => []
    case Cons(head, tail) => Compile(head) + CompileAll(tail)
  }

  function Jump(op: BinaryOperator, pos: nat): seq<Item> {
    if ShortCircuits(op) then [JmpIf(op.Or?, pos)] else []
  }

  predicate EndsVar(e: Expr) {
    match e
    case Const(_) | Capt(_) => false
    case Un(_, x) => EndsVar(x)
    case Bin(_, _, r) => EndsVar(r)
    case _ => true
  }

  /** Where an operand may start: no call head directly below, and no operator
      that the tree's own loosest operator would pop. */
  predicate Fits(st: State, e: Expr) {
    !st.lastIsVar && (st.work.ops != [] ==> Below(st.work.ops[|st.work.ops| - 1], e))
  }

  predicate Below(top: Pending, e: Expr) {
    && !top.tok.Function? && !top.tok.Regex?
    && (e.Bin? ==> !Yields(top, Precedence(e.bop)))
  }

  function Bumped(st: State, e: Expr): seq<Pending> {
    if StartsPlain(e) && st.args != [] then BumpArray(st.work.ops) else st.work.ops
  }

  /** The tree's code complete, its operators gone from the stack. */
  function Done(st: State, e: Expr): Work {
    Work(st.work.output + Compile(e), Bumped(st, e))
  }

  /** Every pop loop that may follow takes `w` where it would take `done`: the
      operators still pending in `w` all yield to thresholds up to `b`. */
  ghost predicate Settles(w: Work, done: Work, b: int) {
    forall p | 0 <= p <= b :: PopOps(w, p) == PopOps(done, p)
  }

  /** What the tokens of a tree do to the parser. */
  ghost predicate Runs(st: State, e: Expr, w: Work) {
    if Accepted(e)
    then
      && Run(st, Print(e)) == Ok(State(w, IncArgs(st.args), EndsVar(e)))
      && Settles(w, Done(st, e), Binding(e))
      && (Indexable(e) ==> w == Done(st, e))
    else Run(st, Print(e)) == Err(WrongArgumentCount)
  }

  /** What the tokens of a tree without pending operators do. */
  predicate RunsAtom(st: State, e: Expr) {
    if Accepted(e)
    then Run(st, Print(e)) == Ok(State(Done(st, e), IncArgs(st.args), true))
    else Run(st, Print(e)) == Err(WrongArgumentCount)
  }

  lemma BumpBelow(ops: seq<Pending>, top: Pending)
    requires !IsArrayBuild(top)
    requires ops != [] ==> !IsArrayBuild(ops[|ops| - 1])
    ensures BumpArray(ops + [top]) == ops + [top]
  {
  }

  lemma BumpKeepsTop(ops: seq<Pending>)
    requires ops != [] && !ops[|ops| - 1].tok.Function?
    ensures BumpArray(ops)[|ops| - 1] == ops[|ops| - 1]
  {
  }

  lemma RunOne(st: State, t: Token, rest: seq<Token>)
    ensures Run(st, [t] + rest) == if Step(st, t).Err? then Step(st, t) else Run(Step(st, t).value, rest)
  {
    assert ([t] + rest)[1..] == rest;
  }

  lemma RunLast(st: State, t: Token)
    ensures Run(st, [t]) == Step(st, t)
  {
    RunOne(st, t, []);
    assert [t] + [] == [t];
  }

  ghost function Size(e: Expr): nat {
    match e
    case Var(_) | Const(_) | Capt(_) => 0
    case Call(_, _, _, args) => 1 + SizeAll(args)
    case Matches(_, arg) => 3 + Size(arg)
    case Arr(elems) => 1 + SizeAll(elems)
    case Index(base, index) => 1 + Size(base) + Size(index)
    case Paren(x) => 1 + Size(x)
    case Un(_, x) => 1 + Size(x)
    case Bin(_, l, r) => 1 + Size(l) + Size(r)
  }

  ghost function SizeAll(es: Exprs): nat {
    match es
    case Nil => 0
    case Cons(head, tail) => 1 + Size(head) + SizeAll(tail)
  }

  /** The central invariant of the shunting-yard: from any state the tree fits in,
      its tokens complete its code up to the pending operators, or fail when the
      tree is not accepted. */
  lemma {:induction false} RunExpr(e: Tree, st: State) returns (w: Work)
    requires Fits(st, e)
    ensures Runs(st, e, w)
    decreases Size(e), 1
  {
    match e
    case Var(id) => RunLast(st, Variable(id)); w := Done(st, e);
    case Const(c) => RunLast(st, Constant(c)); w := Done(st, e);
    case Capt(idx) => RunLast(st, Capture(idx)); w := Done(st, e);
    case Call(_, _, _, _) => RunCall(e, st); w := Done(st, e);
    case Matches(_, _) => RunMatches(e, st); w := Done(st, e);
    case Arr(_) => RunArray(e, st); w := Done(st, e);
    case Index(_, _) => RunIndex(e, st); w := Done(st, e);
    case Paren(_) => RunParen(e, st); w := Done(st, e);
    case Un(_, _) => w := RunUnary(e, st);
    case Bin(_, _, _) => w := RunBinary(e, st);
  }

  lemma {:induction false} RunUnary(e: Tree, st: State) returns (w: Work)
    requires e.Un? && Fits(st, e)
    ensures Runs(st, e, w)
    decreases Size(e), 0
  {
    var s := State(PushOp(st.work, UnaryOp(e.uop)), st.args, false);
    RunOne(st, UnaryOp(e.uop), Print(e.e));
    w := RunExpr(e.e, s);
    if Accepted(e) {
      BumpBelow(st.work.ops, Pending(UnaryOp(e.uop), None));
      forall p | 0 <= p <= Binding(e) ensures PopOps(w, p) == PopOps(Done(st, e), p) {
        PopUnary(Done(s, e.e), st.work.ops, e.uop, p);
        assert Done(s, e.e).output + [Unary(e.uop)] == Done(st, e).output;
      }
    }
  }

  lemma PopUnary(w: Work, ops: seq<Pending>, op: UnaryOperator, p: nat)
    requires w.ops == ops + [Pending(UnaryOp(op), None)]
    ensures PopOps(w, p) == PopOps(Work(w.output + [Unary(op)], ops), p)
  {
    assert w.ops[..|w.ops| - 1] == ops;
  }

  lemma {:induction false} RunBinary(e: Tree, st: State) returns (w: Work)
    requires e.Bin? && Fits(st, e)
    ensures Runs(st, e, w)
    decreases Size(e), 0
  {
    var op, l, r := e.bop, e.l, e.r;
    RunConcat(st, Print(l), [BinaryOp(op)] + Print(r));
    w := RunExpr(l, st);
    if Accepted(l) {
      var s := RunOperator(st, e, w);
      w := RunExpr(r, s);
      if Accepted(r) { SettleBinary(st, e, s, w); }
    }
  }

  lemma SettleBinary(st: State, e: Tree, s: State, w: Work)
    requires e.Bin? && Settles(w, Done(s, e.r), Binding(e.r))
    requires Bumped(s, e.r) == Bumped(st, e) + [Operator(e.bop, |Done(st, e.l).output|)]
    requires s.work.output == st.work.output + Compile(e.l) + Jump(e.bop, 0)
    ensures Settles(w, Done(st, e), Binding(e))
  {
    var out, left, right := st.work.output, Compile(e.l), Compile(e.r);
    forall p | 0 <= p <= Binding(e) ensures PopOps(w, p) == PopOps(Done(st, e), p) {
      PopBinary(out, left, right, Bumped(st, e), e.bop, p);
      assert Done(s, e.r).output == out + left + Jump(e.bop, 0) + right;
    }
  }

  /** A binary operator completes its left operand and goes no further down the stack. */
  lemma RunOperator(st: State, e: Tree, w: Work) returns (s: State)
    requires e.Bin? && Fits(st, e) && Accepted(e.l) && Runs(st, e.l, w)
    ensures Run(State(w, IncArgs(st.args), EndsVar(e.l)), [BinaryOp(e.bop)] + Print(e.r)) == Run(s, Print(e.r))
    ensures s.args == st.args && Fits(s, e.r)
    ensures Bumped(s, e.r) == Bumped(st, e) + [Operator(e.bop, |Done(st, e.l).output|)]
    ensures s.work.output == st.work.output + Compile(e.l) + Jump(e.bop, 0)
  {
    var done := Done(st, e.l);
    StopsBelow(st, e);
    DecInc(st.args);
    s := State(PushBinary(done, e.bop), st.args, false);
    StepBinary(w, done, IncArgs(st.args), EndsVar(e.l), e.bop, Print(e.r));
    OperatorPushed(done, e.bop, st.args, e.r);
  }

  lemma DecInc(args: seq<int>)
    ensures DecArgs(IncArgs(args)) == args
  {
  }

  lemma OperatorPushed(done: Work, op: BinaryOperator, args: seq<int>, r: Expr)
    requires done.ops != [] ==> !IsArrayBuild(done.ops[|done.ops| - 1])
    requires Binding(r) > Precedence(op)
    ensures var s := State(PushBinary(done, op), args, false);
            && Fits(s, r) && Bumped(s, r) == done.ops + [Operator(op, |done.output|)]
            && s.work.output == done.output + Jump(op, 0)
  {
    BumpBelow(done.ops, Operator(op, |done.output|));
  }

  lemma StopsBelow(st: State, e: Tree)
    requires e.Bin? && Fits(st, e)
    ensures PopOps(Done(st, e.l), Precedence(e.bop)) == Done(st, e.l)
    ensures var ops := Done(st, e.l).ops; ops != [] ==> !IsArrayBuild(ops[|ops| - 1])
  {
    if st.work.ops != [] { BumpKeepsTop(st.work.ops); }
  }

  lemma StepBinary(w: Work, done: Work, args: seq<int>, isVar: bool, op: BinaryOperator, rest: seq<Token>)
    requires PopOps(w, Precedence(op)) == done
    ensures Run(State(w, args, isVar), [BinaryOp(op)] + rest)
         == Run(State(PushBinary(done, op), DecArgs(args), false), rest)
  {
    RunOne(State(w, args, isVar), BinaryOp(op), rest);
  }

  function Operator(op: BinaryOperator, at: nat): Pending {
    Pending(BinaryOp(op), if ShortCircuits(op) then Some(at) else None)
  }

  /** Popping a short-circuit operator points its jump past the operator. */
  lemma PopBinary(out: seq<Item>, left: seq<Item>, right: seq<Item>, ops: seq<Pending>, op: BinaryOperator, p: nat)
    requires p <= Precedence(op)
    ensures PopOps(Work(out + left + Jump(op, 0) + right, ops + [Operator(op, |out + left|)]), p)
         == PopOps(Work(out + (left + Jump(op, 1 + |right|) + right + [Binary(op)]), ops), p)
  {
    var w := Work(out + left + Jump(op, 0) + right, ops + [Operator(op, |out + left|)]);
    assert w.ops[..|w.ops| - 1] == ops;
    if ShortCircuits(op) { assert w.output[|out + left|] == JmpIf(op.Or?, 0); }
    assert PopOne(w).output == out + (left + Jump(op, 1 + |right|) + right + [Binary(op)]);
  }

  /** A closing token after settled work, in a group opened on top of `below`. */
  lemma CloseGroup(w: Work, done: Work, args: seq<int>, below: seq<Pending>, open: Token)
    requires open.OpenParen? || open.OpenBracket?
    requires PopOps(w, 0) == PopOps(done, 0) && done.ops == below + [Pending(open, None)]
    ensures Close(w, args, open) == EndGroup(Work(done.output, below), args)
  {
    assert PopOps(done, 0) == done;
    assert done.ops[..|done.ops| - 1] == below;
  }

  lemma RunClose(st: State, a: seq<Token>, open: Token, close: Token)
    requires (open.OpenParen? && close.CloseParen?) || (open.OpenBracket? && close.CloseBracket?)
    ensures Run(st, a + [close]) == if Run(st, a).Err? then Run(st, a) else Close(Run(st, a).value.work, Run(st, a).value.args, open)
  {
    RunConcat(st, a, [close]);
    if Run(st, a).Ok? { RunLast(Run(st, a).value, close); }
  }

  /** One tree and its closing token. */
  lemma RunGroup(s: State, x: Tree, w: Work, below: seq<Pending>, open: Token, close: Token)
    requires (open.OpenParen? && close.CloseParen?) || (open.OpenBracket? && close.CloseBracket?)
    requires Runs(s, x, w) && s.work.ops == below + [Pending(open, None)]
    requires below != [] ==> !IsArrayBuild(below[|below| - 1])
    ensures Accepted(x) ==>
              Run(s, Print(x) + [close]) == EndGroup(Work(s.work.output + Compile(x), below), IncArgs(s.args))
    ensures !Accepted(x) ==> Run(s, Print(x) + [close]) == Err(WrongArgumentCount)
  {
    RunClose(s, Print(x), open, close);
    if Accepted(x) {
      BumpBelow(below, Pending(open, None));
      CloseGroup(w, Done(s, x), IncArgs(s.args), below, open);
    }
  }

  lemma {:induction false} RunParen(e: Tree, st: State)
    requires e.Paren? && Fits(st, e)
    ensures RunsAtom(st, e)
    decreases Size(e), 0
  {
    var s := State(PushOp(st.work, OpenParen), st.args, false);
    RunOne(st, OpenParen, Print(e.e) + [CloseParen]);
    assert Run(st, Print(e)) == Run(s, Print(e.e) + [CloseParen]);
    var w := RunExpr(e.e, s);
    RunGroup(s, e.e, w, st.work.ops, OpenParen, CloseParen);
  }

  lemma {:induction false} RunIndex(e: Tree, st: State)
    requires e.Index? && Fits(st, e)
    ensures RunsAtom(st, e)
    decreases Size(e), 0
  {
    RunBase(e.base, st);
    if Accepted(e.base) {
      var s1 := OpenSubscript(State(Done(st, e.base), IncArgs(st.args), true), Print(e.index) + [CloseBracket]);
      var w := RunExpr(e.index, s1);
      JoinIndex(e, st, s1, w);
    } else {
      RunConcat(st, Print(e.base), [OpenBracket] + (Print(e.index) + [CloseBracket]));
    }
  }

  lemma JoinIndex(e: Tree, st: State, s1: State, w: Work)
    requires e.Index? && Accepted(e.base) && RunsAtom(st, e.base)
    requires s1.args == IncArgs(st.args) + [1]
    requires s1.work == InSubscript(Done(st, e.base))
    requires Run(State(Done(st, e.base), IncArgs(st.args), true), [OpenBracket] + (Print(e.index) + [CloseBracket]))
          == Run(s1, Print(e.index) + [CloseBracket])
    requires Runs(s1, e.index, w)
    ensures RunsAtom(st, e)
  {
    RunConcat(st, Print(e.base), [OpenBracket] + (Print(e.index) + [CloseBracket]));
    CloseSubscript(State(Done(st, e.base), IncArgs(st.args), true), s1, e.index, w);
    DoneIndex(st, e);
  }

  lemma DoneIndex(st: State, e: Expr)
    requires e.Index?
    ensures Done(st, e) == Work(Done(st, e.base).output + Compile(e.index) + [ArrayAccess], Done(st, e.base).ops)
  {
    assert st.work.output + Compile(e) == st.work.output + Compile(e.base) + Compile(e.index) + [ArrayAccess];
  }

  function InSubscript(w: Work): Work {
    Work(w.output, w.ops + [Pending(Function("array", ID_ARRAY_ACCESS, 2), None)] + [Pending(OpenBracket, None)])
  }

  lemma {:induction false} RunBase(b: Tree, st: State)
    requires Indexable(b) && Fits(st, b)
    ensures RunsAtom(st, b)
    decreases Size(b), 2
  {
    var w := RunExpr(b, st);
  }

  lemma OpenSubscript(s: State, rest: seq<Token>) returns (s1: State)
    requires s.lastIsVar
    ensures s1.args == s.args + [1] && !s1.lastIsVar
    ensures s1.work == InSubscript(s.work)
    ensures Run(s, [OpenBracket] + rest) == Run(s1, rest)
  {
    s1 := OpenArray(s);
    RunOne(s, OpenBracket, rest);
  }

  lemma CloseSubscript(s: State, s1: State, i: Tree, w: Work)
    requires s1.args == s.args + [1] && s1.work == InSubscript(s.work)
    requires Runs(s1, i, w)
    ensures var r := Run(s1, Print(i) + [CloseBracket]);
            if Accepted(i)
            then r == Ok(State(Work(s.work.output + Compile(i) + [ArrayAccess], s.work.ops), s.args, true))
            else r == Err(WrongArgumentCount)
  {
    var f := Function("array", ID_ARRAY_ACCESS, 2);
    var ops := s.work.ops + [Pending(f, None)];
    RunGroup(s1, i, w, ops, OpenBracket, CloseBracket);
    assert IncArgs(s1.args) == s.args + [2];
    EndGroupOf(Work(s.work.output + Compile(i), ops), s.work.ops, s.args, f, 2);
  }

  function HeadItem(head: Token): Item
    requires head.Function? || head.Regex?
  {
    if head.Regex? then MatchRegex(head.re)
    else if head.fid == ID_ARRAY_ACCESS then ArrayAccess
    else if head.fid == ID_ARRAY_BUILD then ArrayBuild(head.numArgs)
    else CallFunction(head.fid, head.numArgs)
  }

  function Complaint(head: Token): ParseError {
    if head.Regex? then MatchesArgumentCount
    else if head.Function? && head.fid == ID_ARRAY_ACCESS then MissingArrayIndex
    else WrongArgumentCount
  }

  lemma EndGroupOf(w: Work, ops: seq<Pending>, args: seq<int>, head: Token, n: int)
    requires head.Function? || head.Regex?
    requires w.ops == ops + [Pending(head, None)]
    ensures if n == Expected(head)
            then EndGroup(w, args + [n]) == Ok(State(Work(w.output + [HeadItem(head)], ops), args, true))
            else EndGroup(w, args + [n]) == Err(Complaint(head))
  {
    assert w.ops[..|ops|] == ops && (args + [n])[..|args|] == args;
  }

  /** In a list: the opening token is on top of a call or array entry. */
  predicate InList(st: State) {
    && !st.lastIsVar && st.args != [] && |st.work.ops| >= 2
    && (st.work.ops[|st.work.ops| - 1].tok.OpenParen? || st.work.ops[|st.work.ops| - 1].tok.OpenBracket?)
  }

  /** The state after a list and the pops of the token that follows it: each element
      is counted in `args`, and those that start plainly in the array entry too. */
  function AfterAll(st: State, es: Exprs): State
    requires InList(st)
  {
    var n, k := |st.args| - 1, |st.work.ops| - 2;
    var ops := if IsArrayBuild(st.work.ops[k]) then BumpBy(st.work.ops, k, PlainCount(es)) else st.work.ops;
    State(Work(st.work.output + CompileAll(es), ops), st.args[n := st.args[n] + Len(es)], false)
  }

  function BumpBy(ops: seq<Pending>, k: nat, n: nat): seq<Pending>
    requires k < |ops| && IsArrayBuild(ops[k])
  {
    ops[k := ops[k].(tok := ops[k].tok.(numArgs := ops[k].tok.numArgs + n))]
  }

  predicate RunsAll(st: State, es: Exprs)
    requires InList(st)
  {
    var r := Run(st, PrintAll(es));
    if AcceptedAll(es)
    then r.Ok? && State(PopOps(r.value.work, 0), r.value.args, false) == AfterAll(st, es)
    else r == Err(WrongArgumentCount)
  }

  lemma {:induction false} RunHead(h: Tree, st: State)
    requires InList(st)
    ensures PrintAll(Cons(h, Nil)) == Print(h) && AcceptedAll(Cons(h, Nil)) == Accepted(h)
    ensures RunsAll(st, Cons(h, Nil))
    decreases Size(h), 2
  {
    var w := RunExpr(h, st);
    OneElement(h);
    SingleElement(st, h);
    DoneSettled(st, h);
    hide Print, PrintAll, Accepted, AcceptedAll, PopOps, AfterAll, Done, Run, Grammatical, Size;
  }

  lemma OneElement(h: Expr)
    ensures PrintAll(Cons(h, Nil)) == Print(h) && AcceptedAll(Cons(h, Nil)) == Accepted(h)
  {
  }

  lemma DoneSettled(st: State, h: Expr)
    requires InList(st)
    ensures PopOps(Done(st, h), 0) == Done(st, h)
  {
    BumpKeepsTop(st.work.ops);
  }

  lemma SingleElement(st: State, h: Expr)
    requires InList(st)
    ensures AfterAll(st, Cons(h, Nil)) == State(Done(st, h), IncArgs(st.args), false)
  {
    var k := |st.work.ops| - 2;
    assert CompileAll(Cons(h, Nil)) == Compile(h);
    assert PlainCount(Cons(h, Nil)) == if StartsPlain(h) then 1 else 0;
    if IsArrayBuild(st.work.ops[k]) { assert BumpBy(st.work.ops, k, 0) == st.work.ops; }
  }

  lemma {:induction false} RunAll(es: Trees, st: State)
    requires InList(st)
    ensures RunsAll(st, es)
    decreases SizeAll(es), 0
  {
    match es
    case Nil =>
      assert st.work.output + [] == st.work.output;
    case Cons(h, t) =>
      RunHead(h, st);
      if t.Cons? {
        ListCons(h, t);
        AfterAllCons(st, h, t);
        RunConcat(st, Print(h), [Comma] + PrintAll(t));
        hide Print, PrintAll, Accepted, AcceptedAll, AfterAll, PopOps, Run, Compile, InList;
        if Accepted(h) {
          var r, s := Run(st, Print(h)).value, AfterAll(st, Cons(h, Nil));
          RunOne(r, Comma, PrintAll(t));
          assert Step(r, Comma) == Ok(s);
          RunAll(t, s);
        }
      }
  }

  lemma ListCons(h: Expr, t: Exprs)
    requires t.Cons?
    ensures PrintAll(Cons(h, t)) == Print(h) + ([Comma] + PrintAll(t))
    ensures AcceptedAll(Cons(h, t)) == (Accepted(h) && AcceptedAll(t))
  {
  }

  lemma AfterAllCons(st: State, h: Expr, t: Exprs)
    requires InList(st)
    ensures InList(AfterAll(st, Cons(h, Nil)))
    ensures AfterAll(AfterAll(st, Cons(h, Nil)), t) == AfterAll(st, Cons(h, t))
  {
    var one, k := AfterAll(st, Cons(h, Nil)), |st.work.ops| - 2;
    SingleElement(st, h);
    assert one.args[|st.args| - 1] == st.args[|st.args| - 1] + 1;
    assert one.work.ops[k + 1] == st.work.ops[k + 1];
    if IsArrayBuild(st.work.ops[k]) {
      assert BumpBy(one.work.ops, k, PlainCount(t)) == BumpBy(st.work.ops, k, PlainCount(Cons(h, t)));
    }
    Associate(st.work.output, Compile(h), CompileAll(t));
    hide Compile, PlainCount;
  }

  /** The entry below a list's opening token once the list's elements are counted. */
  function Counted(head: Token, es: Exprs): Token {
    if head.Function? && head.fid == ID_ARRAY_BUILD
    then head.(numArgs := head.numArgs + PlainCount(es)) else head
  }

  function Expected(head: Token): int {
    if head.Function? then head.numArgs else 1
  }

  /** A closing token after a list: the call or array entry below is completed or refused. */
  lemma CloseList(st: State, ops: seq<Pending>, args: seq<int>, es: Exprs, open: Token, close: Token, head: Token)
    requires (open.OpenParen? && close.CloseParen?) || (open.OpenBracket? && close.CloseBracket?)
    requires head.Function? || head.Regex?
    requires st.work.ops == ops + [Pending(head, None), Pending(open, None)] && st.args == args + [0]
    requires InList(st) && RunsAll(st, es)
    ensures var full, got := Counted(head, es), Run(st, PrintAll(es) + [close]);
            if AcceptedAll(es) && Len(es) == Expected(full)
            then got == Ok(State(Work(st.work.output + CompileAll(es) + [HeadItem(full)], ops), args, true))
            else got == Err(if AcceptedAll(es) then Complaint(head) else WrongArgumentCount)
  {
    RunClose(st, PrintAll(es), open, close);
    if AcceptedAll(es) {
      CloseCounted(st, ops, args, es, Run(st, PrintAll(es)).value, open, head);
    }
  }

  lemma CloseCounted(st: State, ops: seq<Pending>, args: seq<int>, es: Exprs, r: State, open: Token, head: Token)
    requires open.OpenParen? || open.OpenBracket?
    requires head.Function? || head.Regex?
    requires st.work.ops == ops + [Pending(head, None), Pending(open, None)] && st.args == args + [0]
    requires InList(st) && State(PopOps(r.work, 0), r.args, false) == AfterAll(st, es)
    ensures var full, got := Counted(head, es), Close(r.work, r.args, open);
            if Len(es) == Expected(full)
            then got == Ok(State(Work(st.work.output + CompileAll(es) + [HeadItem(full)], ops), args, true))
            else got == Err(Complaint(head))
  {
    var full, a := Counted(head, es), AfterAll(st, es);
    var below := ops + [Pending(full, None)];
    CountedOps(st, ops, es, open, head);
    assert a.args == args + [Len(es)];
    assert PopOps(a.work, 0) == a.work;
    CloseGroup(r.work, a.work, r.args, below, open);
    EndGroupOf(Work(a.work.output, below), ops, args, full, Len(es));
  }

  lemma CountedOps(st: State, ops: seq<Pending>, es: Exprs, open: Token, head: Token)
    requires st.work.ops == ops + [Pending(head, None), Pending(open, None)] && InList(st)
    ensures AfterAll(st, es).work.ops == (ops + [Pending(Counted(head, es), None)]) + [Pending(open, None)]
  {
    assert st.work.ops[|ops|] == Pending(head, None);
  }

  lemma OpenListHead(st: State, f: Token, inner: seq<Token>) returns (s: State)
    requires f.Function? || f.Regex?
    ensures InList(s) && s.work.output == st.work.output
    ensures Run(st, [f, OpenParen] + (inner + [CloseParen])) == Run(s, inner + [CloseParen])
    ensures s.work.ops == CountOperand(st).work.ops + [Pending(f, None), Pending(OpenParen, None)]
    ensures s.args == CountOperand(st).args + [0]
  {
    var c := OpenCall(st, f);
    s := State(PushOp(c.work, OpenParen), c.args, false);
    assert [f, OpenParen] + (inner + [CloseParen]) == [f] + ([OpenParen] + (inner + [CloseParen]));
    RunOne(st, f, [OpenParen] + (inner + [CloseParen]));
    RunOne(c, OpenParen, inner + [CloseParen]);
  }

  lemma {:induction false} RunCall(e: Tree, st: State)
    requires e.Call? && Fits(st, e)
    ensures RunsAtom(st, e)
    decreases Size(e), 0
  {
    var f := Function(e.name, e.fid, e.arity);
    var s := OpenListHead(st, f, PrintAll(e.args));
    RunAll(e.args, s);
    CloseList(s, Bumped(st, e), IncArgs(st.args), e.args, OpenParen, CloseParen, f);
    assert st.work.output + CompileAll(e.args) + [CallFunction(e.fid, e.arity)] == st.work.output + Compile(e);
  }

  lemma {:induction false} RunMatches(e: Tree, st: State)
    requires e.Matches? && Fits(st, e)
    ensures RunsAtom(st, e)
    decreases Size(e), 0
  {
    var es := Cons(e.arg, Nil);
    var s := OpenListHead(st, Regex(e.re), Print(e.arg));
    RunHead(e.arg, s);
    CloseList(s, Bumped(st, e), IncArgs(st.args), es, OpenParen, CloseParen, Regex(e.re));
    assert CompileAll(es) == Compile(e.arg) + [] == Compile(e.arg) && Len(es) == 1;
    assert PrintAll(es) == Print(e.arg) && AcceptedAll(es) == Accepted(e.arg);
    assert st.work.output + CompileAll(es) + [MatchRegex(e.re)] == st.work.output + Compile(e);
  }

  lemma {:induction false} RunArray(e: Tree, st: State)
    requires e.Arr? && Fits(st, e)
    ensures RunsAtom(st, e)
    decreases Size(e), 0
  {
    var s := OpenArray(st);
    var f := Function("array", ID_ARRAY_BUILD, 0);
    assert s.work.ops == Bumped(st, e) + [Pending(f, None), Pending(OpenBracket, None)];
    RunOne(st, OpenBracket, PrintAll(e.elems) + [CloseBracket]);
    assert Run(st, Print(e)) == Run(s, PrintAll(e.elems) + [CloseBracket]);
    RunAll(e.elems, s);
    CloseList(s, Bumped(st, e), IncArgs(st.args), e.elems, OpenBracket, CloseBracket, f);
    assert st.work.output + CompileAll(e.elems) + [ArrayBuild(Len(e.elems))] == st.work.output + Compile(e);
  }

  /** The parser compiles exactly the accepted trees of the grammar. */
  lemma ParsePrinted(e: Tree)
    ensures Accepted(e) ==> Parse(Print(e)) == Ok(Compile(e))
    ensures !Accepted(e) ==> Parse(Print(e)) == Err(WrongArgumentCount)
  {
    var w := RunExpr(e, INITIAL);
    if Accepted(e) {
      assert Done(INITIAL, e) == Work(Compile(e), []) by { assert [] + Compile(e) == Compile(e); }
      assert PopOps(w, 0) == Work(Compile(e), []);
    }
  }

  /** `[(x)]` is refused: the element is not counted. */
  lemma GroupedElementRefused(id: nat)
    ensures Parse([OpenBracket, OpenParen, Variable(id), CloseParen, CloseBracket]) == Err(WrongArgumentCount)
  {
    var x := Var(id);
    var p := Paren(x);
    var e := Arr(Cons(p, Nil));
    assert Grammatical(x) && Grammatical(p) && GrammaticalAll(Cons(p, Nil));
    assert Print(x) == [Variable(id)] && Print(p) == [OpenParen] + (Print(x) + [CloseParen]);
    OneElement(p);
    assert !StartsPlain(p) && PlainCount(Cons(p, Nil)) == 0;
    assert Print(e) == [OpenBracket, OpenParen, Variable(id), CloseParen, CloseBracket];
    ParsePrinted(e);
  }
}
