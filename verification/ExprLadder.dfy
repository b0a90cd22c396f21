/** The grammar of expressions as a ladder of levels, with the operators of each level by name. */
module ExprLadder {
  import opened Prelude
  import opened ExprSyntax
  import opened ExprParser
  import opened ExprCompiler
  import opened ExprMachine

  // ---- The levels, loosest first; each takes the next tighter one on the right ----

  predicate IsOr(e: Expr)
    decreases e, 7
  {
    if e.Bin? && e.bop.Or? then IsOr(e.l) && IsAnd(e.r) else IsAnd(e)
  }

  predicate IsAnd(e: Expr)
    decreases e, 6
  {
    if e.Bin? && e.bop.And? then IsAnd(e.l) && IsXor(e.r) else IsXor(e)
  }

  predicate IsXor(e: Expr)
    decreases e, 5
  {
    if e.Bin? && e.bop.Xor? then IsXor(e.l) && IsEquality(e.r) else IsEquality(e)
  }

  predicate IsEquality(e: Expr)
    decreases e, 4
  {
    if e.Bin? && (e.bop.Eq? || e.bop.Ne?) then IsEquality(e.l) && IsComparison(e.r) else IsComparison(e)
  }

  predicate IsComparison(e: Expr)
    decreases e, 3
  {
    if e.Bin? && (e.bop.Lt? || e.bop.Le? || e.bop.Gt? || e.bop.Ge?) then IsComparison(e.l) && IsSum(e.r) else IsSum(e)
  }

  predicate IsSum(e: Expr)
    decreases e, 2
  {
    if e.Bin? && (e.bop.Add? || e.bop.Subtract?) then IsSum(e.l) && IsProduct(e.r) else IsProduct(e)
  }

  predicate IsProduct(e: Expr)
    decreases e, 1
  {
    if e.Bin? && (e.bop.Multiply? || e.bop.Divide?) then IsProduct(e.l) && IsAtom(e.r) else IsAtom(e)
  }

  /** Operands: names, constants, captures, groups, and these under unary operators; any
      expression may stand between brackets. A constant, a capture or a negation has no index. */
  predicate IsAtom(e: Expr)
    decreases e, 0
  {
    match e
    case Var(_) | Const(_) | Capt(_) => true
    case Call(_, fid, _, args) => fid < 0xFFFF_FFFE && AllOr(args)
    case Matches(_, arg) => IsOr(arg)
    case Arr(elems) => AllOr(elems)
    case Index(base, index) => !base.Const? && !base.Capt? && !base.Un? && IsAtom(base) && IsOr(index)
    case Paren(x) => IsOr(x)
    case Un(_, x) => IsAtom(x)
    case Bin(_, _, _) => false
  }

  predicate AllOr(es: Exprs)
    decreases es, 0
  {
    match es
    case Nil => true
    case Cons(head, tail) => IsOr(head) && AllOr(tail)
  }

  // ---- The parser follows the ladder ----

  /** The levels are the steps of the table of binding strengths. */
  predicate Stepped(e: Expr) {
    && (IsOr(e) <==> Grammatical(e))
    && (IsAnd(e) <==> Grammatical(e) && Binding(e) >= 2)
    && (IsXor(e) <==> Grammatical(e) && Binding(e) >= 3)
    && (IsEquality(e) <==> Grammatical(e) && Binding(e) >= 4)
    && (IsComparison(e) <==> Grammatical(e) && Binding(e) >= 5)
    && (IsSum(e) <==> Grammatical(e) && Binding(e) >= 6)
    && (IsProduct(e) <==> Grammatical(e) && Binding(e) >= 7)
    && (IsAtom(e) <==> Grammatical(e) && Binding(e) >= 8)
  }

  lemma {:induction false} BinaryLevels(e: Expr)
    requires e.Bin? && Stepped(e.l) && Stepped(e.r)
    ensures Stepped(e)
  {
    var g := Binding(e.l) >= Precedence(e.bop) && Binding(e.r) > Precedence(e.bop) && Grammatical(e.l) && Grammatical(e.r);
    assert Grammatical(e) == g && !IsAtom(e);
    hide Grammatical;
    assert IsProduct(e) <==> g && Precedence(e.bop) >= 7;
    assert IsSum(e) <==> g && Precedence(e.bop) >= 6;
    assert IsComparison(e) <==> g && Precedence(e.bop) >= 5;
    assert IsEquality(e) <==> g && Precedence(e.bop) >= 4;
    assert IsXor(e) <==> g && Precedence(e.bop) >= 3;
    assert IsAnd(e) <==> g && Precedence(e.bop) >= 2;
  }

  lemma {:induction false} AtomLevels(e: Expr)
    requires !e.Bin? && (IsAtom(e) <==> Grammatical(e))
    ensures Stepped(e)
  {
    hide Grammatical, IsAtom;
    assert IsProduct(e) == IsAtom(e) && IsSum(e) == IsAtom(e) && IsComparison(e) == IsAtom(e);
    assert IsEquality(e) == IsAtom(e) && IsXor(e) == IsAtom(e) && IsAnd(e) == IsAtom(e);
  }

  lemma {:induction false} Levels(e: Expr)
    ensures Stepped(e)
    decreases e
  {
    if e.Bin? {
      Levels(e.l);
      Levels(e.r);
      BinaryLevels(e);
    } else {
      OperandLevels(e);
      AtomLevels(e);
    }
  }

  lemma {:induction false} OperandLevels(e: Expr)
    requires !e.Bin?
    ensures IsAtom(e) <==> Grammatical(e)
    decreases e, 0
  {
    match e
    case Var(_) | Const(_) | Capt(_) =>
    case Call(_, _, _, args) => AllLevels(args);
    case Matches(_, arg) => Levels(arg);
    case Arr(elems) => AllLevels(elems);
    case Index(base, index) => Levels(base); Levels(index);
    case Paren(x) => Levels(x);
    case Un(_, x) => Levels(x);
  }

  lemma {:induction false} AllLevels(es: Exprs)
    ensures AllOr(es) <==> GrammaticalAll(es)
    decreases es
  {
    match es
    case Nil =>
    case Cons(head, tail) => Levels(head); AllLevels(tail);
  }

  /** Printed trees of the ladder are parsed to their left-associative code, and refused exactly
      when they are not `Accepted`; the code computes their meaning. */
  lemma {:induction false} ParseLadder(env: Env, e: Expr, amb: Ambient)
    requires IsOr(e)
    ensures Parse(Print(e)) == Ok(Compile(e)) <==> Accepted(e)
    ensures Parse(Print(e)) == Err(WrongArgumentCount) <==> !Accepted(e)
    ensures Accepted(e) ==> EvalItems(env, Parse(Print(e)).value, amb) == Denote(env, e, amb)
  {
    Levels(e);
    assert Grammatical(e);
    hide Stepped, Parse, Print, Compile, EvalItems, Denote, Accepted;
    ParsePrinted(e);
    CompilerCorrect(env, e, Machine([], amb));
  }

  // ---- Two operators in a row ----

  /** Which operators bind tighter than a given one. */
  predicate BindsTighter(a: BinaryOperator, b: BinaryOperator) {
    match b
    case Or => !a.Or?
    case And => !a.Or? && !a.And?
    case Xor => !a.Or? && !a.And? && !a.Xor?
    case Eq | Ne => a.Lt? || a.Le? || a.Gt? || a.Ge? || a.Add? || a.Subtract? || a.Multiply? || a.Divide?
    case Lt | Le | Gt | Ge => a.Add? || a.Subtract? || a.Multiply? || a.Divide?
    case Add | Subtract => a.Multiply? || a.Divide?
    case Multiply | Divide => false
  }

  lemma TighterIsHigher(a: BinaryOperator, b: BinaryOperator)
    ensures BindsTighter(a, b) <==> Precedence(a) > Precedence(b)
  {
  }

  function Grouped(x: Expr, op: BinaryOperator, y: Expr, op2: BinaryOperator, z: Expr): Expr {
    if BindsTighter(op2, op) then Bin(op, x, Bin(op2, y, z)) else Bin(op2, Bin(op, x, y), z)
  }

  lemma {:induction false} GroupedTree(x: Expr, op: BinaryOperator, y: Expr, op2: BinaryOperator, z: Expr)
    requires IsAtom(x) && IsAtom(y) && IsAtom(z) && Accepted(x) && Accepted(y) && Accepted(z)
    ensures Grammatical(Grouped(x, op, y, op2, z)) && Accepted(Grouped(x, op, y, op2, z))
  {
    Levels(x);
    Levels(y);
    Levels(z);
    TighterIsHigher(op2, op);
    assert Binding(x) == Binding(y) == Binding(z) == 8;
    hide Stepped, IsAtom, BindsTighter, Precedence;
  }

  lemma {:induction false} GroupedTokens(x: Expr, op: BinaryOperator, y: Expr, op2: BinaryOperator, z: Expr)
    ensures Print(Grouped(x, op, y, op2, z)) == Print(x) + ([BinaryOp(op)] + (Print(y) + ([BinaryOp(op2)] + Print(z))))
  {
    var e := Grouped(x, op, y, op2, z);
    var a, b, c := Print(x), [BinaryOp(op)] + Print(y), [BinaryOp(op2)] + Print(z);
    assert Print(e) == if BindsTighter(op2, op) then a + ([BinaryOp(op)] + (Print(y) + c)) else (a + b) + c;
    hide Print, BindsTighter, Grouped;
    Associate(a, b, c);
    Associate([BinaryOp(op)], Print(y), c);
  }

  /** `x op y op2 z` is `x op (y op2 z)` if `op2` binds tighter, and `(x op y) op2 z` otherwise. */
  lemma {:induction false} Grouping(x: Expr, op: BinaryOperator, y: Expr, op2: BinaryOperator, z: Expr)
    requires IsAtom(x) && IsAtom(y) && IsAtom(z) && Accepted(x) && Accepted(y) && Accepted(z)
    ensures Parse(Print(x) + ([BinaryOp(op)] + (Print(y) + ([BinaryOp(op2)] + Print(z)))))
         == Ok(Compile(if BindsTighter(op2, op) then Bin(op, x, Bin(op2, y, z)) else Bin(op2, Bin(op, x, y), z)))
  {
    hide Parse, Compile, Print, IsAtom, Accepted, Grammatical;
    GroupedTree(x, op, y, op2, z);
    GroupedTokens(x, op, y, op2, z);
    ParsePrinted(Grouped(x, op, y, op2, z));
  }

  /** `a || b && c`: the jump of `||` passes over the whole of `b && c`. */
  lemma OrOfAnd(a: nat, b: nat, c: nat)
    ensures Parse([Variable(a), BinaryOp(Or), Variable(b), BinaryOp(And), Variable(c)])
         == Ok([PushVariable(a), JmpIf(true, 5),
                PushVariable(b), JmpIf(false, 2), PushVariable(c), Binary(And), Binary(Or)])
  {
    var x, y, z := Var(a), Var(b), Var(c);
    var right := Bin(And, y, z);
    assert Compile(x) == [PushVariable(a)] && Compile(y) == [PushVariable(b)] && Compile(z) == [PushVariable(c)];
    assert Compile(right) == [PushVariable(b), JmpIf(false, 2), PushVariable(c), Binary(And)];
    assert Compile(Bin(Or, x, right))
        == [PushVariable(a), JmpIf(true, 5), PushVariable(b), JmpIf(false, 2), PushVariable(c), Binary(And), Binary(Or)];
    assert Print(x) + ([BinaryOp(Or)] + (Print(y) + ([BinaryOp(And)] + Print(z))))
        == [Variable(a), BinaryOp(Or), Variable(b), BinaryOp(And), Variable(c)];
    hide Parse, Compile;
    Grouping(x, Or, y, And, z);
  }

  // ---- Brackets and arguments that do not match ----

  predicate Brackets(open: Token, close: Token) {
    (open.OpenParen? && close.CloseParen?) || (open.OpenBracket? && close.CloseBracket?)
  }

  /** After an opening bracket at the start. */
  function Opened(open: Token): State
    requires open.OpenParen? || open.OpenBracket?
  {
    if open.OpenParen? then State(Work([], [Pending(OpenParen, None)]), [], false)
    else State(Work([], [Pending(Function("array", ID_ARRAY_BUILD, 0), None), Pending(OpenBracket, None)]), [0], false)
  }

  lemma OpenedRuns(open: Token, rest: seq<Token>)
    requires open.OpenParen? || open.OpenBracket?
    ensures Run(INITIAL, [open] + rest) == Run(Opened(open), rest)
  {
    RunOne(INITIAL, open, rest);
    assert [] + [Pending(Function("array", ID_ARRAY_BUILD, 0), None)] + [Pending(OpenBracket, None)]
        == [Pending(Function("array", ID_ARRAY_BUILD, 0), None), Pending(OpenBracket, None)];
    assert [] + [Pending(OpenParen, None)] == [Pending(OpenParen, None)] && [] + [0] == [0];
    assert Step(INITIAL, open) == Ok(Opened(open));
  }

  lemma OpenedDone(open: Token, e: Expr)
    requires open.OpenParen? || open.OpenBracket?
    ensures var done := Done(Opened(open), e);
            PopOps(done, 0) == done && done.ops != [] && done.ops[|done.ops| - 1].tok == open
  {
    hide Compile, StartsPlain;
  }

  /** A tree after the bracket: the bracket is still on top when the tree's operators are gone. */
  lemma {:induction false} OpenedTree(open: Token, e: Expr) returns (st: State)
    requires (open.OpenParen? || open.OpenBracket?) && IsOr(e) && Accepted(e)
    ensures Run(INITIAL, [open] + Print(e)) == Ok(st)
    ensures var ops := PopOps(st.work, 0).ops; ops != [] && ops[|ops| - 1].tok == open
  {
    Levels(e);
    assert Grammatical(e) && Fits(Opened(open), e);
    hide Stepped, Fits;
    OpenedRuns(open, Print(e));
    var s := Opened(open);
    var w := RunExpr(e, s);
    OpenedDone(open, e);
    hide PopOps, Done, Opened;
    st := State(w, IncArgs(s.args), EndsVar(e));
  }

  lemma {:induction false} BareTree(e: Expr) returns (st: State)
    requires IsOr(e) && Accepted(e)
    ensures Run(INITIAL, Print(e)) == Ok(st) && PopOps(st.work, 0).ops == []
  {
    Levels(e);
    var w := RunExpr(e, INITIAL);
    assert PopOps(w, 0) == PopOps(Done(INITIAL, e), 0);
    st := State(w, IncArgs(INITIAL.args), EndsVar(e));
  }

  /** A bracket that is never closed, never opened, or closed by one of the other kind. */
  lemma {:induction false} Unbalanced(open: Token, close: Token, other: Token, e: Expr)
    requires Brackets(open, close) && (other.CloseParen? || other.CloseBracket?) && other != close && IsOr(e) && Accepted(e)
    ensures Parse([open] + Print(e)) == Err(InvalidOperatorStack)
    ensures Parse(Print(e) + [close]) == Err(MismatchedParentheses)
    ensures Parse([open] + Print(e) + [other]) == Err(MismatchedParentheses)
  {
    hide Accepted, IsOr, Print, Compile;
    var st := OpenedTree(open, e);
    var bare := BareTree(e);
    RunClose(INITIAL, Print(e), open, close);
    RunClose(INITIAL, [open] + Print(e), if other.CloseParen? then OpenParen else OpenBracket, other);
    hide Run, PopOps;
  }

  /** A match takes one argument. */
  lemma {:induction false} MatchArguments(re: string, es: Exprs)
    requires AllOr(es) && AcceptedAll(es) && Len(es) != 1
    ensures Parse([Regex(re), OpenParen] + (PrintAll(es) + [CloseParen])) == Err(MatchesArgumentCount)
  {
    AllLevels(es);
    var head := Regex(re);
    var s := OpenListHead(INITIAL, head, PrintAll(es));
    RunAll(es, s);
    CloseList(s, [], [], es, OpenParen, CloseParen, head);
  }

  lemma MissingIndex(id: nat)
    ensures Parse([Variable(id), OpenBracket, CloseBracket]) == Err(MissingArrayIndex)
  {
    var f := Function("array", ID_ARRAY_ACCESS, 2);
    var s0 := State(Work([PushVariable(id)], []), [], true);
    var s1 := State(Work([PushVariable(id)], [Pending(f, None), Pending(OpenBracket, None)]), [1], false);
    assert [] + [PushVariable(id)] == [PushVariable(id)] && [] + [1] == [1];
    assert [] + [Pending(f, None)] + [Pending(OpenBracket, None)] == s1.work.ops;
    assert Step(INITIAL, Variable(id)) == Ok(s0) && Step(s0, OpenBracket) == Ok(s1);
    assert s1.work.ops[..1] == [Pending(f, None)] && PopOps(s1.work, 0) == s1.work;
    assert Step(s1, CloseBracket) == Err(MissingArrayIndex);
    var tokens := [Variable(id)] + ([OpenBracket] + [CloseBracket]);
    assert tokens == [Variable(id), OpenBracket, CloseBracket];
    hide Step;
    RunOne(INITIAL, Variable(id), [OpenBracket] + [CloseBracket]);
    RunOne(s0, OpenBracket, [CloseBracket]);
    RunLast(s1, CloseBracket);
  }
}
