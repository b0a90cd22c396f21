/** Tokens, postfix items, run-time values and source trees of the expression language. */
module ExprSyntax {
  datatype Result<+T, +E> = Ok(value: T) | Err(error: E)

  /** Run-time values. Floats are modelled as reals. */
  datatype Value = Str(s: string) | Integer(n: int) | Float(f: real) | Array(items: seq<Value>)

  /** The value a pop from an empty stack yields. */
  const DEFAULT_VALUE := Str("")

  predicate Truthy(v: Value) {
    match v
    case Float(f) => f != 0.0
    case Integer(n) => n != 0
    case Str(s) => s != ""
    case Array(items) => items != []
  }

  function FromBool(b: bool): Value {
    Integer(if b then 1 else 0)
  }

  datatype UnaryOperator = Not | Minus

  datatype BinaryOperator =
    | Add | Subtract | Multiply | Divide
    | And | Or | Xor
    | Eq | Ne | Lt | Le | Gt | Ge

  function Precedence(op: BinaryOperator): (p: int)
    ensures 1 <= p <= 7
  {
    match op
    case Multiply | Divide => 7
    case Add | Subtract => 6
    case Gt | Ge | Lt | Le => 5
    case Eq | Ne => 4
    case Xor => 3
    case And => 2
    case Or => 1
  }

  /** The operators for which the parser emits a jump around the right operand. */
  predicate ShortCircuits(op: BinaryOperator) {
    op.And? || op.Or?
  }

  datatype Token =
    | Variable(id: nat)
    | Capture(idx: nat)
    | Function(name: string, fid: nat, numArgs: nat)
    | Constant(c: Value)
    | Regex(re: string)
    | BinaryOp(bop: BinaryOperator)
    | UnaryOp(uop: UnaryOperator)
    | OpenParen
    | CloseParen
    | OpenBracket
    | CloseBracket
    | Comma

  const ID_ARRAY_ACCESS: nat := 0xFFFF_FFFF
  const ID_ARRAY_BUILD: nat := 0xFFFF_FFFE

  datatype Item =
    | PushVariable(id: nat)
    | PushCapture(idx: nat)
    | PushConstant(c: Value)
    | Binary(bop: BinaryOperator)
    | Unary(uop: UnaryOperator)
    | MatchRegex(re: string)
    | JmpIf(val: bool, pos: nat)
    | CallFunction(fid: nat, numArgs: nat)
    | ArrayAccess
    | ArrayBuild(n: nat)

  /** Source trees. `Paren` is explicit, so a tree fixes its own parentheses. */
  datatype Expr =
    | Var(id: nat)
    | Const(c: Value)
    | Capt(idx: nat)
    | Call(name: string, fid: nat, arity: nat, args: Exprs)
    | Matches(re: string, arg: Expr)
    | Arr(elems: Exprs)
    | Index(base: Expr, index: Expr)
    | Paren(e: Expr)
    | Un(uop: UnaryOperator, e: Expr)
    | Bin(bop: BinaryOperator, l: Expr, r: Expr)

  datatype Exprs = Nil | Cons(head: Expr, tail: Exprs)

  function Len(es: Exprs): nat {
    match es
    case Nil => 0
    case Cons(_, tail) => 1 + Len(tail)
  }

  /** How tightly a tree binds as an operand: every tree but a binary one is atomic. */
  function Binding(e: Expr): (p: int)
    ensures 1 <= p <= 8
  {
    if e.Bin? then Precedence(e.bop) else 8
  }

  /** What may stand before an index bracket. */
  predicate Indexable(e: Expr) {
    e.Var? || e.Call? || e.Matches? || e.Arr? || e.Index? || e.Paren?
  }

  /** The grammar: binary operators associate to the left and operands that bind
      more loosely are parenthesised; a unary operator takes an atomic operand. */
  predicate Grammatical(e: Expr) {
    match e
    case Var(_) | Const(_) | Capt(_) => true
    case Call(_, fid, _, args) => fid < ID_ARRAY_BUILD && GrammaticalAll(args)
    case Matches(_, arg) => Grammatical(arg)
    case Arr(elems) => GrammaticalAll(elems)
    case Index(base, index) => Indexable(base) && Grammatical(base) && Grammatical(index)
    case Paren(x) => Grammatical(x)
    case Un(_, x) => !x.Bin? && Grammatical(x)
    case Bin(op, l, r) =>
      && Binding(l) >= Precedence(op) && Binding(r) > Precedence(op)
      && Grammatical(l) && Grammatical(r)
  }

  predicate GrammaticalAll(es: Exprs) {
    match es
    case Nil => true
    case Cons(head, tail) => Grammatical(head) && GrammaticalAll(tail)
  }

  type Tree = e: Expr | Grammatical(e) witness Var(0)

  type Trees = es: Exprs | GrammaticalAll(es) witness Nil

  function Print(e: Expr): seq<Token> {
    match e
    case Var(id) => [Variable(id)]
    case Const(c) => [Constant(c)]
    case Capt(idx) => [Capture(idx)]
    case Call(name, fid, arity, args) =>
      [Function(name, fid, arity), OpenParen] + (PrintAll(args) + [CloseParen])
    case Matches(re, arg) => [Regex(re), OpenParen] + (Print(arg) + [CloseParen])
    case Arr(elems) => [OpenBracket] + (PrintAll(elems) + [CloseBracket])
    case Index(base, index) => Print(base) + ([OpenBracket] + (Print(index) + [CloseBracket]))
    case Paren(x) => [OpenParen] + (Print(x) + [CloseParen])
    case Un(op, x) => [UnaryOp(op)] + Print(x)
    case Bin(op, l, r) => Print(l) + ([BinaryOp(op)] + Print(r))
  }

  function PrintAll(es: Exprs): seq<Token> {
    match es
    case Nil => []
    case Cons(head, Nil) => Print(head)
    case Cons(head, tail) => Print(head) + ([Comma] + PrintAll(tail))
  }

  /** Does the tree print with an operand, not a parenthesis or a unary operator, first? */
  predicate StartsPlain(e: Expr) {
    match e
    case Paren(_) | Un(_, _) => false
    case Index(base, _) => StartsPlain(base)
    case Bin(_, l, _) => StartsPlain(l)
    case _ => true
  }

  function PlainCount(es: Exprs): (n: nat)
    ensures n <= Len(es)
  {
    match es
    case Nil => 0
    case Cons(head, tail) => (if StartsPlain(head) then 1 else 0) + PlainCount(tail)
  }

  /** What the parser accepts of the grammar: calls with the declared number of
      arguments, and array literals none of whose elements begins with a
      parenthesis or a unary operator. */
  predicate Accepted(e: Expr) {
    match e
    case Var(_) | Const(_) | Capt(_) => true
    case Call(_, _, arity, args) => AcceptedAll(args) && arity == Len(args)
    case Matches(_, arg) => Accepted(arg)
    case Arr(elems) => AcceptedAll(elems) && PlainCount(elems) == Len(elems)
    case Index(base, index) => Accepted(base) && Accepted(index)
    case Paren(x) => Accepted(x)
    case Un(_, x) => Accepted(x)
    case Bin(_, l, r) => Accepted(l) && Accepted(r)
  }

  predicate AcceptedAll(es: Exprs) {
    match es
    case Nil => true
    case Cons(head, tail) => Accepted(head) && AcceptedAll(tail)
  }
}
