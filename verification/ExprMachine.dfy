/** The stack machine, the meaning of source trees, and their agreement. */
module ExprMachine {
  import opened Prelude
  import opened ExprSyntax
  import opened ExprParser
  import opened ExprCompiler

  datatype Invocation = Invocation(fid: nat, args: seq<Value>)

  /** What evaluation reads and changes besides the stack: the regex captures and
      the function calls made so far. */
  datatype Ambient = Ambient(captures: seq<string>, calls: seq<Invocation>)

  /** The parts of evaluation left uninterpreted. A function's result may depend on
      every call made before it, and a call may fail. */
  datatype Env = Env(
    resolve: nat -> Value,
    arith: (BinaryOperator, Value, Value) -> Value,
    minus: Value -> Value,
    call: (seq<Invocation>, nat, seq<Value>) -> Result<Value, string>,
    toIndex: Value -> nat,
    toText: Value -> string,
    match_: (string, string) -> Option<seq<string>>
  )

  datatype Machine = Machine(stack: seq<Value>, amb: Ambient)

  type Outcome = Result<(Value, Ambient), string>

  function ApplyUnary(env: Env, op: UnaryOperator, v: Value): Value {
    if op.Not? then FromBool(!Truthy(v)) else env.minus(v)
  }

  function ApplyBinary(env: Env, op: BinaryOperator, a: Value, b: Value): Value {
    match op
    case And => FromBool(Truthy(a) && Truthy(b))
    case Or => FromBool(Truthy(a) || Truthy(b))
    case Xor => FromBool(Truthy(a) != Truthy(b))
    case _ => env.arith(op, a, b)
  }

  function CaptureText(amb: Ambient, idx: nat): Value {
    Str(if idx < |amb.captures| then amb.captures[idx] else "")
  }

  function IntoArray(v: Value): seq<Value> {
    match v
    case Array(items) => items
    case _ => if v == Str("") then [] else [v]
  }

  function Element(env: Env, base: Value, index: Value): Value {
    var items, k := IntoArray(base), env.toIndex(index);
    if k < |items| then items[k] else DEFAULT_VALUE
  }

  function Invoke(env: Env, fid: nat, args: seq<Value>, amb: Ambient): Outcome {
    var r := env.call(amb.calls, fid, args);
    if r.Err? then Err(r.error)
    else Ok((r.value, amb.(calls := amb.calls + [Invocation(fid, args)])))
  }

  function MatchText(env: Env, re: string, v: Value, amb: Ambient): (Value, Ambient) {
    var groups := env.match_(re, env.toText(v));
    var captures := if groups.Some? then groups.value else [];
    (FromBool(captures != []), amb.(captures := captures))
  }

  // ---- The machine ----

  function Top(stack: seq<Value>): Value {
    if stack == [] then DEFAULT_VALUE else stack[|stack| - 1]
  }

  function Rest(stack: seq<Value>): seq<Value> {
    if stack == [] then [] else stack[..|stack| - 1]
  }

  /** The last `n` values, in stack order; defaults stand in for missing ones. */
  function Args(stack: seq<Value>, n: nat): seq<Value> {
    if n <= |stack| then stack[|stack| - n..] else seq(n - |stack|, _ => DEFAULT_VALUE) + stack
  }

  function DropArgs(stack: seq<Value>, n: nat): seq<Value> {
    if n <= |stack| then stack[..|stack| - n] else []
  }

  function Push(m: Machine, stack: seq<Value>, v: Value): Result<Machine, string> {
    Ok(m.(stack := stack + [v]))
  }

  function Apply(env: Env, it: Item, m: Machine): Result<Machine, string>
    requires !it.JmpIf?
  {
    match it
    case PushVariable(id) => Push(m, m.stack, env.resolve(id))
    case PushConstant(c) => Push(m, m.stack, c)
    case PushCapture(idx) => Push(m, m.stack, CaptureText(m.amb, idx))
    case Unary(op) => Push(m, Rest(m.stack), ApplyUnary(env, op, Top(m.stack)))
    case Binary(op) =>
      var s := Rest(m.stack);
      Push(m, Rest(s), ApplyBinary(env, op, Top(s), Top(m.stack)))
    case CallFunction(fid, n) =>
      var r := Invoke(env, fid, Args(m.stack, n), m.amb);
      if r.Err? then Err(r.error) else Ok(Machine(DropArgs(m.stack, n) + [r.value.0], r.value.1))
    case ArrayAccess =>
      var s := Rest(m.stack);
      Push(m, Rest(s), Element(env, Top(s), Top(m.stack)))
    case ArrayBuild(n) => Push(m, DropArgs(m.stack, n), Array(Args(m.stack, n)))
    case MatchRegex(re) =>
      var r := MatchText(env, re, Top(m.stack), m.amb);
      Ok(Machine(Rest(m.stack) + [r.0], r.1))
  }

  /** Is the jump taken? */
  predicate Jumps(stack: seq<Value>, val: bool) {
    (stack != [] && Truthy(stack[|stack| - 1])) == val
  }

  function Exec(env: Env, items: seq<Item>, m: Machine): Result<Machine, string>
    decreases |items|
  {
    if items == [] then Ok(m)
    else if items[0].JmpIf? then
      var skip := if Jumps(m.stack, items[0].val) then 1 + items[0].pos else 1;
      Exec(env, if skip <= |items| then items[skip..] else [], m)
    else
      var r := Apply(env, items[0], m);
      if r.Err? then r else Exec(env, items[1..], r.value)
  }

  /** The result of an evaluation: the top of the final stack. */
  function EvalItems(env: Env, items: seq<Item>, amb: Ambient): Outcome {
    var r := Exec(env, items, Machine([], amb));
    if r.Err? then Err(r.error) else Ok((Top(r.value.stack), r.value.amb))
  }

  method PopArguments(stack: seq<Value>, n: nat) returns (args: seq<Value>, rest: seq<Value>)
    ensures args == Args(stack, n) && rest == DropArgs(stack, n)
  {
    args := seq(n, _ => Integer(0));
    rest := stack;
    for k := 0 to n
      invariant |args| == n && rest == DropArgs(stack, k)
      invariant forall j | n - k <= j < n :: args[j] == Args(stack, n)[j]
    {
      args := args[n - k - 1 := Top(rest)];
      rest := Rest(rest);
    }
  }

  /** The evaluation loop over the items, a value stack and a program counter. */
  method Eval(env: Env, items: seq<Item>, amb: Ambient) returns (r: Outcome)
    ensures r == EvalItems(env, items, amb)
  {
    var stack: seq<Value>, a, pc := [], amb, 0;
    while pc < |items|
      invariant 0 <= pc <= |items|
      invariant Exec(env, items, Machine([], amb)) == Exec(env, items[pc..], Machine(stack, a))
    {
      ghost var before := Machine(stack, a);
      var it := items[pc];
      assert items[pc..][0] == it && items[pc..][1..] == items[pc + 1..];
      if it.JmpIf? {
        pc := pc + 1;
        if Jumps(stack, it.val) {
          ghost var rest := items[pc - 1..];
          assert 1 + it.pos <= |rest| ==> rest[1 + it.pos..] == items[pc + it.pos..];
          pc := if pc + it.pos <= |items| then pc + it.pos else |items|;
        }
      } else if it.CallFunction? {
        var args, rest := PopArguments(stack, it.numArgs);
        var v := env.call(a.calls, it.fid, args);
        if v.Err? {
          return Err(v.error);
        }
        a := a.(calls := a.calls + [Invocation(it.fid, args)]);
        stack := rest + [v.value];
        assert Apply(env, it, before) == Ok(Machine(stack, a));
        pc := pc + 1;
      } else if it.ArrayBuild? {
        var args, rest := PopArguments(stack, it.n);
        stack := rest + [Array(args)];
        assert Apply(env, it, before) == Ok(Machine(stack, a));
        pc := pc + 1;
      } else {
        var m := Apply(env, it, Machine(stack, a)).value;
        stack, a := m.stack, m.amb;
        pc := pc + 1;
      }
    }
    r := Ok((Top(stack), a));
  }

  // ---- The meaning of trees ----

  /** Left to right, with short-circuit: a falsy left operand of `&&`, or a truthy
      one of `||`, is itself the result and the right operand is not evaluated. */
  function Denote(env: Env, e: Expr, amb: Ambient): Outcome {
    match e
    case Var(id) => Ok((env.resolve(id), amb))
    case Const(c) => Ok((c, amb))
    case Capt(idx) => Ok((CaptureText(amb, idx), amb))
    case Call(_, fid, _, args) =>
      var r := DenoteAll(env, args, amb);
      if r.Err? then Err(r.error) else Invoke(env, fid, r.value.0, r.value.1)
    case Matches(re, arg) =>
      var r := Denote(env, arg, amb);
      if r.Err? then r else Ok(MatchText(env, re, r.value.0, r.value.1))
    case Arr(elems) =>
      var r := DenoteAll(env, elems, amb);
      if r.Err? then Err(r.error) else Ok((Array(r.value.0), r.value.1))
    case Index(base, index) =>
      var b := Denote(env, base, amb);
      if b.Err? then b else
      var i := Denote(env, index, b.value.1);
      if i.Err? then i else Ok((Element(env, b.value.0, i.value.0), i.value.1))
    case Paren(x) => Denote(env, x, amb)
    case Un(op, x) =>
      var r := Denote(env, x, amb);
      if r.Err? then r else Ok((ApplyUnary(env, op, r.value.0), r.value.1))
    case Bin(op, l, r) =>
      var a := Denote(env, l, amb);
      if a.Err? then a
      else if (op.And? && !Truthy(a.value.0)) || (op.Or? && Truthy(a.value.0)) then a
      else
        var b := Denote(env, r, a.value.1);
        if b.Err? then b else Ok((ApplyBinary(env, op, a.value.0, b.value.0), b.value.1))
  }

  function DenoteAll(env: Env, es: Exprs, amb: Ambient): (r: Result<(seq<Value>, Ambient), string>)
    ensures r.Ok? ==> |r.value.0| == Len(es)
  {
    match es
    case Nil => Ok(([], amb))
    case Cons(head, tail) =>
      var h := Denote(env, head, amb);
      if h.Err? then Err(h.error) else
      var t := DenoteAll(env, tail, h.value.1);
      if t.Err? then t else Ok(([h.value.0] + t.value.0, t.value.1))
  }

  // ---- Agreement ----

  /** Running on with `rest` after the outcome of a tree. */
  function Continue(env: Env, out: Outcome, stack: seq<Value>, rest: seq<Item>): Result<Machine, string> {
    if out.Err? then Err(out.error) else Exec(env, rest, Machine(stack + [out.value.0], out.value.1))
  }

  lemma ExecStep(env: Env, it: Item, rest: seq<Item>, m: Machine)
    requires !it.JmpIf?
    ensures Exec(env, [it] + rest, m)
         == if Apply(env, it, m).Err? then Apply(env, it, m) else Exec(env, rest, Apply(env, it, m).value)
  {
    assert ([it] + rest)[1..] == rest;
  }

  lemma ExecJump(env: Env, val: bool, body: seq<Item>, rest: seq<Item>, m: Machine)
    ensures Exec(env, [JmpIf(val, |body|)] + (body + rest), m)
         == if Jumps(m.stack, val) then Exec(env, rest, m) else Exec(env, body + rest, m)
  {
    var items := [JmpIf(val, |body|)] + (body + rest);
    assert items[1..] == body + rest;
    assert items[1 + |body|..] == rest;
  }

  /** The code of an accepted tree, followed by any code and run on any stack, pushes
      exactly the tree's meaning and leaves the rest of the stack alone. */
  lemma {:induction false} ExecCompile(env: Env, e: Expr, rest: seq<Item>, m: Machine)
    requires Accepted(e)
    ensures Exec(env, Compile(e) + rest, m) == Continue(env, Denote(env, e, m.amb), m.stack, rest)
    decreases e, 1
  {
    match e
    case Var(id) => ExecStep(env, PushVariable(id), rest, m);
    case Const(c) => ExecStep(env, PushConstant(c), rest, m);
    case Capt(idx) => ExecStep(env, PushCapture(idx), rest, m);
    case Call(_, fid, arity, args) =>
      var it := CallFunction(fid, arity);
      assert Compile(e) + rest == CompileAll(args) + ([it] + rest);
      ExecCompileAll(env, args, [it] + rest, m);
      var r := DenoteAll(env, args, m.amb);
      if r.Ok? { ExecList(env, it, arity, rest, m.stack, r.value.0, r.value.1); }
    case Matches(re, arg) =>
      assert Compile(e) + rest == Compile(arg) + ([MatchRegex(re)] + rest);
      ExecCompile(env, arg, [MatchRegex(re)] + rest, m);
      var r := Denote(env, arg, m.amb);
      if r.Ok? { ExecTop(env, MatchRegex(re), rest, m.stack, r.value.0, r.value.1); }
    case Arr(elems) =>
      var it := ArrayBuild(Len(elems));
      assert Compile(e) + rest == CompileAll(elems) + ([it] + rest);
      ExecCompileAll(env, elems, [it] + rest, m);
      var r := DenoteAll(env, elems, m.amb);
      if r.Ok? { ExecList(env, it, Len(elems), rest, m.stack, r.value.0, r.value.1); }
    case Index(base, index) => ExecIndex(env, e, rest, m);
    case Paren(x) => ExecCompile(env, x, rest, m);
    case Un(op, x) =>
      assert Compile(e) + rest == Compile(x) + ([Unary(op)] + rest);
      ExecCompile(env, x, [Unary(op)] + rest, m);
      var r := Denote(env, x, m.amb);
      if r.Ok? { ExecTop(env, Unary(op), rest, m.stack, r.value.0, r.value.1); }
    case Bin(op, l, r) => ExecBinary(env, e, rest, m);
  }

  /** An item that takes one operand off the stack. */
  lemma ExecTop(env: Env, it: Item, rest: seq<Item>, stack: seq<Value>, v: Value, amb: Ambient)
    requires it.Unary? || it.MatchRegex?
    ensures Exec(env, [it] + rest, Machine(stack + [v], amb))
         == var r := if it.Unary? then (ApplyUnary(env, it.uop, v), amb) else MatchText(env, it.re, v, amb);
            Exec(env, rest, Machine(stack + [r.0], r.1))
  {
    assert Rest(stack + [v]) == stack;
    ExecStep(env, it, rest, Machine(stack + [v], amb));
  }

  /** An item that takes two operands off the stack. */
  lemma ExecTwo(env: Env, it: Item, rest: seq<Item>, stack: seq<Value>, a: Value, b: Value, amb: Ambient)
    requires it.Binary? || it.ArrayAccess?
    ensures Exec(env, [it] + rest, Machine(stack + [a] + [b], amb))
         == Exec(env, rest, Machine(stack + [if it.Binary? then ApplyBinary(env, it.bop, a, b) else Element(env, a, b)], amb))
  {
    var s := stack + [a] + [b];
    assert Rest(s) == stack + [a] && Rest(stack + [a]) == stack;
    ExecStep(env, it, rest, Machine(s, amb));
  }

  /** An item that takes a list of operands off the stack. */
  lemma ExecList(env: Env, it: Item, n: nat, rest: seq<Item>, stack: seq<Value>, vs: seq<Value>, amb: Ambient)
    requires |vs| == n && (it == ArrayBuild(n) || (it.CallFunction? && it.numArgs == n))
    ensures Exec(env, [it] + rest, Machine(stack + vs, amb))
         == Continue(env, if it.ArrayBuild? then Ok((Array(vs), amb)) else Invoke(env, it.fid, vs, amb), stack, rest)
  {
    assert Args(stack + vs, n) == vs && DropArgs(stack + vs, n) == stack;
    ExecStep(env, it, rest, Machine(stack + vs, amb));
  }

  lemma {:induction false} ExecIndex(env: Env, e: Expr, rest: seq<Item>, m: Machine)
    requires e.Index? && Accepted(e)
    ensures Exec(env, Compile(e) + rest, m) == Continue(env, Denote(env, e, m.amb), m.stack, rest)
    decreases e, 0
  {
    var tail := [ArrayAccess] + rest;
    assert Compile(e) + rest == Compile(e.base) + (Compile(e.index) + tail);
    ExecCompile(env, e.base, Compile(e.index) + tail, m);
    var b := Denote(env, e.base, m.amb);
    if b.Ok? {
      ExecCompile(env, e.index, tail, Machine(m.stack + [b.value.0], b.value.1));
      var i := Denote(env, e.index, b.value.1);
      if i.Ok? { ExecTwo(env, ArrayAccess, rest, m.stack, b.value.0, i.value.0, i.value.1); }
    }
  }

  lemma {:induction false} ExecBinary(env: Env, e: Expr, rest: seq<Item>, m: Machine)
    requires e.Bin? && Accepted(e)
    ensures Exec(env, Compile(e) + rest, m) == Continue(env, Denote(env, e, m.amb), m.stack, rest)
    decreases e, 0
  {
    var op, code := e.bop, Compile(e.r) + [Binary(e.bop)];
    var tail := Jump(op, |code|) + (code + rest);
    assert Compile(e) + rest == Compile(e.l) + tail;
    ExecCompile(env, e.l, tail, m);
    var a := Denote(env, e.l, m.amb);
    if a.Ok? {
      var m1 := Machine(m.stack + [a.value.0], a.value.1);
      if ShortCircuits(op) { ExecJump(env, op.Or?, code, rest, m1); }
      if !(ShortCircuits(op) && Truthy(a.value.0) == op.Or?) {
        assert !ShortCircuits(op) ==> tail == code + rest;
        assert Exec(env, tail, m1) == Exec(env, code + rest, m1);
        ExecRight(env, e, rest, m, a.value.0, a.value.1);
      }
    }
  }

  lemma {:induction false} ExecRight(env: Env, e: Expr, rest: seq<Item>, m: Machine, v: Value, amb: Ambient)
    requires e.Bin? && Accepted(e)
    ensures Exec(env, Compile(e.r) + [Binary(e.bop)] + rest, Machine(m.stack + [v], amb))
         == var b := Denote(env, e.r, amb);
            Continue(env, if b.Err? then b else Ok((ApplyBinary(env, e.bop, v, b.value.0), b.value.1)), m.stack, rest)
    decreases e.r, 2
  {
    var tail := [Binary(e.bop)] + rest;
    assert Compile(e.r) + [Binary(e.bop)] + rest == Compile(e.r) + tail;
    ExecCompile(env, e.r, tail, Machine(m.stack + [v], amb));
    var b := Denote(env, e.r, amb);
    if b.Ok? { ExecTwo(env, Binary(e.bop), rest, m.stack, v, b.value.0, b.value.1); }
  }

  lemma {:induction false} ExecCompileAll(env: Env, es: Exprs, rest: seq<Item>, m: Machine)
    requires AcceptedAll(es)
    ensures Exec(env, CompileAll(es) + rest, m)
         == var r := DenoteAll(env, es, m.amb);
            if r.Err? then Err(r.error) else Exec(env, rest, Machine(m.stack + r.value.0, r.value.1))
    decreases es
  {
    match es
    case Nil =>
      assert CompileAll(es) + rest == rest && m.stack + [] == m.stack;
    case Cons(h, t) =>
      assert CompileAll(es) + rest == Compile(h) + (CompileAll(t) + rest);
      ExecCompile(env, h, CompileAll(t) + rest, m);
      var r := Denote(env, h, m.amb);
      if r.Ok? {
        ExecCompileAll(env, t, rest, Machine(m.stack + [r.value.0], r.value.1));
        var rt := DenoteAll(env, t, r.value.1);
        if rt.Ok? { assert m.stack + [r.value.0] + rt.value.0 == m.stack + ([r.value.0] + rt.value.0); }
      }
  }

  /** Compiler correctness. For every tree of the grammar: the parser accepts its
      tokens exactly when the tree is `Accepted`, and then the parsed code, run on
      any stack, captures and call history, pushes the tree's meaning. */
  lemma CompilerCorrect(env: Env, e: Tree, m: Machine)
    ensures Parse(Print(e)).Ok? <==> Accepted(e)
    ensures Accepted(e) ==>
              && Exec(env, Parse(Print(e)).value, m)
                 == Continue(env, Denote(env, e, m.amb), m.stack, [])
              && EvalItems(env, Parse(Print(e)).value, m.amb) == Denote(env, e, m.amb)
  {
    hide Parse, Exec, Denote, Compile, Print;
    ParsePrinted(e);
    if Accepted(e) {
      EvalCompiled(env, e, m);
    }
  }

  /** Code that ends leaves its result on an otherwise empty stack. */
  lemma NothingLeft(env: Env, out: Outcome)
    ensures Continue(env, out, [], []) == if out.Err? then Err(out.error) else Ok(Machine([out.value.0], out.value.1))
  {
    if out.Ok? { assert [] + [out.value.0] == [out.value.0]; }
  }

  lemma EvalCompiled(env: Env, e: Expr, m: Machine)
    requires Accepted(e)
    ensures Exec(env, Compile(e), m) == Continue(env, Denote(env, e, m.amb), m.stack, [])
    ensures EvalItems(env, Compile(e), m.amb) == Denote(env, e, m.amb)
  {
    assert Compile(e) + [] == Compile(e);
    NothingLeft(env, Denote(env, e, m.amb));
    hide Denote, Compile, Exec, Accepted, Continue;
    ExecCompile(env, e, [], m);
    ExecCompile(env, e, [], Machine([], m.amb));
  }

  // ---- If blocks ----

  datatype IfThen<T> = IfThen(cond: T, then_: T)

  datatype IfBlock<T> = IfBlock(ifs: seq<IfThen<T>>, default: T)

  /** The first condition that holds selects the result; captures and calls are
      carried from one condition to the next. */
  function DenoteIf(env: Env, ifs: seq<IfThen<Expr>>, default: Expr, amb: Ambient): Outcome
    decreases |ifs|
  {
    if ifs == [] then Denote(env, default, amb)
    else
      var c := Denote(env, ifs[0].cond, amb);
      if c.Err? then c
      else if Truthy(c.value.0) then Denote(env, ifs[0].then_, c.value.1)
      else DenoteIf(env, ifs[1..], default, c.value.1)
  }

  /** The block's code is what the parser makes of the printed trees. */
  predicate ParsedFrom(code: seq<Item>, e: Expr) {
    Grammatical(e) && Parse(Print(e)) == Ok(code)
  }

  predicate BlockParsedFrom(block: IfBlock<seq<Item>>, source: IfBlock<Expr>) {
    && |block.ifs| == |source.ifs| && ParsedFrom(block.default, source.default)
    && forall k | 0 <= k < |block.ifs| ::
         ParsedFrom(block.ifs[k].cond, source.ifs[k].cond) && ParsedFrom(block.ifs[k].then_, source.ifs[k].then_)
  }

  /** Evaluating a parsed block means what the source block says. */
  method EvalIf(env: Env, block: IfBlock<seq<Item>>, ghost source: IfBlock<Expr>, calls: seq<Invocation>)
    returns (r: Outcome)
    requires BlockParsedFrom(block, source)
    ensures r == DenoteIf(env, source.ifs, source.default, Ambient([], calls))
  {
    var a := Ambient([], calls);
    for k := 0 to |block.ifs|
      invariant DenoteIf(env, source.ifs, source.default, Ambient([], calls))
             == DenoteIf(env, source.ifs[k..], source.default, a)
    {
      CompilerCorrect(env, source.ifs[k].cond, Machine([], a));
      var c := Eval(env, block.ifs[k].cond, a);
      if c.Err? {
        return c;
      }
      a := c.value.1;
      if Truthy(c.value.0) {
        CompilerCorrect(env, source.ifs[k].then_, Machine([], a));
        r := Eval(env, block.ifs[k].then_, a);
        return;
      }
      assert source.ifs[k..][1..] == source.ifs[k + 1..];
    }
    CompilerCorrect(env, source.default, Machine([], a));
    r := Eval(env, block.default, a);
  }
}
