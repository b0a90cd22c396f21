/** What each item of the code computes, for every value: truth tables, indexing, captures and
    the order of operands. */
module ExprValues {
  import opened ExprSyntax
  import opened ExprMachine

  /** Zero, the empty string and the empty array count as false, all other values as true. */
  predicate IsFalse(v: Value) {
    v == Integer(0) || v == Float(0.0) || v == Str("") || v == Array([])
  }

  function Bit(b: bool): Value {
    if b then Integer(1) else Integer(0)
  }

  // ---- Operators, on any stack and before any code ----

  lemma {:induction false} UnaryYields(env: Env, v: Value, stack: seq<Value>, amb: Ambient, rest: seq<Item>)
    ensures Exec(env, [Unary(Not)] + rest, Machine(stack + [v], amb))
         == Exec(env, rest, Machine(stack + [Bit(IsFalse(v))], amb))
    ensures Exec(env, [Unary(Minus)] + rest, Machine(stack + [v], amb))
         == Exec(env, rest, Machine(stack + [env.minus(v)], amb))
  {
    ExecTop(env, Unary(Not), rest, stack, v, amb);
    ExecTop(env, Unary(Minus), rest, stack, v, amb);
  }

  /** The logical operators; the others get the lower value as their left operand. */
  function Combined(env: Env, op: BinaryOperator, a: Value, b: Value): Value {
    match op
    case And => Bit(!(IsFalse(a) || IsFalse(b)))
    case Or => Bit(!(IsFalse(a) && IsFalse(b)))
    case Xor => Bit((IsFalse(a) && !IsFalse(b)) || (IsFalse(b) && !IsFalse(a)))
    case _ => env.arith(op, a, b)
  }

  lemma {:induction false} BinaryYields(env: Env, op: BinaryOperator, a: Value, b: Value, stack: seq<Value>, amb: Ambient,
                                        rest: seq<Item>)
    ensures Exec(env, [Binary(op)] + rest, Machine(stack + [a] + [b], amb))
         == Exec(env, rest, Machine(stack + [Combined(env, op, a, b)], amb))
  {
    ExecTwo(env, Binary(op), rest, stack, a, b, amb);
  }

  /** A jump over `body` is taken when the top value is false, or true, as the jump says. */
  lemma {:induction false} JumpYields(env: Env, val: bool, v: Value, body: seq<Item>, stack: seq<Value>, amb: Ambient,
                                      rest: seq<Item>)
    ensures Exec(env, [JmpIf(val, |body|)] + (body + rest), Machine(stack + [v], amb))
         == Exec(env, if IsFalse(v) == val then body + rest else rest, Machine(stack + [v], amb))
  {
    ExecJump(env, val, body, rest, Machine(stack + [v], amb));
  }

  // ---- Arrays, captures and calls ----

  /** The item with the given index; any other value counts as its own only item. */
  function ItemAt(base: Value, k: nat): Value {
    if base.Array? then if k < |base.items| then base.items[k] else Str("")
    else if k == 0 then base else Str("")
  }

  lemma {:induction false} IndexYields(env: Env, base: Value, index: Value, stack: seq<Value>, amb: Ambient, rest: seq<Item>)
    ensures Exec(env, [ArrayAccess] + rest, Machine(stack + [base] + [index], amb))
         == Exec(env, rest, Machine(stack + [ItemAt(base, env.toIndex(index))], amb))
  {
    ExecTwo(env, ArrayAccess, rest, stack, base, index, amb);
  }

  /** A regular expression replaces all captures: by its groups, or by none. */
  lemma {:induction false} RegexYields(env: Env, re: string, v: Value, stack: seq<Value>, amb: Ambient, rest: seq<Item>)
    ensures Exec(env, [MatchRegex(re)] + rest, Machine(stack + [v], amb))
         == match env.match_(re, env.toText(v))
            case None => Exec(env, rest, Machine(stack + [Integer(0)], Ambient([], amb.calls)))
            case Some(groups) => Exec(env, rest, Machine(stack + [Bit(groups != [])], Ambient(groups, amb.calls)))
  {
    ExecTop(env, MatchRegex(re), rest, stack, v, amb);
  }

  /** A capture beyond the list is the empty string. */
  lemma {:induction false} PushYields(env: Env, id: nat, c: Value, k: nat, stack: seq<Value>, amb: Ambient, rest: seq<Item>)
    ensures Exec(env, [PushVariable(id)] + rest, Machine(stack, amb))
         == Exec(env, rest, Machine(stack + [env.resolve(id)], amb))
    ensures Exec(env, [PushConstant(c)] + rest, Machine(stack, amb)) == Exec(env, rest, Machine(stack + [c], amb))
    ensures Exec(env, [PushCapture(k)] + rest, Machine(stack, amb))
         == Exec(env, rest, Machine(stack + [Str(if k < |amb.captures| then amb.captures[k] else "")], amb))
  {
    ExecStep(env, PushVariable(id), rest, Machine(stack, amb));
    ExecStep(env, PushConstant(c), rest, Machine(stack, amb));
    ExecStep(env, PushCapture(k), rest, Machine(stack, amb));
  }

  /** Functions and array literals get the topmost values in the order they were pushed. A call
      is recorded when it succeeds, and ends the evaluation when it fails. */
  lemma {:induction false} ListYields(env: Env, fid: nat, vs: seq<Value>, stack: seq<Value>, amb: Ambient, rest: seq<Item>)
    ensures Exec(env, [ArrayBuild(|vs|)] + rest, Machine(stack + vs, amb))
         == Exec(env, rest, Machine(stack + [Array(vs)], amb))
    ensures Exec(env, [CallFunction(fid, |vs|)] + rest, Machine(stack + vs, amb))
         == match env.call(amb.calls, fid, vs)
            case Err(error) => Err(error)
            case Ok(v) => Exec(env, rest, Machine(stack + [v], Ambient(amb.captures, amb.calls + [Invocation(fid, vs)])))
  {
    ExecList(env, ArrayBuild(|vs|), |vs|, rest, stack, vs, amb);
    ExecList(env, CallFunction(fid, |vs|), |vs|, rest, stack, vs, amb);
  }

  /** Values missing from the stack are empty strings, before those that are there. */
  lemma {:induction false} MissingItems(env: Env, n: nat, vs: seq<Value>, amb: Ambient)
    requires |vs| <= n
    ensures Exec(env, [ArrayBuild(n)], Machine(vs, amb))
         == Ok(Machine([Array(seq(n - |vs|, _ => Str("")) + vs)], amb))
  {
    var items := seq(n - |vs|, _ => Str("")) + vs;
    assert Args(vs, n) == items && DropArgs(vs, n) == [] && [] + [Array(items)] == [Array(items)];
    hide Args;
    ExecStep(env, ArrayBuild(n), [], Machine(vs, amb));
  }

  lemma {:induction false} MissingOperands(env: Env, op: BinaryOperator, v: Value, amb: Ambient)
    ensures Exec(env, [Binary(op)], Machine([v], amb)) == Ok(Machine([Combined(env, op, Str(""), v)], amb))
    ensures Exec(env, [Unary(Not)], Machine([], amb)) == Ok(Machine([Integer(1)], amb))
    ensures EvalItems(env, [], amb) == Ok((Str(""), amb))
  {
    var w := Combined(env, op, Str(""), v);
    assert [] + [w] == [w] && [] + [Integer(1)] == [Integer(1)];
    ExecStep(env, Binary(op), [], Machine([v], amb));
    ExecStep(env, Unary(Not), [], Machine([], amb));
  }

  // ---- Whole evaluations ----

  /** `!v` is 1 for the four false values and 0 for all others. */
  lemma {:induction false} NotTable(env: Env, v: Value, amb: Ambient)
    ensures EvalItems(env, [PushConstant(v), Unary(Not)], amb) == Ok((if IsFalse(v) then Integer(1) else Integer(0), amb))
  {
    var code := [PushConstant(v), Unary(Not)];
    assert code == [PushConstant(v)] + [Unary(Not)] && [Unary(Not)] == [Unary(Not)] + [] && [] + [v] == [v];
    PushYields(env, 0, v, 0, [], amb, [Unary(Not)]);
    UnaryYields(env, v, [], amb, []);
  }

  /** `a && b` and `a || b` with their jumps: the left value itself when it decides, else the
      truth of the right one. */
  lemma {:induction false} ShortCircuitTable(env: Env, a: Value, b: Value, amb: Ambient)
    ensures EvalItems(env, [PushConstant(a), JmpIf(false, 2), PushConstant(b), Binary(And)], amb)
         == Ok((if IsFalse(a) then a else Bit(!IsFalse(b)), amb))
    ensures EvalItems(env, [PushConstant(a), JmpIf(true, 2), PushConstant(b), Binary(Or)], amb)
         == Ok((if IsFalse(a) then Bit(!IsFalse(b)) else a, amb))
  {
    ShortCircuit(env, And, a, b, amb);
    ShortCircuit(env, Or, a, b, amb);
  }

  lemma {:induction false} ShortCircuit(env: Env, op: BinaryOperator, a: Value, b: Value, amb: Ambient)
    requires op.And? || op.Or?
    ensures EvalItems(env, [PushConstant(a), JmpIf(op.Or?, 2), PushConstant(b), Binary(op)], amb)
         == Ok((if IsFalse(a) == op.Or? then Bit(!IsFalse(b)) else a, amb))
  {
    var right := [PushConstant(b), Binary(op)];
    assert [PushConstant(a), JmpIf(op.Or?, 2), PushConstant(b), Binary(op)]
        == [PushConstant(a)] + ([JmpIf(op.Or?, |right|)] + (right + []));
    assert right + [] == [PushConstant(b)] + [Binary(op)] && [Binary(op)] + [] == [Binary(op)] && [] + [a] == [a];
    assert Exec(env, [], Machine([a], amb)) == Ok(Machine([a], amb));
    PushYields(env, 0, a, 0, [], amb, [JmpIf(op.Or?, |right|)] + (right + []));
    JumpYields(env, op.Or?, a, right, [], amb, []);
    PushYields(env, 0, b, 0, [a], amb, [Binary(op)]);
    BinaryYields(env, op, a, b, [], amb, []);
  }

  // ---- If blocks ----

  /** The first k conditions are false; each is evaluated with the captures and calls that the one
      before it has left. */
  ghost predicate AllFalse(env: Env, ifs: seq<IfThen<Expr>>, ambs: seq<Ambient>, k: nat) {
    && k <= |ifs| && |ambs| == k + 1
    && forall i | 0 <= i < k :: FalseThen(Denote(env, ifs[i].cond, ambs[i]), ambs[i + 1])
  }

  ghost predicate FalseThen(r: Outcome, next: Ambient) {
    r.Ok? && IsFalse(r.value.0) && r.value.1 == next
  }

  /** The first condition that is true, or fails, decides; the default does if there is none. */
  lemma {:induction false} FirstTrue(env: Env, ifs: seq<IfThen<Expr>>, default: Expr, ambs: seq<Ambient>, k: nat)
    requires AllFalse(env, ifs, ambs, k)
    ensures k == |ifs| ==> DenoteIf(env, ifs, default, ambs[0]) == Denote(env, default, ambs[k])
    ensures k < |ifs| ==>
              var c := Denote(env, ifs[k].cond, ambs[k]);
              && (c.Err? ==> DenoteIf(env, ifs, default, ambs[0]) == c)
              && (c.Ok? && !IsFalse(c.value.0) ==>
                    DenoteIf(env, ifs, default, ambs[0]) == Denote(env, ifs[k].then_, c.value.1))
    decreases k
  {
    hide Denote;
    if k > 0 {
      assert FalseThen(Denote(env, ifs[0].cond, ambs[0]), ambs[1]);
      forall i | 0 <= i < k - 1 ensures FalseThen(Denote(env, ifs[1..][i].cond, ambs[1..][i]), ambs[1..][i + 1]) {
        assert FalseThen(Denote(env, ifs[i + 1].cond, ambs[i + 1]), ambs[i + 2]);
      }
      FirstTrue(env, ifs[1..], default, ambs[1..], k - 1);
    }
  }
}
