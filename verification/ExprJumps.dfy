/** Jump structure of the parser's output, for every token sequence, and the parser
    as the object that updates its output and stacks in place. */
module ExprJumps {
  import opened Prelude
  import opened ExprSyntax
  import opened ExprParser

  predicate Patched(out: seq<Item>, i: int) {
    0 <= i < |out| && out[i].JmpIf? && out[i].pos > 0
  }

  predicate Unpatched(out: seq<Item>, i: int) {
    0 <= i < |out| && out[i].JmpIf? && out[i].pos == 0
  }

  /** A patched jump lands on the operator it belongs to, inside the code. */
  predicate Lands(out: seq<Item>, i: int)
    requires Patched(out, i)
  {
    var end := i + out[i].pos;
    end < |out| && out[end] == Binary(if out[i].val then Or else And)
  }

  predicate NestedOrDisjoint(out: seq<Item>, i: int, j: int)
    requires Patched(out, i) && Patched(out, j)
  {
    i + out[i].pos < j || j + out[j].pos < i + out[i].pos
  }

  /** Patched jumps land on their operators, and two of them are nested or disjoint. */
  ghost predicate WellNested(out: seq<Item>) {
    && (forall i | Patched(out, i) :: Lands(out, i))
    && (forall i, j | Patched(out, i) && Patched(out, j) && i < j :: NestedOrDisjoint(out, i, j))
  }

  /** `p` is not inside the span of the patched jump `i`. */
  predicate Outside(out: seq<Item>, i: int, p: int)
    requires Patched(out, i)
  {
    p < i || i + out[i].pos < p
  }

  predicate Increasing(js: seq<nat>) {
    forall j, k | 0 <= j < k < |js| :: js[j] < js[k]
  }

  /** Code whose unpatched jumps are exactly the increasing positions `js`, none of
      them inside the span of a patched jump. */
  ghost predicate Shape(out: seq<Item>, js: seq<nat>) {
    && WellNested(out)
    && Increasing(js)
    && (forall i :: Unpatched(out, i) <==> i in js)
    && (forall i, p | Patched(out, i) && p in js :: Outside(out, i, p))
  }

  lemma NestedAppend(out: seq<Item>, it: Item)
    requires WellNested(out) && !(it.JmpIf? && it.pos > 0)
    ensures WellNested(out + [it])
    ensures forall i :: Patched(out + [it], i) <==> Patched(out, i)
  {
    var r := out + [it];
    assert forall i :: Patched(r, i) <==> Patched(out, i);
    assert forall i | Patched(r, i) :: Lands(out, i) && r[i] == out[i];
    assert forall i, j | Patched(r, i) && Patched(r, j) && i < j :: NestedOrDisjoint(out, i, j);
  }

  lemma ShapeAppend(out: seq<Item>, js: seq<nat>, it: Item)
    requires Shape(out, js) && !it.JmpIf?
    ensures Shape(out + [it], js)
  {
    hide WellNested;
    NestedAppend(out, it);
    assert forall i :: Unpatched(out + [it], i) <==> Unpatched(out, i);
    assert forall i, p | Patched(out + [it], i) && p in js :: Outside(out, i, p);
  }

  lemma ShapeJump(out: seq<Item>, js: seq<nat>, val: bool)
    requires Shape(out, js)
    ensures Shape(out + [JmpIf(val, 0)], js + [|out|])
  {
    var r, all := out + [JmpIf(val, 0)], js + [|out|];
    NestedAppend(out, JmpIf(val, 0));
    forall i, p | Patched(r, i) && p in all ensures Outside(r, i, p) {
      if p in js { assert Outside(out, i, p); } else { assert Lands(out, i); }
    }
    hide WellNested;
    assert forall i :: Unpatched(r, i) <==> Unpatched(out, i) || i == |out|;
    forall j, k | 0 <= j < k < |all| ensures all[j] < all[k] {
      assert js[j] in js && Unpatched(out, js[j]);
    }
  }

  lemma NestedPatch(out: seq<Item>, p: nat, op: BinaryOperator)
    requires WellNested(out) && ShortCircuits(op) && p < |out| && out[p] == JmpIf(op.Or?, 0)
    requires forall i | Patched(out, i) :: Outside(out, i, p)
    ensures WellNested(out[p := JmpIf(op.Or?, |out| - p)] + [Binary(op)])
  {
    var r := out[p := JmpIf(op.Or?, |out| - p)] + [Binary(op)];
    assert forall i :: Patched(r, i) <==> Patched(out, i) || i == p;
    assert forall i | Patched(out, i) :: Lands(out, i);
    forall i, j | Patched(r, i) && Patched(r, j) && i < j ensures NestedOrDisjoint(r, i, j) {
      if i != p && j != p { assert NestedOrDisjoint(out, i, j); }
    }
  }

  /** Patching the latest pending jump to an operator at the end: it now encloses
      every jump patched since it was emitted. */
  lemma ShapePatch(out: seq<Item>, js: seq<nat>, p: nat, op: BinaryOperator)
    requires Shape(out, js + [p]) && ShortCircuits(op) && p < |out| && out[p] == JmpIf(op.Or?, 0)
    ensures Shape(out[p := JmpIf(op.Or?, |out| - p)] + [Binary(op)], js)
  {
    var r := out[p := JmpIf(op.Or?, |out| - p)] + [Binary(op)];
    var all := js + [p];
    assert forall q | q in js :: q in all && q != p && Unpatched(out, q) by {
      forall q | q in js ensures q in all && q != p {
        var k :| 0 <= k < |js| && js[k] == q;
        assert all[k] == q && all[|js|] == p;
      }
    }
    assert p in all;
    assert Increasing(js) by { assert forall j | 0 <= j < |js| :: all[j] == js[j]; }
    assert forall i :: Patched(r, i) <==> Patched(out, i) || i == p;
    assert forall i :: Unpatched(r, i) <==> Unpatched(out, i) && i != p;
    assert forall i | Patched(out, i) :: Outside(out, i, p);
    NestedPatch(out, p, op);
    forall i, q | Patched(r, i) && q in js ensures Outside(r, i, q) {
      if i == p {
        var k :| 0 <= k < |js| && js[k] == q;
        assert all[k] < all[|js|];
      } else {
        assert Outside(out, i, q);
      }
    }
  }

  /** The positions the pending operators are to patch, bottom of the stack first. */
  function Pendings(ops: seq<Pending>): seq<nat> {
    if ops == [] then []
    else
      var e := ops[|ops| - 1];
      Pendings(ops[..|ops| - 1]) + if e.jmp.Some? then [e.jmp.value] else []
  }

  /** A pending `&&` or `||` points at its own unpatched jump; no other entry points anywhere. */
  predicate Points(out: seq<Item>, e: Pending) {
    if e.tok.BinaryOp? && ShortCircuits(e.tok.bop)
    then e.jmp.Some? && e.jmp.value < |out| && out[e.jmp.value] == JmpIf(e.tok.bop.Or?, 0)
    else e.jmp.None?
  }

  ghost predicate AllPoint(out: seq<Item>, ops: seq<Pending>) {
    forall k | 0 <= k < |ops| :: Points(out, ops[k])
  }

  ghost predicate Sound(w: Work) {
    Shape(w.output, Pendings(w.ops)) && AllPoint(w.output, w.ops)
  }

  predicate IsHead(e: Pending) {
    e.tok.Function? || e.tok.Regex?
  }

  /** The entries that own an argument count. */
  function Heads(ops: seq<Pending>): nat {
    if ops == [] then 0 else Heads(ops[..|ops| - 1]) + if IsHead(ops[|ops| - 1]) then 1 else 0
  }

  ghost predicate Balanced(ops: seq<Pending>, args: seq<int>) {
    |args| == Heads(ops)
  }

  lemma HeadsPush(ops: seq<Pending>, e: Pending)
    ensures Heads(ops + [e]) == Heads(ops) + if IsHead(e) then 1 else 0
  {
    assert (ops + [e])[..|ops|] == ops;
  }

  lemma {:induction false} HeadsUpdate(ops: seq<Pending>, k: nat, e: Pending)
    requires k < |ops| && IsHead(e) == IsHead(ops[k])
    ensures Heads(ops[k := e]) == Heads(ops)
    decreases |ops|
  {
    var n := |ops| - 1;
    if k < n {
      HeadsUpdate(ops[..n], k, e);
      assert ops[k := e][..n] == ops[..n][k := e];
    } else {
      assert ops[k := e][..n] == ops[..n];
    }
  }

  lemma PendingsPush(ops: seq<Pending>, e: Pending)
    ensures Pendings(ops + [e]) == Pendings(ops) + if e.jmp.Some? then [e.jmp.value] else []
  {
    assert (ops + [e])[..|ops|] == ops;
  }

  lemma {:induction false} PendingsUpdate(ops: seq<Pending>, k: nat, e: Pending)
    requires k < |ops| && e.jmp == ops[k].jmp
    ensures Pendings(ops[k := e]) == Pendings(ops)
    decreases |ops|
  {
    var n := |ops| - 1;
    if k < n {
      PendingsUpdate(ops[..n], k, e);
      assert ops[k := e][..n] == ops[..n][k := e];
    } else {
      assert ops[k := e][..n] == ops[..n];
    }
  }

  lemma {:induction false} PendingIn(ops: seq<Pending>, k: nat)
    requires k < |ops| && ops[k].jmp.Some?
    ensures ops[k].jmp.value in Pendings(ops)
    decreases |ops|
  {
    var n := |ops| - 1;
    if k < n { PendingIn(ops[..n], k); }
  }

  lemma PopOneSound(w: Work)
    requires Sound(w) && w.ops != [] && Yields(w.ops[|w.ops| - 1], 0)
    ensures Sound(PopOne(w)) && Heads(PopOne(w).ops) == Heads(w.ops)
  {
    var n := |w.ops| - 1;
    var e, ops := w.ops[n], w.ops[..n];
    assert Points(w.output, e);
    assert w.ops == ops + [e];
    PendingsPush(ops, e);
    HeadsPush(ops, e);
    assert AllPoint(w.output, ops);
    assert e.jmp.None? ==> Pendings(w.ops) == Pendings(ops);
    if e.jmp.None? {
      var it := if e.tok.UnaryOp? then Unary(e.tok.uop) else Binary(e.tok.bop);
      ShapeAppend(w.output, Pendings(ops), it);
      AllPointAppend(w.output, ops, it);
    } else {
      ShapePatch(w.output, Pendings(ops), e.jmp.value, e.tok.bop);
      AllPointPatch(w, e);
    }
  }

  lemma AllPointAppend(out: seq<Item>, ops: seq<Pending>, it: Item)
    requires AllPoint(out, ops)
    ensures AllPoint(out + [it], ops)
  {
    forall k | 0 <= k < |ops| ensures Points(out + [it], ops[k]) {
      assert Points(out, ops[k]);
    }
  }

  lemma AllPointPatch(w: Work, e: Pending)
    requires Sound(w) && w.ops != [] && e == w.ops[|w.ops| - 1] && e.jmp.Some?
    requires e.tok.BinaryOp?
    ensures AllPoint(PopOne(w).output, w.ops[..|w.ops| - 1])
  {
    var n := |w.ops| - 1;
    var ops, js := w.ops[..n], Pendings(w.ops[..n]);
    assert w.ops == ops + [e];
    PendingsPush(ops, e);
    forall k | 0 <= k < |ops| ensures Points(PopOne(w).output, ops[k]) {
      assert Points(w.output, w.ops[k]);
      if ops[k].jmp.Some? {
        PendingIn(ops, k);
        var j :| 0 <= j < |js| && js[j] == ops[k].jmp.value;
        assert (js + [e.jmp.value])[j] < (js + [e.jmp.value])[|js|];
      }
    }
  }

  lemma {:induction false} PopOpsSound(w: Work, p: nat)
    requires Sound(w)
    ensures Sound(PopOps(w, p)) && Heads(PopOps(w, p).ops) == Heads(w.ops)
    decreases |w.ops|
  {
    hide Sound;
    if w.ops != [] && Yields(w.ops[|w.ops| - 1], p) {
      PopOneSound(w);
      PopOpsSound(PopOne(w), p);
    }
  }

  lemma AppendSound(w: Work, it: Item)
    requires !it.JmpIf? && Sound(w)
    ensures Sound(Work(w.output + [it], w.ops))
  {
    ShapeAppend(w.output, Pendings(w.ops), it);
    AllPointAppend(w.output, w.ops, it);
  }

  lemma PushOpSound(w: Work, tok: Token)
    requires Sound(w) && !tok.BinaryOp?
    ensures Sound(PushOp(w, tok))
    ensures Heads(PushOp(w, tok).ops) == Heads(w.ops) + if IsHead(Pending(tok, None)) then 1 else 0
  {
    HeadsPush(w.ops, Pending(tok, None));
    PendingsPush(w.ops, Pending(tok, None));
    forall k | 0 <= k <= |w.ops| ensures Points(w.output, PushOp(w, tok).ops[k]) {
      if k < |w.ops| { assert Points(w.output, w.ops[k]); }
    }
  }

  lemma AllPointPush(out: seq<Item>, ops: seq<Pending>, e: Pending)
    requires AllPoint(out, ops) && Points(out, e)
    ensures AllPoint(out, ops + [e])
  {
  }

  lemma PushJumpSound(w: Work, op: BinaryOperator)
    requires Sound(w) && ShortCircuits(op)
    ensures Sound(PushBinary(w, op))
  {
    var jump, e := JmpIf(op.Or?, 0), Pending(BinaryOp(op), Some(|w.output|));
    PendingsPush(w.ops, e);
    ShapeJump(w.output, Pendings(w.ops), op.Or?);
    AllPointAppend(w.output, w.ops, jump);
    assert Points(w.output + [jump], e);
    AllPointPush(w.output + [jump], w.ops, e);
    assert PushBinary(w, op) == Work(w.output + [jump], w.ops + [e]);
    hide Shape, AllPoint, Points, Pendings;
  }

  lemma PushBinarySound(w: Work, op: BinaryOperator)
    requires Sound(w)
    ensures Sound(PushBinary(w, op)) && Heads(PushBinary(w, op).ops) == Heads(w.ops)
  {
    hide Shape, AllPoint, Pendings;
    var e := Pending(BinaryOp(op), if ShortCircuits(op) then Some(|w.output|) else None);
    HeadsPush(w.ops, e);
    if ShortCircuits(op) {
      PushJumpSound(w, op);
    } else {
      PendingsPush(w.ops, e);
      AllPointPush(w.output, w.ops, e);
      assert Pendings(w.ops) + [] == Pendings(w.ops);
    }
  }

  lemma CountSound(st: State)
    requires Invariant(st)
    ensures Invariant(CountOperand(st))
  {
    var w, r := st.work, CountOperand(st).work;
    var k := if |w.ops| >= 2 then |w.ops| - 2 else 0;
    if st.args != [] && k < |w.ops| && IsArrayBuild(w.ops[k]) {
      HeadsUpdate(w.ops, k, r.ops[k]);
      PendingsUpdate(w.ops, k, r.ops[k]);
      forall j | 0 <= j < |r.ops| ensures Points(r.output, r.ops[j]) {
        assert Points(w.output, w.ops[j]);
      }
    }
  }

  lemma DropSound(w: Work, n: nat)
    requires Sound(w) && n == |w.ops| - 1 && !w.ops[n].tok.BinaryOp?
    ensures Sound(Work(w.output, w.ops[..n])) && Heads(w.ops[..n]) == Heads(w.ops) - if IsHead(w.ops[n]) then 1 else 0
  {
    assert Points(w.output, w.ops[n]);
    assert Pendings(w.ops) == Pendings(w.ops[..n]);
    forall k | 0 <= k < n ensures Points(w.output, w.ops[..n][k]) {
      assert Points(w.output, w.ops[k]);
    }
  }

  /** What every step keeps. */
  ghost predicate Invariant(st: State) {
    Sound(st.work) && Balanced(st.work.ops, st.args)
  }

  lemma EndGroupSound(w: Work, args: seq<int>)
    requires Sound(w) && Balanced(w.ops, args)
    ensures EndGroup(w, args) != Err(Panic)
    ensures EndGroup(w, args).Ok? ==> Invariant(EndGroup(w, args).value)
  {
    hide Sound;
    var n := |w.ops| - 1;
    if w.ops != [] && IsHead(w.ops[n]) {
      DropSound(w, n);
      var r := EndGroup(w, args);
      if r.Ok? { AppendSound(Work(w.output, w.ops[..n]), r.value.work.output[|w.output|]); }
    }
  }

  /** Every token keeps the invariant, and neither argument-count pop can fail. */
  lemma StepSound(st: State, tok: Token)
    requires Invariant(st)
    ensures Step(st, tok) != Err(Panic)
    ensures Step(st, tok).Ok? ==> Invariant(Step(st, tok).value)
  {
    hide Sound, PopOps, Close, Emit, OpenCall, OpenArray, PushBinary;
    match tok
    case Variable(id) => EmitSound(st, PushVariable(id), true);
    case Constant(v) => EmitSound(st, PushConstant(v), false);
    case Capture(idx) => EmitSound(st, PushCapture(idx), false);
    case UnaryOp(_) => PushOpSound(st.work, tok);
    case OpenParen => PushOpSound(st.work, tok);
    case CloseParen => CloseSound(st.work, st.args, OpenParen);
    case CloseBracket => CloseSound(st.work, st.args, OpenBracket);
    case BinaryOp(op) =>
      PopOpsSound(st.work, Precedence(op));
      PushBinarySound(PopOps(st.work, Precedence(op)), op);
    case Function(_, _, _) => OpenCallSound(st, tok);
    case Regex(_) => OpenCallSound(st, tok);
    case OpenBracket => OpenArraySound(st);
    case Comma => PopOpsSound(st.work, 0);
  }

  lemma EmitSound(st: State, item: Item, isVar: bool)
    requires Invariant(st) && !item.JmpIf?
    ensures Invariant(Emit(st, item, isVar))
  {
    hide Sound;
    CountSound(st);
    AppendSound(CountOperand(st).work, item);
  }

  lemma OpenCallSound(st: State, tok: Token)
    requires Invariant(st) && (tok.Function? || tok.Regex?)
    ensures Invariant(OpenCall(st, tok))
  {
    hide Sound;
    CountSound(st);
    PushOpSound(CountOperand(st).work, tok);
  }

  lemma CloseSound(w: Work, args: seq<int>, open: Token)
    requires Sound(w) && Balanced(w.ops, args) && (open.OpenParen? || open.OpenBracket?)
    ensures Close(w, args, open) != Err(Panic)
    ensures Close(w, args, open).Ok? ==> Invariant(Close(w, args, open).value)
  {
    hide Sound;
    PopOpsSound(w, 0);
    var done := PopOps(w, 0);
    if done.ops != [] && done.ops[|done.ops| - 1].tok == open {
      DropSound(done, |done.ops| - 1);
      EndGroupSound(Work(done.output, done.ops[..|done.ops| - 1]), args);
    }
  }

  lemma OpenArraySound(st: State)
    requires Invariant(st)
    ensures Invariant(OpenArray(st))
  {
    hide Sound;
    var s := if st.lastIsVar then st else CountOperand(st);
    CountSound(st);
    var f := Function("array", if st.lastIsVar then ID_ARRAY_ACCESS else ID_ARRAY_BUILD, if st.lastIsVar then 2 else 0);
    PushOpSound(s.work, f);
    PushOpSound(PushOp(s.work, f), OpenBracket);
  }

  lemma {:induction false} RunSound(st: State, toks: seq<Token>)
    requires Invariant(st)
    ensures Run(st, toks) != Err(Panic)
    ensures Run(st, toks).Ok? ==> Invariant(Run(st, toks).value)
    decreases |toks|
  {
    hide Sound;
    if toks != [] {
      StepSound(st, toks[0]);
      if Step(st, toks[0]).Ok? { RunSound(Step(st, toks[0]).value, toks[1..]); }
    }
  }

  lemma FinishSound(w: Work)
    requires Sound(w) && Finish(w).Ok?
    ensures forall i | 0 <= i < |Finish(w).value| && Finish(w).value[i].JmpIf? :: Patched(Finish(w).value, i)
    ensures WellNested(Finish(w).value)
  {
    PopOpsSound(w, 0);
    var out := Finish(w).value;
    forall i | 0 <= i < |out| && out[i].JmpIf? ensures Patched(out, i) {
      assert !Unpatched(out, i);
    }
  }

  lemma InitialSound()
    ensures Invariant(INITIAL)
  {
  }

  /** Whatever the tokens: parsing never panics, and every jump of accepted code is
      patched to its own operator, two jumps being nested or disjoint. */
  lemma JumpStructure(toks: seq<Token>)
    ensures Parse(toks) != Err(Panic)
    ensures Parse(toks).Ok? ==>
              var out := Parse(toks).value;
              WellNested(out) && forall i | 0 <= i < |out| && out[i].JmpIf? :: Patched(out, i)
  {
    hide Sound;
    InitialSound();
    RunSound(INITIAL, toks);
    var r := Run(INITIAL, toks);
    if r.Ok? && Finish(r.value.work).Ok? { FinishSound(r.value.work); }
  }

  /** The slot that popping the top operator patches is a jump. */
  lemma PointsAt(w: Work)
    requires Sound(w) && w.ops != [] && w.ops[|w.ops| - 1].jmp.Some?
    ensures var at := w.ops[|w.ops| - 1].jmp.value; at < |w.output| && w.output[at].JmpIf?
  {
    assert Points(w.output, w.ops[|w.ops| - 1]);
  }

  /** The parser object. */
  class ExpressionParser {
    var output: seq<Item>
    var operatorStack: seq<Pending>
    var argCount: seq<int>

    ghost predicate Valid()
      reads this
    {
      Sound(At()) && Balanced(operatorStack, argCount)
    }

    function At(): Work
      reads this
    {
      Work(output, operatorStack)
    }

    constructor ()
      ensures Valid() && output == [] && operatorStack == [] && argCount == []
    {
      output, operatorStack, argCount := [], [], [];
    }

    method IncArgCount()
      requires Valid()
      modifies this
      ensures Valid() && State(At(), argCount, false) == CountOperand(State(old(At()), old(argCount), false))
    {
      hide Sound;
      CountSound(State(At(), argCount, false));
      if |argCount| > 0 {
        argCount := argCount[|argCount| - 1 := argCount[|argCount| - 1] + 1];
        var k := if |operatorStack| >= 2 then |operatorStack| - 2 else 0;
        if k < |operatorStack| && IsArrayBuild(operatorStack[k]) {
          var f := operatorStack[k].tok;
          operatorStack := operatorStack[k := operatorStack[k].(tok := f.(numArgs := f.numArgs + 1))];
        }
      }
    }

    /** Moves the top operator to the output. The slot it patches is always a jump. */
    method PopOperator()
      requires Valid() && operatorStack != [] && Yields(operatorStack[|operatorStack| - 1], 0)
      modifies this`output, this`operatorStack
      ensures Valid() && At() == PopOne(old(At()))
    {
      hide Sound;
      PopOneSound(At());
      var e := operatorStack[|operatorStack| - 1];
      if e.jmp.Some? { PointsAt(At()); }
      operatorStack := operatorStack[..|operatorStack| - 1];
      if e.tok.UnaryOp? {
        output := output + [Unary(e.tok.uop)];
      } else {
        if e.jmp.Some? {
          var at := e.jmp.value;
          assert output[at].JmpIf?;
          output := output[at := output[at].(pos := |output| - at)];
        }
        output := output + [Binary(e.tok.bop)];
      }
    }

    method PopOperators(p: nat)
      requires Valid()
      modifies this`output, this`operatorStack
      ensures Valid() && At() == PopOps(old(At()), p)
    {
      hide Sound;
      while |operatorStack| > 0 && Yields(operatorStack[|operatorStack| - 1], p)
        invariant Valid() && argCount == old(argCount)
        invariant PopOps(At(), p) == PopOps(old(At()), p)
        decreases |operatorStack|
      {
        PopOperator();
      }
    }

    /** Completes the call, array or regex entry on top, if there is one. */
    method FinishGroup() returns (r: Result<(), ParseError>)
      requires Valid()
      modifies this
      ensures var want := EndGroup(old(At()), old(argCount));
              if r.Ok? then Valid() && want == Ok(State(At(), argCount, true)) else want == Err(r.error)
    {
      hide Sound;
      EndGroupSound(At(), argCount);
      if |operatorStack| > 0 && IsHead(operatorStack[|operatorStack| - 1]) {
        var head := operatorStack[|operatorStack| - 1].tok;
        var got := argCount[|argCount| - 1];
        argCount := argCount[..|argCount| - 1];
        operatorStack := operatorStack[..|operatorStack| - 1];
        if head.Regex? {
          if got != 1 {
            return Err(MatchesArgumentCount);
          }
          output := output + [MatchRegex(head.re)];
        } else {
          if got != head.numArgs {
            return Err(if head.fid != ID_ARRAY_ACCESS then WrongArgumentCount else MissingArrayIndex);
          }
          output := output + [if head.fid == ID_ARRAY_ACCESS then ArrayAccess
                              else if head.fid == ID_ARRAY_BUILD then ArrayBuild(head.numArgs)
                              else CallFunction(head.fid, head.numArgs)];
        }
      }
      r := Ok(());
    }

    method CloseGroup(open: Token) returns (r: Result<bool, ParseError>)
      requires Valid() && (open.OpenParen? || open.OpenBracket?)
      modifies this
      ensures var want := Close(old(At()), old(argCount), open);
              if r.Ok? then Valid() && want == Ok(State(At(), argCount, r.value)) else want == Err(r.error)
    {
      hide Sound;
      PopOperators(0);
      if |operatorStack| == 0 || operatorStack[|operatorStack| - 1].tok != open {
        return Err(MismatchedParentheses);
      }
      DropSound(At(), |operatorStack| - 1);
      operatorStack := operatorStack[..|operatorStack| - 1];
      var done := FinishGroup();
      r := if done.Ok? then Ok(true) else Err(done.error);
    }

    method PushOperand(item: Item, isVar: bool)
      requires Valid() && !item.JmpIf?
      modifies this
      ensures Valid() && State(At(), argCount, isVar) == Emit(State(old(At()), old(argCount), false), item, isVar)
    {
      hide Sound;
      IncArgCount();
      AppendSound(At(), item);
      output := output + [item];
    }

    method PushBinaryOperator(op: BinaryOperator)
      requires Valid()
      modifies this
      ensures Valid() && argCount == DecArgs(old(argCount))
      ensures At() == PushBinary(PopOps(old(At()), Precedence(op)), op)
    {
      hide Sound, PopOps, Precedence;
      PopOperators(Precedence(op));
      PushBinarySound(At(), op);
      argCount := DecArgs(argCount);
      if ShortCircuits(op) {
        var jmp: nat := |output|;
        output := output + [JmpIf(op.Or?, 0)];
        operatorStack := operatorStack + [Pending(BinaryOp(op), Some(jmp))];
      } else {
        operatorStack := operatorStack + [Pending(BinaryOp(op), None)];
      }
    }

    /** Pushes the entry of a call, regex or array with its own argument count. */
    method PushHead(head: Token, count: int, counted: bool)
      requires Valid() && (head.Function? || head.Regex?)
      modifies this
      ensures var s := if counted then CountOperand(State(old(At()), old(argCount), false))
                       else State(old(At()), old(argCount), false);
              Valid() && At() == PushOp(s.work, head) && argCount == s.args + [count]
    {
      hide Sound;
      if counted { IncArgCount(); }
      PushOpSound(At(), head);
      argCount := argCount + [count];
      operatorStack := operatorStack + [Pending(head, None)];
    }

    method PushToken(tok: Token)
      requires Valid() && (tok.OpenParen? || tok.OpenBracket? || tok.UnaryOp?)
      modifies this`operatorStack
      ensures Valid() && At() == PushOp(old(At()), tok)
    {
      hide Sound;
      PushOpSound(At(), tok);
      operatorStack := operatorStack + [Pending(tok, None)];
    }

    /** One token; the result is the flag the next token reads. */
    method Consume(tok: Token, lastIsVar: bool) returns (r: Result<bool, ParseError>)
      requires Valid()
      modifies this
      ensures var want := Step(State(old(At()), old(argCount), lastIsVar), tok);
              if r.Ok? then Valid() && want == Ok(State(At(), argCount, r.value)) else want == Err(r.error)
    {
      hide Sound, Balanced, PopOps, EndGroup;
      r := Ok(false);
      match tok
      case Variable(id) => PushOperand(PushVariable(id), true); r := Ok(true);
      case Constant(c) => PushOperand(PushConstant(c), false);
      case Capture(idx) => PushOperand(PushCapture(idx), false);
      case UnaryOp(_) => PushToken(tok);
      case OpenParen => PushToken(tok);
      case CloseParen => r := CloseGroup(OpenParen);
      case CloseBracket => r := CloseGroup(OpenBracket);
      case BinaryOp(op) => PushBinaryOperator(op);
      case Function(_, _, _) => PushHead(tok, 0, true);
      case Regex(_) => PushHead(tok, 0, true);
      case OpenBracket =>
        if lastIsVar {
          PushHead(Function("array", ID_ARRAY_ACCESS, 2), 1, false);
        } else {
          PushHead(Function("array", ID_ARRAY_BUILD, 0), 0, true);
        }
        PushToken(tok);
      case Comma => PopOperators(0);
    }

    /** Parses a whole token sequence from the initial state. */
    method ParseAll(toks: seq<Token>) returns (r: Result<seq<Item>, ParseError>)
      requires Valid() && At() == Work([], []) && argCount == []
      modifies this
      ensures r == Parse(toks)
    {
      hide Sound;
      var lastIsVar := false;
      for k := 0 to |toks|
        invariant Valid() && Run(INITIAL, toks) == Run(State(At(), argCount, lastIsVar), toks[k..])
      {
        assert toks[k..][0] == toks[k] && toks[k..][1..] == toks[k + 1..];
        var step := Consume(toks[k], lastIsVar);
        if step.Err? {
          return Err(step.error);
        }
        lastIsVar := step.value;
      }
      PopOperators(0);
      r := if |operatorStack| == 0 then Ok(output) else Err(InvalidOperatorStack);
    }
  }
}
