/** Full paths of mailboxes: a depth-first search over parent ids with a stack of
    suspended iterators. */
module MailboxTree {
  import opened Prelude

  datatype Mailbox = Mailbox(id: Option<string>, name: string, parent: Option<string>)

  type Path = seq<string>

  /** Every mailbox has an id of its own. */
  predicate DistinctIds(ms: seq<Mailbox>) {
    && (forall i | 0 <= i < |ms| :: ms[i].id.Some?)
    && (forall i, j | 0 <= i < j < |ms| :: ms[i].id != ms[j].id)
  }

  /** Some mailbox has this parent. A mailbox without an id counts as the parent of the roots. */
  predicate HasChildren(ms: seq<Mailbox>, id: Option<string>) {
    exists m <- ms :: m.parent == id
  }

  // ---- Trails: the mailboxes from a root down ----

  ghost predicate Links(ms: seq<Mailbox>, i: nat, j: nat)
    requires i < |ms| && j < |ms|
  {
    ms[j].parent == ms[i].id
  }

  ghost predicate IsTrail(ms: seq<Mailbox>, t: seq<nat>) {
    && (forall k | 0 <= k < |t| :: t[k] < |ms|)
    && (t != [] ==> ms[t[0]].parent == None)
    && (forall k | 0 < k < |t| :: Links(ms, t[k - 1], t[k]))
  }

  ghost function PathOf(ms: seq<Mailbox>, t: seq<nat>): Path
    requires forall k | 0 <= k < |t| :: t[k] < |ms|
  {
    seq(|t|, k requires 0 <= k < |t| => ms[t[k]].name)
  }

  /** The parent whose children are being listed after a trail. */
  ghost function ParentAfter(ms: seq<Mailbox>, t: seq<nat>): Option<string>
    requires IsTrail(ms, t)
  {
    if t == [] then None else ms[t[|t| - 1]].id
  }

  lemma TrailPrefix(ms: seq<Mailbox>, t: seq<nat>, n: nat)
    requires IsTrail(ms, t) && n <= |t|
    ensures IsTrail(ms, t[..n]) && PathOf(ms, t[..n]) == PathOf(ms, t)[..n]
  {
    var p := t[..n];
    forall k | 0 < k < |p| ensures Links(ms, p[k - 1], p[k]) {
      assert Links(ms, t[k - 1], t[k]);
    }
  }

  lemma TrailExtend(ms: seq<Mailbox>, t: seq<nat>, k: nat)
    requires IsTrail(ms, t) && k < |ms| && ms[k].parent == ParentAfter(ms, t)
    ensures IsTrail(ms, t + [k]) && PathOf(ms, t + [k]) == PathOf(ms, t) + [ms[k].name]
  {
    var u := t + [k];
    forall j | 0 < j < |u| ensures Links(ms, u[j - 1], u[j]) {
      if j < |t| { assert Links(ms, t[j - 1], t[j]); }
    }
  }

  /** A trail never passes a mailbox twice: going up from both places would end at
      a root and not a root. */
  lemma {:induction false} TrailDistinct(ms: seq<Mailbox>, t: seq<nat>, i: nat, j: nat)
    requires DistinctIds(ms) && IsTrail(ms, t) && i < j < |t|
    ensures t[i] != t[j]
    decreases i
  {
    assert Links(ms, t[j - 1], t[j]);
    if i > 0 {
      assert Links(ms, t[i - 1], t[i]);
      TrailDistinct(ms, t, i - 1, j - 1);
    }
  }

  lemma {:induction false} DistinctBounded(t: seq<nat>, n: nat)
    requires (forall k | 0 <= k < |t| :: t[k] < n) && (forall i, j | 0 <= i < j < |t| :: t[i] != t[j])
    ensures |t| <= n
  {
    var s, elems := Below(n), Elements(t);
    BelowCard(n);
    SeqCard(t);
    SubsetCard(elems, s);
  }

  function Below(n: nat): set<nat> {
    if n == 0 then {} else Below(n - 1) + {n - 1}
  }

  function Elements(t: seq<nat>): set<nat> {
    set x | x in t
  }

  lemma {:induction false} BelowCard(n: nat)
    ensures |Below(n)| == n && forall x: nat :: x in Below(n) <==> x < n
    decreases n
  {
    if n > 0 { BelowCard(n - 1); }
  }

  lemma {:induction false} SeqCard(t: seq<nat>)
    requires forall i, j | 0 <= i < j < |t| :: t[i] != t[j]
    ensures |Elements(t)| == |t|
    decreases |t|
  {
    if t != [] {
      var u := t[..|t| - 1];
      SeqCard(u);
      assert t == u + [t[|t| - 1]];
      assert Elements(t) == Elements(u) + {t[|t| - 1]};
    }
  }

  lemma {:induction false} SubsetCard<T>(a: set<T>, b: set<T>)
    requires a <= b
    ensures |a| <= |b|
    decreases |a|
  {
    if a != {} {
      var x :| x in a;
      SubsetCard(a - {x}, b - {x});
    }
  }

  /** Going down from a root always comes to an end. */
  ghost predicate Finite(ms: seq<Mailbox>) {
    forall t | IsTrail(ms, t) :: |t| <= |ms|
  }

  lemma TrailBounded(ms: seq<Mailbox>, t: seq<nat>)
    requires Finite(ms) && IsTrail(ms, t)
    ensures |t| <= |ms|
  {
  }

  lemma DistinctFinite(ms: seq<Mailbox>)
    requires DistinctIds(ms)
    ensures Finite(ms)
  {
    forall t | IsTrail(ms, t) ensures |t| <= |ms| {
      forall i, j | 0 <= i < j < |t| ensures t[i] != t[j] { TrailDistinct(ms, t, i, j); }
      DistinctBounded(t, |ms|);
    }
  }

  ghost predicate Repeats(t: seq<nat>) {
    exists i, j :: 0 <= i < j < |t| && t[i] == t[j]
  }

  /** The part of a trail between two visits of a mailbox can be gone through once more. */
  lemma Again(ms: seq<Mailbox>, t: seq<nat>) returns (u: seq<nat>)
    requires IsTrail(ms, t) && Repeats(t)
    ensures IsTrail(ms, u) && Repeats(u) && |u| > |t|
  {
    var i, j :| 0 <= i < j < |t| && t[i] == t[j];
    u := t[..j] + t[i..];
    forall k | 0 < k < |u| ensures Links(ms, u[k - 1], u[k]) {
      if k < j { assert Links(ms, t[k - 1], t[k]); }
      else if k == j { assert Links(ms, t[j - 1], t[j]); }
      else { assert Links(ms, t[k - j + i - 1], t[k - j + i]); }
    }
    assert u[i] == u[j];
  }

  lemma {:induction false} AnyLength(ms: seq<Mailbox>, t: seq<nat>, n: nat) returns (u: seq<nat>)
    requires IsTrail(ms, t) && Repeats(t)
    ensures IsTrail(ms, u) && |u| == n
    decreases n - |t|
  {
    if |t| >= n {
      TrailPrefix(ms, t, n);
      u := t[..n];
    } else {
      var longer := Again(ms, t);
      u := AnyLength(ms, longer, n);
    }
  }

  /** Either no trail passes a mailbox twice, or there are trails of every length. */
  lemma FiniteIff(ms: seq<Mailbox>)
    ensures Finite(ms) <==> forall t | IsTrail(ms, t) :: !Repeats(t)
    ensures !Finite(ms) <==> forall n: nat :: TrailOfLength(ms, n)
  {
    forall t | IsTrail(ms, t) && Repeats(t) ensures forall n: nat :: TrailOfLength(ms, n) {
      forall n: nat ensures TrailOfLength(ms, n) {
        var u := AnyLength(ms, t, n);
      }
      assert TrailOfLength(ms, |ms| + 1);
    }
    forall t | IsTrail(ms, t) && !Repeats(t) ensures |t| <= |ms| {
      DistinctBounded(t, |ms|);
    }
    if Finite(ms) { assert !TrailOfLength(ms, |ms| + 1); }
  }

  ghost predicate TrailOfLength(ms: seq<Mailbox>, n: nat) {
    exists t :: IsTrail(ms, t) && |t| == n
  }

  // ---- The insertions of the search ----

  /** The entries the search makes from position `k` of the list on, below a trail. */
  ghost function Inserts(ms: seq<Mailbox>, t: seq<nat>, k: nat): seq<(Path, nat)>
    requires Finite(ms) && IsTrail(ms, t) && k <= |ms|
    decreases |ms| - |t|, |ms| - k
  {
    TrailBounded(ms, t);
    if k == |ms| then []
    else if ms[k].parent != ParentAfter(ms, t) then Inserts(ms, t, k + 1)
    else
      TrailExtend(ms, t, k);
      TrailBounded(ms, t + [k]);
      [(PathOf(ms, t + [k]), k)]
      + (if HasChildren(ms, ms[k].id) then Inserts(ms, t + [k], 0) else [])
      + Inserts(ms, t, k + 1)
  }

  /** An entry for a trail strictly below `t` whose next mailbox is not before `k`. */
  ghost predicate Entry(ms: seq<Mailbox>, t: seq<nat>, k: nat, e: (Path, nat), u: seq<nat>) {
    && IsTrail(ms, u) && t < u && u[|t|] >= k
    && e == (PathOf(ms, u), u[|u| - 1])
  }

  lemma {:induction false} InsertsSound(ms: seq<Mailbox>, t: seq<nat>, k: nat, e: (Path, nat))
    requires Finite(ms) && IsTrail(ms, t) && k <= |ms| && e in Inserts(ms, t, k)
    ensures exists u :: Entry(ms, t, k, e, u)
    decreases |ms| - |t|, |ms| - k
  {
    TrailBounded(ms, t);
    if ms[k].parent != ParentAfter(ms, t) {
      InsertsSound(ms, t, k + 1, e);
      var u :| Entry(ms, t, k + 1, e, u);
      assert Entry(ms, t, k, e, u);
    } else {
      var u := t + [k];
      TrailExtend(ms, t, k);
      TrailBounded(ms, u);
      if e == (PathOf(ms, u), k) {
        assert Entry(ms, t, k, e, u);
      } else if HasChildren(ms, ms[k].id) && e in Inserts(ms, u, 0) {
        InsertsSound(ms, u, 0, e);
        var v :| Entry(ms, u, 0, e, v);
        assert v[|t|] == u[|t|];
        assert Entry(ms, t, k, e, v);
      } else {
        InsertsSound(ms, t, k + 1, e);
        var v :| Entry(ms, t, k + 1, e, v);
        assert Entry(ms, t, k, e, v);
      }
    }
  }

  lemma {:induction false} InsertsComplete(ms: seq<Mailbox>, t: seq<nat>, k: nat, u: seq<nat>)
    requires Finite(ms) && IsTrail(ms, t) && IsTrail(ms, u) && t < u && k <= u[|t|]
    ensures (PathOf(ms, u), u[|u| - 1]) in Inserts(ms, t, k)
    decreases |ms| - |t|, |ms| - k
  {
    TrailBounded(ms, t);
    var j := u[|t|];
    assert ms[j].parent == ParentAfter(ms, t) by {
      if t != [] { assert Links(ms, u[|t| - 1], u[|t|]); }
    }
    if k < j {
      InsertsComplete(ms, t, k + 1, u);
      if ms[k].parent == ParentAfter(ms, t) { TrailExtend(ms, t, k); TrailBounded(ms, t + [k]); }
    } else {
      var v := t + [k];
      TrailExtend(ms, t, k);
      TrailBounded(ms, v);
      assert v <= u;
      if |u| == |v| {
        assert u == v;
      } else {
        assert Links(ms, u[|t|], u[|t| + 1]) && ms[u[|t| + 1]] in ms;
        InsertsComplete(ms, v, 0, u);
      }
    }
  }

  // ---- The search ----

  function InsertAll(es: seq<(Path, nat)>): map<Path, nat> {
    if es == [] then map[] else InsertAll(es[..|es| - 1])[es[|es| - 1].0 := es[|es| - 1].1]
  }

  lemma InsertSnoc(es: seq<(Path, nat)>, e: (Path, nat))
    ensures InsertAll(es + [e]) == InsertAll(es)[e.0 := e.1]
  {
    assert (es + [e])[..|es|] == es;
  }

  /** A suspended iterator with the path and parent it goes on with. */
  datatype Frame = Frame(path: Path, parent: Option<string>, next: nat)

  /** The frames are those of the prefixes of the trail. */
  ghost predicate FramesOf(ms: seq<Mailbox>, t: seq<nat>, stack: seq<Frame>)
    requires IsTrail(ms, t)
  {
    |stack| == |t| && forall n | 0 <= n < |t| :: FrameAt(ms, t, n, stack[n])
  }

  ghost predicate FrameAt(ms: seq<Mailbox>, t: seq<nat>, n: nat, f: Frame)
    requires IsTrail(ms, t) && n <= |t|
  {
    TrailPrefix(ms, t, n);
    f.path == PathOf(ms, t[..n]) && f.parent == ParentAfter(ms, t[..n]) && f.next <= |ms|
  }

  /** The entries still to come from the suspended iterators, innermost first. */
  ghost function Suspended(ms: seq<Mailbox>, t: seq<nat>, stack: seq<Frame>): seq<(Path, nat)>
    requires Finite(ms) && IsTrail(ms, t) && FramesOf(ms, t, stack)
    decreases |t|
  {
    if t == [] then []
    else
      var n := |t| - 1;
      TrailPrefix(ms, t, n);
      FramesPrefix(ms, t, stack);
      Inserts(ms, t[..n], stack[n].next) + Suspended(ms, t[..n], stack[..n])
  }

  lemma FramesPrefix(ms: seq<Mailbox>, t: seq<nat>, stack: seq<Frame>)
    requires IsTrail(ms, t) && FramesOf(ms, t, stack) && t != []
    ensures var n := |t| - 1; IsTrail(ms, t[..n]) && FramesOf(ms, t[..n], stack[..n]) && stack[n].next <= |ms|
  {
    var n := |t| - 1;
    TrailPrefix(ms, t, n);
    forall j | 0 <= j < n ensures FrameAt(ms, t[..n], j, stack[..n][j]) {
      assert FrameAt(ms, t, j, stack[j]);
      assert t[..n][..j] == t[..j];
    }
    assert FrameAt(ms, t, n, stack[n]);
  }

  lemma FramesPush(ms: seq<Mailbox>, t: seq<nat>, stack: seq<Frame>, k: nat)
    requires Finite(ms) && IsTrail(ms, t) && FramesOf(ms, t, stack) && k < |ms| && ms[k].parent == ParentAfter(ms, t)
    ensures var f := Frame(PathOf(ms, t), ParentAfter(ms, t), k + 1);
            && IsTrail(ms, t + [k]) && FramesOf(ms, t + [k], stack + [f])
            && Suspended(ms, t + [k], stack + [f]) == Inserts(ms, t, k + 1) + Suspended(ms, t, stack)
  {
    var u, f := t + [k], Frame(PathOf(ms, t), ParentAfter(ms, t), k + 1);
    TrailExtend(ms, t, k);
    assert u[..|t|] == t && (stack + [f])[..|t|] == stack;
    forall j | 0 <= j < |u| ensures FrameAt(ms, u, j, (stack + [f])[j]) {
      if j < |t| {
        assert FrameAt(ms, t, j, stack[j]);
        assert u[..j] == t[..j];
      }
    }
  }

  /** What is done, what the current iterator will add, and what the suspended ones will. */
  ghost predicate Split(ms: seq<Mailbox>, done: seq<(Path, nat)>, t: seq<nat>, k: nat, stack: seq<Frame>)
    requires Finite(ms) && IsTrail(ms, t) && k <= |ms| && FramesOf(ms, t, stack)
  {
    done + (Inserts(ms, t, k) + Suspended(ms, t, stack)) == Inserts(ms, [], 0)
  }

  lemma SplitSkip(ms: seq<Mailbox>, done: seq<(Path, nat)>, t: seq<nat>, k: nat, stack: seq<Frame>)
    requires Finite(ms) && IsTrail(ms, t) && k < |ms| && FramesOf(ms, t, stack)
    requires Split(ms, done, t, k, stack) && ms[k].parent != ParentAfter(ms, t)
    ensures Split(ms, done, t, k + 1, stack)
  {
  }

  lemma InsertsHere(ms: seq<Mailbox>, t: seq<nat>, k: nat)
    requires Finite(ms) && IsTrail(ms, t) && k < |ms| && ms[k].parent == ParentAfter(ms, t)
    ensures IsTrail(ms, t + [k]) && PathOf(ms, t + [k]) == PathOf(ms, t) + [ms[k].name]
    ensures Inserts(ms, t, k) == [(PathOf(ms, t + [k]), k)]
              + ((if HasChildren(ms, ms[k].id) then Inserts(ms, t + [k], 0) else []) + Inserts(ms, t, k + 1))
  {
    TrailExtend(ms, t, k);
    TrailBounded(ms, t);
    TrailBounded(ms, t + [k]);
  }

  lemma SplitLeaf(ms: seq<Mailbox>, done: seq<(Path, nat)>, t: seq<nat>, k: nat, stack: seq<Frame>)
    requires Finite(ms) && IsTrail(ms, t) && k < |ms| && FramesOf(ms, t, stack)
    requires Split(ms, done, t, k, stack) && ms[k].parent == ParentAfter(ms, t) && !HasChildren(ms, ms[k].id)
    ensures IsTrail(ms, t + [k]) && Split(ms, done + [(PathOf(ms, t + [k]), k)], t, k + 1, stack)
  {
    hide Finite;
    InsertsHere(ms, t, k);
    hide Inserts, Suspended;
    var e := (PathOf(ms, t + [k]), k);
    var rest := Inserts(ms, t, k + 1);
    assert [] + rest == rest;
    Regroup(done, e, rest, Suspended(ms, t, stack));
  }

  lemma SplitPush(ms: seq<Mailbox>, done: seq<(Path, nat)>, t: seq<nat>, k: nat, stack: seq<Frame>)
    requires Finite(ms) && IsTrail(ms, t) && k < |ms| && FramesOf(ms, t, stack)
    requires Split(ms, done, t, k, stack) && ms[k].parent == ParentAfter(ms, t) && HasChildren(ms, ms[k].id)
    ensures var f := Frame(PathOf(ms, t), ParentAfter(ms, t), k + 1);
            && IsTrail(ms, t + [k]) && FramesOf(ms, t + [k], stack + [f])
            && Split(ms, done + [(PathOf(ms, t + [k]), k)], t + [k], 0, stack + [f])
  {
    hide Finite;
    InsertsHere(ms, t, k);
    FramesPush(ms, t, stack, k);
    hide Inserts, Suspended, IsTrail, PathOf, FramesOf;
    var e := (PathOf(ms, t + [k]), k);
    var below, rest, susp := Inserts(ms, t + [k], 0), Inserts(ms, t, k + 1), Suspended(ms, t, stack);
    Regroup(done, e, below + rest, susp);
    Associate(below, rest, susp);
  }

  lemma Regroup(a: seq<(Path, nat)>, e: (Path, nat), b: seq<(Path, nat)>, c: seq<(Path, nat)>)
    ensures a + (([e] + b) + c) == (a + [e]) + (b + c)
  {
  }

  lemma SplitPop(ms: seq<Mailbox>, done: seq<(Path, nat)>, t: seq<nat>, stack: seq<Frame>)
    requires Finite(ms) && IsTrail(ms, t) && FramesOf(ms, t, stack) && t != []
    requires Split(ms, done, t, |ms|, stack)
    ensures var n := |t| - 1;
            && IsTrail(ms, t[..n]) && FramesOf(ms, t[..n], stack[..n]) && FrameAt(ms, t, n, stack[n])
            && stack[n].next <= |ms| && Split(ms, done, t[..n], stack[n].next, stack[..n])
  {
    hide Finite;
    FramesPrefix(ms, t, stack);
    TrailPrefix(ms, t, |t| - 1);
    TrailBounded(ms, t);
    assert Inserts(ms, t, |ms|) == [];
    assert [] + Suspended(ms, t, stack) == Suspended(ms, t, stack);
  }

  /** The variables of the loop. */
  datatype Search = Search(path: Path, parent: Option<string>, next: nat, stack: seq<Frame>, results: map<Path, nat>)

  const BEGIN := Search([], None, 0, [], map[])

  /** One turn of the loop; None when it is left. */
  function StepSearch(ms: seq<Mailbox>, s: Search): Option<Search> {
    if s.next < |ms| then
      var m := ms[s.next];
      if s.parent != m.parent then Some(s.(next := s.next + 1))
      else
        var path := s.path + [m.name];
        if HasChildren(ms, m.id) then
          Some(Search(path, m.id, 0, s.stack + [Frame(s.path, s.parent, s.next + 1)], s.results[path := s.next]))
        else Some(s.(next := s.next + 1, results := s.results[path := s.next]))
    else if s.stack != [] then
      var f := s.stack[|s.stack| - 1];
      Some(Search(f.path, f.parent, f.next, s.stack[..|s.stack| - 1], s.results))
    else None
  }

  /** The loop is left after at most n turns, with these results. */
  ghost predicate EndsWithin(ms: seq<Mailbox>, s: Search, n: nat, results: map<Path, nat>)
    decreases n
  {
    var t := StepSearch(ms, s);
    if t.None? then s.results == results else n > 0 && EndsWithin(ms, t.value, n - 1, results)
  }

  /** The loop invariant: the search stands at the trail t with the entries done so far. */
  ghost predicate At(ms: seq<Mailbox>, s: Search, done: seq<(Path, nat)>, t: seq<nat>)
    requires Finite(ms)
  {
    && s.next <= |ms| && IsTrail(ms, t) && FramesOf(ms, t, s.stack)
    && s.path == PathOf(ms, t) && s.parent == ParentAfter(ms, t)
    && s.results == InsertAll(done) && Split(ms, done, t, s.next, s.stack)
  }

  lemma AtBounds(ms: seq<Mailbox>, s: Search, done: seq<(Path, nat)>, t: seq<nat>)
    requires Finite(ms) && At(ms, s, done, t)
    ensures s.next <= |ms| && |t| == |s.stack| && |done| <= |Inserts(ms, [], 0)|
  {
  }

  lemma AtStart(ms: seq<Mailbox>)
    requires Finite(ms)
    ensures At(ms, Search([], None, 0, [], map[]), [], [])
  {
    var whole := Inserts(ms, [], 0);
    assert [] + (whole + []) == whole;
  }

  lemma AtSkip(ms: seq<Mailbox>, s: Search, done: seq<(Path, nat)>, t: seq<nat>)
    requires Finite(ms) && At(ms, s, done, t) && s.next < |ms| && ms[s.next].parent != s.parent
    ensures At(ms, s.(next := s.next + 1), done, t)
  {
    hide Finite;
    SplitSkip(ms, done, t, s.next, s.stack);
  }

  lemma AtLeaf(ms: seq<Mailbox>, s: Search, done: seq<(Path, nat)>, t: seq<nat>) returns (more: seq<(Path, nat)>)
    requires Finite(ms) && At(ms, s, done, t)
    requires s.next < |ms| && ms[s.next].parent == s.parent && !HasChildren(ms, ms[s.next].id)
    ensures At(ms, s.(next := s.next + 1, results := s.results[s.path + [ms[s.next].name] := s.next]), more, t)
    ensures |more| == |done| + 1
  {
    hide Finite;
    InsertsHere(ms, t, s.next);
    more := done + [(PathOf(ms, t + [s.next]), s.next)];
    InsertSnoc(done, (PathOf(ms, t + [s.next]), s.next));
    SplitLeaf(ms, done, t, s.next, s.stack);
    hide Split, FramesOf, Inserts, InsertAll;
  }

  lemma AtPush(ms: seq<Mailbox>, s: Search, done: seq<(Path, nat)>, t: seq<nat>) returns (more: seq<(Path, nat)>)
    requires Finite(ms) && At(ms, s, done, t)
    requires s.next < |ms| && ms[s.next].parent == s.parent && HasChildren(ms, ms[s.next].id)
    ensures var path := s.path + [ms[s.next].name];
            At(ms, Search(path, ms[s.next].id, 0, s.stack + [Frame(s.path, s.parent, s.next + 1)],
                          s.results[path := s.next]), more, t + [s.next])
    ensures |more| == |done| + 1
  {
    hide Finite;
    InsertsHere(ms, t, s.next);
    more := done + [(PathOf(ms, t + [s.next]), s.next)];
    InsertSnoc(done, (PathOf(ms, t + [s.next]), s.next));
    SplitPush(ms, done, t, s.next, s.stack);
    hide Split, FramesOf, Inserts, InsertAll;
  }

  lemma AtPop(ms: seq<Mailbox>, s: Search, done: seq<(Path, nat)>, t: seq<nat>)
    requires Finite(ms) && At(ms, s, done, t) && s.next == |ms| && s.stack != []
    ensures |t| == |s.stack|
    ensures var n := |s.stack| - 1; var f := s.stack[n];
            At(ms, Search(f.path, f.parent, f.next, s.stack[..n], s.results), done, t[..n])
  {
    hide Finite;
    SplitPop(ms, done, t, s.stack);
  }

  lemma AtEnd(ms: seq<Mailbox>, s: Search, done: seq<(Path, nat)>, t: seq<nat>)
    requires Finite(ms) && At(ms, s, done, t) && s.next == |ms| && s.stack == []
    ensures s.results == InsertAll(Inserts(ms, [], 0))
  {
    assert done + ([] + []) == done;
  }

  /** Each turn of the loop is a step of the search, which ends if the trails are bounded: it makes
      exactly the entries of the trails from the roots. */
  method BuildMailboxTree(ms: seq<Mailbox>) returns (results: map<Path, nat>)
    requires Finite(ms)
    ensures results == InsertAll(Inserts(ms, [], 0))
  {
    hide At, Inserts, InsertAll, Finite, HasChildren, IsTrail;
    var path: Path, parent: Option<string>, k: nat, stack: seq<Frame> := [], None, 0, [];
    results := map[];
    ghost var t: seq<nat>, done: seq<(Path, nat)> := [], [];
    AtStart(ms);
    while true
      invariant At(ms, Search(path, parent, k, stack, results), done, t)
      decreases |Inserts(ms, [], 0)| - |done|, |stack|, |ms| - k
    {
      ghost var s := Search(path, parent, k, stack, results);
      AtBounds(ms, s, done, t);
      if k < |ms| {
        var m := ms[k];
        if parent == m.parent {
          if HasChildren(ms, m.id) {
            done := AtPush(ms, s, done, t);
            t := t + [k];
            stack := stack + [Frame(path, parent, k + 1)];
            parent := m.id;
            path := path + [m.name];
            results := results[path := k];
            k := 0;
          } else {
            done := AtLeaf(ms, s, done, t);
            results := results[path + [m.name] := k];
            k := k + 1;
          }
          AtBounds(ms, Search(path, parent, k, stack, results), done, t);
        } else {
          AtSkip(ms, s, done, t);
          k := k + 1;
        }
        assert StepSearch(ms, s) == Some(Search(path, parent, k, stack, results));
      } else if |stack| > 0 {
        AtPop(ms, s, done, t);
        var f := stack[|stack| - 1];
        stack := stack[..|stack| - 1];
        parent, path, k := f.parent, f.path, f.next;
        t := t[..|t| - 1];
        assert StepSearch(ms, s) == Some(Search(path, parent, k, stack, results));
      } else {
        AtEnd(ms, s, done, t);
        assert StepSearch(ms, s) == None;
        break;
      }
    }
  }

  // ---- What the map says ----

  lemma {:induction false} InsertAllEntries(es: seq<(Path, nat)>)
    ensures forall e <- es :: e.0 in InsertAll(es)
    ensures forall p <- InsertAll(es) :: (p, InsertAll(es)[p]) in es
    decreases |es|
  {
    if es != [] {
      var n := |es| - 1;
      InsertAllEntries(es[..n]);
      forall e <- es ensures e.0 in InsertAll(es) {
        if e != es[n] { assert e in es[..n]; }
      }
      forall p <- InsertAll(es) ensures (p, InsertAll(es)[p]) in es {
        if p == es[n].0 {
          assert (p, InsertAll(es)[p]) == es[n];
        } else {
          assert (p, InsertAll(es[..n])[p]) in es[..n];
        }
      }
    }
  }

  ghost predicate TrailTo(ms: seq<Mailbox>, i: nat, u: seq<nat>) {
    IsTrail(ms, u) && u != [] && u[|u| - 1] == i
  }

  /** The chain of parents ends at a mailbox without one. */
  ghost predicate Rooted(ms: seq<Mailbox>, i: nat) {
    exists u :: TrailTo(ms, i, u)
  }

  lemma {:induction false} TrailUnique(ms: seq<Mailbox>, u: seq<nat>, v: seq<nat>, i: nat)
    requires DistinctIds(ms) && TrailTo(ms, i, u) && TrailTo(ms, i, v)
    ensures u == v
    decreases |u|
  {
    var m, n := |u| - 1, |v| - 1;
    if m > 0 { assert Links(ms, u[m - 1], u[m]); }
    if n > 0 { assert Links(ms, v[n - 1], v[n]); }
    assert m == 0 <==> n == 0;
    if m > 0 {
      TrailPrefix(ms, u, m);
      TrailPrefix(ms, v, n);
      TrailUnique(ms, u[..m], v[..n], u[m - 1]);
    }
    assert u == u[..m] + [i] && v == v[..n] + [i];
  }

  predicate DistinctSiblings(ms: seq<Mailbox>) {
    forall i, j | 0 <= i < j < |ms| && ms[i].parent == ms[j].parent :: ms[i].name != ms[j].name
  }

  /** With distinct sibling names a path leads to one mailbox. */
  lemma {:induction false} PathUnique(ms: seq<Mailbox>, u: seq<nat>, v: seq<nat>)
    requires DistinctSiblings(ms) && IsTrail(ms, u) && IsTrail(ms, v) && PathOf(ms, u) == PathOf(ms, v)
    ensures u == v
    decreases |u|
  {
    assert |PathOf(ms, u)| == |u| && |PathOf(ms, v)| == |v|;
    if u != [] {
      var n := |u| - 1;
      TrailPrefix(ms, u, n);
      TrailPrefix(ms, v, n);
      PathUnique(ms, u[..n], v[..n]);
      if n > 0 {
        assert Links(ms, u[n - 1], u[n]) && Links(ms, v[n - 1], v[n]);
        assert u[n - 1] == u[..n][n - 1] && v[n - 1] == v[..n][n - 1];
      }
      assert PathOf(ms, u)[n] == ms[u[n]].name && PathOf(ms, v)[n] == ms[v[n]].name;
      assert u == u[..n] + [u[n]] && v == v[..n] + [v[n]];
    }
  }

  ghost function Tree(ms: seq<Mailbox>): map<Path, nat> {
    if Finite(ms) then InsertAll(Inserts(ms, [], 0)) else map[]
  }

  /** The keys are the full paths of the rooted mailboxes; each leads to a mailbox with
      that path, and to every such mailbox when sibling names are distinct. */
  lemma TreeExact(ms: seq<Mailbox>)
    requires Finite(ms)
    ensures forall p <- Tree(ms) :: exists u :: TrailTo(ms, Tree(ms)[p], u) && PathOf(ms, u) == p
    ensures forall u | IsTrail(ms, u) && u != [] :: PathOf(ms, u) in Tree(ms)
    ensures DistinctSiblings(ms) ==>
              forall u | IsTrail(ms, u) && u != [] :: PathOf(ms, u) in Tree(ms) && Tree(ms)[PathOf(ms, u)] == u[|u| - 1]
  {
    var es := Inserts(ms, [], 0);
    InsertAllEntries(es);
    forall p <- Tree(ms) ensures exists u :: TrailTo(ms, Tree(ms)[p], u) && PathOf(ms, u) == p {
      InsertsSound(ms, [], 0, (p, Tree(ms)[p]));
      var u :| Entry(ms, [], 0, (p, Tree(ms)[p]), u);
      assert TrailTo(ms, Tree(ms)[p], u);
    }
    forall u | IsTrail(ms, u) && u != [] ensures PathOf(ms, u) in Tree(ms) {
      InsertsComplete(ms, [], 0, u);
      assert (PathOf(ms, u), u[|u| - 1]) in es;
    }
    if DistinctSiblings(ms) {
      forall u | IsTrail(ms, u) && u != []
        ensures PathOf(ms, u) in Tree(ms) && Tree(ms)[PathOf(ms, u)] == u[|u| - 1]
      {
        var p := PathOf(ms, u);
        var v :| TrailTo(ms, Tree(ms)[p], v) && PathOf(ms, v) == p;
        PathUnique(ms, u, v);
      }
    }
  }

  lemma {:induction false} InjectiveCard(m: map<Path, nat>)
    requires forall p, q | p in m && q in m && m[p] == m[q] :: p == q
    ensures |m| == |m.Values|
    decreases |m|
  {
    if m.Keys == {} {
      assert m.Values == {};
    } else {
      var p :| p in m;
      var rest := m - {p};
      InjectiveCard(rest);
      assert m.Keys == rest.Keys + {p};
      assert m.Values == rest.Values + {m[p]} by {
        forall x <- m.Values ensures x in rest.Values + {m[p]} {
          var q :| q in m && m[q] == x;
          if q != p { assert q in rest && rest[q] == x; }
        }
      }
      assert m[p] !in rest.Values by {
        forall q <- rest ensures rest[q] != m[p] {
          assert q in m && m[q] == rest[q] && q != p;
        }
      }
    }
  }

  lemma {:induction false} FullSubset(a: set<nat>, b: set<nat>)
    requires a <= b && |a| == |b|
    ensures a == b
  {
    if exists x :: x in b && x !in a {
      var x :| x in b && x !in a;
      assert |b - {x}| == |b| - 1;
      SubsetCard(a, b - {x});
    }
  }

  /** One path per mailbox reached: no two paths lead to the same mailbox. */
  lemma TreeInjective(ms: seq<Mailbox>)
    requires DistinctIds(ms)
    ensures forall p, q | p in Tree(ms) && q in Tree(ms) && Tree(ms)[p] == Tree(ms)[q] :: p == q
    ensures Tree(ms).Values <= Below(|ms|)
  {
    DistinctFinite(ms);
    TreeExact(ms);
    BelowCard(|ms|);
    forall p, q | p in Tree(ms) && q in Tree(ms) && Tree(ms)[p] == Tree(ms)[q] ensures p == q {
      var u :| TrailTo(ms, Tree(ms)[p], u) && PathOf(ms, u) == p;
      var v :| TrailTo(ms, Tree(ms)[q], v) && PathOf(ms, v) == q;
      TrailUnique(ms, u, v, Tree(ms)[p]);
    }
    forall i <- Tree(ms).Values ensures i in Below(|ms|) {
      var p :| p in Tree(ms) && Tree(ms)[p] == i;
      var u :| TrailTo(ms, Tree(ms)[p], u) && PathOf(ms, u) == p;
    }
  }

  /** The size check at the end of the search holds exactly for a forest with distinct
      sibling names. */
  lemma SizeIffForest(ms: seq<Mailbox>)
    requires DistinctIds(ms)
    ensures |Tree(ms)| <= |ms|
    ensures |Tree(ms)| == |ms| <==> (forall i: nat | i < |ms| :: Rooted(ms, i)) && DistinctSiblings(ms)
  {
    var tree, n := Tree(ms), |ms|;
    DistinctFinite(ms);
    TreeExact(ms);
    TreeInjective(ms);
    InjectiveCard(tree);
    BelowCard(n);
    SubsetCard(tree.Values, Below(n));
    hide Tree, IsTrail, PathOf;
    if |tree| == n {
      FullSubset(tree.Values, Below(n));
      AllReached(ms);
    }
    if (forall i: nat | i < n :: Rooted(ms, i)) && DistinctSiblings(ms) {
      forall i: nat | i < n ensures i in tree.Values {
        assert Rooted(ms, i);
        var u :| TrailTo(ms, i, u);
        assert tree[PathOf(ms, u)] == i;
      }
      assert tree.Values == Below(n);
    }
  }

  lemma AllReached(ms: seq<Mailbox>)
    requires DistinctIds(ms) && forall i: nat | i < |ms| :: i in Tree(ms).Values
    ensures (forall i: nat | i < |ms| :: Rooted(ms, i)) && DistinctSiblings(ms)
  {
    var tree := Tree(ms);
    DistinctFinite(ms);
    TreeExact(ms);
    hide Tree, IsTrail, PathOf;
    forall i: nat | i < |ms| ensures Rooted(ms, i) {
      assert i in tree.Values;
      var p :| p in tree && tree[p] == i;
      var u :| TrailTo(ms, tree[p], u) && PathOf(ms, u) == p;
    }
    forall i, j | 0 <= i < j < |ms| && ms[i].parent == ms[j].parent ensures ms[i].name != ms[j].name {
      assert i in tree.Values && j in tree.Values;
      var p :| p in tree && tree[p] == i;
      var q :| q in tree && tree[q] == j;
      var u :| TrailTo(ms, tree[p], u) && PathOf(ms, u) == p;
      var v :| TrailTo(ms, tree[q], v) && PathOf(ms, v) == q;
      SameParentPaths(ms, u, v);
    }
  }

  lemma PathLast(ms: seq<Mailbox>, u: seq<nat>)
    requires IsTrail(ms, u) && u != []
    ensures var n := |u| - 1; IsTrail(ms, u[..n]) && PathOf(ms, u) == PathOf(ms, u[..n]) + [ms[u[n]].name]
  {
    TrailPrefix(ms, u, |u| - 1);
  }

  lemma SameParentPaths(ms: seq<Mailbox>, u: seq<nat>, v: seq<nat>)
    requires DistinctIds(ms) && IsTrail(ms, u) && IsTrail(ms, v) && u != [] && v != []
    requires ms[u[|u| - 1]].parent == ms[v[|v| - 1]].parent && PathOf(ms, u) != PathOf(ms, v)
    ensures ms[u[|u| - 1]].name != ms[v[|v| - 1]].name
  {
    hide PathOf;
    var m, n := |u| - 1, |v| - 1;
    PathLast(ms, u);
    PathLast(ms, v);
    if m > 0 { assert Links(ms, u[m - 1], u[m]); }
    if n > 0 { assert Links(ms, v[n - 1], v[n]); }
    assert m == 0 <==> n == 0;
    if m > 0 { TrailUnique(ms, u[..m], v[..n], u[m - 1]); }
    assert u[..m] == v[..n];
  }
}
