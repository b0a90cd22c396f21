/** Exactly when the disabled permissions of a role are complete: for one order of the parent
    lists, and whatever their order and the cache. */
module RoleOrder {
  import opened Roles

  // ---- The order of the visits ----

  /** The parents as stored; a built-in or missing role has none. */
  function Parents(d: Directory, r: RoleId): seq<nat> {
    if !BuiltIn(r) && r in d.principals then d.principals[r].roles else []
  }

  datatype Tour = Tour(order: seq<RoleId>, seen: set<RoleId>, ended: bool)

  /** Depth first, each role before its parents and its parents as listed, no role twice, and
      no further than ROLE_ADMIN. */
  function Preorder(d: Directory, ids: seq<nat>, seen: set<RoleId>): (t: Tour)
    ensures seen <= t.seen
    decreases ID_LIMIT - |seen|, |ids|
  {
    FetchedBounded(seen);
    if ids == [] then Tour([], seen, false)
    else
      var r := Truncate(ids[0]);
      if r in seen then Preorder(d, ids[1..], seen)
      else if r == ROLE_ADMIN then Tour([r], seen + {r}, true)
      else
        FetchedBounded(seen + {r});
        var up := Preorder(d, Parents(d, r), seen + {r});
        SubsetSize(seen + {r}, up.seen);
        FetchedBounded(up.seen);
        if up.ended then Tour([r] + up.order, up.seen, true)
        else
          var on := Preorder(d, ids[1..], up.seen);
          Tour([r] + up.order + on.order, on.seen, on.ended)
  }

  lemma {:induction false} SubsetSize(a: set<RoleId>, b: set<RoleId>)
    requires a <= b
    ensures |a| <= |b|
    decreases a
  {
    if a != {} {
      var x :| x in a;
      SubsetSize(a - {x}, b - {x});
    }
  }

  function Collect(d: Directory, acc: Permissions, order: seq<RoleId>): Permissions
    decreases |order|
  {
    if order == [] then acc else Collect(d, Union(acc, Own(d, order[0])), order[1..])
  }

  lemma CollectOne(d: Directory, acc: Permissions, r: RoleId)
    ensures Collect(d, acc, [r]) == Union(acc, Own(d, r))
  {
    assert [r][1..] == [];
    assert Collect(d, Union(acc, Own(d, r)), []) == Union(acc, Own(d, r));
  }

  lemma {:induction false} CollectConcat(d: Directory, acc: Permissions, a: seq<RoleId>, b: seq<RoleId>)
    ensures Collect(d, acc, a + b) == Collect(d, Collect(d, acc, a), b)
    decreases |a|
  {
    if a == [] {
      assert a + b == b;
    } else {
      assert (a + b)[1..] == a[1..] + b;
      CollectConcat(d, Union(acc, Own(d, a[0])), a[1..], b);
    }
  }

  /** The stack of suspended lists does what the recursion does: either the walk ends in the
      tour of the current list, or it goes on below, at v, with the tour collected. */
  ghost predicate Follows(d: Directory, w: Walker, v: Walker) {
    var t, o := Preorder(d, w.ids, w.fetched), RunWalk(d, w);
    !o.Missing? ==>
      if t.ended then o.w.acc == Collect(d, w.acc, t.order)
      else && v == Walker([], w.stack, t.seen, Collect(d, w.acc, t.order), v.cache)
           && v.cache.Keys <= v.fetched && o == RunWalk(d, v)
  }

  lemma StepRun(d: Directory, w: Walker)
    ensures var o := StepWalk(d, w); RunWalk(d, w) == if o.Running? then RunWalk(d, o.w) else o
  {
    var o := StepWalk(d, w);
    StepProgress(d, w);
    FetchedBounded(w.fetched);
    if o.Running? { FetchedBounded(o.w.fetched); }
  }

  lemma {:induction false} WalkFollows(d: Directory, w: Walker) returns (v: Walker)
    requires w.cache.Keys <= w.fetched
    ensures Follows(d, w, v)
    decreases ID_LIMIT - |w.fetched|, |w.ids|, 1
  {
    FetchedBounded(w.fetched);
    if w.ids == [] {
      v := w;
    } else if Truncate(w.ids[0]) in w.fetched {
      StepRun(d, w);
      v := WalkFollows(d, w.(ids := w.ids[1..]));
    } else if Parents(d, Truncate(w.ids[0])) == [] || Truncate(w.ids[0]) == ROLE_ADMIN {
      v := NewLeaf(d, w);
    } else {
      v := NewInner(d, w);
    }
  }

  lemma {:induction false} NewLeaf(d: Directory, w: Walker) returns (v: Walker)
    requires w.cache.Keys <= w.fetched && w.ids != [] && Truncate(w.ids[0]) !in w.fetched
    requires Parents(d, Truncate(w.ids[0])) == [] || Truncate(w.ids[0]) == ROLE_ADMIN
    ensures Follows(d, w, v)
    decreases ID_LIMIT - |w.fetched|, |w.ids|, 0
  {
    var r, o := Truncate(w.ids[0]), StepWalk(d, w);
    StepRun(d, w);
    FetchedBounded(w.fetched);
    FetchedBounded(w.fetched + {r});
    v := w;
    CollectOne(d, w.acc, r);
    if o.Running? {
      var up := Preorder(d, [], w.fetched + {r});
      var on := Preorder(d, w.ids[1..], w.fetched + {r});
      v := WalkFollows(d, o.w);
      assert [r] + [] + on.order == [r] + on.order;
      CollectConcat(d, w.acc, [r], on.order);
    }
  }

  lemma {:induction false} NewInner(d: Directory, w: Walker) returns (v: Walker)
    requires w.cache.Keys <= w.fetched && w.ids != [] && Truncate(w.ids[0]) !in w.fetched
    requires Parents(d, Truncate(w.ids[0])) != [] && Truncate(w.ids[0]) != ROLE_ADMIN
    ensures Follows(d, w, v)
    decreases ID_LIMIT - |w.fetched|, |w.ids|, 0
  {
    var r, rest := Truncate(w.ids[0]), w.ids[1..];
    var first := Union(w.acc, Own(d, r));
    var u := Walker(Parents(d, r), w.stack + [rest], w.fetched + {r}, first, w.cache);
    FetchedBounded(w.fetched);
    FetchedBounded(u.fetched);
    StepRun(d, w);
    assert StepWalk(d, w) == Running(u);
    var up := Preorder(d, u.ids, u.fetched);
    SubsetSize(u.fetched, up.seen);
    FetchedBounded(up.seen);
    v := WalkFollows(d, u);
    CollectConcat(d, w.acc, [r], up.order);
    CollectOne(d, w.acc, r);
    if !RunWalk(d, u).Missing? && !up.ended {
      StepRun(d, v);
      assert (w.stack + [rest])[..|w.stack|] == w.stack;
      var x := v.(ids := rest, stack := w.stack);
      var on := Preorder(d, rest, up.seen);
      v := WalkFollows(d, x);
      CollectConcat(d, w.acc, [r] + up.order, on.order);
    }
  }

  // ---- Exact for one order ----

  ghost predicate DisabledIn(d: Directory, order: seq<RoleId>, q: nat) {
    exists x <- order :: q in Own(d, x).disabled
  }

  lemma {:induction false} CollectDisabled(d: Directory, acc: Permissions, order: seq<RoleId>, q: nat)
    ensures q in Collect(d, acc, order).disabled <==> q in acc.disabled || DisabledIn(d, order, q)
    decreases |order|
  {
    if order != [] {
      CollectDisabled(d, Union(acc, Own(d, order[0])), order[1..], q);
      assert order == [order[0]] + order[1..];
    }
  }

  /** Without a cache the walk collects the roles of the tour. So the disabled permissions are
      complete if and only if each of them is disabled by a role that comes before ROLE_ADMIN in
      depth-first order. */
  lemma DisabledExactIff(d: Directory, role: RoleId)
    requires ValidDirectory(d) && Build(d, role, map[]).0.Ok?
    ensures var p, order := Build(d, role, map[]).0.value, Preorder(d, [role], {}).order;
            && p == Collect(d, NO_PERMISSIONS, order)
            && (p.disabled == Closure(d, role).disabled
                <==> forall q <- Closure(d, role).disabled :: DisabledIn(d, order, q))
  {
    var w := StartWalk(role, map[]);
    var p, order := Build(d, role, map[]).0.value, Preorder(d, [role], {}).order;
    var v := WalkFollows(d, w);
    StepRun(d, v);
    assert p == Collect(d, NO_PERMISSIONS, order);
    BuildCorrect(d, role, map[]);
    forall q: nat ensures q in p.disabled <==> DisabledIn(d, order, q) {
      CollectDisabled(d, NO_PERMISSIONS, order, q);
    }
  }

  // ---- Exact for every order ----

  /** The same roles, with their parents in another order. */
  ghost predicate Reordered(d: Directory, e: Directory) {
    && e == d.(principals := e.principals) && e.principals.Keys == d.principals.Keys
    && forall r <- d.principals :: SamePrincipal(d.principals[r], e.principals[r])
  }

  ghost predicate SamePrincipal(p: Principal, q: Principal) {
    q == p.(roles := q.roles) && multiset(q.roles) == multiset(p.roles)
  }

  lemma SameMembers(a: seq<nat>, b: seq<nat>, x: nat)
    requires multiset(a) == multiset(b)
    ensures x in a <==> x in b
  {
    assert x in a <==> x in multiset(a);
    assert x in b <==> x in multiset(b);
  }

  lemma SameParents(d: Directory, e: Directory, r: RoleId, x: RoleId)
    requires Reordered(d, e)
    ensures IsParent(d, r, x) <==> IsParent(e, r, x)
    ensures Own(d, r) == Own(e, r)
  {
    if r in d.principals {
      assert SamePrincipal(d.principals[r], e.principals[r]);
      forall id: nat ensures id in d.principals[r].roles <==> id in e.principals[r].roles {
        SameMembers(d.principals[r].roles, e.principals[r].roles, id);
      }
    }
  }

  lemma SamePaths(d: Directory, e: Directory, p: seq<RoleId>)
    requires Reordered(d, e)
    ensures IsPath(d, p) <==> IsPath(e, p)
  {
    forall i | 0 <= i < |p| - 1 ensures IsParent(d, p[i], p[i + 1]) <==> IsParent(e, p[i], p[i + 1]) {
      SameParents(d, e, p[i], p[i + 1]);
    }
  }

  lemma SameClosure(d: Directory, e: Directory, r: RoleId)
    requires Reordered(d, e)
    ensures Closure(d, r) == Closure(e, r)
  {
    forall x: RoleId ensures Reaches(d, r, x) <==> Reaches(e, r, x) {
      SameReach(d, e, r, x);
    }
    forall x: RoleId ensures Own(d, x) == Own(e, x) {
      SameParents(d, e, x, x);
    }
  }

  lemma SameReach(d: Directory, e: Directory, r: RoleId, x: RoleId)
    requires Reordered(d, e)
    ensures Reaches(d, r, x) <==> Reaches(e, r, x)
  {
    if p :| Connects(d, r, x, p) { SamePaths(d, e, p); assert Connects(e, r, x, p); }
    if p :| Connects(e, r, x, p) { SamePaths(d, e, p); assert Connects(d, r, x, p); }
  }

  /** Complete, if a result is found at all. */
  ghost predicate Complete(e: Directory, role: RoleId, cache: map<RoleId, Permissions>, disabled: set<nat>) {
    var r := Build(e, role, cache).0;
    r.Ok? ==> r.value.disabled == disabled
  }

  ghost predicate CompleteForEveryOrder(d: Directory, role: RoleId) {
    forall e, cache | Reordered(d, e) && CacheOk(e, cache) :: Complete(e, role, cache, Closure(d, role).disabled)
  }

  /** Each path to ROLE_ADMIN already disables all that the role disables. */
  ghost predicate PathsTellAll(d: Directory, role: RoleId) {
    forall p, q | Connects(d, role, ROLE_ADMIN, p) && q in Closure(d, role).disabled :: DisabledIn(d, p, q)
  }

  lemma PathsSuffice(d: Directory, role: RoleId, e: Directory, cache: map<RoleId, Permissions>)
    requires ValidDirectory(d) && PathsTellAll(d, role) && Reordered(d, e) && CacheOk(e, cache)
    ensures Complete(e, role, cache, Closure(d, role).disabled)
  {
    BuildCorrect(e, role, cache);
    SameClosure(d, e, role);
    var r := Build(e, role, cache).0;
    if r.Ok? && Reaches(e, role, ROLE_ADMIN) {
      var p :| Connects(e, role, ROLE_ADMIN, p) && CoversPath(e, p, r.value.disabled);
      SamePaths(d, e, p);
      forall q <- Closure(d, role).disabled ensures q in r.value.disabled {
        assert DisabledIn(d, p, q);
        var x :| x in p && q in Own(d, x).disabled;
        SameParents(d, e, x, x);
        var i :| 0 <= i < |p| && p[i] == x;
        assert Own(e, p[i]).disabled <= r.value.disabled;
      }
    }
  }

  // ---- The order that misses a permission ----

  predicate Simple(p: seq<RoleId>) {
    forall i, j | 0 <= i < j < |p| :: p[i] != p[j]
  }

  lemma {:induction false} SimplePath(d: Directory, a: RoleId, b: RoleId, p: seq<RoleId>) returns (s: seq<RoleId>)
    requires Connects(d, a, b, p)
    ensures Connects(d, a, b, s) && Simple(s) && forall x <- s :: x in p
    decreases |p|
  {
    s := p;
    if !Simple(p) {
      var i, j :| 0 <= i < j < |p| && p[i] == p[j];
      var q := p[..i] + p[j..];
      forall k | 0 <= k < |q| - 1 ensures IsParent(d, q[k], q[k + 1]) {
        if k < i { assert IsParent(d, p[k], p[k + 1]); } else { assert IsParent(d, p[k - i + j], p[k - i + j + 1]); }
      }
      assert Connects(d, a, b, q);
      s := SimplePath(d, a, b, q);
    }
  }

  /** The ids with one that stands for x moved to the front. */
  ghost function ToFront(ids: seq<nat>, x: RoleId): (r: seq<nat>)
    requires exists id <- ids :: Truncate(id) == x
    ensures multiset(r) == multiset(ids) && r != [] && Truncate(r[0]) == x
  {
    var k :| 0 <= k < |ids| && Truncate(ids[k]) == x;
    assert ids == ids[..k] + [ids[k]] + ids[k + 1..];
    [ids[k]] + ids[..k] + ids[k + 1..]
  }

  /** Each role on the path lists the next one first. */
  ghost predicate Leads(e: Directory, p: seq<RoleId>) {
    forall i | 0 <= i < |p| - 1 :: LeadsTo(e, p[i], p[i + 1])
  }

  predicate LeadsTo(e: Directory, r: RoleId, x: RoleId) {
    !BuiltIn(r) && r in e.principals && e.principals[r].roles != [] && Truncate(e.principals[r].roles[0]) == x
  }

  /** The directory with x first among the parents of r. */
  ghost function Fronted(f: Directory, r: RoleId, x: RoleId): Directory
    requires IsParent(f, r, x)
  {
    var p := f.principals[r];
    f.(principals := f.principals[r := p.(roles := ToFront(p.roles, x))])
  }

  lemma FrontedReordered(d: Directory, f: Directory, r: RoleId, x: RoleId)
    requires Reordered(d, f) && IsParent(f, r, x)
    ensures Reordered(d, Fronted(f, r, x)) && LeadsTo(Fronted(f, r, x), r, x)
  {
    var e := Fronted(f, r, x);
    forall y <- d.principals ensures SamePrincipal(d.principals[y], e.principals[y]) {
      assert SamePrincipal(d.principals[y], f.principals[y]);
    }
  }

  lemma {:induction false} Lead(d: Directory, p: seq<RoleId>) returns (e: Directory)
    requires IsPath(d, p) && Simple(p)
    ensures Reordered(d, e) && Leads(e, p)
    decreases |p|
  {
    if |p| == 1 {
      e := d;
    } else {
      var q := p[1..];
      assert IsParent(d, p[0], p[1]);
      forall i | 0 <= i < |q| - 1 ensures IsParent(d, q[i], q[i + 1]) {
        assert IsParent(d, p[i + 1], p[i + 2]);
      }
      var f := Lead(d, q);
      SameParents(d, f, p[0], p[1]);
      FrontedReordered(d, f, p[0], p[1]);
      e := Fronted(f, p[0], p[1]);
      hide Reordered, ToFront;
      forall i | 0 <= i < |p| - 1 ensures LeadsTo(e, p[i], p[i + 1]) {
        if i > 0 { assert LeadsTo(f, q[i - 1], q[i]) && p[i] != p[0]; }
      }
    }
  }

  /** A walk that is led along the path to ROLE_ADMIN collects nothing else. */
  lemma {:induction false} LedWalk(e: Directory, p: seq<RoleId>, w: Walker, q: nat)
    requires p != [] && p[|p| - 1] == ROLE_ADMIN && Simple(p) && Leads(e, p) && !DisabledIn(e, p, q)
    requires w.ids != [] && Truncate(w.ids[0]) == p[0] && w.cache == map[] && q !in w.acc.disabled
    requires forall x <- p :: x !in w.fetched
    ensures var o := RunWalk(e, w); o.Finished? && q !in o.w.acc.disabled
    decreases |p|
  {
    StepRun(e, w);
    assert p[0] in p;
    if |p| > 1 {
      assert LeadsTo(e, p[0], p[1]);
      var v := StepWalk(e, w).w;
      assert v.ids == e.principals[p[0]].roles;
      var rest := p[1..];
      forall i | 0 <= i < |rest| - 1 ensures LeadsTo(e, rest[i], rest[i + 1]) {
        assert LeadsTo(e, p[i + 1], p[i + 2]);
      }
      forall x <- rest ensures x !in v.fetched {
        var k :| 0 <= k < |rest| && rest[k] == x;
        assert p[k + 1] == x && p[0] != p[k + 1];
      }
      LedWalk(e, rest, v, q);
    }
  }

  lemma Missed(d: Directory, role: RoleId, p: seq<RoleId>, q: nat)
    requires ValidDirectory(d) && Connects(d, role, ROLE_ADMIN, p) && q in Closure(d, role).disabled && !DisabledIn(d, p, q)
    ensures !CompleteForEveryOrder(d, role)
  {
    var s := SimplePath(d, role, ROLE_ADMIN, p);
    var e := Lead(d, s);
    forall x <- s ensures q !in Own(e, x).disabled { SameParents(d, e, x, x); }
    LedWalk(e, s, StartWalk(role, map[]), q);
    assert CacheOk(e, map[]);
    assert !Complete(e, role, map[], Closure(d, role).disabled);
  }

  /** Whatever the order of the parent lists and whatever right entries the cache holds, the
      disabled permissions found are complete: that is so if and only if each path from the role
      to ROLE_ADMIN already disables all that the reachable roles disable. */
  lemma CompleteIffPathsTellAll(d: Directory, role: RoleId)
    requires ValidDirectory(d)
    ensures CompleteForEveryOrder(d, role) <==> PathsTellAll(d, role)
  {
    if PathsTellAll(d, role) {
      forall e, cache | Reordered(d, e) && CacheOk(e, cache) ensures Complete(e, role, cache, Closure(d, role).disabled) {
        PathsSuffice(d, role, e, cache);
      }
    } else {
      var p, q :| Connects(d, role, ROLE_ADMIN, p) && q in Closure(d, role).disabled && !DisabledIn(d, p, q);
      Missed(d, role, p, q);
    }
  }
}
