/** Permissions of a role: a depth-first walk over a possibly cyclic role graph that
    reads and fills a cache, against the closure of the role. */
module Roles {

  datatype Result<+T> = Ok(value: T) | NotFound(role: RoleId)

  const ID_LIMIT: nat := 0x1_0000_0000

  type RoleId = r: nat | r < ID_LIMIT

  const ROLE_ADMIN: RoleId := 0xFFFF_FFFF
  const ROLE_TENANT_ADMIN: RoleId := 0xFFFF_FFFE
  const ROLE_USER: RoleId := 0xFFFF_FFFD

  datatype Permissions = Permissions(enabled: set<nat>, disabled: set<nat>)

  const NO_PERMISSIONS := Permissions({}, {})

  function Union(a: Permissions, b: Permissions): Permissions {
    Permissions(a.enabled + b.enabled, a.disabled + b.disabled)
  }

  /** A stored role: permission numbers as stored, and its parent roles as 64-bit numbers. */
  datatype Principal = Principal(enabled: seq<nat>, disabled: seq<nat>, roles: seq<nat>)

  /** The role store, the number of permissions, the full permission set (it may have
      spare bits), and the permissions of the two limited built-in roles. */
  datatype Directory = Directory(
    principals: map<RoleId, Principal>,
    count: nat,
    all: set<nat>,
    user: set<nat>,
    tenantAdmin: set<nat>
  )

  ghost predicate ValidDirectory(d: Directory) {
    (forall p: nat | p < d.count :: p in d.all) && d.user <= d.all && d.tenantAdmin <= d.all
  }

  predicate BuiltIn(r: RoleId) {
    r == ROLE_ADMIN || r == ROLE_TENANT_ADMIN || r == ROLE_USER
  }

  function Known(d: Directory, ps: seq<nat>): set<nat> {
    set p | p in ps && p < d.count
  }

  /** A role's own permissions. */
  function Own(d: Directory, r: RoleId): Permissions {
    if r == ROLE_USER then Permissions(d.user, {})
    else if r == ROLE_ADMIN then Permissions(d.all, {})
    else if r == ROLE_TENANT_ADMIN then Permissions(d.tenantAdmin, {})
    else if r in d.principals
    then Permissions(Known(d, d.principals[r].enabled), Known(d, d.principals[r].disabled))
    else NO_PERMISSIONS
  }

  function Truncate(id: nat): RoleId {
    id % ID_LIMIT
  }

  predicate IsParent(d: Directory, r: RoleId, parent: RoleId) {
    !BuiltIn(r) && r in d.principals && exists id <- d.principals[r].roles :: id % ID_LIMIT == parent
  }

  // ---- The closure of a role ----

  ghost predicate IsPath(d: Directory, p: seq<RoleId>) {
    p != [] && forall i | 0 <= i < |p| - 1 :: IsParent(d, p[i], p[i + 1])
  }

  ghost predicate Connects(d: Directory, a: RoleId, b: RoleId, p: seq<RoleId>) {
    IsPath(d, p) && p[0] == a && p[|p| - 1] == b
  }

  ghost predicate Reaches(d: Directory, a: RoleId, b: RoleId) {
    exists p :: Connects(d, a, b, p)
  }

  /** The union of the permissions of all roles reachable from `r`, itself included. */
  ghost function Closure(d: Directory, r: RoleId): Permissions {
    Permissions(
      set p | p in d.all && exists x: RoleId :: Reaches(d, r, x) && p in Own(d, x).enabled,
      set p | p in d.all && exists x: RoleId :: Reaches(d, r, x) && p in Own(d, x).disabled)
  }

  lemma ReachesSelf(d: Directory, r: RoleId)
    ensures Reaches(d, r, r)
  {
    assert Connects(d, r, r, [r]);
  }

  lemma ReachesParent(d: Directory, a: RoleId, b: RoleId, c: RoleId)
    requires Reaches(d, a, b) && IsParent(d, b, c)
    ensures Reaches(d, a, c)
  {
    var p :| Connects(d, a, b, p);
    var q := p + [c];
    forall i | 0 <= i < |q| - 1 ensures IsParent(d, q[i], q[i + 1]) {
      if i < |p| - 1 { assert IsParent(d, p[i], p[i + 1]); }
    }
    assert Connects(d, a, c, q);
  }

  lemma {:induction false} ReachesTrans(d: Directory, a: RoleId, b: RoleId, c: RoleId, p: seq<RoleId>)
    requires Reaches(d, a, b) && Connects(d, b, c, p)
    ensures Reaches(d, a, c)
    decreases |p|
  {
    if |p| > 1 {
      var q := p[..|p| - 1];
      forall i | 0 <= i < |q| - 1 ensures IsParent(d, q[i], q[i + 1]) {
        assert IsParent(d, p[i], p[i + 1]);
      }
      assert Connects(d, b, q[|q| - 1], q);
      ReachesTrans(d, a, b, q[|q| - 1], q);
      assert IsParent(d, p[|p| - 2], p[|p| - 1]);
      ReachesParent(d, a, q[|q| - 1], c);
    }
  }

  lemma OwnBounded(d: Directory, r: RoleId)
    requires ValidDirectory(d)
    ensures Own(d, r).enabled <= d.all && Own(d, r).disabled <= d.all
  {
  }

  lemma OwnInClosure(d: Directory, a: RoleId, r: RoleId)
    requires ValidDirectory(d) && Reaches(d, a, r)
    ensures Own(d, r).enabled <= Closure(d, a).enabled && Own(d, r).disabled <= Closure(d, a).disabled
  {
    OwnBounded(d, r);
  }

  lemma ClosureInClosure(d: Directory, a: RoleId, r: RoleId)
    requires Reaches(d, a, r)
    ensures Closure(d, r).enabled <= Closure(d, a).enabled && Closure(d, r).disabled <= Closure(d, a).disabled
  {
    forall x: RoleId | Reaches(d, r, x) ensures Reaches(d, a, x) {
      var p :| Connects(d, r, x, p);
      ReachesTrans(d, a, r, x, p);
    }
  }

  lemma FirstStep(d: Directory, p: seq<RoleId>)
    ensures IsPath(d, p) && |p| > 1 ==> exists x: RoleId :: IsParent(d, p[0], x)
  {
    if IsPath(d, p) && |p| > 1 { assert IsParent(d, p[0], p[1]); }
  }

  lemma LeafClosure(d: Directory, r: RoleId)
    requires ValidDirectory(d) && forall x: RoleId :: !IsParent(d, r, x)
    ensures Closure(d, r) == Own(d, r)
    ensures forall x: RoleId :: Reaches(d, r, x) ==> x == r
  {
    forall x: RoleId | Reaches(d, r, x) ensures x == r {
      var p :| Connects(d, r, x, p);
      FirstStep(d, p);
    }
    ReachesSelf(d, r);
    OwnBounded(d, r);
  }

  // ---- What a cache entry and a result are good for ----

  /** All that the roles on the path disable. */
  ghost predicate CoversPath(d: Directory, p: seq<RoleId>, disabled: set<nat>) {
    forall i | 0 <= i < |p| :: Own(d, p[i]).disabled <= disabled
  }

  /** Some path to ROLE_ADMIN has been collected. */
  ghost predicate AdminPathIn(d: Directory, r: RoleId, disabled: set<nat>) {
    exists p :: Connects(d, r, ROLE_ADMIN, p) && CoversPath(d, p, disabled)
  }

  lemma AdminPathGrows(d: Directory, r: RoleId, s: set<nat>, t: set<nat>)
    requires AdminPathIn(d, r, s) && s <= t
    ensures AdminPathIn(d, r, t)
  {
    var p :| Connects(d, r, ROLE_ADMIN, p) && CoversPath(d, p, s);
    assert CoversPath(d, p, t);
  }

  /** The path that starts with a role and goes on with one of its parents. */
  lemma AdminPathCons(d: Directory, r: RoleId, x: RoleId, s: set<nat>)
    requires IsParent(d, r, x) && AdminPathIn(d, x, s) && Own(d, r).disabled <= s
    ensures AdminPathIn(d, r, s)
  {
    var p :| Connects(d, x, ROLE_ADMIN, p) && CoversPath(d, p, s);
    var q := [r] + p;
    forall i | 0 <= i < |q| - 1 ensures IsParent(d, q[i], q[i + 1]) {
      if i > 0 { assert IsParent(d, p[i - 1], p[i]); }
    }
    assert Connects(d, r, ROLE_ADMIN, q);
    assert CoversPath(d, q, s);
  }

  lemma AdminPathSelf(d: Directory, s: set<nat>)
    ensures AdminPathIn(d, ROLE_ADMIN, s)
  {
    var p := [ROLE_ADMIN];
    assert Connects(d, ROLE_ADMIN, ROLE_ADMIN, p) && CoversPath(d, p, s);
  }

  /** A role the walk can look up. */
  predicate Stored(d: Directory, r: RoleId) {
    BuiltIn(r) || r in d.principals
  }

  ghost predicate AllStored(d: Directory, r: RoleId) {
    forall x: RoleId :: Reaches(d, r, x) ==> Stored(d, x)
  }

  /** Enabled permissions are exact. Disabled ones are too unless ROLE_ADMIN is reachable, and
      then they are at least those of some path to it. Without ROLE_ADMIN all roles are stored. */
  ghost predicate Answers(d: Directory, r: RoleId, p: Permissions) {
    && p.enabled == Closure(d, r).enabled
    && p.disabled <= Closure(d, r).disabled
    && (if Reaches(d, r, ROLE_ADMIN) then AdminPathIn(d, r, p.disabled) else p == Closure(d, r) && AllStored(d, r))
  }

  ghost predicate CacheOk(d: Directory, cache: map<RoleId, Permissions>) {
    forall r <- cache :: Answers(d, r, cache[r])
  }

  // ---- The walk ----

  /** The role ids still to visit, the suspended lists, the ids seen, what has been
      collected, and the cache. */
  datatype Walker = Walker(
    ids: seq<nat>,
    stack: seq<seq<nat>>,
    fetched: set<RoleId>,
    acc: Permissions,
    cache: map<RoleId, Permissions>
  )

  datatype Outcome = Running(w: Walker) | Finished(w: Walker) | Missing(role: RoleId, w: Walker)

  function Visit(d: Directory, w: Walker, role: RoleId): Outcome {
    if BuiltIn(role) then
      var w1 := w.(acc := Union(w.acc, Own(d, role)));
      if role == ROLE_ADMIN then Finished(w1) else Running(w1)
    else if role in w.cache then Running(w.(acc := Union(w.acc, w.cache[role])))
    else if role !in d.principals then Missing(role, w)
    else
      var own, parents := Own(d, role), d.principals[role].roles;
      var w1 := w.(acc := Union(w.acc, own));
      if parents != [] then Running(w1.(ids := parents, stack := w.stack + [w.ids]))
      else Running(w1.(cache := w.cache[role := own]))
  }

  function StepWalk(d: Directory, w: Walker): Outcome {
    if w.ids != [] then
      var role := Truncate(w.ids[0]);
      var w1 := w.(ids := w.ids[1..]);
      if role in w.fetched then Running(w1) else Visit(d, w1.(fetched := w.fetched + {role}), role)
    else if w.stack != [] then
      var n := |w.stack| - 1;
      Running(w.(ids := w.stack[n], stack := w.stack[..n]))
    else Finished(w)
  }

  lemma {:induction false} IdsBounded(s: set<nat>, n: nat)
    requires forall x <- s :: x < n
    ensures |s| <= n
    decreases n
  {
    if n > 0 {
      var t := s - {n - 1};
      IdsBounded(t, n - 1);
      assert |s| <= |t| + 1 by {
        if n - 1 in s { assert s == t + {n - 1}; } else { assert s == t; }
      }
    } else {
      assert s == {};
    }
  }

  lemma FetchedBounded(fetched: set<RoleId>)
    ensures |fetched| <= ID_LIMIT
  {
    IdsBounded(fetched, ID_LIMIT);
  }

  /** The walk always ends: ids are never fetched twice. */
  function RunWalk(d: Directory, w: Walker): (o: Outcome)
    ensures !o.Running?
    decreases ID_LIMIT - |w.fetched|, |w.stack|, |w.ids|
  {
    var o := StepWalk(d, w);
    FetchedBounded(w.fetched);
    if !o.Running? then o
    else
      FetchedBounded(o.w.fetched);
      RunWalk(d, o.w)
  }

  function StartWalk(role: RoleId, cache: map<RoleId, Permissions>): Walker {
    Walker([role], [], {}, NO_PERMISSIONS, cache)
  }

  // ---- What every step keeps ----

  /** An id waits in the current list or in a suspended one. */
  ghost predicate Waiting(w: Walker, r: RoleId) {
    || (exists id <- w.ids :: Truncate(id) == r)
    || (exists k | 0 <= k < |w.stack| :: exists id <- w.stack[k] :: Truncate(id) == r)
  }

  /** All of the role's closure has been collected. */
  ghost predicate Covered(d: Directory, acc: Permissions, r: RoleId) {
    && Closure(d, r).enabled <= acc.enabled
    && (if Reaches(d, r, ROLE_ADMIN) then AdminPathIn(d, r, acc.disabled)
        else Closure(d, r).disabled <= acc.disabled && AllStored(d, r))
  }

  lemma CoveredGrows(d: Directory, a: Permissions, b: Permissions, r: RoleId)
    requires Covered(d, a, r) && a.enabled <= b.enabled && a.disabled <= b.disabled
    ensures Covered(d, b, r)
  {
    if Reaches(d, r, ROLE_ADMIN) { AdminPathGrows(d, r, a.disabled, b.disabled); }
  }

  /** The role itself has been collected and its parents are seen or waiting. */
  ghost predicate Expanded(d: Directory, w: Walker, r: RoleId) {
    && Own(d, r).enabled <= w.acc.enabled && Own(d, r).disabled <= w.acc.disabled && Stored(d, r)
    && forall x: RoleId :: IsParent(d, r, x) ==> x in w.fetched || Waiting(w, x)
  }

  ghost predicate Handled(d: Directory, w: Walker) {
    forall r <- w.fetched :: Covered(d, w.acc, r) || Expanded(d, w, r)
  }

  /** The role is reached through roles that have been collected. */
  ghost predicate Trail(d: Directory, root: RoleId, disabled: set<nat>, r: RoleId) {
    exists p :: Connects(d, root, r, p) && CoversPath(d, p[..|p| - 1], disabled)
  }

  lemma TrailGrows(d: Directory, root: RoleId, s: set<nat>, t: set<nat>, r: RoleId)
    requires Trail(d, root, s, r) && s <= t
    ensures Trail(d, root, t, r)
  {
    var p :| Connects(d, root, r, p) && CoversPath(d, p[..|p| - 1], s);
    assert CoversPath(d, p[..|p| - 1], t);
  }

  lemma TrailParent(d: Directory, root: RoleId, s: set<nat>, r: RoleId, x: RoleId)
    requires Trail(d, root, s, r) && IsParent(d, r, x) && Own(d, r).disabled <= s
    ensures Trail(d, root, s, x)
  {
    var p :| Connects(d, root, r, p) && CoversPath(d, p[..|p| - 1], s);
    var q := p + [x];
    forall i | 0 <= i < |q| - 1 ensures IsParent(d, q[i], q[i + 1]) {
      if i < |p| - 1 { assert IsParent(d, p[i], p[i + 1]); }
    }
    assert Connects(d, root, x, q);
    assert q[..|q| - 1] == p;
    forall i | 0 <= i < |p| ensures Own(d, p[i]).disabled <= s {
      if i < |p| - 1 { assert p[..|p| - 1][i] == p[i]; }
    }
  }

  lemma TrailToAdmin(d: Directory, root: RoleId, s: set<nat>)
    requires Trail(d, root, s, ROLE_ADMIN)
    ensures AdminPathIn(d, root, s)
  {
    var p :| Connects(d, root, ROLE_ADMIN, p) && CoversPath(d, p[..|p| - 1], s);
    forall i | 0 <= i < |p| ensures Own(d, p[i]).disabled <= s {
      if i < |p| - 1 { assert p[..|p| - 1][i] == p[i]; }
    }
    assert CoversPath(d, p, s);
  }

  ghost predicate OnlyReachable(d: Directory, root: RoleId, w: Walker) {
    && (forall r: RoleId :: Waiting(w, r) || r in w.fetched ==> Trail(d, root, w.acc.disabled, r))
    && w.acc.enabled <= Closure(d, root).enabled && w.acc.disabled <= Closure(d, root).disabled
  }

  ghost predicate Invariant(d: Directory, root: RoleId, w: Walker) {
    && ValidDirectory(d) && CacheOk(d, w.cache)
    && OnlyReachable(d, root, w)
    && Handled(d, w)
    && (root in w.fetched || Waiting(w, root))
  }

  lemma StartOk(d: Directory, role: RoleId, cache: map<RoleId, Permissions>)
    requires ValidDirectory(d) && CacheOk(d, cache)
    ensures Invariant(d, role, StartWalk(role, cache))
  {
    var w := StartWalk(role, cache);
    assert Connects(d, role, role, [role]) && CoversPath(d, [role][..0], {});
    assert Trail(d, role, {}, role);
    assert w.ids[0] in w.ids && Truncate(w.ids[0]) == role;
  }

  /** Nothing seen or waiting is lost and nothing collected is dropped. */
  ghost predicate Extends(w: Walker, v: Walker) {
    && w.fetched <= v.fetched && w.acc.enabled <= v.acc.enabled && w.acc.disabled <= v.acc.disabled
    && forall x: RoleId :: Waiting(w, x) ==> Waiting(v, x) || x in v.fetched
  }

  lemma HandledExtends(d: Directory, w: Walker, v: Walker)
    requires Handled(d, w) && Extends(w, v)
    requires forall r <- v.fetched - w.fetched :: Covered(d, v.acc, r) || Expanded(d, v, r)
    ensures Handled(d, v)
  {
    forall r <- v.fetched ensures Covered(d, v.acc, r) || Expanded(d, v, r) {
      if r in w.fetched {
        if Covered(d, w.acc, r) { CoveredGrows(d, w.acc, v.acc, r); } else { assert Expanded(d, w, r); }
      }
    }
  }

  lemma WaitingTail(w: Walker, x: RoleId)
    requires w.ids != [] && Waiting(w, x)
    ensures Waiting(w.(ids := w.ids[1..]), x) || x == Truncate(w.ids[0])
  {
    if exists id <- w.ids :: Truncate(id) == x {
      var id :| id in w.ids && Truncate(id) == x;
      assert id == w.ids[0] || id in w.ids[1..];
    }
  }

  lemma WaitingPush(w: Walker, ids: seq<nat>, x: RoleId)
    ensures Waiting(w.(ids := ids, stack := w.stack + [w.ids]), x)
        <==> Waiting(w, x) || exists id <- ids :: Truncate(id) == x
  {
    var v := w.(ids := ids, stack := w.stack + [w.ids]);
    if exists id <- w.ids :: Truncate(id) == x {
      assert v.stack[|w.stack|] == w.ids;
    }
    if k :| 0 <= k < |w.stack| && exists id <- w.stack[k] :: Truncate(id) == x {
      assert v.stack[k] == w.stack[k];
    }
    if k :| 0 <= k < |v.stack| && exists id <- v.stack[k] :: Truncate(id) == x {
      assert k < |w.stack| ==> v.stack[k] == w.stack[k];
    }
  }

  lemma WaitingPop(w: Walker, x: RoleId)
    requires w.ids == [] && w.stack != []
    ensures var n := |w.stack| - 1;
            Waiting(w, x) <==> Waiting(w.(ids := w.stack[n], stack := w.stack[..n]), x)
  {
    var n := |w.stack| - 1;
    var v := w.(ids := w.stack[n], stack := w.stack[..n]);
    if k :| 0 <= k < |w.stack| && exists id <- w.stack[k] :: Truncate(id) == x {
      assert k < n ==> v.stack[k] == w.stack[k];
    }
    if k :| 0 <= k < n && exists id <- v.stack[k] :: Truncate(id) == x {
      assert v.stack[k] == w.stack[k];
    }
    if exists id <- v.ids :: Truncate(id) == x {
      assert w.stack[n] == v.ids;
    }
  }

  /** A visit of a role not seen before. `w` already has the role marked as fetched. */
  lemma VisitOk(d: Directory, root: RoleId, w: Walker, role: RoleId)
    requires ValidDirectory(d) && CacheOk(d, w.cache) && OnlyReachable(d, root, w) && role in w.fetched
    requires forall r <- w.fetched - {role} :: Covered(d, w.acc, r) || Expanded(d, w, r)
    ensures var o := Visit(d, w, role);
            && CacheOk(d, o.w.cache) && OnlyReachable(d, root, o.w)
            && (o.Missing? ==> !BuiltIn(role) && role !in d.principals && o.role == role)
            && (o.Finished? ==> role == ROLE_ADMIN && o.w.acc.enabled >= d.all)
            && (o.Running? ==> Handled(d, o.w) && Extends(w, o.w))
  {
    TrailReaches(d, root, w.acc.disabled, role);
    VisitKeepsTrails(d, root, w, role);
    OwnInClosure(d, root, role);
    ClosureInClosure(d, root, role);
    if BuiltIn(role) {
      VisitLeaf(d, w, role);
    } else if role in w.cache {
      VisitCached(d, w, role);
    } else if role in d.principals {
      if d.principals[role].roles == [] {
        VisitLeaf(d, w, role);
      } else {
        VisitInner(d, root, w, role);
      }
    }
  }

  lemma TrailReaches(d: Directory, root: RoleId, s: set<nat>, r: RoleId)
    requires Trail(d, root, s, r)
    ensures Reaches(d, root, r)
  {
  }

  /** What was waiting or seen keeps its trail while more is collected. */
  lemma VisitKeepsTrails(d: Directory, root: RoleId, w: Walker, role: RoleId)
    requires OnlyReachable(d, root, w)
    ensures var v := Visit(d, w, role).w;
            forall r: RoleId :: Waiting(w, r) || r in w.fetched ==> Trail(d, root, v.acc.disabled, r)
  {
    var v := Visit(d, w, role).w;
    forall r: RoleId | Waiting(w, r) || r in w.fetched ensures Trail(d, root, v.acc.disabled, r) {
      TrailGrows(d, root, w.acc.disabled, v.acc.disabled, r);
    }
  }

  lemma VisitLeaf(d: Directory, w: Walker, role: RoleId)
    requires ValidDirectory(d) && CacheOk(d, w.cache) && role in w.fetched
    requires forall r <- w.fetched - {role} :: Covered(d, w.acc, r) || Expanded(d, w, r)
    requires BuiltIn(role) || (role !in w.cache && role in d.principals && d.principals[role].roles == [])
    ensures var o := Visit(d, w, role); o.Running? || o.Finished?
    ensures var v := Visit(d, w, role).w; CacheOk(d, v.cache) && Handled(d, v) && Extends(w, v)
  {
    LeafClosure(d, role);
    var v := Visit(d, w, role).w;
    AdminPathSelf(d, v.acc.disabled);
    assert Covered(d, v.acc, role);
    HandledRest(d, w, v, role);
  }

  lemma VisitCached(d: Directory, w: Walker, role: RoleId)
    requires CacheOk(d, w.cache) && role in w.fetched && !BuiltIn(role) && role in w.cache
    requires forall r <- w.fetched - {role} :: Covered(d, w.acc, r) || Expanded(d, w, r)
    ensures var v := Visit(d, w, role).w; Handled(d, v) && Extends(w, v)
  {
    assert Answers(d, role, w.cache[role]);
    var v := Visit(d, w, role).w;
    if Reaches(d, role, ROLE_ADMIN) { AdminPathGrows(d, role, w.cache[role].disabled, v.acc.disabled); }
    assert Covered(d, v.acc, role);
    HandledRest(d, w, v, role);
  }

  lemma VisitInner(d: Directory, root: RoleId, w: Walker, role: RoleId)
    requires ValidDirectory(d) && CacheOk(d, w.cache) && OnlyReachable(d, root, w) && role in w.fetched
    requires !BuiltIn(role) && role !in w.cache && role in d.principals && d.principals[role].roles != []
    requires forall r <- w.fetched - {role} :: Covered(d, w.acc, r) || Expanded(d, w, r)
    ensures var v := Visit(d, w, role).w; Handled(d, v) && Extends(w, v) && OnlyReachable(d, root, v)
  {
    var parents := d.principals[role].roles;
    var v := Visit(d, w, role).w;
    forall x: RoleId ensures Waiting(v, x) <==> Waiting(w, x) || IsParent(d, role, x) {
      WaitingPush(w.(acc := v.acc), parents, x);
    }
    assert Expanded(d, v, role);
    HandledRest(d, w, v, role);
    TrailReaches(d, root, w.acc.disabled, role);
    OwnInClosure(d, root, role);
    VisitKeepsTrails(d, root, w, role);
    forall x: RoleId | IsParent(d, role, x) ensures Trail(d, root, v.acc.disabled, x) {
      TrailParent(d, root, v.acc.disabled, role, x);
    }
  }

  lemma HandledRest(d: Directory, w: Walker, v: Walker, role: RoleId)
    requires forall r <- w.fetched - {role} :: Covered(d, w.acc, r) || Expanded(d, w, r)
    requires Extends(w, v) && v.fetched == w.fetched
    requires Covered(d, v.acc, role) || Expanded(d, v, role)
    ensures Handled(d, v)
  {
    forall r <- v.fetched ensures Covered(d, v.acc, r) || Expanded(d, v, r) {
      if r != role {
        assert r in w.fetched - {role};
        if Covered(d, w.acc, r) { CoveredGrows(d, w.acc, v.acc, r); } else { assert Expanded(d, w, r); }
      }
    }
  }

  /** Every step keeps the invariant; a missing role is reachable; the walk finishes
      with nothing waiting or with everything enabled. */
  lemma StepOk(d: Directory, root: RoleId, w: Walker)
    requires Invariant(d, root, w)
    ensures var o := StepWalk(d, w);
            && ValidDirectory(d) && CacheOk(d, o.w.cache) && OnlyReachable(d, root, o.w)
            && (o.Running? ==> Invariant(d, root, o.w))
            && (o.Missing? ==> Reaches(d, root, o.role) && !BuiltIn(o.role) && o.role !in d.principals)
            && (o.Finished? ==> || (o.w == w && w.ids == [] && w.stack == [])
                                || (AdminPathIn(d, root, o.w.acc.disabled) && o.w.acc.enabled >= d.all))
  {
    if w.ids != [] {
      var role := Truncate(w.ids[0]);
      assert w.ids[0] in w.ids && Waiting(w, role);
      var w1 := w.(ids := w.ids[1..]);
      forall x: RoleId | Waiting(w, x) ensures Waiting(w1, x) || x == role { WaitingTail(w, x); }
      forall x: RoleId | Waiting(w1, x) ensures Waiting(w, x) {}
      if role in w.fetched {
        HandledExtends(d, w, w1);
      } else {
        var w2 := w1.(fetched := w.fetched + {role});
        Marked(d, w, w2, role);
        TrailReaches(d, root, w.acc.disabled, role);
        VisitOk(d, root, w2, role);
        var o := Visit(d, w2, role);
        if o.Finished? { TrailToAdmin(d, root, o.w.acc.disabled); }
      }
    } else if w.stack != [] {
      var v := StepWalk(d, w).w;
      forall x: RoleId ensures Waiting(w, x) <==> Waiting(v, x) { WaitingPop(w, x); }
      HandledExtends(d, w, v);
    }
  }

  lemma Marked(d: Directory, w: Walker, v: Walker, role: RoleId)
    requires Handled(d, w) && v == w.(ids := v.ids, fetched := w.fetched + {role})
    requires forall x: RoleId :: Waiting(w, x) ==> Waiting(v, x) || x == role
    ensures forall r <- v.fetched - {role} :: Covered(d, v.acc, r) || Expanded(d, v, r)
  {
    forall r <- v.fetched - {role} ensures Covered(d, v.acc, r) || Expanded(d, v, r) {
      assert r in w.fetched;
      assert Covered(d, w.acc, r) || Expanded(d, w, r);
    }
  }

  // ---- The result ----

  /** When nothing waits, every role on a path from a fetched role has been collected. */
  lemma {:induction false} PathCollected(d: Directory, w: Walker, root: RoleId, p: seq<RoleId>)
    requires Handled(d, w) && w.ids == [] && w.stack == [] && p != [] && p[0] in w.fetched && IsPath(d, p)
    requires forall i | 0 <= i < |p| :: Reaches(d, root, p[i])
    requires ValidDirectory(d)
    ensures var r := p[|p| - 1];
            && Own(d, r).enabled <= w.acc.enabled
            && (!Reaches(d, root, ROLE_ADMIN) ==> Own(d, r).disabled <= w.acc.disabled && Stored(d, r))
    decreases |p|
  {
    var a, r := p[0], p[|p| - 1];
    if Covered(d, w.acc, a) {
      assert Connects(d, a, r, p);
      OwnInClosure(d, a, r);
      if Reaches(d, a, ROLE_ADMIN) {
        var q :| Connects(d, a, ROLE_ADMIN, q);
        ReachesTrans(d, root, a, ROLE_ADMIN, q);
      }
    } else {
      assert Expanded(d, w, a);
      if |p| > 1 {
        assert IsParent(d, p[0], p[1]);
        assert !Waiting(w, p[1]);
        forall i | 0 <= i < |p| - 2 ensures IsParent(d, p[1..][i], p[1..][i + 1]) {
          assert IsParent(d, p[i + 1], p[i + 2]);
        }
        PathCollected(d, w, root, p[1..]);
      }
    }
  }

  /** When nothing waits, a fetched role that reaches ROLE_ADMIN has a path to it collected. */
  lemma {:induction false} AdminPathCollected(d: Directory, w: Walker, p: seq<RoleId>)
    requires Handled(d, w) && w.ids == [] && w.stack == [] && p != [] && p[0] in w.fetched
    requires Connects(d, p[0], ROLE_ADMIN, p)
    ensures AdminPathIn(d, p[0], w.acc.disabled)
    decreases |p|
  {
    if Covered(d, w.acc, p[0]) {
      assert Reaches(d, p[0], ROLE_ADMIN);
    } else {
      assert Expanded(d, w, p[0]);
      if |p| == 1 {
        AdminPathSelf(d, w.acc.disabled);
      } else {
        assert IsParent(d, p[0], p[1]);
        assert !Waiting(w, p[1]);
        forall i | 0 <= i < |p| - 2 ensures IsParent(d, p[1..][i], p[1..][i + 1]) {
          assert IsParent(d, p[i + 1], p[i + 2]);
        }
        AdminPathCollected(d, w, p[1..]);
        AdminPathCons(d, p[0], p[1], w.acc.disabled);
      }
    }
  }

  lemma DoneAnswers(d: Directory, root: RoleId, w: Walker)
    requires Invariant(d, root, w) && w.ids == [] && w.stack == []
    ensures Answers(d, root, w.acc)
  {
    assert root in w.fetched;
    if Reaches(d, root, ROLE_ADMIN) {
      var p :| Connects(d, root, ROLE_ADMIN, p);
      AdminPathCollected(d, w, p);
    }
    forall r: RoleId | Reaches(d, root, r)
      ensures Own(d, r).enabled <= w.acc.enabled
      ensures !Reaches(d, root, ROLE_ADMIN) ==> Own(d, r).disabled <= w.acc.disabled && Stored(d, r)
    {
      var p :| Connects(d, root, r, p);
      forall i | 0 <= i < |p| ensures Reaches(d, root, p[i]) {
        var q := p[..i + 1];
        forall k | 0 <= k < |q| - 1 ensures IsParent(d, q[k], q[k + 1]) {
          assert IsParent(d, p[k], p[k + 1]);
        }
        assert Connects(d, root, p[i], q);
      }
      PathCollected(d, w, root, p);
    }
  }

  lemma AdminAnswers(d: Directory, root: RoleId, acc: Permissions)
    requires ValidDirectory(d) && AdminPathIn(d, root, acc.disabled) && acc.enabled >= d.all
    requires acc.enabled <= Closure(d, root).enabled && acc.disabled <= Closure(d, root).disabled
    ensures Answers(d, root, acc)
  {
    assert Reaches(d, root, ROLE_ADMIN);
    OwnInClosure(d, root, ROLE_ADMIN);
  }

  /** The whole walk: the cache stays right; a role is reported missing only if it is
      reachable and not stored; otherwise the result answers for the root. */
  lemma {:induction false} WalkCorrect(d: Directory, root: RoleId, w: Walker)
    requires Invariant(d, root, w)
    ensures var o := RunWalk(d, w);
            && CacheOk(d, o.w.cache)
            && (o.Finished? ==> Answers(d, root, o.w.acc))
            && (o.Missing? ==> Reaches(d, root, o.role) && !BuiltIn(o.role) && o.role !in d.principals)
    decreases ID_LIMIT - |w.fetched|, |w.stack|, |w.ids|
  {
    var o := StepWalk(d, w);
    StepOk(d, root, w);
    StepProgress(d, w);
    FetchedBounded(w.fetched);
    hide StepWalk, Invariant, Answers, CacheOk, OnlyReachable, Closure, Reaches;
    if o.Running? {
      FetchedBounded(o.w.fetched);
      WalkCorrect(d, root, o.w);
    } else if o.Finished? {
      if o.w == w && w.ids == [] && w.stack == [] {
        DoneAnswers(d, root, w);
      } else {
        FinishedEarly(d, root, o.w);
      }
    }
  }

  lemma FinishedEarly(d: Directory, root: RoleId, w: Walker)
    requires ValidDirectory(d) && OnlyReachable(d, root, w) && AdminPathIn(d, root, w.acc.disabled) && w.acc.enabled >= d.all
    ensures Answers(d, root, w.acc)
  {
    AdminAnswers(d, root, w.acc);
  }

  lemma StepProgress(d: Directory, w: Walker)
    ensures var o := StepWalk(d, w);
            o.Running? ==> || |o.w.fetched| > |w.fetched|
                           || (o.w.fetched == w.fetched && |o.w.stack| < |w.stack|)
                           || (o.w.fetched == w.fetched && o.w.stack == w.stack && |o.w.ids| < |w.ids|)
  {
  }

  /** Permissions of a role, and the cache afterwards, as the walk gives them. */
  function Build(d: Directory, role: RoleId, cache: map<RoleId, Permissions>): (Result<Permissions>, map<RoleId, Permissions>) {
    var o := RunWalk(d, StartWalk(role, cache));
    if o.Missing? then (NotFound(o.role), o.w.cache) else (Ok(o.w.acc), o.w.cache[role := o.w.acc])
  }

  /** For every role graph, cycles included, and every right cache. */
  lemma BuildCorrect(d: Directory, role: RoleId, cache: map<RoleId, Permissions>)
    requires ValidDirectory(d) && CacheOk(d, cache)
    ensures var (r, after) := Build(d, role, cache);
            && CacheOk(d, after)
            && (r.Ok? ==> Answers(d, role, r.value))
            && (r.NotFound? ==> Reaches(d, role, r.role) && !BuiltIn(r.role) && r.role !in d.principals)
            && (!Reaches(d, role, ROLE_ADMIN) ==> (r.Ok? <==> AllStored(d, role)))
  {
    StartOk(d, role, cache);
    WalkCorrect(d, role, StartWalk(role, cache));
  }

  // ---- What an answer says ----

  ghost predicate Lists(d: Directory, x: RoleId, p: nat) {
    !BuiltIn(x) && x in d.principals && p in d.principals[x].enabled && p < d.count
  }

  ghost predicate Forbids(d: Directory, x: RoleId, p: nat) {
    !BuiltIn(x) && x in d.principals && p in d.principals[x].disabled && p < d.count
  }

  ghost predicate ReachesListing(d: Directory, r: RoleId, p: nat) {
    exists x: RoleId :: Reaches(d, r, x) && Lists(d, x, p)
  }

  ghost predicate ReachesForbidding(d: Directory, r: RoleId, p: nat) {
    exists x: RoleId :: Reaches(d, r, x) && Forbids(d, x, p)
  }

  /** Permission by permission: enabled are those of the built-in roles reached and those that
      stored roles reached list; disabled are only ever listed by stored roles. With the
      administrator role reached, everything is enabled. */
  ghost predicate Grants(d: Directory, r: RoleId, ps: Permissions) {
    && (Reaches(d, r, ROLE_ADMIN) ==> ps.enabled == d.all)
    && (!Reaches(d, r, ROLE_ADMIN) ==> forall p: nat :: p in ps.enabled <==>
           || (Reaches(d, r, ROLE_USER) && p in d.user)
           || (Reaches(d, r, ROLE_TENANT_ADMIN) && p in d.tenantAdmin)
           || ReachesListing(d, r, p))
    && (forall p: nat :: p in ps.disabled ==> ReachesForbidding(d, r, p))
    && (!Reaches(d, r, ROLE_ADMIN) ==> forall p: nat :: ReachesForbidding(d, r, p) ==> p in ps.disabled)
  }

  lemma AnswersGrant(d: Directory, r: RoleId, ps: Permissions)
    requires ValidDirectory(d) && Answers(d, r, ps)
    ensures Grants(d, r, ps)
  {
    if Reaches(d, r, ROLE_ADMIN) {
      OwnInClosure(d, r, ROLE_ADMIN);
    } else {
      forall p: nat ensures p in ps.enabled <==>
          || (Reaches(d, r, ROLE_USER) && p in d.user)
          || (Reaches(d, r, ROLE_TENANT_ADMIN) && p in d.tenantAdmin)
          || ReachesListing(d, r, p)
      {
        EnabledBy(d, r, p);
      }
      forall p: nat | ReachesForbidding(d, r, p) ensures p in ps.disabled {
        DisabledBy(d, r, p);
      }
    }
    forall p: nat | p in ps.disabled ensures ReachesForbidding(d, r, p) {
      DisabledBy(d, r, p);
    }
  }

  lemma EnabledBy(d: Directory, r: RoleId, p: nat)
    requires ValidDirectory(d) && !Reaches(d, r, ROLE_ADMIN)
    ensures p in Closure(d, r).enabled <==>
              || (Reaches(d, r, ROLE_USER) && p in d.user)
              || (Reaches(d, r, ROLE_TENANT_ADMIN) && p in d.tenantAdmin)
              || ReachesListing(d, r, p)
  {
    if p in Closure(d, r).enabled {
      var x: RoleId :| Reaches(d, r, x) && p in Own(d, x).enabled;
      assert Lists(d, x, p) || x == ROLE_USER || x == ROLE_TENANT_ADMIN;
    }
    if ReachesListing(d, r, p) {
      var x: RoleId :| Reaches(d, r, x) && Lists(d, x, p);
      assert p in Own(d, x).enabled;
      OwnInClosure(d, r, x);
    }
    if Reaches(d, r, ROLE_USER) { OwnInClosure(d, r, ROLE_USER); }
    if Reaches(d, r, ROLE_TENANT_ADMIN) { OwnInClosure(d, r, ROLE_TENANT_ADMIN); }
  }

  lemma DisabledBy(d: Directory, r: RoleId, p: nat)
    requires ValidDirectory(d)
    ensures p in Closure(d, r).disabled <==> ReachesForbidding(d, r, p)
  {
    if p in Closure(d, r).disabled {
      var x: RoleId :| Reaches(d, r, x) && p in Own(d, x).disabled;
      assert Forbids(d, x, p);
    }
    if ReachesForbidding(d, r, p) {
      var x: RoleId :| Reaches(d, r, x) && Forbids(d, x, p);
      assert p in Own(d, x).disabled;
      OwnInClosure(d, r, x);
    }
  }

  /** What is built for any role, permission by permission. */
  lemma BuildGrants(d: Directory, role: RoleId, cache: map<RoleId, Permissions>)
    requires ValidDirectory(d) && CacheOk(d, cache)
    ensures var r := Build(d, role, cache).0; r.Ok? ==> Grants(d, role, r.value)
  {
    hide Build, Answers, Grants, CacheOk;
    BuildCorrect(d, role, cache);
    var r := Build(d, role, cache).0;
    if r.Ok? { AnswersGrant(d, role, r.value); }
  }

  /** The server's shared cache over a fixed role store. */
  class RoleCache {
    const directory: Directory
    var permissions: map<RoleId, Permissions>

    ghost predicate Valid()
      reads this
    {
      ValidDirectory(directory) && CacheOk(directory, permissions)
    }

    constructor (directory: Directory)
      requires ValidDirectory(directory)
      ensures this.directory == directory && Valid() && permissions == map[]
    {
      this.directory, permissions := directory, map[];
    }

    /** The answer, whichever way it is found. */
    method GetRolePermissions(role: RoleId) returns (r: Result<Permissions>)
      requires Valid()
      modifies this
      ensures Valid()
      ensures role == ROLE_USER ==> r == Ok(Permissions(directory.user, {}))
      ensures role == ROLE_ADMIN ==> r == Ok(Permissions(directory.all, {}))
      ensures role == ROLE_TENANT_ADMIN ==> r == Ok(Permissions(directory.tenantAdmin, {}))
      ensures r.Ok? ==> Answers(directory, role, r.value) && Grants(directory, role, r.value)
      ensures r.NotFound? ==> Reaches(directory, role, r.role) && !BuiltIn(r.role) && r.role !in directory.principals
      ensures !Reaches(directory, role, ROLE_ADMIN) ==> (r.Ok? <==> AllStored(directory, role))
    {
      if BuiltIn(role) {
        LeafClosure(directory, role);
        ReachesSelf(directory, role);
        AdminPathSelf(directory, Own(directory, role).disabled);
        r := Ok(Own(directory, role));
      } else if role in permissions {
        r := Ok(permissions[role]);
      } else {
        r := BuildRolePermissions(role);
      }
      if r.Ok? { AnswersGrant(directory, role, r.value); }
    }

    method BuildRolePermissions(role: RoleId) returns (r: Result<Permissions>)
      requires Valid()
      modifies this
      ensures Valid()
      ensures (r, permissions) == Build(directory, role, old(permissions))
      ensures r.Ok? ==> Answers(directory, role, r.value)
      ensures r.NotFound? ==> Reaches(directory, role, r.role) && !BuiltIn(r.role) && r.role !in directory.principals
      ensures !Reaches(directory, role, ROLE_ADMIN) ==> (r.Ok? <==> AllStored(directory, role))
    {
      BuildCorrect(directory, role, permissions);
      hide CacheOk, Answers;
      var ids: seq<nat>, stack: seq<seq<nat>> := [role], [];
      var fetched: set<RoleId>, acc := {}, NO_PERMISSIONS;
      ghost var start := StartWalk(role, permissions);
      while true
        invariant RunWalk(directory, start) == RunWalk(directory, Walker(ids, stack, fetched, acc, permissions))
        decreases ID_LIMIT - |fetched|, |stack|, |ids|
      {
        ghost var w := Walker(ids, stack, fetched, acc, permissions);
        StepProgress(directory, w);
        FetchedBounded(fetched);
        if |ids| > 0 {
          var id := Truncate(ids[0]);
          ids := ids[1..];
          if id in fetched {
            continue;
          }
          fetched := fetched + {id};
          FetchedBounded(fetched);
          if BuiltIn(id) {
            acc := Union(acc, Own(directory, id));
            if id == ROLE_ADMIN {
              break;
            }
          } else if id in permissions {
            acc := Union(acc, permissions[id]);
          } else {
            if id !in directory.principals {
              return NotFound(id);
            }
            var own, parents := Own(directory, id), directory.principals[id].roles;
            acc := Union(acc, own);
            if |parents| > 0 {
              stack := stack + [ids];
              ids := parents;
            } else {
              permissions := permissions[id := own];
            }
          }
        } else if |stack| > 0 {
          ids := stack[|stack| - 1];
          stack := stack[..|stack| - 1];
        } else {
          break;
        }
      }
      permissions := permissions[role := acc];
      r := Ok(acc);
    }
  }

  /** A role graph where the administrator role comes first among the parents. */
  function AdminFirst(): Directory {
    Directory(map[1 := Principal([], [], [ROLE_ADMIN, 2]), 2 := Principal([], [0], [])], 1, {0}, {}, {})
  }

  /** With the administrator role reachable the disabled permissions can be incomplete:
      the walk stops before it sees the role that disables permission 0. */
  lemma AdminHidesDisabled()
    ensures ValidDirectory(AdminFirst())
    ensures Build(AdminFirst(), 1, map[]).0 == Ok(Permissions({0}, {}))
    ensures 0 in Closure(AdminFirst(), 1).disabled
  {
    var d := AdminFirst();
    assert ValidDirectory(d);
    var w := StartWalk(1, map[]);
    var w1 := Walker([ROLE_ADMIN, 2], [[]], {1}, NO_PERMISSIONS, map[]);
    assert StepWalk(d, w) == Running(w1) by {
      assert Own(d, 1) == NO_PERMISSIONS;
      assert [1][1..] == [];
    }
    var w2 := Walker([2], [[]], {1, ROLE_ADMIN}, Permissions({0}, {}), map[]);
    assert StepWalk(d, w1) == Finished(w2) by {
      assert [ROLE_ADMIN, 2][1..] == [2];
    }
    assert RunWalk(d, w) == RunWalk(d, w1) == Finished(w2);
    ReachesSelf(d, 1);
    assert 2 in d.principals[1].roles && Truncate(2) == 2;
    ReachesParent(d, 1, 1, 2);
    assert 0 in d.principals[2].disabled;
  }
}
