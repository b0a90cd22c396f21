/** When the search for mailbox paths ends: exactly when the trails from the roots are bounded. */
module MailboxSearch {
  import opened Prelude
  import opened MailboxTree

  // ---- Bounded trails: the search ends ----

  lemma {:induction false} SearchEnds(ms: seq<Mailbox>, s: Search, done: seq<(Path, nat)>, t: seq<nat>) returns (n: nat)
    requires Finite(ms) && At(ms, s, done, t)
    ensures EndsWithin(ms, s, n, InsertAll(Inserts(ms, [], 0)))
    decreases |Inserts(ms, [], 0)| - |done|, |s.stack|, |ms| - s.next
  {
    AtBounds(ms, s, done, t);
    hide At, Inserts, InsertAll, Finite, HasChildren, IsTrail;
    var more: seq<(Path, nat)>, u, next := done, t, StepSearch(ms, s);
    if s.next < |ms| {
      if s.parent != ms[s.next].parent {
        AtSkip(ms, s, done, t);
      } else if HasChildren(ms, ms[s.next].id) {
        more := AtPush(ms, s, done, t);
        u := t + [s.next];
      } else {
        more := AtLeaf(ms, s, done, t);
      }
    } else if s.stack != [] {
      AtPop(ms, s, done, t);
      u := t[..|t| - 1];
    } else {
      AtEnd(ms, s, done, t);
    }
    n := 0;
    if next.Some? {
      AtBounds(ms, next.value, more, u);
      n := SearchEnds(ms, next.value, more, u);
      n := n + 1;
    }
  }

  // ---- A search that ends: bounded trails ----

  /** The search lists the mailboxes below the trail, with one frame per mailbox on it. */
  ghost predicate Standing(ms: seq<Mailbox>, s: Search, t: seq<nat>) {
    && s.next <= |ms| && IsTrail(ms, t) && FramesOf(ms, t, s.stack)
    && s.path == PathOf(ms, t) && s.parent == ParentAfter(ms, t)
  }

  /** Where the search goes on below the first m mailboxes of the trail. */
  function NextAt(s: Search, m: nat): nat
    requires m <= |s.stack|
  {
    if m < |s.stack| then s.stack[m].next else s.next
  }

  /** The trail u leaves t after m mailboxes, at a place the search has not passed yet. */
  ghost predicate Ahead(ms: seq<Mailbox>, s: Search, t: seq<nat>, u: seq<nat>, m: nat)
    requires |s.stack| == |t|
  {
    m <= |t| && m < |u| && IsTrail(ms, u) && t[..m] == u[..m] && NextAt(s, m) <= u[m]
  }

  lemma FramesPushed(ms: seq<Mailbox>, t: seq<nat>, stack: seq<Frame>, k: nat)
    requires IsTrail(ms, t) && FramesOf(ms, t, stack) && k < |ms| && ms[k].parent == ParentAfter(ms, t)
    ensures var f := Frame(PathOf(ms, t), ParentAfter(ms, t), k + 1);
            IsTrail(ms, t + [k]) && FramesOf(ms, t + [k], stack + [f]) && PathOf(ms, t + [k]) == PathOf(ms, t) + [ms[k].name]
  {
    var u, f := t + [k], Frame(PathOf(ms, t), ParentAfter(ms, t), k + 1);
    TrailExtend(ms, t, k);
    forall j | 0 <= j < |u| ensures FrameAt(ms, u, j, (stack + [f])[j]) {
      if j < |t| {
        assert FrameAt(ms, t, j, stack[j]);
        assert u[..j] == t[..j];
      } else {
        assert u[..j] == t;
      }
    }
  }

  /** The next mailbox of a trail that leaves t at its end is one the search is listing. */
  lemma LeavesHere(ms: seq<Mailbox>, s: Search, t: seq<nat>, u: seq<nat>)
    requires Standing(ms, s, t) && Ahead(ms, s, t, u, |t|)
    ensures u[|t|] < |ms| && ms[u[|t|]].parent == s.parent
  {
    var m := |t|;
    assert t == t[..m];
    if m > 0 { assert Links(ms, u[m - 1], u[m]) && u[m - 1] == u[..m][m - 1]; }
  }

  lemma ChildFollows(ms: seq<Mailbox>, u: seq<nat>, m: nat)
    requires IsTrail(ms, u) && m < |u|
    ensures m + 1 < |u| ==> HasChildren(ms, ms[u[m]].id)
  {
    if m + 1 < |u| { assert Links(ms, u[m], u[m + 1]) && ms[u[m + 1]] in ms; }
  }

  lemma {:induction false} AheadBounded(ms: seq<Mailbox>, s: Search, t: seq<nat>, n: nat, results: map<Path, nat>,
                                        u: seq<nat>, m: nat)
    requires Standing(ms, s, t) && EndsWithin(ms, s, n, results) && Ahead(ms, s, t, u, m)
    ensures |u| <= |t| + n
    decreases n, 1
  {
    if m == |t| { LeavesHere(ms, s, t, u); }
    if s.next < |ms| {
      if s.parent == ms[s.next].parent && HasChildren(ms, ms[s.next].id) {
        PushBounded(ms, s, t, n, results, u, m);
      } else {
        StayBounded(ms, s, t, n, results, u, m);
      }
    } else {
      PopBounded(ms, s, t, n, results, u, m);
    }
  }

  lemma {:induction false} PushBounded(ms: seq<Mailbox>, s: Search, t: seq<nat>, n: nat, results: map<Path, nat>,
                                       u: seq<nat>, m: nat)
    requires Standing(ms, s, t) && EndsWithin(ms, s, n, results) && Ahead(ms, s, t, u, m)
    requires s.next < |ms| && s.parent == ms[s.next].parent && HasChildren(ms, ms[s.next].id)
    ensures |u| <= |t| + n
    decreases n, 0
  {
    var k := s.next;
    var v, w := StepSearch(ms, s).value, t + [k];
    FramesPushed(ms, t, s.stack, k);
    assert Standing(ms, v, w);
    if m == |t| && u[m] == k {
      if |u| > m + 1 {
        assert w[..m + 1] == u[..m + 1] by {
          assert u[..m + 1] == u[..m] + [u[m]] && t[..m] == t && w[..m + 1] == w;
        }
        assert Ahead(ms, v, w, u, m + 1);
        AheadBounded(ms, v, w, n - 1, results, u, m + 1);
      }
    } else {
      assert w[..m] == t[..m];
      assert Ahead(ms, v, w, u, m);
      AheadBounded(ms, v, w, n - 1, results, u, m);
    }
  }

  lemma {:induction false} StayBounded(ms: seq<Mailbox>, s: Search, t: seq<nat>, n: nat, results: map<Path, nat>,
                                       u: seq<nat>, m: nat)
    requires Standing(ms, s, t) && EndsWithin(ms, s, n, results) && Ahead(ms, s, t, u, m)
    requires s.next < |ms| && !(s.parent == ms[s.next].parent && HasChildren(ms, ms[s.next].id))
    ensures |u| <= |t| + n
    decreases n, 0
  {
    var k := s.next;
    var v := StepSearch(ms, s).value;
    assert Standing(ms, v, t);
    if m == |t| { LeavesHere(ms, s, t, u); }
    if m == |t| && u[m] == k {
      ChildFollows(ms, u, m);
      assert |u| == m + 1;
    } else {
      assert Ahead(ms, v, t, u, m);
      AheadBounded(ms, v, t, n - 1, results, u, m);
    }
  }

  lemma {:induction false} PopBounded(ms: seq<Mailbox>, s: Search, t: seq<nat>, n: nat, results: map<Path, nat>,
                                      u: seq<nat>, m: nat)
    requires Standing(ms, s, t) && EndsWithin(ms, s, n, results) && Ahead(ms, s, t, u, m)
    requires s.next == |ms|
    ensures |u| <= |t| + n
    decreases n, 0
  {
    assert m < |t| by {
      if m == |t| { LeavesHere(ms, s, t, u); }
    }
    var l := |t| - 1;
    var v, w := StepSearch(ms, s).value, t[..l];
    FramesPrefix(ms, t, s.stack);
    assert FrameAt(ms, t, l, s.stack[l]);
    assert Standing(ms, v, w);
    assert w[..m] == t[..m];
    assert Ahead(ms, v, w, u, m);
    AheadBounded(ms, v, w, n - 1, results, u, m);
  }

  // ---- Exactly when ----

  ghost predicate Ends(ms: seq<Mailbox>) {
    exists n: nat, results :: EndsWithin(ms, BEGIN, n, results)
  }

  /** The loop is left, with the entries of all trails from the roots, if and only if no trail
      passes a mailbox twice. */
  lemma EndsIff(ms: seq<Mailbox>)
    ensures Ends(ms) <==> Finite(ms)
    ensures Finite(ms) <==> forall t | IsTrail(ms, t) :: !Repeats(t)
    ensures Finite(ms) ==> exists n: nat :: EndsWithin(ms, BEGIN, n, InsertAll(Inserts(ms, [], 0)))
  {
    FiniteIff(ms);
    if Finite(ms) {
      AtStart(ms);
      var n := SearchEnds(ms, BEGIN, [], []);
    }
    if Ends(ms) {
      var n: nat, results :| EndsWithin(ms, BEGIN, n, results);
      assert Standing(ms, BEGIN, []);
      forall u | IsTrail(ms, u) ensures |u| <= n {
        if u != [] {
          assert Ahead(ms, BEGIN, [], u, 0);
          AheadBounded(ms, BEGIN, [], n, results, u, 0);
        }
      }
      assert !TrailOfLength(ms, n + 1);
    }
  }

  /** A root, and a mailbox with the root's id that is its own parent: the search has no end. */
  lemma CircleBelowRoot()
    ensures !Ends([Mailbox(Some("a"), "inbox", None), Mailbox(Some("a"), "again", Some("a"))])
  {
    var ms := [Mailbox(Some("a"), "inbox", None), Mailbox(Some("a"), "again", Some("a"))];
    var t: seq<nat> := [0, 1, 1];
    assert Links(ms, t[0], t[1]) && Links(ms, t[1], t[2]);
    assert IsTrail(ms, t);
    EndsIff(ms);
  }

  /** A root without an id: the search has no end, whatever else is in the list. */
  lemma RootWithoutId(ms: seq<Mailbox>, i: nat)
    requires i < |ms| && ms[i].id == None && ms[i].parent == None
    ensures !Ends(ms)
  {
    var t := [i, i];
    assert Links(ms, t[0], t[1]) && t[0] == t[1];
    assert IsTrail(ms, t) && Repeats(t);
    EndsIff(ms);
  }
}
