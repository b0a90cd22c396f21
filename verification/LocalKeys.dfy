/** Configuration key patterns: the fast forms in front of the glob matcher, and the
    local-key decision. */
module LocalKeys {
  import opened Glob

  datatype MatchType =
    | Equal(text: string)
    | StartsWith(text: string)
    | EndsWith(text: string)
    | Globbed(pattern: Glob.Pattern)
    | All

  predicate EndsIn(s: string, suffix: string) {
    |suffix| <= |s| && s[|s| - |suffix|..] == suffix
  }

  function ParseMatch(p: string): MatchType {
    if p == "*" then All
    else if p != [] && p[|p| - 1] == '*' then StartsWith(p[..|p| - 1])
    else if p != [] && p[0] == '*' then EndsWith(p[1..])
    else if '*' in p then Globbed(Compiled(p))
    else Equal(p)
  }

  predicate FastMatches(m: MatchType, s: string) {
    match m
    case Equal(text) => s == text
    case StartsWith(text) => text <= s
    case EndsWith(text) => EndsIn(s, text)
    case Globbed(pattern) => Matches(pattern, s)
    case All => true
  }

  predicate Ordinary(c: char) {
    c != '*' && c != '?' && c != '\\'
  }

  /** No character of the text is special in a glob. */
  predicate Plain(q: string) {
    forall i | 0 <= i < |q| :: Ordinary(q[i])
  }

  lemma PlainTail(q: string)
    requires q != []
    ensures Plain(q) <==> Ordinary(q[0]) && Plain(q[1..])
  {
    if Ordinary(q[0]) && Plain(q[1..]) {
      forall i | 0 <= i < |q| ensures Ordinary(q[i]) {
        if i > 0 { assert q[1..][i - 1] == q[i]; }
      }
    }
  }

  /** When the fast form of a pattern means what the pattern means as a glob: the
      text around a leading or trailing star, or the whole text when there is no star,
      is plain; with stars only inside, the glob matcher itself is used. */
  predicate FastIsExact(p: string) {
    if p != [] && p[|p| - 1] == '*' then Plain(p[..|p| - 1])
    else if p != [] && p[0] == '*' then Plain(p[1..])
    else '*' in p || Plain(p)
  }

  // ---- Plain text ----

  lemma {:induction false} PlainMeans(q: string, s: string)
    requires Plain(q)
    ensures Means(q, s) <==> s == q
    decreases |q|
  {
    if q == [] || s == [] {
      assert q != [] ==> Ordinary(q[0]);
    } else {
      PlainTail(q);
      PlainMeans(q[1..], s[1..]);
      assert s == q <==> s[0] == q[0] && s[1..] == q[1..];
    }
  }

  lemma {:induction false} StarMeansAll(s: string)
    ensures Means("*", s)
    decreases |s|
  {
    assert "*"[1..] == "";
    if s != [] { StarMeansAll(s[1..]); }
  }

  lemma {:induction false} PlainThenStar(q: string, s: string)
    requires Plain(q)
    ensures Means(q + "*", s) <==> q <= s
    decreases |q|
  {
    if q == [] {
      assert q + "*" == "*";
      StarMeansAll(s);
    } else {
      PlainTail(q);
      assert (q + "*")[1..] == q[1..] + "*";
      if s != [] {
        PlainThenStar(q[1..], s[1..]);
        assert q <= s <==> q[0] == s[0] && q[1..] <= s[1..];
      }
    }
  }

  lemma {:induction false} StarThenPlain(q: string, s: string)
    requires Plain(q)
    ensures Means("*" + q, s) <==> EndsIn(s, q)
    decreases |s|
  {
    assert ("*" + q)[1..] == q;
    PlainMeans(q, s);
    if s != [] {
      StarThenPlain(q, s[1..]);
      if |q| < |s| { assert s[1..][|s| - 1 - |q|..] == s[|s| - |q|..]; }
    }
    if |q| == |s| { assert s[0..] == s; }
  }

  // ---- A text that tells a special pattern from its fast form ----

  /** One text the pattern matches: stars empty, and an `x` for each `?`. */
  function Instance(pat: string): string
    decreases |pat|
  {
    if pat == [] then []
    else if pat[0] == '*' then Instance(pat[1..])
    else if pat[0] == '?' then ['x'] + Instance(pat[1..])
    else if pat[0] == '\\' then if |pat| == 1 then [] else [pat[1]] + Instance(pat[2..])
    else [pat[0]] + Instance(pat[1..])
  }

  lemma {:induction false} InstanceMatches(pat: string)
    ensures Means(pat, Instance(pat))
    decreases |pat|
  {
    if pat != [] {
      var t := Instance(pat);
      if pat[0] == '*' {
        InstanceMatches(pat[1..]);
      } else if pat[0] == '\\' {
        if |pat| > 1 {
          InstanceMatches(pat[2..]);
          assert t[1..] == Instance(pat[2..]);
        }
      } else {
        InstanceMatches(pat[1..]);
        assert t[1..] == Instance(pat[1..]);
      }
    }
  }

  lemma {:induction false} InstanceLength(pat: string)
    ensures |Instance(pat)| <= |pat|
    decreases |pat|
  {
    if pat != [] {
      InstanceLength(pat[1..]);
      if |pat| > 1 { InstanceLength(pat[2..]); }
    }
  }

  lemma {:induction false} InstanceIsPlain(q: string)
    ensures Instance(q) == q <==> Plain(q)
    decreases |q|
  {
    if q != [] {
      InstanceLength(q[1..]);
      if |q| > 1 { InstanceLength(q[2..]); }
      InstanceIsPlain(q[1..]);
      PlainTail(q);
      assert q == [q[0]] + q[1..];
      if Ordinary(q[0]) {
        assert Instance(q) == q <==> Instance(q)[1..] == q[1..];
      } else {
        assert q[0] == '?' ==> Instance(q)[0] == 'x';
      }
    }
  }

  /** With a star appended: no longer than the text, and equal to it only if plain. */
  lemma {:induction false} InstanceWithStar(q: string)
    ensures |Instance(q + "*")| <= |q|
    ensures Instance(q + "*") == q ==> Plain(q)
    decreases |q|
  {
    if q == [] {
      assert q + "*" == "*";
      assert "*"[1..] == [];
    } else {
      assert (q + "*")[1..] == q[1..] + "*";
      InstanceWithStar(q[1..]);
      PlainTail(q);
      if q[0] == '\\' {
        assert (q + "*")[1] == if |q| > 1 then q[1] else '*';
        if |q| > 1 {
          assert (q + "*")[2..] == q[2..] + "*";
          InstanceWithStar(q[2..]);
        } else {
          assert (q + "*")[2..] == [];
          assert Instance(q + "*") == "*";
        }
      } else if q[0] != '*' {
        assert Instance(q + "*")[1..] == Instance(q[1..] + "*");
        assert q[0] == '?' ==> Instance(q + "*")[0] == 'x';
      }
    }
  }

  // ---- Exactness ----

  lemma FastExactOne(p: string, s: string)
    requires FastIsExact(p)
    ensures FastMatches(ParseMatch(p), s) == Means(p, s)
  {
    if p == "*" {
      StarMeansAll(s);
    } else if p != [] && p[|p| - 1] == '*' {
      assert p == p[..|p| - 1] + "*";
      PlainThenStar(p[..|p| - 1], s);
    } else if p != [] && p[0] == '*' {
      assert p == "*" + p[1..];
      StarThenPlain(p[1..], s);
    } else if '*' in p {
      CompileCorrect(p, s);
    } else {
      PlainMeans(p, s);
    }
  }

  /** A pattern that is not exact is told apart from its fast form by its instance. */
  lemma FastInexact(p: string)
    requires !FastIsExact(p)
    ensures Means(p, Instance(p)) && !FastMatches(ParseMatch(p), Instance(p))
  {
    InstanceMatches(p);
    var s := Instance(p);
    if p[|p| - 1] == '*' {
      var q := p[..|p| - 1];
      assert p == q + "*";
      InstanceWithStar(q);
    } else if p[0] == '*' {
      var q := p[1..];
      InstanceLength(q);
      InstanceIsPlain(q);
      assert |s| == |q| ==> s[0..] == s;
    } else {
      InstanceIsPlain(p);
    }
  }

  /** The fast matcher agrees with the glob on every key exactly for these patterns. */
  lemma FastAgreesIff(p: string)
    ensures (forall s: string :: FastMatches(ParseMatch(p), s) == Means(p, s)) <==> FastIsExact(p)
  {
    if FastIsExact(p) {
      forall s: string ensures FastMatches(ParseMatch(p), s) == Means(p, s) {
        FastExactOne(p, s);
      }
    } else {
      FastInexact(p);
    }
  }

  /** A pattern with two stars that its fast form gets wrong. */
  lemma TwoStarsMisread()
    ensures Means("*a*", "a") && !FastMatches(ParseMatch("*a*"), "a")
  {
    assert Instance("*a*") == "a" by {
      assert "*a*"[1..] == "a*" && "a*"[1..] == "*" && "*"[1..] == "";
    }
    assert "*a*"[..2] == "*a" && !Ordinary("*a"[0]);
    FastInexact("*a*");
  }

  /** With a star at both ends only the last is one: the key must begin with the first star and
      the text, as they stand. */
  lemma BothStars(q: string, s: string)
    ensures FastMatches(ParseMatch("*" + q + "*"), s) <==> "*" + q <= s
  {
    var p := "*" + q + "*";
    assert p[..|p| - 1] == "*" + q && |p| >= 2;
  }

  // ---- Local keys ----

  datatype KeyPattern = Include(m: MatchType) | Exclude(m: MatchType)

  /** Some include pattern matches and no exclude pattern does. */
  ghost predicate IsLocal(patterns: multiset<KeyPattern>, key: string) {
    && (exists p <- patterns :: p.Include? && FastMatches(p.m, key))
    && (forall p <- patterns :: p.Exclude? ==> !FastMatches(p.m, key))
  }

  /** The decision depends only on which patterns there are, not on their order. */
  method IsLocalKey(patterns: seq<KeyPattern>, key: string) returns (isLocal: bool)
    ensures isLocal == IsLocal(multiset(patterns), key)
  {
    isLocal := false;
    for k := 0 to |patterns|
      invariant isLocal <==> exists i | 0 <= i < k :: patterns[i].Include? && FastMatches(patterns[i].m, key)
      invariant forall i | 0 <= i < k :: patterns[i].Exclude? ==> !FastMatches(patterns[i].m, key)
    {
      var p := patterns[k];
      if p.Include? {
        if !isLocal && FastMatches(p.m, key) {
          isLocal := true;
        }
      } else if FastMatches(p.m, key) {
        assert p in multiset(patterns);
        return false;
      }
    }
    assert forall p <- multiset(patterns) :: p in patterns;
  }
}
