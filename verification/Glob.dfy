/** Glob patterns: compilation, the matcher that remembers only its latest star, and
    the relation on pattern strings that both implement. */
module Glob {

  datatype PatternChar =
    | WildcardMany(num: nat, matchPos: nat)
    | WildcardSingle(matchPos: nat)
    | Char(c: char, matchPos: nat)

  type Pattern = seq<PatternChar>

  /** What a pattern string means: `*` any text, `?` any character, `\` quotes the
      next character and a trailing `\` nothing. */
  predicate Means(pat: string, v: string)
    decreases |pat| + |v|
  {
    if pat == [] then v == []
    else if pat[0] == '*' then Means(pat[1..], v) || (v != [] && Means(pat, v[1..]))
    else if pat[0] == '?' then v != [] && Means(pat[1..], v[1..])
    else if pat[0] == '\\' then
      if |pat| == 1 then v == [] else v != [] && v[0] == pat[1] && Means(pat[2..], v[1..])
    else v != [] && v[0] == pat[0] && Means(pat[1..], v[1..])
  }

  /** The same relation on compiled patterns. */
  predicate Matches(p: Pattern, v: string)
    decreases |p| + |v|
  {
    if p == [] then v == []
    else
      match p[0]
      case WildcardMany(_, _) => Matches(p[1..], v) || (v != [] && Matches(p, v[1..]))
      case WildcardSingle(_) => v != [] && Matches(p[1..], v[1..])
      case Char(c, _) => v != [] && v[0] == c && Matches(p[1..], v[1..])
  }

  // ---- Compilation ----

  /** The number of stars a string begins with. */
  function Stars(pat: string): (n: nat)
    ensures n <= |pat| && forall i | 0 <= i < n :: pat[i] == '*'
    ensures n < |pat| ==> pat[n] != '*'
  {
    if pat == [] || pat[0] != '*' then 0 else 1 + Stars(pat[1..])
  }

  function Compiled(pat: string): Pattern
    decreases |pat|
  {
    if pat == [] then []
    else if pat[0] == '*' then [WildcardMany(Stars(pat), 0)] + Compiled(pat[Stars(pat)..])
    else if pat[0] == '?' then [WildcardSingle(0)] + Compiled(pat[1..])
    else if pat[0] == '\\' then
      if |pat| == 1 then [] else [Char(pat[1], 0)] + Compiled(pat[2..])
    else [Char(pat[0], 0)] + Compiled(pat[1..])
  }

  /** The rest of a compilation, after a backslash or not. */
  function CompiledFrom(pat: string, escaped: bool): Pattern {
    if !escaped then Compiled(pat)
    else if pat == [] then []
    else [Char(pat[0], 0)] + Compiled(pat[1..])
  }

  /** The loop that takes the stars from position `i` on. */
  method CountStars(pat: string, i: nat) returns (num: nat)
    requires i <= |pat|
    ensures num == Stars(pat[i..])
  {
    num := 0;
    while i + num < |pat| && pat[i + num] == '*'
      invariant i + num <= |pat| && num + Stars(pat[i + num..]) == Stars(pat[i..])
    {
      assert pat[i + num..][1..] == pat[i + num + 1..];
      num := num + 1;
    }
  }

  lemma Snoc(chars: Pattern, x: PatternChar, rest: Pattern)
    ensures chars + ([x] + rest) == chars + [x] + rest
  {
  }

  method Compile(pat: string) returns (chars: Pattern)
    ensures chars == Compiled(pat)
  {
    chars := [];
    var i, escaped := 0, false;
    assert pat[0..] == pat;
    while i < |pat|
      invariant 0 <= i <= |pat|
      invariant chars + CompiledFrom(pat[i..], escaped) == Compiled(pat)
    {
      ghost var rest := pat[i..];
      assert rest[1..] == pat[i + 1..];
      var c := pat[i];
      if c == '*' && !escaped {
        var num := CountStars(pat, i);
        assert rest[num..] == pat[i + num..];
        Snoc(chars, WildcardMany(num, 0), Compiled(pat[i + num..]));
        chars := chars + [WildcardMany(num, 0)];
        i := i + num;
      } else if c == '?' && !escaped {
        Snoc(chars, WildcardSingle(0), Compiled(pat[i + 1..]));
        chars := chars + [WildcardSingle(0)];
        i := i + 1;
      } else if c == '\\' && !escaped {
        assert |rest| > 1 ==> rest[2..] == pat[i + 1..][1..];
        escaped := true;
        i := i + 1;
      } else {
        Snoc(chars, Char(c, 0), Compiled(pat[i + 1..]));
        escaped := false;
        chars := chars + [Char(c, 0)];
        i := i + 1;
      }
    }
  }

  /** A second star adds nothing. */
  lemma {:induction false} StarStar(pat: string, v: string)
    requires pat != [] && pat[0] == '*'
    ensures Means(['*'] + pat, v) == Means(pat, v)
    decreases |v|
  {
    assert (['*'] + pat)[1..] == pat;
    if v != [] { StarStar(pat, v[1..]); }
  }

  lemma {:induction false} StarRun(pat: string, v: string)
    requires pat != [] && pat[0] == '*'
    ensures Means(pat, v) == Means(['*'] + pat[Stars(pat)..], v)
    decreases |pat|
  {
    if |pat| > 1 && pat[1] == '*' {
      assert pat == ['*'] + pat[1..];
      StarStar(pat[1..], v);
      StarRun(pat[1..], v);
      assert pat[1..][Stars(pat[1..])..] == pat[Stars(pat)..];
    } else {
      assert Stars(pat) == 1;
      assert pat == ['*'] + pat[1..];
    }
  }

  /** Compilation keeps the meaning of the pattern string. */
  lemma {:induction false} CompileCorrect(pat: string, v: string)
    ensures Matches(Compiled(pat), v) == Means(pat, v)
    decreases |pat|, |v|
  {
    var p := Compiled(pat);
    if pat == [] {
    } else if pat[0] == '*' {
      var rest := pat[Stars(pat)..];
      StarRun(pat, v);
      StarCompiled(rest, Stars(pat), v);
    } else if pat[0] == '?' {
      assert p[1..] == Compiled(pat[1..]);
      if v != [] { CompileCorrect(pat[1..], v[1..]); }
    } else if pat[0] == '\\' {
      if |pat| > 1 {
        assert p[1..] == Compiled(pat[2..]);
        if v != [] { CompileCorrect(pat[2..], v[1..]); }
      }
    } else {
      assert p[1..] == Compiled(pat[1..]);
      if v != [] { CompileCorrect(pat[1..], v[1..]); }
    }
  }

  lemma {:induction false} StarCompiled(rest: string, num: nat, v: string)
    ensures Matches([WildcardMany(num, 0)] + Compiled(rest), v) == Means(['*'] + rest, v)
    decreases |rest| + 1, |v|, 0
  {
    var p := [WildcardMany(num, 0)] + Compiled(rest);
    assert p[1..] == Compiled(rest) && (['*'] + rest)[1..] == rest;
    CompileCorrect(rest, v);
    if v != [] { StarCompiled(rest, num, v[1..]); }
  }

  // ---- The matcher ----

  /** A star takes up any text before a match. */
  lemma {:induction false} StarAbsorbs(p: Pattern, v: string, k: nat)
    requires p != [] && p[0].WildcardMany? && k <= |v| && Matches(p, v[k..])
    ensures Matches(p, v)
    decreases k
  {
    if k == 0 {
      assert v[0..] == v;
    } else {
      assert v[1..][k - 1..] == v[k..];
      StarAbsorbs(p, v[1..], k - 1);
    }
  }

  /** Characters without a star consume one value character each. */
  lemma {:induction false} FixedPart(p: Pattern, v: string, n: nat)
    requires n <= |p| && (forall i | 0 <= i < n :: !p[i].WildcardMany?) && Matches(p, v)
    ensures n <= |v| && Matches(p[n..], v[n..])
    decreases n
  {
    if n == 0 {
      assert p[0..] == p && v[0..] == v;
    } else {
      FixedPart(p[1..], v[1..], n - 1);
      assert p[1..][n - 1..] == p[n..] && v[1..][n - 1..] == v[n..];
    }
  }

  /** A star and `n` characters after it match some stretch; what follows matches the rest. */
  lemma {:induction false} StarThenFixed(p: Pattern, v: string, n: nat) returns (k: nat)
    requires n + 1 <= |p| && p[0].WildcardMany? && Matches(p, v)
    requires forall i | 1 <= i <= n :: !p[i].WildcardMany?
    ensures k + n <= |v| && Matches(p[n + 1..], v[k + n..])
    decreases |v|
  {
    if Matches(p[1..], v) {
      FixedPart(p[1..], v, n);
      assert p[1..][n..] == p[n + 1..];
      k := 0;
    } else {
      var j := StarThenFixed(p, v[1..], n);
      assert v[1..][j + n..] == v[j + 1 + n..];
      k := j + 1;
    }
  }

  /** Why forgetting the older star is safe: once a new star is reached, whatever the
      older one could still match, the new one can. */
  lemma OlderStar(p: Pattern, v: string, star: nat, from: nat, px: nat, nx: nat)
    requires star < px < |p| && from <= |v| && nx <= |v| && p[star].WildcardMany? && p[px].WildcardMany?
    requires forall i | star < i < px :: !p[i].WildcardMany?
    requires px - star - 1 == nx - from + 1
    requires Matches(p[star..], v[from..])
    ensures Matches(p[px..], v[nx..])
  {
    var n := px - star - 1;
    var k := StarThenFixed(p[star..], v[from..], n);
    assert p[star..][n + 1..] == p[px..];
    assert v[from..][k + n..] == v[nx..][k + 1..];
    StarAbsorbs(p[px..], v[nx..], k + 1);
  }

  /** The state of the matcher: `nextNx == 0` until a star has been met; then the
      characters since that star have matched one for one. */
  predicate Tracking(p: Pattern, v: string, px: nat, nx: nat, nextPx: nat, nextNx: nat) {
    && px <= |p| && nx <= |v| && nextNx <= |v| + 1 && nextPx <= px
    && (nextNx == 0 ==> nextPx == 0)
    && (nextNx > 0 ==>
          && nextPx < |p| && p[nextPx].WildcardMany?
          && (forall i | nextPx < i < px :: !p[i].WildcardMany?)
          && (if px == nextPx then nx == nextNx else px - nextPx - 1 == nx - nextNx + 1))
  }

  /** What is left to try: going on from here, or from the star one character later. */
  predicate Remaining(p: Pattern, v: string, px: nat, nx: nat, nextPx: nat, nextNx: nat)
    requires Tracking(p, v, px, nx, nextPx, nextNx)
  {
    Matches(p[px..], v[nx..]) || (0 < nextNx <= |v| && Matches(p[nextPx..], v[nextNx..]))
  }

  lemma StarStep(p: Pattern, v: string, px: nat, nx: nat, nextPx: nat, nextNx: nat)
    requires Tracking(p, v, px, nx, nextPx, nextNx) && px < |p| && p[px].WildcardMany?
    ensures Tracking(p, v, px + 1, nx, px, nx + 1)
    ensures Remaining(p, v, px + 1, nx, px, nx + 1) == Remaining(p, v, px, nx, nextPx, nextNx)
  {
    var q, w := p[px..], v[nx..];
    assert q[1..] == p[px + 1..];
    assert nx < |v| ==> w[1..] == v[nx + 1..];
    if 0 < nextNx <= |v| && Matches(p[nextPx..], v[nextNx..]) && nextPx < px {
      OlderStar(p, v, nextPx, nextNx, px, nx);
    }
  }

  lemma FixedStep(p: Pattern, v: string, px: nat, nx: nat)
    requires px < |p| && nx <= |v| && !p[px].WildcardMany?
    ensures Matches(p[px..], v[nx..]) ==
            (nx < |v| && (p[px].Char? ==> v[nx] == p[px].c) && Matches(p[px + 1..], v[nx + 1..]))
  {
    assert p[px..][1..] == p[px + 1..];
    if nx < |v| { assert v[nx..][1..] == v[nx + 1..] && v[nx..][0] == v[nx]; }
  }

  /** The matching loop. */
  method MatchValue(p: Pattern, v: string) returns (r: bool)
    ensures r == Matches(p, v)
  {
    var px, nx, nextPx, nextNx := 0, 0, 0, 0;
    assert p[0..] == p && v[0..] == v;
    while px < |p| || nx < |v|
      invariant Tracking(p, v, px, nx, nextPx, nextNx)
      invariant Remaining(p, v, px, nx, nextPx, nextNx) == Matches(p, v)
      decreases |p| - nextPx, |v| + 1 - nextNx, if px == nextPx && nextNx > 0 then 0 else 1, |p| - px
    {
      if px < |p| {
        match p[px]
        case Char(c, _) =>
          FixedStep(p, v, px, nx);
          if nx < |v| && v[nx] == c {
            px, nx := px + 1, nx + 1;
            continue;
          }
        case WildcardSingle(_) =>
          FixedStep(p, v, px, nx);
          if nx < |v| {
            px, nx := px + 1, nx + 1;
            continue;
          }
        case WildcardMany(_, _) =>
          StarStep(p, v, px, nx, nextPx, nextNx);
          nextPx, nextNx := px, nx + 1;
          px := px + 1;
          continue;
      }
      if 0 < nextNx && nextNx <= |v| {
        px, nx := nextPx, nextNx;
        continue;
      }
      return false;
    }
    return true;
  }

  /** Compiling and matching decide the meaning of the pattern string. */
  method GlobMatches(pat: string, v: string) returns (r: bool)
    ensures r == Means(pat, v)
  {
    var p := Compile(pat);
    r := MatchValue(p, v);
    CompileCorrect(pat, v);
  }
}
