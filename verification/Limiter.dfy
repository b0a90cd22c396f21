/**
 * The limiters of crates/common/src/listener/limiter.rs. The concurrency limiter reads its
 * counter and then adds to it, as two atomic steps that other callers may come between.
 */
module ConcurrencyLimiter {
  const U64: nat := 0x1_0000_0000_0000_0000

  /** The counter, the callers that have read it and been let through but have not added to it
      yet, and the guards that are alive. */
  datatype State = State(counter: nat, passed: set<nat>, guards: set<nat>)

  datatype Event = Load(caller: nat) | Increment(caller: nat, guard: nat) | Release(guard: nat)

  const START := State(0, {}, {})

  /** A caller takes its steps in turn, a guard is new, and a guard is dropped once. */
  predicate Enabled(s: State, e: Event) {
    match e
    case Load(t) => t !in s.passed
    case Increment(t, g) => t in s.passed && g !in s.guards
    case Release(g) => g in s.guards
  }

  /** The counter is a 64-bit word that wraps around both ways. */
  function Step(max: nat, s: State, e: Event): State {
    match e
    case Load(t) => if s.counter < max then s.(passed := s.passed + {t}) else s
    case Increment(t, g) => State((s.counter + 1) % U64, s.passed - {t}, s.guards + {g})
    case Release(g) => s.(counter := (s.counter + U64 - 1) % U64, guards := s.guards - {g})
  }

  /** A run in which at most `overlap` callers are between their two steps at once. */
  ghost predicate IsRun(max: nat, overlap: nat, s: State, es: seq<Event>)
    decreases |es|
  {
    |s.passed| <= overlap && (es != [] ==> Enabled(s, es[0]) && IsRun(max, overlap, Step(max, s, es[0]), es[1..]))
  }

  function Run(max: nat, s: State, es: seq<Event>): State
    decreases |es|
  {
    if es == [] then s else Run(max, Step(max, s, es[0]), es[1..])
  }

  predicate Bounded(max: nat, overlap: nat, s: State) {
    && s.counter == |s.guards|
    && (if max == 0 then s.passed == s.guards == {} else |s.guards| + |s.passed| <= max + overlap - 1)
  }

  lemma StepBounded(max: nat, overlap: nat, s: State, e: Event)
    requires 1 <= overlap && max + overlap <= U64
    requires Bounded(max, overlap, s) && Enabled(s, e) && |Step(max, s, e).passed| <= overlap
    ensures Bounded(max, overlap, Step(max, s, e))
  {
    match e
    case Load(t) =>
    case Increment(t, g) =>
      assert |s.passed - {t}| == |s.passed| - 1;
      assert |s.guards + {g}| == |s.guards| + 1;
      Wrap(s.counter);
    case Release(g) =>
      assert |s.guards - {g}| == |s.guards| - 1;
      Wrap(s.counter);
  }

  lemma Wrap(n: nat)
    ensures n < U64 - 1 ==> (n + 1) % U64 == n + 1
    ensures 0 < n < U64 ==> (n + U64 - 1) % U64 == n - 1
  {
  }

  /** Over every run the counter is the number of live guards. It exceeds the limit by less than
      the number of calls that overlap, so never when calls follow one another. */
  lemma {:induction false} GuardsBounded(max: nat, overlap: nat, s: State, es: seq<Event>)
    requires 1 <= overlap && max + overlap <= U64
    requires Bounded(max, overlap, s) && IsRun(max, overlap, s, es)
    ensures Bounded(max, overlap, Run(max, s, es))
    decreases |es|
  {
    if es != [] {
      StepBounded(max, overlap, s, es[0]);
      GuardsBounded(max, overlap, Step(max, s, es[0]), es[1..]);
    }
  }

  predicate Within(n: nat, callers: set<nat>) {
    forall t <- callers :: t < n
  }

  lemma {:induction false} CallersBounded(n: nat, callers: set<nat>)
    requires Within(n, callers)
    ensures |callers| <= n
    decreases n
  {
    if n == 0 {
      assert callers == {};
    } else {
      CallersBounded(n - 1, callers - {n - 1});
      assert |callers| <= |callers - {n - 1}| + 1;
    }
  }

  predicate EventWithin(n: nat, e: Event) {
    match e
    case Load(t) => t < n
    case Increment(t, _) => t < n
    case Release(_) => true
  }

  /** A run of n callers, whatever their interleaving. */
  ghost predicate IsRunOf(max: nat, n: nat, s: State, es: seq<Event>)
    decreases |es|
  {
    es != [] ==> Enabled(s, es[0]) && EventWithin(n, es[0]) && IsRunOf(max, n, Step(max, s, es[0]), es[1..])
  }

  lemma {:induction false} CallersOverlap(max: nat, n: nat, s: State, es: seq<Event>)
    requires Within(n, s.passed) && IsRunOf(max, n, s, es)
    ensures IsRun(max, n, s, es)
    decreases |es|
  {
    CallersBounded(n, s.passed);
    if es != [] {
      CallersOverlap(max, n, Step(max, s, es[0]), es[1..]);
    }
  }

  lemma CallersLimit(max: nat, n: nat, es: seq<Event>)
    requires 1 <= n && max + n <= U64 && IsRunOf(max, n, START, es)
    ensures var s := Run(max, START, es);
            s.counter == |s.guards| && |s.guards| <= (if max == 0 then 0 else max + n - 1)
  {
    CallersOverlap(max, n, START, es);
    GuardsBounded(max, n, START, es);
  }

  // ---- The bound is reached ----

  function Numbers(begin: nat, end: nat): (s: set<nat>)
    requires begin <= end
    ensures |s| == end - begin && forall x :: x in s <==> begin <= x < end
    decreases end - begin
  {
    if begin == end then {} else {begin} + Numbers(begin + 1, end)
  }

  /** Calls of one caller, one after the other. */
  function Calls(begin: nat, end: nat): seq<Event>
    requires begin <= end
    decreases end - begin
  {
    if begin == end then [] else [Load(0), Increment(0, begin)] + Calls(begin + 1, end)
  }

  function Loads(begin: nat, end: nat): seq<Event>
    requires begin <= end
    decreases end - begin
  {
    if begin == end then [] else [Load(begin)] + Loads(begin + 1, end)
  }

  function Increments(begin: nat, end: nat, guard: nat): seq<Event>
    requires begin <= end
    decreases end - begin
  {
    if begin == end then [] else [Increment(begin, guard + begin)] + Increments(begin + 1, end, guard)
  }

  lemma {:induction false} RunConcat(max: nat, n: nat, s: State, a: seq<Event>, b: seq<Event>)
    requires IsRunOf(max, n, s, a) && IsRunOf(max, n, Run(max, s, a), b)
    ensures IsRunOf(max, n, s, a + b) && Run(max, s, a + b) == Run(max, Run(max, s, a), b)
    decreases |a|
  {
    if a == [] {
      assert a + b == b;
    } else {
      assert (a + b)[1..] == a[1..] + b;
      RunConcat(max, n, Step(max, s, a[0]), a[1..], b);
    }
  }

  lemma NumbersGrow(n: nat)
    ensures Numbers(0, n) + {n} == Numbers(0, n + 1)
  {
  }

  lemma NumbersShrink(t: nat, n: nat)
    requires t < n
    ensures Numbers(t, n) - {t} == Numbers(t + 1, n)
  {
  }

  lemma IncrementStep(max: nat, s: State, t: nat, g: nat)
    requires s.counter < U64 - 1
    ensures Step(max, s, Increment(t, g)) == State(s.counter + 1, s.passed - {t}, s.guards + {g})
  {
    Wrap(s.counter);
  }

  lemma OneCall(max: nat, n: nat, k: nat)
    requires 1 <= n && k < max < U64
    ensures var s, es := State(k, {}, Numbers(0, k)), [Load(0), Increment(0, k)];
            IsRunOf(max, n, s, es) && Run(max, s, es) == State(k + 1, {}, Numbers(0, k + 1))
  {
    var s, es := State(k, {}, Numbers(0, k)), [Load(0), Increment(0, k)];
    var s1 := s.(passed := {0});
    assert {} + {0} == {0};
    assert Step(max, s, Load(0)) == s1;
    IncrementStep(max, s1, 0, k);
    NumbersGrow(k);
    assert {0} - {0} == {};
    assert es[1..] == [Increment(0, k)] && es[1..][1..] == [];
    hide Step;
    assert Run(max, s, es) == Run(max, s1, es[1..]);
    assert IsRunOf(max, n, s1, es[1..]);
  }

  lemma {:induction false} CallsRun(max: nat, n: nat, k: nat, end: nat)
    requires 1 <= n && k <= end <= max < U64
    ensures var s := State(k, {}, Numbers(0, k));
            IsRunOf(max, n, s, Calls(k, end)) && Run(max, s, Calls(k, end)) == State(end, {}, Numbers(0, end))
    decreases end - k
  {
    if k < end {
      OneCall(max, n, k);
      CallsRun(max, n, k + 1, end);
      hide IsRunOf, Run;
      RunConcat(max, n, State(k, {}, Numbers(0, k)), [Load(0), Increment(0, k)], Calls(k + 1, end));
    }
  }

  lemma {:induction false} LoadsRun(max: nat, n: nat, k: nat, t: nat)
    requires k < max && t <= n
    ensures var s := State(k, Numbers(0, t), Numbers(0, k));
            IsRunOf(max, n, s, Loads(t, n)) && Run(max, s, Loads(t, n)) == State(k, Numbers(0, n), Numbers(0, k))
    decreases n - t
  {
    if t < n {
      var s := State(k, Numbers(0, t), Numbers(0, k));
      NumbersGrow(t);
      assert Step(max, s, Load(t)) == State(k, Numbers(0, t + 1), Numbers(0, k));
      assert Enabled(s, Load(t));
      hide Step, Numbers, Enabled;
      assert Loads(t, n)[1..] == Loads(t + 1, n);
      LoadsRun(max, n, k, t + 1);
    }
  }

  lemma {:induction false} IncrementsRun(max: nat, n: nat, k: nat, t: nat)
    requires t <= n && k + n < U64
    ensures var s := State(k + t, Numbers(t, n), Numbers(0, k + t));
            && IsRunOf(max, n, s, Increments(t, n, k))
            && Run(max, s, Increments(t, n, k)) == State(k + n, {}, Numbers(0, k + n))
    decreases n - t
  {
    if t < n {
      var s := State(k + t, Numbers(t, n), Numbers(0, k + t));
      NumbersShrink(t, n);
      NumbersGrow(k + t);
      IncrementStep(max, s, t, k + t);
      assert Enabled(s, Increment(t, k + t));
      hide Step, Numbers, Enabled;
      assert Increments(t, n, k)[1..] == Increments(t + 1, n, k);
      IncrementsRun(max, n, k, t + 1);
    }
  }

  /** All callers read the counter when one guard is still free, and all of them take one. */
  lemma LimitReached(max: nat, n: nat) returns (es: seq<Event>)
    requires 1 <= max && 1 <= n && max + n <= U64
    ensures IsRunOf(max, n, START, es) && Run(max, START, es).counter == max + n - 1
  {
    hide IsRunOf, Run, Step;
    var k := max - 1;
    CallsRun(max, n, 0, k);
    LoadsRun(max, n, k, 0);
    IncrementsRun(max, n, k, 0);
    RunConcat(max, n, START, Calls(0, k), Loads(0, n));
    es := Calls(0, k) + Loads(0, n);
    RunConcat(max, n, START, es, Increments(0, n, k));
    es := es + Increments(0, n, k);
  }

  lemma {:induction false} MoreCallers(max: nat, n: nat, s: State, es: seq<Event>)
    requires IsRunOf(max, n, s, es)
    ensures IsRunOf(max, n + 1, s, es)
    decreases |es|
  {
    if es != [] { MoreCallers(max, n, Step(max, s, es[0]), es[1..]); }
  }

  ghost predicate KeepsLimit(max: nat, n: nat) {
    forall es | IsRunOf(max, n, START, es) :: Run(max, START, es).counter <= max
  }

  /** Every run of n callers keeps to the limit exactly if there are no two of them, or nothing is
      allowed at all. */
  lemma KeepsLimitIff(max: nat, n: nat)
    requires max + n < U64
    ensures KeepsLimit(max, n) <==> n <= 1 || max == 0
  {
    if n <= 1 || max == 0 {
      forall es | IsRunOf(max, n, START, es) ensures Run(max, START, es).counter <= max {
        if n == 0 {
          MoreCallers(max, n, START, es);
          CallersLimit(max, 1, es);
        } else {
          CallersLimit(max, n, es);
        }
      }
    } else {
      var es := LimitReached(max, n);
    }
  }
}

/**
 * The rate limiter: a number of requests per period, counted since the last refill. Calls follow
 * one another here, and `now` is the clock in seconds.
 */
module RateLimiter {
  import opened Prelude

  datatype Rate = Rate(requests: nat, period: nat)

  datatype Bucket = Bucket(nextRefill: nat, used: nat)

  predicate Refills(rate: Rate, b: Bucket, now: nat) {
    b.used >= rate.requests && b.nextRefill <= now
  }

  predicate Allowed(rate: Rate, b: Bucket, now: nat) {
    b.used < rate.requests || b.nextRefill <= now
  }

  function After(rate: Rate, b: Bucket, now: nat): Bucket {
    if Refills(rate, b, now) then Bucket(now + rate.period, 1) else b.(used := b.used + 1)
  }

  class Limiter {
    var nextRefill: nat
    var usedTokens: nat

    function Contents(): Bucket
      reads this
    {
      Bucket(nextRefill, usedTokens)
    }

    constructor (rate: Rate, now: nat)
      ensures Contents() == Bucket(now + rate.period, 0)
    {
      nextRefill, usedTokens := now + rate.period, 0;
    }

    method IsAllowed(rate: Rate, now: nat) returns (r: bool)
      modifies this
      ensures r == Allowed(rate, old(Contents()), now) && Contents() == After(rate, old(Contents()), now)
    {
      var tokens := usedTokens;
      usedTokens := usedTokens + 1;
      if tokens < rate.requests { return true; }
      if nextRefill <= now {
        nextRefill := now + rate.period;
        usedTokens := 1;
        return true;
      }
      return false;
    }

    /** Says what IsAllowed would say at the same instant, and takes no token. */
    method IsAllowedSoft(rate: Rate, now: nat) returns (r: bool)
      ensures r == Allowed(rate, Contents(), now)
    {
      r := usedTokens < rate.requests || nextRefill <= now;
    }
  }

  /** How many of the calls that are made within the period from `from` on are let through. */
  function Passes(rate: Rate, b: Bucket, times: seq<nat>, from: nat): nat
    decreases |times|
  {
    if times == [] then 0
    else
      (if from <= times[0] < from + rate.period && Allowed(rate, b, times[0]) then 1 else 0)
      + Passes(rate, After(rate, b, times[0]), times[1..], from)
  }

  function Left(rate: Rate, b: Bucket): nat {
    if b.used < rate.requests then rate.requests - b.used else 0
  }

  /** A refill lets its own call through, even when no requests are allowed at all. */
  function Burst(rate: Rate): nat {
    if rate.requests == 0 then 1 else rate.requests
  }

  ghost predicate NoRefill(rate: Rate, b: Bucket, times: seq<nat>)
    decreases |times|
  {
    times != [] ==> !Refills(rate, b, times[0]) && NoRefill(rate, After(rate, b, times[0]), times[1..])
  }

  function Count(rate: Rate, b: Bucket, times: seq<nat>): nat
    decreases |times|
  {
    if times == [] then 0
    else (if Allowed(rate, b, times[0]) then 1 else 0) + Count(rate, After(rate, b, times[0]), times[1..])
  }

  lemma {:induction false} CountLeft(rate: Rate, b: Bucket, times: seq<nat>)
    requires NoRefill(rate, b, times)
    ensures Count(rate, b, times) <= Left(rate, b)
    decreases |times|
  {
    if times != [] {
      CountLeft(rate, After(rate, b, times[0]), times[1..]);
    }
  }

  /** From a refill up to the next one. */
  lemma BetweenRefills(rate: Rate, b: Bucket, times: seq<nat>)
    requires times != [] && Refills(rate, b, times[0]) && NoRefill(rate, After(rate, b, times[0]), times[1..])
    ensures Count(rate, b, times) <= Burst(rate)
  {
    CountLeft(rate, After(rate, b, times[0]), times[1..]);
  }

  lemma {:induction false} AfterSpan(rate: Rate, b: Bucket, times: seq<nat>, from: nat)
    requires Ordered(times) && (times != [] ==> times[0] >= from + rate.period)
    ensures Passes(rate, b, times, from) == 0
    decreases |times|
  {
    if times != [] {
      AfterSpan(rate, After(rate, b, times[0]), times[1..], from);
    }
  }

  lemma {:induction false} RefilledSpan(rate: Rate, b: Bucket, times: seq<nat>, from: nat)
    requires Ordered(times) && b.nextRefill >= from + rate.period
    ensures Passes(rate, b, times, from) <= Left(rate, b)
    decreases |times|
  {
    if times != [] {
      if times[0] < from + rate.period {
        RefilledSpan(rate, After(rate, b, times[0]), times[1..], from);
      } else {
        AfterSpan(rate, b, times, from);
      }
    }
  }

  lemma {:induction false} InSpan(rate: Rate, b: Bucket, times: seq<nat>, from: nat)
    requires Ordered(times) && (times != [] ==> from <= times[0])
    ensures Passes(rate, b, times, from) <= Left(rate, b) + Burst(rate)
    decreases |times|
  {
    if times != [] {
      var next := After(rate, b, times[0]);
      if times[0] >= from + rate.period {
        AfterSpan(rate, b, times, from);
      } else if Refills(rate, b, times[0]) {
        RefilledSpan(rate, next, times[1..], from);
      } else {
        InSpan(rate, next, times[1..], from);
      }
    }
  }

  /** Whatever was called before, whenever, and with whatever left over: a span of one period
      lets at most the requests of two periods through. */
  lemma {:induction false} SpanBound(rate: Rate, b: Bucket, times: seq<nat>, from: nat)
    requires Ordered(times)
    ensures Passes(rate, b, times, from) <= rate.requests + Burst(rate)
    decreases |times|
  {
    if times != [] && times[0] < from {
      SpanBound(rate, After(rate, b, times[0]), times[1..], from);
    } else {
      InSpan(rate, b, times, from);
    }
  }

  // ---- The bound is reached ----

  function Repeat(t: nat, n: nat): (times: seq<nat>)
    ensures Ordered(times) && |times| == n
  {
    seq(n, _ => t)
  }

  lemma {:induction false} BurstPasses(rate: Rate, b: Bucket, t: nat, n: nat, from: nat)
    requires from <= t < from + rate.period
    requires n <= Left(rate, b) || (b.nextRefill <= t && n <= Left(rate, b) + Burst(rate))
    ensures Passes(rate, b, Repeat(t, n), from) == n
    decreases n
  {
    if n > 0 {
      assert Repeat(t, n)[1..] == Repeat(t, n - 1);
      BurstPasses(rate, After(rate, b, t), t, n - 1, from);
    }
  }

  /** A limiter that has been idle for a period lets twice its requests through at one instant. */
  lemma BoundReached(rate: Rate, start: nat)
    requires rate.requests >= 1 && rate.period >= 1
    ensures var t := start + rate.period;
            Passes(rate, Bucket(start + rate.period, 0), Repeat(t, 2 * rate.requests), t) == 2 * rate.requests
  {
    BurstPasses(rate, Bucket(start + rate.period, 0), start + rate.period, 2 * rate.requests, start + rate.period);
  }

  /** No run from `from` on lets more than the allowed requests through within the period. */
  ghost predicate KeepsToRequests(rate: Rate, b: Bucket, from: nat) {
    forall times | Ordered(times) && (times != [] ==> from <= times[0]) :: Passes(rate, b, times, from) <= rate.requests
  }

  /** The span keeps to the allowed requests exactly when no refill falls due in it or none of
      the tokens are left when it begins. */
  lemma KeepsToRequestsIff(rate: Rate, b: Bucket, from: nat)
    requires rate.requests >= 1 && rate.period >= 1
    ensures KeepsToRequests(rate, b, from) <==> b.nextRefill >= from + rate.period || b.used >= rate.requests
  {
    if b.nextRefill >= from + rate.period || b.used >= rate.requests {
      forall times | Ordered(times) && (times != [] ==> from <= times[0])
        ensures Passes(rate, b, times, from) <= rate.requests
      {
        if b.nextRefill >= from + rate.period {
          RefilledSpan(rate, b, times, from);
        } else {
          InSpan(rate, b, times, from);
        }
      }
    } else {
      var t := from + rate.period - 1;
      BurstPasses(rate, b, t, rate.requests + 1, from);
      assert Passes(rate, b, Repeat(t, rate.requests + 1), from) > rate.requests;
    }
  }

  /** A period below one second counts as none: then every call is let through. */
  lemma {:induction false} ZeroPeriod(rate: Rate, b: Bucket, times: seq<nat>)
    requires rate.period == 0 && Ordered(times) && (times != [] ==> b.nextRefill <= times[0])
    ensures Count(rate, b, times) == |times|
    decreases |times|
  {
    if times != [] {
      ZeroPeriod(rate, After(rate, b, times[0]), times[1..]);
    }
  }
}
