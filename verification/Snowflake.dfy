/**
 * The id generator of crates/utils/src/snowflake.rs: the milliseconds since the epoch, nine bits
 * of node id and twelve bits of a sequence number in one 64-bit word.
 */
module Snowflake {
  import opened Prelude

  const U64: nat := 0x1_0000_0000_0000_0000
  const SEQUENCES: nat := 4096
  const NODES: nat := 512
  const TICK: nat := 0x20_0000
  const TICKS: nat := 0x800_0000_0000
  const NANOS_PER_MILLI: nat := 1_000_000

  /** A left shift by 21 loses what does not fit into 64 bits. */
  function Shifted(millis: nat): (r: nat)
    ensures r == millis % TICKS * TICK && r < U64
  {
    ShiftWraps(millis);
    millis * TICK % U64
  }

  lemma ShiftWraps(millis: nat)
    ensures millis * TICK % U64 == millis % TICKS * TICK
  {
    var q, r := millis / TICKS, millis % TICKS;
    assert millis == q * TICKS + r;
    assert millis * TICK == q * U64 + r * TICK;
    Remainder(q, r * TICK);
  }

  lemma Remainder(q: nat, r: nat)
    requires r < U64
    ensures (q * U64 + r) % U64 == r
  {
  }

  function Id(millis: nat, node: nat, sequence: nat): (id: nat)
    ensures id < U64
  {
    Shifted(millis) + node % NODES * SEQUENCES + sequence % SEQUENCES
  }

  class Generator {
    const node: nat
    var sequence: nat

    constructor (node: nat)
      ensures this.node == node && sequence == 0
    {
      this.node, this.sequence := node, 0;
    }

    /** The clock, in nanoseconds since the epoch, is not there before the epoch. */
    method Generate(elapsed: Option<nat>) returns (id: Option<nat>)
      requires sequence < U64
      modifies this
      ensures elapsed.None? ==> id.None? && sequence == old(sequence)
      ensures elapsed.Some? ==> id == Some(Id(elapsed.value / NANOS_PER_MILLI, node, old(sequence)))
                                && sequence == (old(sequence) + 1) % U64
    {
      if elapsed.None? { return None; }
      var millis := elapsed.value / NANOS_PER_MILLI;
      var next := sequence;
      sequence := (sequence + 1) % U64;
      id := Some(Shifted(millis) + node % NODES * SEQUENCES + next % SEQUENCES);
    }
  }

  /** The sequence number wraps at a multiple of the 4096 that are used. */
  lemma WrappedSequence(millis: nat, node: nat, sequence: nat)
    ensures Id(millis, node, sequence % U64) == Id(millis, node, sequence)
  {
    var q := sequence / U64;
    assert sequence == q * U64 + sequence % U64;
    assert U64 == 0x10_0000_0000_0000 * SEQUENCES;
    ModMultiple(sequence % U64, q * 0x10_0000_0000_0000);
  }

  lemma ModMultiple(n: nat, k: nat)
    ensures (k * SEQUENCES + n) % SEQUENCES == n % SEQUENCES
  {
  }

  /** An id determines its fields. */
  lemma Fields(m1: nat, n1: nat, s1: nat, m2: nat, n2: nat, s2: nat)
    ensures Id(m1, n1, s1) == Id(m2, n2, s2)
        <==> m1 % TICKS == m2 % TICKS && n1 % NODES == n2 % NODES && s1 % SEQUENCES == s2 % SEQUENCES
  {
    var a1, b1, c1 := m1 % TICKS, n1 % NODES, s1 % SEQUENCES;
    var a2, b2, c2 := m2 % TICKS, n2 % NODES, s2 % SEQUENCES;
    assert Id(m1, n1, s1) == a1 * TICK + b1 * SEQUENCES + c1;
    assert Id(m2, n2, s2) == a2 * TICK + b2 * SEQUENCES + c2;
  }

  /** Generators of different nodes never give the same id. */
  lemma NodesApart(m1: nat, n1: nat, s1: nat, m2: nat, n2: nat, s2: nat)
    requires n1 % NODES != n2 % NODES
    ensures Id(m1, n1, s1) != Id(m2, n2, s2)
  {
    Fields(m1, n1, s1, m2, n2, s2);
  }

  // ---- The ids of one generator ----

  /** The i-th id of a generator that is called at the given milliseconds. */
  function Nth(node: nat, first: nat, times: seq<nat>, i: nat): nat
    requires i < |times|
  {
    Id(times[i], node, first + i)
  }

  lemma SameResidue(a: nat, b: nat)
    requires a <= b
    ensures a % SEQUENCES == b % SEQUENCES <==> (b - a) % SEQUENCES == 0
  {
  }

  lemma CollideIff(node: nat, first: nat, times: seq<nat>, i: nat, j: nat)
    requires i < j < |times|
    ensures Nth(node, first, times, i) == Nth(node, first, times, j)
        <==> times[i] % TICKS == times[j] % TICKS && (j - i) % SEQUENCES == 0
  {
    Fields(times[i], node, first + i, times[j], node, first + j);
    SameResidue(first + i, first + j);
  }

  predicate BeforeWrap(times: seq<nat>) {
    forall i | 0 <= i < |times| :: times[i] < TICKS
  }

  predicate AllDistinct(node: nat, first: nat, times: seq<nat>) {
    forall i, j | 0 <= i < j < |times| :: Nth(node, first, times, i) != Nth(node, first, times, j)
  }

  /** No millisecond has more than 4096 calls. */
  predicate AtMost4096(times: seq<nat>) {
    forall i, j | 0 <= i && j == i + SEQUENCES < |times| :: times[i] != times[j]
  }

  /** While the clock does not run backwards and has not run out, the ids are distinct exactly
      when no millisecond asks for more of them than there are sequence numbers. */
  lemma DistinctIff(node: nat, first: nat, times: seq<nat>)
    requires Ordered(times) && BeforeWrap(times)
    ensures AllDistinct(node, first, times) <==> AtMost4096(times)
  {
    if AllDistinct(node, first, times) {
      forall i, j | 0 <= i && j == i + SEQUENCES < |times| ensures times[i] != times[j] {
        CollideIff(node, first, times, i, j);
      }
    }
    if AtMost4096(times) {
      forall i, j | 0 <= i < j < |times| ensures Nth(node, first, times, i) != Nth(node, first, times, j) {
        CollideIff(node, first, times, i, j);
        hide Nth;
        if j - i >= SEQUENCES {
          var k := i + SEQUENCES;
          assert times[i] <= times[k] && times[k] <= times[j] && times[i] != times[k];
        }
      }
    }
  }

  /** A later millisecond gives a larger id, for all nodes and sequence numbers. */
  lemma LaterLarger(m1: nat, n1: nat, s1: nat, m2: nat, n2: nat, s2: nat)
    requires m1 < m2 < TICKS
    ensures Id(m1, n1, s1) < Id(m2, n2, s2)
  {
    assert Id(m1, n1, s1) < m1 * TICK + TICK;
  }

  // ---- A run of the generator ----

  function Millis(clock: seq<nat>): (times: seq<nat>)
    ensures |times| == |clock|
  {
    seq(|clock|, i requires 0 <= i < |clock| => clock[i] / NANOS_PER_MILLI)
  }

  /** One call after the other: the ids are those of the sequence, so they are distinct exactly
      under the condition above. */
  method GenerateAll(g: Generator, clock: seq<nat>) returns (ids: seq<nat>)
    requires g.sequence < U64
    modifies g
    ensures |ids| == |clock| && forall i | 0 <= i < |ids| :: ids[i] == Nth(g.node, old(g.sequence), Millis(clock), i)
    ensures Ordered(Millis(clock)) && BeforeWrap(Millis(clock)) ==>
              ((forall i, j | 0 <= i < j < |ids| :: ids[i] != ids[j]) <==> AtMost4096(Millis(clock)))
  {
    ids := [];
    ghost var first, times := g.sequence, Millis(clock);
    for i := 0 to |clock|
      invariant |ids| == i && g.sequence == (first + i) % U64
      invariant forall k | 0 <= k < i :: ids[k] == Nth(g.node, first, times, k)
    {
      WrappedSequence(times[i], g.node, first + i);
      NextSequence(first + i);
      hide Id;
      var id := g.Generate(Some(clock[i]));
      ids := ids + [id.value];
    }
    if Ordered(times) && BeforeWrap(times) {
      DistinctIff(g.node, first, times);
      hide Nth;
      assert (forall i, j | 0 <= i < j < |ids| :: ids[i] != ids[j]) <==> AllDistinct(g.node, first, times);
    }
  }

  lemma NextSequence(n: nat)
    ensures (n % U64 + 1) % U64 == (n + 1) % U64
  {
  }

  // ---- Past ids ----

  /** The id of the moment that lies the given period before the clock, both in nanoseconds. */
  function PastId(elapsed: nat, period: nat): Option<nat> {
    if elapsed < period then None else Some(Shifted((elapsed - period) / NANOS_PER_MILLI))
  }

  /** It lies above all ids of earlier milliseconds and below all of its own and later ones. */
  lemma PastIdSeparates(elapsed: nat, period: nat, millis: nat, node: nat, sequence: nat)
    requires period <= elapsed && millis < TICKS && elapsed / NANOS_PER_MILLI < TICKS
    ensures PastId(elapsed, period).Some?
    ensures Id(millis, node, sequence) >= PastId(elapsed, period).value
        <==> millis >= (elapsed - period) / NANOS_PER_MILLI
  {
    var past := (elapsed - period) / NANOS_PER_MILLI;
    assert past <= elapsed / NANOS_PER_MILLI;
    assert PastId(elapsed, period) == Some(past * TICK);
    if millis < past {
      assert Id(millis, node, sequence) < millis * TICK + TICK;
    }
  }
}
