/**
 * The 64-bit expression that the generator evaluates, as a number: the fields of an id do not
 * overlap, masks are remainders and shifts are products. Each step is about one operation, so
 * that the bits and the numbers are never reasoned about together.
 */
module SnowflakeBits {
  import opened Snowflake

  function Num(b: bv64): nat {
    b as nat
  }

  // ---- A mask is a remainder ----

  lemma Rest(n: nat, h: nat, l: nat, size: nat)
    requires size == NODES || size == SEQUENCES || size == TICKS
    requires n == h * size + l && l < size
    ensures n % size == l
  {
    if size == NODES {} else if size == SEQUENCES {} else {}
  }

  lemma Or9(h: bv64, l: bv64)
    ensures Num((h << 9) | (l & 511)) == Num(h << 9) + Num(l & 511)
  {
  }

  lemma Join9(h: bv64, l: bv64, r: bv64)
    requires r == (h << 9) | (l & 511)
    ensures Num(r) == Num(h << 9) + Num(l & 511)
  {
    Or9(h, l);
    hide Num;
  }

  lemma High9(q: bv64)
    ensures Num((q >> 9) << 9) == Num(q >> 9) * 512
  {
  }

  lemma Small9(q: bv64)
    ensures Num(q & 511) < 512
  {
  }

  lemma Low9(q: bv64)
    ensures Num(q & 511) == Num(q) % 512
  {
    hide Num;
    assert q == ((q >> 9) << 9) | (q & 511);
    Join9(q >> 9, q, q);
    High9(q);
    Small9(q);
    Rest(Num(q), Num(q >> 9), Num(q & 511), 512);
  }

  lemma Or12(h: bv64, l: bv64)
    ensures Num((h << 12) | (l & 4095)) == Num(h << 12) + Num(l & 4095)
  {
  }

  lemma Join12(h: bv64, l: bv64, r: bv64)
    requires r == (h << 12) | (l & 4095)
    ensures Num(r) == Num(h << 12) + Num(l & 4095)
  {
    Or12(h, l);
    hide Num;
  }

  lemma High12(q: bv64)
    ensures Num((q >> 12) << 12) == Num(q >> 12) * 4096
  {
  }

  lemma Small12(q: bv64)
    ensures Num(q & 4095) < 4096
  {
  }

  lemma Low12(q: bv64)
    ensures Num(q & 4095) == Num(q) % 4096
  {
    hide Num;
    assert q == ((q >> 12) << 12) | (q & 4095);
    Join12(q >> 12, q, q);
    High12(q);
    Small12(q);
    Rest(Num(q), Num(q >> 12), Num(q & 4095), 4096);
  }

  lemma Or43(h: bv64, l: bv64)
    ensures Num((h << 43) | (l & 0x7ff_ffff_ffff)) == Num(h << 43) + Num(l & 0x7ff_ffff_ffff)
  {
  }

  lemma Join43(h: bv64, l: bv64, r: bv64)
    requires r == (h << 43) | (l & 0x7ff_ffff_ffff)
    ensures Num(r) == Num(h << 43) + Num(l & 0x7ff_ffff_ffff)
  {
    Or43(h, l);
    hide Num;
  }

  lemma High43(q: bv64)
    ensures Num((q >> 43) << 43) == Num(q >> 43) * 0x800_0000_0000
  {
  }

  lemma Small43(q: bv64)
    ensures Num(q & 0x7ff_ffff_ffff) < 0x800_0000_0000
  {
    hide Num;
    ShiftMillis(q);
    Range(q << 21);
  }

  lemma Range(b: bv64)
    ensures Num(b) < U64
  {
  }

  /** The shift loses all but the low 43 bits. */
  lemma ShiftMillis(millis: bv64)
    ensures Num(millis << 21) == Num(millis & 0x7ff_ffff_ffff) * TICK
  {
  }

  lemma Low43(q: bv64)
    ensures Num(q & 0x7ff_ffff_ffff) == Num(q) % 0x800_0000_0000
  {
    hide Num;
    assert q == ((q >> 43) << 43) | (q & 0x7ff_ffff_ffff);
    Join43(q >> 43, q, q);
    High43(q);
    Small43(q);
    Rest(Num(q), Num(q >> 43), Num(q & 0x7ff_ffff_ffff), 0x800_0000_0000);
  }

  // ---- The id ----

  /** The expression of `generate`. */
  function Bits(millis: bv64, node: bv64, sequence: bv64): bv64 {
    (millis << 21) | ((node & 511) << 12) | (sequence & 4095)
  }

  lemma OrIsSum(millis: bv64, node: bv64, sequence: bv64)
    ensures Num(Bits(millis, node, sequence)) == Num(millis << 21) + Num((node & 511) << 12) + Num(sequence & 4095)
  {
  }

  lemma ShiftNode(node: bv64)
    ensures Num((node & 511) << 12) == Num(node & 511) * SEQUENCES
  {
  }

  /** What the generator computes on 64-bit words is the id of its numbers. */
  lemma BitsAreId(millis: bv64, node: bv64, sequence: bv64)
    ensures Num(Bits(millis, node, sequence)) == Id(Num(millis), Num(node), Num(sequence))
  {
    hide Num, Bits;
    OrIsSum(millis, node, sequence);
    ShiftMillis(millis);
    ShiftNode(node);
    Low43(millis);
    Low9(node);
    Low12(sequence);
  }

  /** The same for the past id, a shift alone. */
  lemma PastBitsAreId(millis: bv64)
    ensures Num(millis << 21) == Shifted(Num(millis))
  {
    hide Num;
    ShiftMillis(millis);
    Low43(millis);
  }
}
