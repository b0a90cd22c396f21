/**
 * Backup and restore of settings, lookups, the directory and the queue, whose keys stand for
 * themselves: no account, collection or document goes into them.
 */
module BackupFlat {
  import opened Prelude
  import opened BackupFile
  import opened StoreKeys
  import opened Restore
  import opened Backup
  import opened BackupStore

  datatype Pair = Pair(key: Bytes, value: Bytes)

  predicate Flat(f: Family) {
    f.Config? || f.LookupValue? || f.LookupCounter? || f.Directory? || f.Queue?
  }

  // ---- What is written for one entry ----

  /** Lookup counters and used quotas are added to; everything else is set. */
  predicate Counts(f: Family, k: Bytes) {
    f.LookupCounter? || (f.Directory? && k != [] && k[0] == 4)
  }

  function PairWrite(f: Family, k: Bytes, v: Bytes): Write {
    Write(Anywhere, if Counts(f, k) then Add(f, k, v) else Set(f, k, v))
  }

  /** What is left of a key when the restore has taken it apart: the number of a principal or of
      a quota, two numbers of a membership, one of a queued message, and two of a queue event. */
  function Trimmed(f: Family, k: Bytes): Bytes
    requires Formed(f, k)
  {
    if f.Directory? && (k[0] == 2 || k[0] == 4) then [k[0]] + Leb(UnLeb(k[1..], 5).value % U32)
    else if f.Directory? && (k[0] == 5 || k[0] == 6) then k[..9]
    else if f.Queue? then if k[0] == 0 then k[..9] else k[..17]
    else k
  }

  /** An entry of one of these families makes one write: under its trimmed key, with its value. */
  lemma OnePair(codec: Codec, c: Reader, k: Bytes, v: Bytes)
    requires Flat(c.family) && Decodes(codec, c.family, k, v)
    ensures Denote(codec, c, k, v) == [PairWrite(c.family, Trimmed(c.family, k), v)] && Content(c, k, v) == []
  {
    hide Leb, UnLeb, BitmapPart, TokenPart;
    var w := WhatOf(c, k, v);
    assert Kept(c.family, k) == Trimmed(c.family, k);
    assert Counts(c.family, Trimmed(c.family, k)) <==> Counts(c.family, k);
    assert Denote(codec, c, k, v) == [] + [Write(Anywhere, w)];
  }

  // ---- Keys as the store has them ----

  /** Seven bits at a time from the low end; all bytes but the last have the high bit set. */
  function Shifted(n: nat, i: nat): nat {
    if i == 0 then n else Shifted(n / 128, i - 1)
  }

  lemma {:induction false} LebDigits(n: nat, i: nat)
    requires i < |Leb(n)|
    ensures Leb(n)[i] == Shifted(n, i) % 128 + (if i + 1 < |Leb(n)| then 128 else 0)
    ensures i + 1 == |Leb(n)| <==> Shifted(n, i) < 128
    decreases i
  {
    if n >= 128 && i > 0 { LebDigits(n / 128, i - 1); }
  }

  function Room(left: nat): nat {
    if left == 0 then 1 else 128 * Room(left - 1)
  }

  lemma {:induction false} LebRoundTrip(n: nat, left: nat)
    requires left >= 1 && n < Room(left)
    ensures UnLeb(Leb(n), left) == Some(n)
    decreases left
  {
    if n >= 128 {
      assert Leb(n)[1..] == Leb(n / 128);
      LebRoundTrip(n / 128, left - 1);
    }
  }

  lemma NumberRead(n: u32)
    ensures UnLeb(Leb(n), 5) == Some(n)
  {
    assert Room(5) == 128 * Room(4) && Room(4) == 128 * Room(3) && Room(3) == 128 * Room(2) && Room(2) == 128 * Room(1);
    LebRoundTrip(n, 5);
  }

  /** The keys of the store: a name or an address, the number of a principal or of a quota, two
      numbers of a membership, the number of a message, the time and the number of an event. */
  ghost predicate StoreKey(f: Family, k: Bytes) {
    match f
    case Config => true
    case LookupValue => true
    case LookupCounter => true
    case Directory =>
      || (k != [] && (k[0] == 0 || k[0] == 1))
      || (exists id: u32 :: k == [2] + Leb(id))
      || (exists id: u32 :: k == [4] + Leb(id))
      || (|k| == 9 && (k[0] == 5 || k[0] == 6))
    case Queue => (|k| == 9 && k[0] == 0) || (|k| == 17 && k[0] == 1)
    case _ => false
  }

  /** Nothing of such a key is lost. */
  lemma StoreKeyKept(f: Family, k: Bytes)
    requires StoreKey(f, k)
    ensures Flat(f) && Formed(f, k) && Trimmed(f, k) == k
  {
    if f.Directory? && (k[0] == 2 || k[0] == 4) {
      var id: u32 :| k == [k[0]] + Leb(id);
      assert k[1..] == Leb(id);
      NumberRead(id);
    }
  }

  predicate Framed(p: Pair) {
    |p.key| < U32 && |p.value| < U32
  }

  ghost predicate Dumpable(codec: Codec, f: Family, p: Pair) {
    StoreKey(f, p.key) && codec.accepts(f, p.value) && Framed(p)
  }

  // ---- Dumps of one or more families ----

  datatype Section = Section(family: Family, pairs: seq<Pair>)

  ghost predicate AllDumpable(codec: Codec, s: Section) {
    Flat(s.family) && forall p <- s.pairs :: Dumpable(codec, s.family, p)
  }

  function PairOps(ps: seq<Pair>): seq<Op> {
    if ps == [] then [] else [KeyValue(ps[0].key, ps[0].value)] + PairOps(ps[1..])
  }

  function PairWrites(f: Family, ps: seq<Pair>): (ws: seq<Write>)
    ensures |ws| == |ps|
  {
    if ps == [] then [] else [PairWrite(f, ps[0].key, ps[0].value)] + PairWrites(f, ps[1..])
  }

  function SectionOps(ss: seq<Section>): seq<Op> {
    if ss == [] then [] else [SetFamily(ss[0].family)] + (PairOps(ss[0].pairs) + SectionOps(ss[1..]))
  }

  function SectionWrites(ss: seq<Section>): seq<Write> {
    if ss == [] then [] else PairWrites(ss[0].family, ss[0].pairs) + SectionWrites(ss[1..])
  }

  lemma {:induction false} PairsMean(codec: Codec, c: Reader, ps: seq<Pair>, rest: seq<Op>)
    requires AllDumpable(codec, Section(c.family, ps))
    ensures var m := Meaning(codec, c, rest);
            Meaning(codec, c, PairOps(ps) + rest) == Restored(PairWrites(c.family, ps) + m.writes, m.blobs, m.ok)
    decreases |ps|
  {
    var m := Meaning(codec, c, rest);
    if ps == [] {
      assert PairOps(ps) + rest == rest && [] + m.writes == m.writes;
    } else {
      var p, more := ps[0], PairOps(ps[1..]);
      assert Dumpable(codec, c.family, p);
      StoreKeyKept(c.family, p.key);
      OnePair(codec, c, p.key, p.value);
      Associate([KeyValue(p.key, p.value)], more, rest);
      MeaningEntry(codec, c, p.key, p.value, more + rest);
      PairsMean(codec, c, ps[1..], rest);
      var w := PairWrite(c.family, p.key, p.value);
      Associate([w], PairWrites(c.family, ps[1..]), m.writes);
      assert [] + m.blobs == m.blobs;
      hide Meaning, Denote, Content, StoreKey, Formed, Trimmed, PairWrite;
    }
  }

  lemma {:induction false} SectionsMean(codec: Codec, c: Reader, ss: seq<Section>)
    requires forall s <- ss :: AllDumpable(codec, s)
    ensures Meaning(codec, c, SectionOps(ss)) == Restored(SectionWrites(ss), [], true)
    decreases |ss|
  {
    if ss != [] {
      var s, at := ss[0], c.(family := ss[0].family);
      assert AllDumpable(codec, s);
      var pre, rest := [SetFamily(s.family)], PairOps(s.pairs) + SectionOps(ss[1..]);
      assert MoveAll(c, pre) == MoveAll(at, []);
      MeaningContext(codec, c, pre, rest);
      PairsMean(codec, at, s.pairs, SectionOps(ss[1..]));
      SectionsMean(codec, at, ss[1..]);
      hide Meaning, PairWrites, PairOps, AllDumpable;
    }
  }

  // ---- Reading such a dump back ----

  predicate NoBitmaps(ops: seq<Op>) {
    forall op <- ops :: op.SetFamily? ==> op.family != NoFamily && !op.family.Bitmap?
  }

  lemma {:induction false} PlacedWithoutBitmaps(codec: Codec, c: Reader, ops: seq<Op>)
    requires NoBitmaps(ops) && !c.family.Bitmap?
    ensures Placed(codec, c, false, ops)
    decreases |ops|
  {
    if ops != [] {
      assert ops[0] in ops;
      PlacedWithoutBitmaps(codec, Move(c, ops[0]), ops[1..]);
    }
  }

  lemma {:induction false} PairsFramable(ps: seq<Pair>)
    requires forall p <- ps :: Framed(p)
    ensures AllFramable(PairOps(ps)) && NoBitmaps(PairOps(ps))
    decreases |ps|
  {
    if ps != [] {
      assert Framed(ps[0]);
      PairsFramable(ps[1..]);
    }
  }

  lemma {:induction false} SectionsFramable(codec: Codec, ss: seq<Section>)
    requires forall s <- ss :: AllDumpable(codec, s)
    ensures AllFramable(SectionOps(ss)) && NoBitmaps(SectionOps(ss))
    decreases |ss|
  {
    if ss != [] {
      assert AllDumpable(codec, ss[0]);
      forall p <- ss[0].pairs ensures Framed(p) { assert Dumpable(codec, ss[0].family, p); }
      PairsFramable(ss[0].pairs);
      SectionsFramable(codec, ss[1..]);
    }
  }

  lemma SectionsRestore(codec: Codec, ss: seq<Section>)
    requires forall s <- ss :: AllDumpable(codec, s)
    ensures Restores(codec, SectionOps(ss), Restored(SectionWrites(ss), [], true))
  {
    SectionsFramable(codec, ss);
    SectionsMean(codec, TOP, ss);
    PlacedWithoutBitmaps(codec, TOP, SectionOps(ss));
    hide SectionOps, Placed, Meaning, NoBitmaps;
    FileRoundTrip(SectionOps(ss));
  }

  // ---- The store afterwards ----

  /** The key of a pair in the store. */
  function PairSlot(f: Family, k: Bytes): Slot {
    Slot(Anywhere, if Counts(f, k) then Add(f, k, []) else Set(f, k, []))
  }

  function PairSlots(f: Family, ps: seq<Pair>): (r: seq<Slot>)
    ensures |r| == |ps|
  {
    seq(|ps|, i requires 0 <= i < |ps| => PairSlot(f, ps[i].key))
  }

  function PairValues(ps: seq<Pair>): (r: seq<Bytes>)
    ensures |r| == |ps|
  {
    seq(|ps|, i requires 0 <= i < |ps| => ps[i].value)
  }

  lemma {:induction false} PairsStored(f: Family, ps: seq<Pair>)
    ensures Slots(PairWrites(f, ps)) == PairSlots(f, ps) && Values(PairWrites(f, ps)) == PairValues(ps)
    decreases |ps|
  {
    if ps != [] {
      var ws := PairWrites(f, ps[1..]);
      PairsStored(f, ps[1..]);
      ConsWrites(PairWrite(f, ps[0].key, ps[0].value), ws);
      assert PairSlots(f, ps) == [PairSlot(f, ps[0].key)] + PairSlots(f, ps[1..]);
      assert PairValues(ps) == [ps[0].value] + PairValues(ps[1..]);
      hide Slots, Values, PairSlots, PairValues;
    }
  }

  lemma AppendWrites(a: seq<Write>, b: seq<Write>)
    ensures Slots(a + b) == Slots(a) + Slots(b) && Values(a + b) == Values(a) + Values(b)
  {
    hide SlotOf, ValueOf;
  }

  /** One family: the store holds the pairs and nothing else. */
  lemma PairsRestored(codec: Codec, plus: (Bytes, Bytes) -> Bytes, f: Family, ps: seq<Pair>)
    requires AllDumpable(codec, Section(f, ps)) && Distinct(PairSlots(f, ps))
    ensures var m := Restored(PairWrites(f, ps), [], true);
            && Restores(codec, [SetFamily(f)] + PairOps(ps), m)
            && Holds(Store(plus, m.writes), PairSlots(f, ps), PairValues(ps))
  {
    var ss := [Section(f, ps)];
    assert ss[1..] == [];
    assert SectionOps(ss) == [SetFamily(f)] + (PairOps(ps) + SectionOps(ss[1..])) == [SetFamily(f)] + PairOps(ps);
    assert SectionWrites(ss) == PairWrites(f, ps) + SectionWrites(ss[1..]) == PairWrites(f, ps);
    hide SectionOps, SectionWrites, Restores, PairOps, PairWrites;
    SectionsRestore(codec, ss);
    PairsStored(f, ps);
    StoreHolds(plus, PairWrites(f, ps));
  }

  /** Two families in one file. */
  lemma TwoRestored(codec: Codec, plus: (Bytes, Bytes) -> Bytes, s: Section, t: Section)
    requires AllDumpable(codec, s) && AllDumpable(codec, t)
    requires Distinct(PairSlots(s.family, s.pairs) + PairSlots(t.family, t.pairs))
    ensures var m := Restored(PairWrites(s.family, s.pairs) + PairWrites(t.family, t.pairs), [], true);
            && Restores(codec, [SetFamily(s.family)] + (PairOps(s.pairs) + ([SetFamily(t.family)] + PairOps(t.pairs))), m)
            && Holds(Store(plus, m.writes), PairSlots(s.family, s.pairs) + PairSlots(t.family, t.pairs),
                     PairValues(s.pairs) + PairValues(t.pairs))
  {
    var ss := [s, t];
    var a, b := PairWrites(s.family, s.pairs), PairWrites(t.family, t.pairs);
    assert ss[1..] == [t] && [t][1..] == [];
    assert SectionOps([t]) == [SetFamily(t.family)] + (PairOps(t.pairs) + SectionOps([]));
    assert PairOps(t.pairs) + SectionOps([]) == PairOps(t.pairs);
    assert SectionOps(ss) == [SetFamily(s.family)] + (PairOps(s.pairs) + SectionOps([t]));
    assert SectionWrites([t]) == b + SectionWrites([]) == b;
    assert SectionWrites(ss) == a + SectionWrites([t]);
    hide SectionOps, SectionWrites, Restores, PairOps, PairWrites;
    SectionsRestore(codec, ss);
    PairsStored(s.family, s.pairs);
    PairsStored(t.family, t.pairs);
    AppendWrites(a, b);
    hide PairSlots, PairValues, Slots, Values, Holds, Store, Distinct;
    StoreHolds(plus, a + b);
  }

  // ---- The writers ----

  lemma PairStep(sent: seq<Op>, ps: seq<Pair>, i: nat)
    requires i < |ps|
    ensures sent + PairOps(ps[i..]) == (sent + [KeyValue(ps[i].key, ps[i].value)]) + PairOps(ps[i + 1..])
  {
    assert ps[i..][1..] == ps[i + 1..];
    Associate(sent, [KeyValue(ps[i].key, ps[i].value)], PairOps(ps[i + 1..]));
  }

  lemma {:induction false} PairOpsConcat(a: seq<Pair>, b: seq<Pair>)
    ensures PairOps(a + b) == PairOps(a) + PairOps(b)
    decreases |a|
  {
    if a == [] {
      assert a + b == b;
    } else {
      assert (a + b)[1..] == a[1..] + b;
      PairOpsConcat(a[1..], b);
      Associate([KeyValue(a[0].key, a[0].value)], PairOps(a[1..]), PairOps(b));
    }
  }

  /** The loop over a range of the store. */
  method SendPairs(sent: seq<Op>, ps: seq<Pair>) returns (ops: seq<Op>)
    ensures ops == sent + PairOps(ps)
  {
    ops := sent;
    assert ps[0..] == ps;
    for i := 0 to |ps|
      invariant ops + PairOps(ps[i..]) == sent + PairOps(ps)
    {
      PairStep(ops, ps, i);
      hide PairOps;
      ops := ops + [KeyValue(ps[i].key, ps[i].value)];
    }
  }

  /** The keys under a leading byte. */
  function Prefixed(b: byte, ps: seq<Pair>): seq<Pair> {
    seq(|ps|, i requires 0 <= i < |ps| => Pair([b] + ps[i].key, ps[i].value))
  }

  method BackupQueue(messages: seq<Pair>, events: seq<Pair>) returns (ops: seq<Op>)
    ensures ops == [SetFamily(Queue)] + PairOps(Prefixed(0, messages) + Prefixed(1, events))
  {
    PairOpsConcat(Prefixed(0, messages), Prefixed(1, events));
    Associate([SetFamily(Queue)], PairOps(Prefixed(0, messages)), PairOps(Prefixed(1, events)));
    ops := SendPairs([SetFamily(Queue)], Prefixed(0, messages));
    ops := SendPairs(ops, Prefixed(1, events));
  }

  /** The principals among the entries, as the bytes of their numbers. */
  function Principals(entries: seq<Pair>): seq<Bytes> {
    if entries == [] then []
    else
      var k := entries[0].key;
      (if k != [] && k[0] == 2 then [k[1..]] else []) + Principals(entries[1..])
  }

  lemma {:induction false} PrincipalsOf(entries: seq<Pair>, b: Bytes)
    ensures b in Principals(entries) <==> exists e <- entries :: e.key == [2] + b
    decreases |entries|
  {
    if entries != [] {
      var k := entries[0].key;
      PrincipalsOf(entries[1..], b);
      assert entries == [entries[0]] + entries[1..];
      assert k != [] && k[0] == 2 ==> k == [2] + k[1..];
      assert ([2] + b)[1..] == b;
    }
  }

  /** The counters that are not zero, under the key that is made of theirs. */
  function CounterPairs(prefix: Bytes, keys: seq<Bytes>, count: Bytes -> Option<Bytes>): seq<Pair> {
    if keys == [] then []
    else
      (if count(keys[0]).Some? then [Pair(prefix + keys[0], count(keys[0]).value)] else [])
      + CounterPairs(prefix, keys[1..], count)
  }

  lemma {:induction false} CounterPairsOf(prefix: Bytes, keys: seq<Bytes>, count: Bytes -> Option<Bytes>, p: Pair)
    ensures p in CounterPairs(prefix, keys, count)
        <==> exists b <- keys :: p.key == prefix + b && count(b) == Some(p.value)
    decreases |keys|
  {
    if keys != [] {
      CounterPairsOf(prefix, keys[1..], count, p);
      assert keys == [keys[0]] + keys[1..];
    }
  }

  lemma CounterStep(sent: seq<Op>, prefix: Bytes, keys: seq<Bytes>, count: Bytes -> Option<Bytes>, i: nat)
    requires i < |keys|
    ensures sent + PairOps(CounterPairs(prefix, keys[i..], count))
         == (sent + if count(keys[i]).Some? then [KeyValue(prefix + keys[i], count(keys[i]).value)] else [])
            + PairOps(CounterPairs(prefix, keys[i + 1..], count))
  {
    assert keys[i..][1..] == keys[i + 1..];
    var rest := CounterPairs(prefix, keys[i + 1..], count);
    if count(keys[i]).Some? {
      var p := Pair(prefix + keys[i], count(keys[i]).value);
      assert ([p] + rest)[1..] == rest;
      Associate(sent, [KeyValue(p.key, p.value)], PairOps(rest));
    } else {
      assert [] + rest == rest;
    }
  }

  method SendCounters(sent: seq<Op>, prefix: Bytes, keys: seq<Bytes>, count: Bytes -> Option<Bytes>) returns (ops: seq<Op>)
    ensures ops == sent + PairOps(CounterPairs(prefix, keys, count))
  {
    ops := sent;
    assert keys[0..] == keys;
    for i := 0 to |keys|
      invariant ops + PairOps(CounterPairs(prefix, keys[i..], count)) == sent + PairOps(CounterPairs(prefix, keys, count))
    {
      CounterStep(ops, prefix, keys, count, i);
      hide PairOps, CounterPairs;
      var value := count(keys[i]);
      if value.Some? {
        ops := ops + [KeyValue(prefix + keys[i], value.value)];
      }
    }
    assert CounterPairs(prefix, keys[|keys|..], count) == [];
  }

  method SendEntries(entries: seq<Pair>) returns (ops: seq<Op>, principals: seq<Bytes>)
    ensures ops == [SetFamily(Directory)] + PairOps(entries) && principals == Principals(entries)
  {
    ops, principals := [SetFamily(Directory)], [];
    assert entries[0..] == entries;
    for i := 0 to |entries|
      invariant ops + PairOps(entries[i..]) == [SetFamily(Directory)] + PairOps(entries)
      invariant principals + Principals(entries[i..]) == Principals(entries)
    {
      var k := entries[i].key;
      assert entries[i..][1..] == entries[i + 1..];
      PairStep(ops, entries, i);
      hide PairOps;
      if k != [] && k[0] == 2 {
        Associate(principals, [k[1..]], Principals(entries[i + 1..]));
        principals := principals + [k[1..]];
      }
      ops := ops + [KeyValue(k, entries[i].value)];
    }
  }

  function DirectoryPairs(entries: seq<Pair>, quota: Bytes -> Option<Bytes>): seq<Pair> {
    entries + CounterPairs([4], Principals(entries), quota)
  }

  /** All entries of the directory, and then the used quotas of the principals seen. */
  method BackupDirectory(entries: seq<Pair>, quota: Bytes -> Option<Bytes>) returns (ops: seq<Op>)
    ensures ops == [SetFamily(Directory)] + PairOps(DirectoryPairs(entries, quota))
  {
    ghost var quotas := CounterPairs([4], Principals(entries), quota);
    PairOpsConcat(entries, quotas);
    Associate([SetFamily(Directory)], PairOps(entries), PairOps(quotas));
    hide PairOps, CounterPairs, Principals;
    var principals;
    ops, principals := SendEntries(entries);
    ops := SendCounters(ops, [4], principals, quota);
  }

  /** The counter of the message ids of a mailbox, which is dumped with its properties. */
  predicate MailboxCounter(k: Bytes) {
    |k| == 10 && k[4] == MAILBOX && k[5] == EMAIL_IDS
  }

  function OtherCounters(keys: seq<Bytes>): seq<Bytes> {
    if keys == [] then []
    else (if MailboxCounter(keys[0]) then [] else [keys[0]]) + OtherCounters(keys[1..])
  }

  lemma {:induction false} OtherCountersOf(keys: seq<Bytes>, k: Bytes)
    ensures k in OtherCounters(keys) <==> k in keys && !(|k| == 10 && k[4] == 1 && k[5] == 84)
    decreases |keys|
  {
    if keys != [] {
      OtherCountersOf(keys[1..], k);
      assert keys == [keys[0]] + keys[1..];
    }
  }

  lemma OtherStep(counters: seq<Bytes>, keys: seq<Bytes>, i: nat)
    requires i < |keys|
    ensures counters + OtherCounters(keys[i..])
         == (counters + if MailboxCounter(keys[i]) then [] else [keys[i]]) + OtherCounters(keys[i + 1..])
  {
    assert keys[i..][1..] == keys[i + 1..];
    hide MailboxCounter;
    Associate(counters, if MailboxCounter(keys[i]) then [] else [keys[i]], OtherCounters(keys[i + 1..]));
  }

  method ListCounters(keys: seq<Bytes>) returns (counters: seq<Bytes>)
    ensures counters == OtherCounters(keys)
  {
    counters := [];
    assert keys[0..] == keys && OtherCounters([]) == [];
    hide OtherCounters;
    for i := 0 to |keys|
      invariant counters + OtherCounters(keys[i..]) == OtherCounters(keys)
    {
      OtherStep(counters, keys, i);
      if |keys[i]| != 10 || keys[i][5] != EMAIL_IDS || keys[i][4] != MAILBOX {
        counters := counters + [keys[i]];
      }
    }
    assert keys[|keys|..] == [];
  }

  method BackupLookup(values: seq<Pair>, keys: seq<Bytes>, count: Bytes -> Option<Bytes>) returns (ops: seq<Op>)
    ensures ops == [SetFamily(LookupValue)]
                   + (PairOps(values)
                      + ([SetFamily(LookupCounter)] + PairOps(CounterPairs([], OtherCounters(keys), count))))
  {
    ghost var counters := PairOps(CounterPairs([], OtherCounters(keys), count));
    Associate([SetFamily(LookupValue)], PairOps(values), [SetFamily(LookupCounter)] + counters);
    Associate([SetFamily(LookupValue)] + PairOps(values), [SetFamily(LookupCounter)], counters);
    hide PairOps, CounterPairs, OtherCounters;
    ops := SendPairs([SetFamily(LookupValue)], values);
    ops := ops + [SetFamily(LookupCounter)];
    var others := ListCounters(keys);
    ops := SendCounters(ops, [], others, count);
  }

  // ---- From store to store ----

  /** Settings, or any family that is dumped as it is. */
  method CopyPairs(codec: Codec, ghost plus: (Bytes, Bytes) -> Bytes, f: Family, ps: seq<Pair>)
    returns (written: seq<Batch>, ok: bool)
    requires AllDumpable(codec, Section(f, ps)) && Distinct(PairSlots(f, ps))
    ensures ok && Holds(Store(plus, AllEffects(written)), PairSlots(f, ps), PairValues(ps))
  {
    PairsRestored(codec, plus, f, ps);
    hide PairOps, Restores, Holds, Store, PairSlots;
    var ops := SendPairs([SetFamily(f)], ps);
    var blobs;
    written, blobs, ok := DumpAndRestore(codec, ops, Restored(PairWrites(f, ps), [], true));
  }

  method CopyQueue(codec: Codec, ghost plus: (Bytes, Bytes) -> Bytes, messages: seq<Pair>, events: seq<Pair>)
    returns (written: seq<Batch>, ok: bool)
    requires var ps := Prefixed(0, messages) + Prefixed(1, events);
             AllDumpable(codec, Section(Queue, ps)) && Distinct(PairSlots(Queue, ps))
    ensures var ps := Prefixed(0, messages) + Prefixed(1, events);
            ok && Holds(Store(plus, AllEffects(written)), PairSlots(Queue, ps), PairValues(ps))
  {
    ghost var ps := Prefixed(0, messages) + Prefixed(1, events);
    PairsRestored(codec, plus, Queue, ps);
    hide PairOps, Restores, Holds, Store, PairSlots, Prefixed;
    var ops := BackupQueue(messages, events);
    var blobs;
    written, blobs, ok := DumpAndRestore(codec, ops, Restored(PairWrites(Queue, ps), [], true));
  }

  method CopyDirectory(codec: Codec, ghost plus: (Bytes, Bytes) -> Bytes, entries: seq<Pair>, quota: Bytes -> Option<Bytes>)
    returns (written: seq<Batch>, ok: bool)
    requires var ps := DirectoryPairs(entries, quota);
             AllDumpable(codec, Section(Directory, ps)) && Distinct(PairSlots(Directory, ps))
    ensures var ps := DirectoryPairs(entries, quota);
            ok && Holds(Store(plus, AllEffects(written)), PairSlots(Directory, ps), PairValues(ps))
  {
    ghost var ps := DirectoryPairs(entries, quota);
    PairsRestored(codec, plus, Directory, ps);
    hide PairOps, Restores, Holds, Store, PairSlots, DirectoryPairs;
    var ops := BackupDirectory(entries, quota);
    var blobs;
    written, blobs, ok := DumpAndRestore(codec, ops, Restored(PairWrites(Directory, ps), [], true));
  }

  method CopyLookup(codec: Codec, ghost plus: (Bytes, Bytes) -> Bytes, values: seq<Pair>, keys: seq<Bytes>,
                    count: Bytes -> Option<Bytes>)
    returns (written: seq<Batch>, ok: bool)
    requires var counters := CounterPairs([], OtherCounters(keys), count);
             && AllDumpable(codec, Section(LookupValue, values)) && AllDumpable(codec, Section(LookupCounter, counters))
             && Distinct(PairSlots(LookupValue, values) + PairSlots(LookupCounter, counters))
    ensures var counters := CounterPairs([], OtherCounters(keys), count);
            ok && Holds(Store(plus, AllEffects(written)),
                        PairSlots(LookupValue, values) + PairSlots(LookupCounter, counters),
                        PairValues(values) + PairValues(counters))
  {
    ghost var counters := CounterPairs([], OtherCounters(keys), count);
    TwoRestored(codec, plus, Section(LookupValue, values), Section(LookupCounter, counters));
    hide PairOps, Restores, Holds, Store, PairSlots, PairValues, PairWrites, CounterPairs, OtherCounters;
    var ops := BackupLookup(values, keys, count);
    var blobs;
    written, blobs, ok :=
      DumpAndRestore(codec, ops, Restored(PairWrites(LookupValue, values) + PairWrites(LookupCounter, counters), [], true));
  }
}
