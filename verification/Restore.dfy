/**
 * Replaying a dump into the store (crates/common/src/manager/restore.rs). The operations set
 * a context and write under it; the writes are collected in batches which the store runs one by
 * one, each from a context of its own.
 */
module Restore {
  import opened Prelude
  import opened BackupFile
  import opened StoreKeys

  const MAX32: u32 := U32 - 1
  const MAX8: byte := 255
  const MAX_CHANGE: Bytes := [255, 255, 255, 255, 255, 255, 255, 255]

  const EMAIL: byte := 0
  const MAILBOX: byte := 1
  const EMAIL_IDS: byte := 84
  const USED_QUOTA: byte := 4
  const TEXT_CLASS: byte := 4

  const MAX_BATCH_OPS := 1000
  const MAX_BATCH_SIZE := 5_000_000

  // ---- The store's batches ----

  datatype What =
    | Set(family: Family, key: Bytes, value: Bytes)
    | Add(family: Family, key: Bytes, value: Bytes)
    | IndexKey(key: Bytes)
    | Bit(class_: Bytes)
    | LogEntry(value: Bytes)
    | Link(hash: Bytes)
    | Commit(hash: Bytes)
    | FtsQueue(seq_: nat, hash: Bytes)

  datatype BatchOp =
    | WithAccount(account: u32)
    | WithCollection(collection: byte)
    | WithDocument(document: u32)
    | WithChange(change: Bytes)
    | Do(what: What)

  type Batch = seq<BatchOp>

  datatype Context = Context(account: u32, collection: byte, document: u32, change: Bytes)

  const START := Context(MAX32, MAX8, MAX32, MAX_CHANGE)

  /** The part of the context that goes into the key of a write. */
  datatype Address =
    | Anywhere
    | AtDocument(account: u32, collection: byte, document: u32)
    | AtChange(account: u32, collection: byte, change: Bytes)

  datatype Write = Write(at: Address, what: What)

  predicate ByDocument(w: What) {
    match w
    case Set(f, _, _) => f.Property? || f.FtsIndex? || f.Acl?
    case Add(f, _, _) => f.Property?
    case IndexKey(_) => true
    case Bit(_) => true
    case Link(_) => true
    case FtsQueue(_, _) => true
    case LogEntry(_) => false
    case Commit(_) => false
  }

  function Place(c: Context, w: What): Address {
    if ByDocument(w) then AtDocument(c.account, c.collection, c.document)
    else if w.LogEntry? then AtChange(c.account, c.collection, c.change)
    else Anywhere
  }

  function Advance(c: Context, op: BatchOp): Context {
    match op
    case WithAccount(a) => c.(account := a)
    case WithCollection(x) => c.(collection := x)
    case WithDocument(d) => c.(document := d)
    case WithChange(i) => c.(change := i)
    case Do(_) => c
  }

  function After(b: Batch): Context {
    if b == [] then START else Advance(After(b[..|b| - 1]), b[|b| - 1])
  }

  /** What the store writes when it runs a batch. */
  function Effects(b: Batch): seq<Write> {
    if b == [] then []
    else
      var n := |b| - 1;
      Effects(b[..n]) + (if b[n].Do? then [Write(Place(After(b[..n]), b[n].what), b[n].what)] else [])
  }

  function AllEffects(bs: seq<Batch>): seq<Write> {
    if bs == [] then [] else AllEffects(bs[..|bs| - 1]) + Effects(bs[|bs| - 1])
  }

  lemma Snoc(b: Batch, op: BatchOp)
    ensures After(b + [op]) == Advance(After(b), op)
    ensures Effects(b + [op]) == Effects(b) + (if op.Do? then [Write(Place(After(b), op.what), op.what)] else [])
  {
    assert (b + [op])[..|b|] == b;
  }

  lemma AllSnoc(bs: seq<Batch>, b: Batch)
    ensures AllEffects(bs + [b]) == AllEffects(bs) + Effects(b)
  {
    assert (bs + [b])[..|bs|] == bs;
  }

  /** Nothing but context: the batch is not sent. */
  predicate Empty(b: Batch) {
    forall i | 0 <= i < |b| :: b[i].WithAccount? || b[i].WithCollection? || b[i].WithDocument?
  }

  lemma {:induction false} EmptyEffects(b: Batch)
    requires Empty(b)
    ensures Effects(b) == []
    decreases |b|
  {
    if b != [] { EmptyEffects(b[..|b| - 1]); }
  }

  // ---- What a dump means ----

  /** How values are decoded is left open: which ones are well formed, and the document ids in a
      serialized bitmap. */
  datatype Codec = Codec(accepts: (Family, Bytes) -> bool, docs: Bytes -> Option<seq<u32>>)

  /** The version of the file, the context, and how many emails have been queued for indexing. */
  datatype Cursor = Cursor(version: byte, family: Family, account: u32, collection: byte, document: u32, queued: nat)

  function Top(version: byte): Cursor {
    Cursor(version, NoFamily, MAX32, MAX8, MAX32, 0)
  }

  /** Full-text entries of older files are not restored: the emails are indexed anew. */
  predicate Skipped(c: Cursor, k: Bytes) {
    || (c.family.FtsIndex? && c.version <= 1)
    || (c.family.Bitmap? && c.version == 1 && c.collection == EMAIL && k != [] && k[0] == TEXT_CLASS)
  }

  predicate Accepts(codec: Codec, c: Cursor, k: Bytes, v: Bytes) {
    Skipped(c, k) || Decodes(codec, c.family, k, v)
  }

  predicate Decodes(codec: Codec, f: Family, k: Bytes, v: Bytes) {
    Formed(f, k) && (f.Bitmap? ==> codec.docs(v).Some?) && codec.accepts(f, v)
  }

  /** A blob is linked to a document, or its content is stored. */
  predicate Linked(c: Cursor) {
    c.account != MAX32 && c.document != MAX32
  }

  /** The link of an email in a file of version 1 also queues the email for indexing. */
  predicate Queues(c: Cursor) {
    c.family.Blob? && Linked(c) && c.version == 1 && c.collection == EMAIL
  }

  function WhatOf(c: Cursor, k: Bytes, v: Bytes): What
    requires Formed(c.family, k)
  {
    var key := Kept(c.family, k);
    match c.family
    case Property => if c.collection == MAILBOX && k[0] == EMAIL_IDS then Add(Property, key, v) else Set(Property, key, v)
    case LookupCounter => Add(LookupCounter, key, v)
    case Directory => if k[0] == USED_QUOTA then Add(Directory, key, v) else Set(Directory, key, v)
    case Blob => if Linked(c) then Link(key) else Commit(key)
    case Index => IndexKey(key)
    case Log => LogEntry(v)
    case Bitmap => Bit(key)
    case f => Set(f, key, v)
  }

  lemma LogsAndLinks(c: Cursor, k: Bytes, v: Bytes)
    requires Formed(c.family, k)
    ensures WhatOf(c, k, v).LogEntry? <==> c.family.Log?
    ensures Queues(c) ==> WhatOf(c, k, v).Link?
  {
  }

  function Bits(a: u32, c: byte, k: Bytes, docs: seq<u32>): (ws: seq<Write>) {
    seq(|docs|, i requires 0 <= i < |docs| => Write(AtDocument(a, c, docs[i]), Bit(k)))
  }

  /** The writes of one key and value under the context of the dump, at the document d. */
  function DenoteAt(codec: Codec, c: Cursor, d: u32, k: Bytes, v: Bytes): seq<Write>
    requires Accepts(codec, c, k, v)
  {
    if Skipped(c, k) then []
    else if c.family.Bitmap? then Bits(c.account, c.collection, BitmapPart(k), codec.docs(v).value)
    else
      var w := WhatOf(c, k, v);
      (if Queues(c) then [Write(AtDocument(c.account, c.collection, d), FtsQueue(c.queued, k))] else [])
      + [Write(Place(Context(c.account, c.collection, d, if |k| >= 8 then k[..8] else MAX_CHANGE), w), w)]
  }

  function Denote(codec: Codec, c: Cursor, k: Bytes, v: Bytes): seq<Write>
    requires Accepts(codec, c, k, v)
  {
    DenoteAt(codec, c, c.document, k, v)
  }

  /** Files of version 1: full-text indexes and the tokens of emails are passed over, the link of
      an email also queues it under the next number, and all else is as in version 2. */
  lemma OlderFiles(codec: Codec, c: Cursor, d: u32, k: Bytes, v: Bytes)
    requires c.version == 1 && Accepts(codec, c, k, v)
    ensures c.family.FtsIndex? ==> DenoteAt(codec, c, d, k, v) == []
    ensures c.family.Bitmap? && c.collection == 0 && k[0] == 4 ==> DenoteAt(codec, c, d, k, v) == []
    ensures c.family.Blob? && c.collection == 0 && c.account != MAX32 && c.document != MAX32 ==>
              var at := AtDocument(c.account, c.collection, d);
              DenoteAt(codec, c, d, k, v) == [Write(at, FtsQueue(c.queued, k)), Write(at, Link(k))]
    ensures !c.family.FtsIndex? && c.collection != 0 ==> DenoteAt(codec, c, d, k, v) == DenoteAt(codec, c.(version := 2), d, k, v)
    ensures !c.family.FtsIndex? && !c.family.Blob? && !(c.family.Bitmap? && k[0] == 4) ==>
              DenoteAt(codec, c, d, k, v) == DenoteAt(codec, c.(version := 2), d, k, v)
    ensures c.family.Blob? && (c.account == MAX32 || c.document == MAX32) ==>
              DenoteAt(codec, c, d, k, v) == DenoteAt(codec, c.(version := 2), d, k, v)
  {
  }

  function Content(c: Cursor, k: Bytes, v: Bytes): seq<(Bytes, Bytes)> {
    if c.family.Blob? && !Linked(c) then [(k, v)] else []
  }

  function Move(c: Cursor, op: Op): Cursor {
    match op
    case SetFamily(f) => c.(family := f)
    case Account(a) => c.(account := a)
    case Collection(x) => c.(collection := x)
    case Document(d) => c.(document := d)
    case KeyValue(_, _) => if Queues(c) then c.(queued := c.queued + 1) else c
  }

  /** The writes to the store and to the blob store, up to the first entry that does not decode. */
  datatype Restored = Restored(writes: seq<Write>, blobs: seq<(Bytes, Bytes)>, ok: bool)

  predicate Runs(codec: Codec, c: Cursor, op: Op) {
    op.KeyValue? ==> Accepts(codec, c, op.key, op.value)
  }

  function OpWrites(codec: Codec, c: Cursor, op: Op): seq<Write>
    requires Runs(codec, c, op)
  {
    if op.KeyValue? then Denote(codec, c, op.key, op.value) else []
  }

  function OpBlobs(c: Cursor, op: Op): seq<(Bytes, Bytes)> {
    if op.KeyValue? then Content(c, op.key, op.value) else []
  }

  function Meaning(codec: Codec, c: Cursor, ops: seq<Op>): Restored
    decreases |ops|
  {
    if ops == [] then Restored([], [], true)
    else if !Runs(codec, c, ops[0]) then Restored([], [], false)
    else
      var r := Meaning(codec, Move(c, ops[0]), ops[1..]);
      Restored(OpWrites(codec, c, ops[0]) + r.writes, OpBlobs(c, ops[0]) + r.blobs, r.ok)
  }

  /** The numbers under which emails are queued for indexing, in order. */
  function QueueNumbers(ws: seq<Write>): seq<nat> {
    if ws == [] then []
    else (if ws[0].what.FtsQueue? then [ws[0].what.seq_] else []) + QueueNumbers(ws[1..])
  }

  lemma {:induction false} QueueConcat(a: seq<Write>, b: seq<Write>)
    ensures QueueNumbers(a + b) == QueueNumbers(a) + QueueNumbers(b)
    decreases |a|
  {
    if a == [] {
      assert a + b == b;
    } else {
      var first := if a[0].what.FtsQueue? then [a[0].what.seq_] else [];
      assert (a + b)[1..] == a[1..] + b;
      QueueConcat(a[1..], b);
      Associate(first, QueueNumbers(a[1..]), QueueNumbers(b));
    }
  }

  lemma {:induction false} BitsUnqueued(a: u32, c: byte, k: Bytes, docs: seq<u32>)
    ensures QueueNumbers(Bits(a, c, k, docs)) == []
    decreases |docs|
  {
    if docs != [] {
      assert Bits(a, c, k, docs)[1..] == Bits(a, c, k, docs[1..]);
      BitsUnqueued(a, c, k, docs[1..]);
    }
  }

  lemma EntryQueues(codec: Codec, c: Cursor, k: Bytes, v: Bytes)
    requires Accepts(codec, c, k, v)
    ensures QueueNumbers(Denote(codec, c, k, v)) == if Queues(c) then [c.queued] else []
  {
    var ws := Denote(codec, c, k, v);
    if c.family.Bitmap? {
      if !Skipped(c, k) { BitsUnqueued(c.account, c.collection, BitmapPart(k), codec.docs(v).value); }
    } else if Queues(c) {
      assert ws[1..][1..] == [] && !ws[1].what.FtsQueue?;
      assert QueueNumbers(ws[1..]) == [] + QueueNumbers(ws[1..][1..]);
    } else if !Skipped(c, k) {
      assert ws[1..] == [] && !ws[0].what.FtsQueue?;
    }
  }

  predicate CountsUp(ns: seq<nat>, first: nat) {
    forall i | 0 <= i < |ns| :: ns[i] == first + i
  }

  lemma CountsUpCons(n: nat, ns: seq<nat>)
    requires CountsUp(ns, n + 1)
    ensures CountsUp([n] + ns, n)
  {
  }

  /** Each linked email of a file of version 1 gets a number of its own: they count up from the
      first, without a gap. */
  lemma {:induction false} QueueCountsUp(codec: Codec, c: Cursor, ops: seq<Op>)
    ensures CountsUp(QueueNumbers(Meaning(codec, c, ops).writes), c.queued)
    decreases |ops|
  {
    if ops != [] && Runs(codec, c, ops[0]) {
      var next := Move(c, ops[0]);
      var later := QueueNumbers(Meaning(codec, next, ops[1..]).writes);
      QueueCountsUp(codec, next, ops[1..]);
      QueueConcat(OpWrites(codec, c, ops[0]), Meaning(codec, next, ops[1..]).writes);
      if ops[0].KeyValue? { EntryQueues(codec, c, ops[0].key, ops[0].value); }
      hide Denote, CountsUp;
      if ops[0].KeyValue? && Queues(c) {
        CountsUpCons(c.queued, later);
      } else {
        assert [] + later == later;
      }
    }
  }

  /** A bitmap leaves the batch at the last of its documents until the next document id. */
  function StaleAfter(codec: Codec, c: Cursor, stale: bool, op: Op): bool {
    match op
    case Document(_) => false
    case KeyValue(k, v) =>
      stale || (c.family.Bitmap? && !Skipped(c, k) && codec.docs(v).Some? && codec.docs(v).value != [])
    case _ => stale
  }

  /** The operation does not need a document id that a bitmap has replaced. */
  predicate Fresh(c: Cursor, stale: bool, op: Op) {
    op.KeyValue? && stale && !c.family.Bitmap? && !Skipped(c, op.key) && Formed(c.family, op.key)
    ==> !ByDocument(WhatOf(c, op.key, op.value))
  }

  /** No document-bound entry of another family follows a bitmap without a document id between. */
  predicate Placed(codec: Codec, c: Cursor, stale: bool, ops: seq<Op>)
    decreases |ops|
  {
    ops == [] || (Fresh(c, stale, ops[0])
                  && Placed(codec, Move(c, ops[0]), StaleAfter(codec, c, stale, ops[0]), ops[1..]))
  }

  // ---- What the batches do to the document ----

  /** The context of the dump, the document that the batch stands at, and the batch's length and
      accounted size. */
  datatype Tape = Tape(cursor: Cursor, document: u32, length: nat, size: nat)

  function Begin(version: byte): Tape {
    Tape(Top(version), MAX32, 0, 0)
  }

  /** A full batch is sent, and the next one starts in the context of the dump. */
  function Checked(t: Tape): Tape {
    if t.length >= MAX_BATCH_OPS || t.size >= MAX_BATCH_SIZE
    then t.(document := t.cursor.document, length := 3, size := 0) else t
  }

  /** The documents of a bitmap, one after the other. A batch that is full in between is sent, and
      the next one starts without a document. */
  function BitTape(t: Tape, docs: seq<u32>): Tape
    decreases |docs|
  {
    if docs == [] then t
    else
      var u := t.(document := docs[0], length := t.length + 2);
      BitTape(if u.length >= MAX_BATCH_OPS then u.(document := MAX32, length := 2) else u, docs[1..])
  }

  /** The size of the batch is not looked at after these entries. */
  predicate Unchecked(c: Cursor, k: Bytes) {
    || (c.family.Directory? && k != [] && k[0] == USED_QUOTA)
    || (c.family.Bitmap? && Skipped(c, k))
  }

  function EntryTape(codec: Codec, t: Tape, k: Bytes, v: Bytes): Tape
    requires Accepts(codec, t.cursor, k, v)
  {
    var c, u := t.cursor, t.(size := t.size + |k| + |v| + 8);
    if Skipped(c, k) then u
    else if c.family.Bitmap? then BitTape(u, codec.docs(v).value)
    else
      Tape(Move(c, KeyValue(k, v)), t.document, t.length + (if c.family.Log? || Queues(c) then 2 else 1),
           if Content(c, k, v) != [] then u.size - |v| else u.size)
  }

  function OpTape(codec: Codec, t: Tape, op: Op): Tape
    requires Runs(codec, t.cursor, op)
  {
    match op
    case KeyValue(k, v) =>
      var u := EntryTape(codec, t, k, v);
      if Unchecked(t.cursor, k) then u else Checked(u)
    case SetFamily(_) => Checked(t.(cursor := Move(t.cursor, op)))
    case Document(d) => Checked(Tape(Move(t.cursor, op), d, t.length + 1, t.size))
    case _ => Checked(Tape(Move(t.cursor, op), t.document, t.length + 1, t.size))
  }

  function TapeWrites(codec: Codec, t: Tape, op: Op): seq<Write>
    requires Runs(codec, t.cursor, op)
  {
    if op.KeyValue? then DenoteAt(codec, t.cursor, t.document, op.key, op.value) else []
  }

  /** What the store is given for any dump: each entry is written at the document that the batch
      stands at. */
  function Outcome(codec: Codec, t: Tape, ops: seq<Op>): Restored
    decreases |ops|
  {
    if ops == [] then Restored([], [], true)
    else if !Runs(codec, t.cursor, ops[0]) then Restored([], [], false)
    else
      var r := Outcome(codec, OpTape(codec, t, ops[0]), ops[1..]);
      Restored(TapeWrites(codec, t, ops[0]) + r.writes, OpBlobs(t.cursor, ops[0]) + r.blobs, r.ok)
  }

  lemma {:induction false} BitTapeCursor(t: Tape, docs: seq<u32>)
    ensures BitTape(t, docs).cursor == t.cursor
    decreases |docs|
  {
    if docs != [] {
      var u := t.(document := docs[0], length := t.length + 2);
      BitTapeCursor(if u.length >= MAX_BATCH_OPS then u.(document := MAX32, length := 2) else u, docs[1..]);
    }
  }

  /** The batch follows the context of the dump, and stands at its document unless a bitmap has
      come since. */
  lemma TapeKeeps(codec: Codec, t: Tape, stale: bool, op: Op)
    requires Runs(codec, t.cursor, op) && (!stale ==> t.document == t.cursor.document)
    ensures var u := OpTape(codec, t, op);
            u.cursor == Move(t.cursor, op) && (!StaleAfter(codec, t.cursor, stale, op) ==> u.document == u.cursor.document)
  {
    if op.KeyValue? && t.cursor.family.Bitmap? && !Skipped(t.cursor, op.key) {
      BitTapeCursor(t.(size := t.size + |op.key| + |op.value| + 8), codec.docs(op.value).value);
    }
  }

  lemma FreshWrites(codec: Codec, t: Tape, stale: bool, op: Op)
    requires Runs(codec, t.cursor, op) && (!stale ==> t.document == t.cursor.document) && Fresh(t.cursor, stale, op)
    ensures TapeWrites(codec, t, op) == OpWrites(codec, t.cursor, op)
  {
    if op.KeyValue? && !Skipped(t.cursor, op.key) && !t.cursor.family.Bitmap? {
      LogsAndLinks(t.cursor, op.key, op.value);
      hide WhatOf;
    }
  }

  /** In a dump where document-bound entries follow a document id, every entry is written at the
      document of its own context. */
  lemma {:induction false} PlacedOutcome(codec: Codec, t: Tape, stale: bool, ops: seq<Op>)
    requires Placed(codec, t.cursor, stale, ops) && (!stale ==> t.document == t.cursor.document)
    ensures Outcome(codec, t, ops) == Meaning(codec, t.cursor, ops)
    decreases |ops|
  {
    if ops != [] && Runs(codec, t.cursor, ops[0]) {
      TapeKeeps(codec, t, stale, ops[0]);
      FreshWrites(codec, t, stale, ops[0]);
      PlacedOutcome(codec, OpTape(codec, t, ops[0]), StaleAfter(codec, t.cursor, stale, ops[0]), ops[1..]);
      hide OpTape, TapeWrites, OpWrites, OpBlobs, StaleAfter, Move, Fresh;
    }
  }

  /** A property after a bitmap of another family goes to the last document of the bitmap. */
  lemma BitmapThenProperty(codec: Codec, v: Bytes, p: Bytes)
    requires codec.docs(v) == Some([7]) && codec.accepts(Bitmap, v) && codec.accepts(Property, p) && |v| + |p| < 1000
    ensures var ops := [SetFamily(Bitmap), KeyValue([0], v), SetFamily(Property), KeyValue([5], p)];
            && Outcome(codec, Begin(FILE_VERSION), ops).writes
               == [Write(AtDocument(MAX32, MAX8, 7), Bit([0])), Write(AtDocument(MAX32, MAX8, 7), Set(Property, [5], p))]
            && Meaning(codec, Top(FILE_VERSION), ops).writes
               == [Write(AtDocument(MAX32, MAX8, 7), Bit([0])), Write(AtDocument(MAX32, MAX8, MAX32), Set(Property, [5], p))]
  {
    var o1, o2, o3, o4 := SetFamily(Bitmap), KeyValue([0], v), SetFamily(Property), KeyValue([5], p);
    var t0 := Begin(FILE_VERSION);
    var t1, t3 := t0.(cursor := t0.cursor.(family := Bitmap)), Tape(t0.cursor.(family := Property), 7, 2, |v| + 9);
    var t2 := t3.(cursor := t1.cursor);
    assert OpTape(codec, t0, o1) == t1 && OpTape(codec, t2, o3) == t3;
    BitmapOfOne(codec, v, t1);
    PropertyEntry(codec, p, t3);
    assert TapeWrites(codec, t0, o1) == OpWrites(codec, t0.cursor, o1) == [];
    assert TapeWrites(codec, t2, o3) == OpWrites(codec, t2.cursor, o3) == [];
    assert Move(t0.cursor, o1) == t1.cursor && Move(t1.cursor, o2) == t2.cursor && Move(t2.cursor, o3) == t3.cursor;
    hide OpTape, TapeWrites, OpWrites, Outcome, Meaning, Runs, Move;
    LastOp(codec, t3, o4);
    var last2 := [o3] + [o4];
    var last3 := [o2] + last2;
    OneMore(codec, t2, o3, [o4]);
    OneMore(codec, t1, o2, last2);
    OneMore(codec, t0, o1, last3);
    assert [o1] + last3 == [o1, o2, o3, o4];
  }

  lemma BitmapOfOne(codec: Codec, v: Bytes, t: Tape)
    requires codec.docs(v) == Some([7]) && codec.accepts(Bitmap, v) && |v| < 1000
    requires t.cursor == Top(FILE_VERSION).(family := Bitmap) && t.length == t.size == 0
    ensures Runs(codec, t.cursor, KeyValue([0], v))
    ensures OpTape(codec, t, KeyValue([0], v)) == Tape(t.cursor, 7, 2, |v| + 9)
    ensures TapeWrites(codec, t, KeyValue([0], v)) == OpWrites(codec, t.cursor, KeyValue([0], v))
         == [Write(AtDocument(MAX32, MAX8, 7), Bit([0]))]
  {
    var u := t.(size := |v| + 9);
    assert [7][1..] == [];
    assert BitTape(u, [7]) == BitTape(Tape(t.cursor, 7, 2, |v| + 9), []);
    assert Bits(MAX32, MAX8, [0], [7]) == [Write(AtDocument(MAX32, MAX8, 7), Bit([0]))];
  }

  lemma PropertyEntry(codec: Codec, p: Bytes, t: Tape)
    requires codec.accepts(Property, p) && t.cursor == Top(FILE_VERSION).(family := Property)
    ensures Runs(codec, t.cursor, KeyValue([5], p))
    ensures TapeWrites(codec, t, KeyValue([5], p)) == [Write(AtDocument(MAX32, MAX8, t.document), Set(Property, [5], p))]
    ensures OpWrites(codec, t.cursor, KeyValue([5], p)) == [Write(AtDocument(MAX32, MAX8, MAX32), Set(Property, [5], p))]
  {
    assert [5][..1] == [5];
  }

  lemma OneMore(codec: Codec, t: Tape, op: Op, ops: seq<Op>)
    requires Runs(codec, t.cursor, op)
    ensures Outcome(codec, t, [op] + ops).writes
         == TapeWrites(codec, t, op) + Outcome(codec, OpTape(codec, t, op), ops).writes
    ensures Meaning(codec, t.cursor, [op] + ops).writes
         == OpWrites(codec, t.cursor, op) + Meaning(codec, Move(t.cursor, op), ops).writes
  {
    assert ([op] + ops)[1..] == ops;
  }

  lemma LastOp(codec: Codec, t: Tape, op: Op)
    requires Runs(codec, t.cursor, op)
    ensures Outcome(codec, t, [op]).writes == TapeWrites(codec, t, op)
    ensures Meaning(codec, t.cursor, [op]).writes == OpWrites(codec, t.cursor, op)
  {
    OneMore(codec, t, op, []);
    assert [op] + [] == [op];
  }

  // ---- Restoring ----

  /** The variables of a restore: the context of the dump, the batch being built and its size,
      and what the store and the blob store have been given so far. */
  class Restorer {
    const codec: Codec
    const version: byte
    var family: Family
    var account: u32
    var collection: byte
    var document: u32
    var queued: nat
    var batch: Batch
    var size: nat
    var written: seq<Batch>
    var blobs: seq<(Bytes, Bytes)>

    constructor (codec: Codec, version: byte)
      ensures this.codec == codec && Now() == Begin(version) && Synced() && written == [] && batch == [] && blobs == []
    {
      this.codec, this.version, queued := codec, version, 0;
      family, account, collection, document := NoFamily, MAX32, MAX8, MAX32;
      batch, size, written, blobs := [], 0, [], [];
    }

    function At(): Cursor
      reads this
    {
      Cursor(version, family, account, collection, document, queued)
    }

    /** All that has been given to the store or waits in the batch. */
    ghost function Total(): seq<Write>
      reads this
    {
      AllEffects(written) + Effects(batch)
    }

    ghost predicate Synced()
      reads this
    {
      After(batch).account == account && After(batch).collection == collection
    }

    ghost function Now(): Tape
      reads this
    {
      Tape(At(), After(batch).document, |batch|, size)
    }

    method Push(op: BatchOp)
      modifies `batch
      ensures After(batch) == Advance(After(old(batch)), op) && |batch| == |old(batch)| + 1
      ensures Total() == old(Total()) + (if op.Do? then [Write(Place(After(old(batch)), op.what), op.what)] else [])
    {
      Snoc(batch, op);
      batch := batch + [op];
      hide After, Effects;
      assert old(Total()) == AllEffects(written) + Effects(old(batch));
    }

    method Send()
      modifies `batch, `written
      ensures batch == [] && After(batch) == START && Total() == old(Total()) && AllEffects(written) == old(Total())
    {
      AllSnoc(written, batch);
      written := written + [batch];
      batch := [];
      assert AllEffects(written) + [] == AllEffects(written);
    }

    /** Gives the batch to the store and starts the next one under the same context. */
    method Flush(withDocument: bool)
      modifies `batch, `written
      ensures Total() == old(Total()) && AllEffects(written) == old(Total())
      ensures After(batch) == Context(account, collection, if withDocument then document else MAX32, MAX_CHANGE)
      ensures |batch| == if withDocument then 3 else 2
    {
      hide Effects, AllEffects, After;
      Send();
      Push(WithAccount(account));
      Push(WithCollection(collection));
      if withDocument { Push(WithDocument(document)); }
    }

    /** One document id and one bit per document, with a flush whenever the batch is full. */
    method PushBitmap(class_: Bytes, docs: seq<u32>)
      requires Synced()
      modifies `batch, `written
      ensures Total() == old(Total()) + Bits(account, collection, class_, docs)
      ensures Synced() && Now() == BitTape(old(Now()), docs)
    {
      hide Effects, AllEffects, After;
      assert docs[0..] == docs;
      for i := 0 to |docs|
        invariant Synced() && BitTape(Now(), docs[i..]) == BitTape(old(Now()), docs)
        invariant Total() == old(Total()) + Bits(account, collection, class_, docs[..i])
      {
        assert docs[i..][0] == docs[i] && docs[i..][1..] == docs[i + 1..];
        assert Bits(account, collection, class_, docs[..i + 1])
            == Bits(account, collection, class_, docs[..i]) + [Write(AtDocument(account, collection, docs[i]), Bit(class_))];
        Push(WithDocument(docs[i]));
        Push(Do(Bit(class_)));
        if |batch| >= MAX_BATCH_OPS {
          Flush(false);
        }
      }
      assert docs[..|docs|] == docs;
    }

    /** A key and its value; next says that the size of the batch is looked at afterwards. */
    method ApplyEntry(k: Bytes, v: Bytes) returns (ok: bool, next: bool)
      requires Synced()
      modifies `batch, `size, `written, `blobs, `queued
      ensures ok == Accepts(codec, old(At()), k, v)
      ensures blobs == old(blobs) + (if ok then Content(old(At()), k, v) else [])
      ensures !ok ==> Total() == old(Total())
      ensures ok ==> Synced() && Now() == EntryTape(codec, old(Now()), k, v) && next == !Unchecked(old(At()), k)
      ensures ok ==> Total() == old(Total()) + DenoteAt(codec, old(At()), old(Now()).document, k, v)
    {
      hide Effects, AllEffects, After, WhatOf;
      ok, next := Accepts(codec, At(), k, v), true;
      if !ok { return; }
      size := size + |k| + |v| + 8;
      if family.FtsIndex? && version <= 1 {
        assert DenoteAt(codec, At(), old(Now()).document, k, v) == [];
      } else if family.Bitmap? {
        if version == 1 && collection == EMAIL && k[0] == TEXT_CLASS {
          assert DenoteAt(codec, At(), old(Now()).document, k, v) == [];
          next := false;
        } else {
          PushBitmap(BitmapPart(k), codec.docs(v).value);
        }
      } else {
        next := PushEntry(k, v);
      }
    }

    /** What comes before the write itself: the change of a log entry, the queueing of an email, or
        the content of a blob. */
    method Prepare(k: Bytes, v: Bytes)
      requires (family.Log? ==> |k| >= 8) && |v| <= size
      modifies `batch, `size, `blobs, `queued
      ensures At() == Move(old(At()), KeyValue(k, v)) && blobs == old(blobs) + Content(old(At()), k, v)
      ensures After(batch) == After(old(batch)).(change := if family.Log? then k[..8] else After(old(batch)).change)
      ensures |batch| == |old(batch)| + (if family.Log? || Queues(old(At())) then 1 else 0)
      ensures size == if Content(old(At()), k, v) != [] then old(size) - |v| else old(size)
      ensures Total() == old(Total()) + if Queues(old(At())) then
                [Write(Place(After(old(batch)), FtsQueue(old(queued), k)), FtsQueue(old(queued), k))] else []
    {
      hide Effects, AllEffects, After;
      if family.Log? {
        Push(WithChange(k[..8]));
      } else if family.Blob? {
        if account != MAX32 && document != MAX32 {
          if version == 1 && collection == EMAIL {
            Push(Do(FtsQueue(queued, k)));
            queued := queued + 1;
          }
        } else {
          size := size - |v|;
          blobs := blobs + [(k, v)];
        }
      }
    }

    /** An entry of any family but bitmaps. */
    method PushEntry(k: Bytes, v: Bytes) returns (next: bool)
      requires Synced() && Accepts(codec, At(), k, v) && !Skipped(At(), k) && !family.Bitmap? && |v| <= size
      modifies `batch, `size, `blobs, `queued
      ensures At() == Move(old(At()), KeyValue(k, v)) && next == !Unchecked(old(At()), k)
      ensures blobs == old(blobs) + Content(old(At()), k, v)
      ensures Synced() && After(batch).document == After(old(batch)).document
      ensures |batch| == |old(batch)| + (if family.Log? || Queues(old(At())) then 2 else 1)
      ensures size == if Content(old(At()), k, v) != [] then old(size) - |v| else old(size)
      ensures Total() == old(Total()) + DenoteAt(codec, old(At()), old(Now()).document, k, v)
    {
      LogsAndLinks(At(), k, v);
      hide Effects, AllEffects, After, WhatOf, Content, Kept;
      var w := WhatOf(At(), k, v);
      ghost var total, c, at := Total(), At(), After(batch);
      Prepare(k, v);
      ghost var pre := if Queues(c) then [Write(AtDocument(c.account, c.collection, at.document), FtsQueue(c.queued, k))] else [];
      assert Total() == total + pre;
      Push(Do(w));
      Associate(total, pre, [Write(Place(After(batch), w), w)]);
      next := !(family.Directory? && k[0] == USED_QUOTA);
    }

    /** One turn of the loop. */
    method Apply(op: Op) returns (ok: bool)
      requires Synced()
      modifies this
      ensures ok == Runs(codec, old(At()), op)
      ensures blobs == old(blobs) + (if ok then OpBlobs(old(At()), op) else [])
      ensures !ok ==> Total() == old(Total())
      ensures ok ==> Synced() && Now() == OpTape(codec, old(Now()), op)
      ensures ok ==> Total() == old(Total()) + TapeWrites(codec, old(Now()), op)
    {
      hide Effects, AllEffects, After, DenoteAt, Content, Accepts, EntryTape, Unchecked;
      ok := true;
      match op {
        case SetFamily(f) =>
          family := f;
        case Account(a) =>
          account := a;
          Push(WithAccount(a));
        case Collection(c) =>
          collection := c;
          Push(WithCollection(c));
        case Document(d) =>
          document := d;
          Push(WithDocument(d));
        case KeyValue(k, v) =>
          var next: bool;
          ok, next := ApplyEntry(k, v);
          if !ok || !next { return; }
      }
      if |batch| >= MAX_BATCH_OPS || size >= MAX_BATCH_SIZE {
        Flush(true);
        size := 0;
      }
    }

    method Finish()
      modifies `batch, `written
      ensures AllEffects(written) == old(Total())
    {
      AllSnoc(written, batch);
      if !Empty(batch) {
        written := written + [batch];
        batch := [];
      } else {
        EmptyEffects(batch);
      }
    }
  }

  function VersionOf(file: Bytes): byte {
    if |file| >= 2 then file[1] else FILE_VERSION
  }

  predicate Readable(file: Bytes) {
    |file| >= 2 && file[0] == MAGIC_MARKER && file[1] <= FILE_VERSION
  }

  /** What a run has done and the outcome of the rest of the dump make up the whole. */
  ghost predicate Remains(codec: Codec, whole: Restored, p: Parsed, t: Tape, blobs: seq<(Bytes, Bytes)>,
                          total: seq<Write>, rest: Bytes) {
    var q := ReadOps(rest);
    var n := Outcome(codec, t, q.ops);
    p.ok == q.ok && whole.ok == n.ok && whole.blobs == blobs + n.blobs && whole.writes == total + n.writes
  }

  lemma RemainsStep(codec: Codec, whole: Restored, p: Parsed, t: Tape, blobs: seq<(Bytes, Bytes)>,
                    total: seq<Write>, rest: Bytes)
    requires Remains(codec, whole, p, t, blobs, total, rest)
    requires ReadOp(rest).Got? && Runs(codec, t.cursor, ReadOp(rest).op)
    ensures var op := ReadOp(rest).op;
            Remains(codec, whole, p, OpTape(codec, t, op), blobs + OpBlobs(t.cursor, op),
                    total + TapeWrites(codec, t, op), ReadOp(rest).rest)
  {
    var op, q := ReadOp(rest).op, ReadOps(ReadOp(rest).rest);
    var n := Outcome(codec, OpTape(codec, t, op), q.ops);
    assert ([op] + q.ops)[1..] == q.ops;
    Associate(blobs, OpBlobs(t.cursor, op), n.blobs);
    Associate(total, TapeWrites(codec, t, op), n.writes);
    hide Runs, TapeWrites, OpBlobs, ReadOp, OpTape;
  }

  lemma RemainsStop(codec: Codec, whole: Restored, p: Parsed, t: Tape, blobs: seq<(Bytes, Bytes)>,
                    total: seq<Write>, rest: Bytes)
    requires Remains(codec, whole, p, t, blobs, total, rest)
    requires ReadOp(rest).Got? ==> !Runs(codec, t.cursor, ReadOp(rest).op)
    ensures (p.ok && whole.ok <==> ReadOp(rest).Eof?) && whole.blobs == blobs && whole.writes == total
  {
    assert blobs + [] == blobs && total + [] == total;
  }

  /** For every file: the batches together hold the writes of its outcome, each once and in order,
      and a file that fails half way leaves a prefix of them. */
  method RestoreFile(codec: Codec, file: Bytes) returns (written: seq<Batch>, blobs: seq<(Bytes, Bytes)>, ok: bool)
    ensures var p := ReadFile(file); var m := Outcome(codec, Begin(VersionOf(file)), p.ops);
            && ok == (p.ok && m.ok) && blobs == m.blobs
            && AllEffects(written) <= m.writes && (ok ==> AllEffects(written) == m.writes)
  {
    if !Readable(file) {
      return [], [], false;
    }
    var reader := new OpReader(file);
    var r := new Restorer(codec, reader.version);
    ghost var p := ReadFile(file);
    ghost var m := Outcome(codec, Begin(VersionOf(file)), p.ops);
    assert Remains(codec, m, p, r.Now(), [], r.Total(), file[2..]) by {
      assert [] + m.blobs == m.blobs && [] + m.writes == m.writes;
    }
    hide Outcome, ReadOp, ReadOps, AllEffects, Effects, After, Remains, Runs, OpTape, TapeWrites, OpBlobs;
    while true
      invariant r.codec == codec && r.Synced()
      invariant Remains(codec, m, p, r.Now(), r.blobs, r.Total(), reader.rest)
      decreases |reader.rest|
    {
      ghost var t, all, left, kept := r.Now(), r.Total(), reader.rest, r.blobs;
      var next := reader.ReadNext();
      match next
      case Eof =>
        RemainsStop(codec, m, p, t, kept, all, left);
        r.Finish();
        return r.written, r.blobs, true;
      case Corrupt =>
        RemainsStop(codec, m, p, t, kept, all, left);
        return r.written, r.blobs, false;
      case Got(op, rest) =>
        var done := r.Apply(op);
        if !done {
          RemainsStop(codec, m, p, t, kept, all, left);
          return r.written, r.blobs, false;
        }
        RemainsStep(codec, m, p, t, kept, all, left);
    }
  }
}
