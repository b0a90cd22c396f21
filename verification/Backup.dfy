/**
 * Dumping the store (crates/common/src/manager/backup.rs). A context operation is sent only
 * when the account, collection or document differs from the one sent last.
 */
module Backup {
  import opened Prelude
  import opened BackupFile
  import opened Restore

  const VALUE: byte := 50

  datatype Record = Record(account: u32, collection: byte, document: u32, key: Bytes, value: Bytes)

  /** A reader of the files this server writes. */
  type Reader = c: Cursor | c.version == FILE_VERSION && c.queued == 0 witness Top(FILE_VERSION)

  const TOP: Reader := Top(FILE_VERSION)

  function At(f: Family, r: Record): Reader {
    Cursor(FILE_VERSION, f, r.account, r.collection, r.document, 0)
  }

  /** When the writer of a family sends the document id. */
  datatype Documents = OnChange | Always | Never

  function Announce(r: Record, mode: Documents, a: u32, c: byte, d: u32): seq<Op> {
    (if r.account != a then [Account(r.account)] else [])
    + (if r.collection != c then [Collection(r.collection)] else [])
    + (if mode.Always? || (mode.OnChange? && r.document != d) then [Document(r.document)] else [])
  }

  /** The operations for the records, given the context that was sent last. */
  function Deltas(mode: Documents, recs: seq<Record>, a: u32, c: byte, d: u32): seq<Op> {
    if recs == [] then []
    else
      var r := recs[0];
      Announce(r, mode, a, c, d)
      + ([KeyValue(r.key, r.value)] + Deltas(mode, recs[1..], r.account, r.collection, r.document))
  }

  /** What the records themselves mean, without any stream. */
  function Replayed(codec: Codec, f: Family, recs: seq<Record>): Restored {
    if recs == [] then Restored([], [], true)
    else
      var r := recs[0];
      if !Decodes(codec, f, r.key, r.value) then Restored([], [], false)
      else
        var c := At(f, r);
        var n := Replayed(codec, f, recs[1..]);
        Restored(Denote(codec, c, r.key, r.value) + n.writes, Content(c, r.key, r.value) + n.blobs, n.ok)
  }

  // ---- A delta stream means its records ----

  function MoveAll(c: Reader, ops: seq<Op>): Reader
    decreases |ops|
  {
    if ops == [] then c else MoveAll(Move(c, ops[0]), ops[1..])
  }

  predicate OnlyContext(ops: seq<Op>) {
    forall i | 0 <= i < |ops| :: !ops[i].KeyValue?
  }

  lemma {:induction false} MeaningContext(codec: Codec, c: Reader, pre: seq<Op>, ops: seq<Op>)
    requires OnlyContext(pre)
    ensures Meaning(codec, c, pre + ops) == Meaning(codec, MoveAll(c, pre), ops)
    decreases |pre|
  {
    if pre == [] {
      assert pre + ops == ops;
    } else {
      assert (pre + ops)[1..] == pre[1..] + ops;
      MeaningContext(codec, Move(c, pre[0]), pre[1..], ops);
      var m := Meaning(codec, Move(c, pre[0]), (pre + ops)[1..]);
      assert [] + m.writes == m.writes && [] + m.blobs == m.blobs;
    }
  }

  lemma MeaningEntry(codec: Codec, c: Reader, k: Bytes, v: Bytes, ops: seq<Op>)
    ensures var m := Meaning(codec, c, ops);
            Meaning(codec, c, [KeyValue(k, v)] + ops)
            == if Decodes(codec, c.family, k, v)
               then Restored(Denote(codec, c, k, v) + m.writes, Content(c, k, v) + m.blobs, m.ok)
               else Restored([], [], false)
  {
    assert ([KeyValue(k, v)] + ops)[1..] == ops;
  }

  lemma ContextSent(r: Record, mode: Documents, c: Reader)
    ensures var pre := Announce(r, mode, c.account, c.collection, c.document);
            && OnlyContext(pre)
            && MoveAll(c, pre) == At(c.family, r).(document := if mode.Never? then c.document else r.document)
  {
    var a := if r.account != c.account then [Account(r.account)] else [];
    var x := if r.collection != c.collection then [Collection(r.collection)] else [];
    var d := if mode.Always? || (mode.OnChange? && r.document != c.document) then [Document(r.document)] else [];
    MoveConcat(c, a + x, d);
    MoveConcat(c, a, x);
  }

  lemma {:induction false} MoveConcat(c: Reader, a: seq<Op>, b: seq<Op>)
    ensures MoveAll(c, a + b) == MoveAll(MoveAll(c, a), b)
    decreases |a|
  {
    if a == [] {
      assert a + b == b;
    } else {
      assert (a + b)[1..] == a[1..] + b;
      MoveConcat(Move(c, a[0]), a[1..], b);
    }
  }

  /** The document does not matter to a log entry. */
  lemma LogAnywhere(codec: Codec, c: Reader, d: u32, k: Bytes, v: Bytes)
    requires c.family.Log? && Decodes(codec, Log, k, v)
    ensures Denote(codec, c, k, v) == Denote(codec, c.(document := d), k, v)
    ensures Content(c, k, v) == Content(c.(document := d), k, v)
  {
  }

  lemma {:induction false} DeltasMean(codec: Codec, c: Reader, mode: Documents, recs: seq<Record>, d: u32)
    requires mode.Never? ==> c.family.Log?
    requires mode.OnChange? ==> c.document == d
    ensures Meaning(codec, c, Deltas(mode, recs, c.account, c.collection, d)) == Replayed(codec, c.family, recs)
    decreases |recs|
  {
    if recs != [] {
      var r := recs[0];
      var pre := Announce(r, mode, c.account, c.collection, d);
      assert pre == Announce(r, mode, c.account, c.collection, c.document);
      var rest := Deltas(mode, recs[1..], r.account, r.collection, r.document);
      var moved := MoveAll(c, pre);
      ContextSent(r, mode, c);
      MeaningContext(codec, c, pre, [KeyValue(r.key, r.value)] + rest);
      MeaningEntry(codec, moved, r.key, r.value, rest);
      DeltasMean(codec, moved, mode, recs[1..], r.document);
      hide Denote, Content, Meaning, MoveAll, Announce;
      if mode.Never? && Decodes(codec, c.family, r.key, r.value) {
        LogAnywhere(codec, moved, r.document, r.key, r.value);
      }
    }
  }

  // ---- One family per dump ----

  predicate OneFamily(ops: seq<Op>) {
    forall i | 0 <= i < |ops| :: !ops[i].SetFamily?
  }

  lemma {:induction false} OneFamilyPlaced(codec: Codec, c: Reader, stale: bool, ops: seq<Op>)
    requires OneFamily(ops) && (stale ==> c.family.Bitmap?)
    ensures Placed(codec, c, stale, ops)
    decreases |ops|
  {
    if ops != [] {
      OneFamilyPlaced(codec, Move(c, ops[0]), StaleAfter(codec, c, stale, ops[0]), ops[1..]);
    }
  }

  /** Everything the restore of a dump depends on: it is read back whole, its writes find their
      document, and it means m. */
  ghost predicate Restores(codec: Codec, ops: seq<Op>, m: Restored) {
    && ReadFile(FileOf(ops)) == Parsed(ops, true)
    && Placed(codec, TOP, false, ops)
    && Meaning(codec, TOP, ops) == m
  }

  lemma DumpRestores(codec: Codec, f: Family, ops: seq<Op>)
    requires f != NoFamily && OneFamily(ops) && AllFramable(ops)
    ensures Restores(codec, [SetFamily(f)] + ops, Meaning(codec, TOP.(family := f), ops))
  {
    var all := [SetFamily(f)] + ops;
    assert all[1..] == ops;
    assert AllFramable(all);
    FileRoundTrip(all);
    OneFamilyPlaced(codec, TOP.(family := f), false, ops);
    MeaningContext(codec, TOP, [SetFamily(f)], ops);
    assert MoveAll(TOP, [SetFamily(f)]) == MoveAll(TOP.(family := f), []);
  }

  predicate Fits(r: Record) {
    |r.key| < U32 && |r.value| < U32
  }

  lemma {:induction false} DeltasFramable(mode: Documents, recs: seq<Record>, a: u32, c: byte, d: u32)
    requires forall i | 0 <= i < |recs| :: Fits(recs[i])
    ensures OneFamily(Deltas(mode, recs, a, c, d)) && AllFramable(Deltas(mode, recs, a, c, d))
    decreases |recs|
  {
    if recs != [] {
      var r := recs[0];
      DeltasFramable(mode, recs[1..], r.account, r.collection, r.document);
      assert Fits(r);
    }
  }

  /** Dumping records and restoring the dump writes every record once, in order and in its own
      context, whichever of the context operations were left out. */
  lemma DeltasRestore(codec: Codec, f: Family, mode: Documents, recs: seq<Record>)
    requires f != NoFamily && (mode.Never? ==> f.Log?)
    requires forall i | 0 <= i < |recs| :: Fits(recs[i])
    ensures Restores(codec, [SetFamily(f)] + Deltas(mode, recs, MAX32, MAX8, MAX32), Replayed(codec, f, recs))
  {
    DeltasFramable(mode, recs, MAX32, MAX8, MAX32);
    DumpRestores(codec, f, Deltas(mode, recs, MAX32, MAX8, MAX32));
    DeltasMean(codec, TOP.(family := f), mode, recs, MAX32);
  }

  // ---- The writers ----

  method SendContext(sent: seq<Op>, r: Record, mode: Documents, a: u32, c: byte, d: u32) returns (ops: seq<Op>)
    ensures ops == sent + Announce(r, mode, a, c, d)
  {
    ops := sent;
    if r.account != a {
      ops := ops + [Account(r.account)];
    }
    if r.collection != c {
      ops := ops + [Collection(r.collection)];
    }
    if mode.Always? || (mode.OnChange? && r.document != d) {
      ops := ops + [Document(r.document)];
    }
  }

  lemma SendStep(mode: Documents, sent: seq<Op>, recs: seq<Record>, i: nat, a: u32, c: byte, d: u32)
    requires i < |recs|
    ensures var r := recs[i];
            sent + Deltas(mode, recs[i..], a, c, d)
            == ((sent + Announce(r, mode, a, c, d)) + [KeyValue(r.key, r.value)])
               + Deltas(mode, recs[i + 1..], r.account, r.collection, r.document)
  {
    var r := recs[i];
    assert recs[i..][1..] == recs[i + 1..];
    var rest := Deltas(mode, recs[i + 1..], r.account, r.collection, r.document);
    hide Announce, Deltas;
    Associate(sent, Announce(r, mode, a, c, d), [KeyValue(r.key, r.value)] + rest);
    Associate(sent + Announce(r, mode, a, c, d), [KeyValue(r.key, r.value)], rest);
  }

  /** The access rights (OnChange), the indexes (Always) and the change log (Never). */
  method SendRecords(f: Family, mode: Documents, recs: seq<Record>) returns (ops: seq<Op>)
    ensures ops == [SetFamily(f)] + Deltas(mode, recs, MAX32, MAX8, MAX32)
  {
    ops := [SetFamily(f)];
    var lastAccount, lastCollection, lastDocument := MAX32, MAX8, MAX32;
    assert recs[0..] == recs;
    for i := 0 to |recs|
      invariant ops + Deltas(mode, recs[i..], lastAccount, lastCollection, lastDocument)
             == [SetFamily(f)] + Deltas(mode, recs, MAX32, MAX8, MAX32)
    {
      var r := recs[i];
      SendStep(mode, ops, recs, i, lastAccount, lastCollection, lastDocument);
      hide Announce, Deltas;
      ops := SendContext(ops, r, mode, lastAccount, lastCollection, lastDocument);
      ops := ops + [KeyValue(r.key, r.value)];
      lastAccount, lastCollection, lastDocument := r.account, r.collection, r.document;
    }
  }

  /** A property, with the mailbox's counter of message ids when that is not zero. */
  datatype Entry = Entry(account: u32, collection: byte, document: u32, field: byte, value: Bytes, counter: Option<Bytes>)

  function RecordsOf(e: Entry): (recs: seq<Record>)
    ensures 1 <= |recs| <= 2
  {
    (if e.collection == MAILBOX && e.field == VALUE && e.counter.Some?
     then [Record(e.account, e.collection, e.document, [EMAIL_IDS], e.counter.value)] else [])
    + [Record(e.account, e.collection, e.document, [e.field], e.value)]
  }

  function PropertyRecords(es: seq<Entry>): seq<Record> {
    if es == [] then [] else RecordsOf(es[0]) + PropertyRecords(es[1..])
  }

  /** One announcement serves all the records of an entry. */
  lemma EntryDeltas(e: Entry, more: seq<Record>, a: u32, c: byte, d: u32)
    ensures var rs := RecordsOf(e);
            Deltas(OnChange, rs + more, a, c, d)
            == Announce(rs[0], OnChange, a, c, d) + (KeyValues(rs) + Deltas(OnChange, more, e.account, e.collection, e.document))
  {
    var rs := RecordsOf(e);
    var rest := Deltas(OnChange, more, e.account, e.collection, e.document);
    assert (rs + more)[1..] == rs[1..] + more;
    if |rs| == 1 {
      assert rs[1..] + more == more;
      assert KeyValues(rs) == [KeyValue(rs[0].key, rs[0].value)];
    } else {
      assert (rs[1..] + more)[1..] == more;
      assert Announce(rs[1], OnChange, e.account, e.collection, e.document) == [];
      assert [] + ([KeyValue(rs[1].key, rs[1].value)] + rest) == [KeyValue(rs[1].key, rs[1].value)] + rest;
      assert KeyValues(rs) == [KeyValue(rs[0].key, rs[0].value)] + [KeyValue(rs[1].key, rs[1].value)];
      Associate([KeyValue(rs[0].key, rs[0].value)], [KeyValue(rs[1].key, rs[1].value)], rest);
    }
  }

  function KeyValues(recs: seq<Record>): (ops: seq<Op>) {
    seq(|recs|, i requires 0 <= i < |recs| => KeyValue(recs[i].key, recs[i].value))
  }

  lemma EntryStep(sent: seq<Op>, es: seq<Entry>, i: nat, a: u32, c: byte, d: u32)
    requires i < |es|
    ensures var e := es[i]; var rs := RecordsOf(e);
            sent + Deltas(OnChange, PropertyRecords(es[i..]), a, c, d)
            == ((sent + Announce(rs[0], OnChange, a, c, d)) + KeyValues(rs))
               + Deltas(OnChange, PropertyRecords(es[i + 1..]), e.account, e.collection, e.document)
  {
    var e := es[i];
    var rs := RecordsOf(e);
    assert es[i..][1..] == es[i + 1..];
    EntryDeltas(e, PropertyRecords(es[i + 1..]), a, c, d);
    var rest := Deltas(OnChange, PropertyRecords(es[i + 1..]), e.account, e.collection, e.document);
    hide Announce, Deltas, KeyValues, RecordsOf;
    Associate(sent, Announce(rs[0], OnChange, a, c, d), KeyValues(rs) + rest);
    Associate(sent + Announce(rs[0], OnChange, a, c, d), KeyValues(rs), rest);
  }

  method SendEntry(sent: seq<Op>, e: Entry, a: u32, c: byte, d: u32) returns (ops: seq<Op>)
    ensures var rs := RecordsOf(e); ops == (sent + Announce(rs[0], OnChange, a, c, d)) + KeyValues(rs)
  {
    var r := Record(e.account, e.collection, e.document, [e.field], e.value);
    ops := SendContext(sent, r, OnChange, a, c, d);
    assert Announce(RecordsOf(e)[0], OnChange, a, c, d) == Announce(r, OnChange, a, c, d);
    hide Announce;
    ghost var pre := ops;
    if e.collection == MAILBOX && e.field == VALUE && e.counter.Some? {
      ops := ops + [KeyValue([EMAIL_IDS], e.counter.value)];
      Associate(pre, [KeyValue([EMAIL_IDS], e.counter.value)], [KeyValue([e.field], e.value)]);
      assert KeyValues(RecordsOf(e)) == [KeyValue([EMAIL_IDS], e.counter.value)] + [KeyValue([e.field], e.value)];
    } else {
      assert KeyValues(RecordsOf(e)) == [KeyValue([e.field], e.value)];
    }
    ops := ops + [KeyValue([e.field], e.value)];
  }

  method BackupProperties(es: seq<Entry>) returns (ops: seq<Op>)
    ensures ops == [SetFamily(Property)] + Deltas(OnChange, PropertyRecords(es), MAX32, MAX8, MAX32)
  {
    ops := [SetFamily(Property)];
    var lastAccount, lastCollection, lastDocument := MAX32, MAX8, MAX32;
    assert es[0..] == es;
    for i := 0 to |es|
      invariant ops + Deltas(OnChange, PropertyRecords(es[i..]), lastAccount, lastCollection, lastDocument)
             == [SetFamily(Property)] + Deltas(OnChange, PropertyRecords(es), MAX32, MAX8, MAX32)
    {
      var e := es[i];
      EntryStep(ops, es, i, lastAccount, lastCollection, lastDocument);
      hide Announce, Deltas, PropertyRecords, RecordsOf, KeyValues;
      ops := SendEntry(ops, e, lastAccount, lastCollection, lastDocument);
      lastAccount, lastCollection, lastDocument := e.account, e.collection, e.document;
    }
  }

  // ---- Blobs and bitmaps ----

  /** Two parts of a dump, the second only if the first decodes. */
  function Join(x: Restored, y: Restored): Restored {
    if x.ok then Restored(x.writes + y.writes, x.blobs + y.blobs, y.ok) else x
  }

  lemma {:induction false} MeaningConcat(codec: Codec, c: Reader, a: seq<Op>, b: seq<Op>)
    ensures Meaning(codec, c, a + b) == Join(Meaning(codec, c, a), Meaning(codec, MoveAll(c, a), b))
    decreases |a|
  {
    if a == [] {
      assert a + b == b;
      var m := Meaning(codec, c, b);
      assert [] + m.writes == m.writes && [] + m.blobs == m.blobs;
    } else if Runs(codec, c, a[0]) {
      assert (a + b)[1..] == a[1..] + b;
      MeaningConcat(codec, Move(c, a[0]), a[1..], b);
      var m, n := Meaning(codec, Move(c, a[0]), a[1..]), Meaning(codec, MoveAll(c, a), b);
      Associate(OpWrites(codec, c, a[0]), m.writes, n.writes);
      Associate(OpBlobs(c, a[0]), m.blobs, n.blobs);
      hide OpWrites, OpBlobs, Runs, Move;
    }
  }

  lemma {:induction false} ReplayedConcat(codec: Codec, f: Family, a: seq<Record>, b: seq<Record>)
    ensures Replayed(codec, f, a + b) == Join(Replayed(codec, f, a), Replayed(codec, f, b))
    decreases |a|
  {
    if a == [] {
      assert a + b == b;
      var m := Replayed(codec, f, b);
      assert [] + m.writes == m.writes && [] + m.blobs == m.blobs;
    } else if Decodes(codec, f, a[0].key, a[0].value) {
      assert (a + b)[1..] == a[1..] + b;
      ReplayedConcat(codec, f, a[1..], b);
      var r, m, n := a[0], Replayed(codec, f, a[1..]), Replayed(codec, f, b);
      var c := At(f, r);
      Associate(Denote(codec, c, r.key, r.value), m.writes, n.writes);
      Associate(Content(c, r.key, r.value), m.blobs, n.blobs);
      hide Denote, Content, Decodes;
    }
  }

  /** The entry means the same at the cursor as in the context of the record: a bitmap names its
      own documents, and the content of a blob belongs to none. */
  predicate Alike(c: Reader, r: Record) {
    || (c.family.Bitmap? && c.account == r.account && c.collection == r.collection)
    || (c.family.Blob? && !Linked(c) && !Linked(At(Blob, r)))
    || (c.account == r.account && c.collection == r.collection && c.document == r.document)
  }

  predicate AllAlike(c: Reader, recs: seq<Record>) {
    forall r <- recs :: Alike(c, r)
  }

  lemma AlikeMean(codec: Codec, c: Reader, r: Record)
    requires Alike(c, r) && Decodes(codec, c.family, r.key, r.value)
    ensures var at := At(c.family, r);
            && Denote(codec, c, r.key, r.value) == Denote(codec, at, r.key, r.value)
            && Content(c, r.key, r.value) == Content(at, r.key, r.value)
  {
  }

  lemma {:induction false} KeyValuesMean(codec: Codec, c: Reader, recs: seq<Record>)
    requires AllAlike(c, recs)
    ensures Meaning(codec, c, KeyValues(recs)) == Replayed(codec, c.family, recs)
    ensures MoveAll(c, KeyValues(recs)) == c
    decreases |recs|
  {
    if recs != [] {
      var r := recs[0];
      assert KeyValues(recs)[1..] == KeyValues(recs[1..]);
      KeyValuesMean(codec, c, recs[1..]);
      if Decodes(codec, c.family, r.key, r.value) {
        assert Alike(c, recs[0]);
        AlikeMean(codec, c, r);
      }
      hide Denote, Content, Decodes, Alike;
    }
  }

  /** The links in the store: the key holds the hash of the blob. */
  function LinkRecords(links: seq<Record>): seq<Record> {
    if links == [] then []
    else
      var r := links[0];
      (if Linked(At(Blob, r)) then [r.(value := [])] else []) + LinkRecords(links[1..])
  }

  function Unlinked(links: seq<Record>): seq<Bytes> {
    if links == [] then []
    else
      var r := links[0];
      (if Linked(At(Blob, r)) then [] else [r.key]) + Unlinked(links[1..])
  }

  /** The blobs of the hashes that the blob store has. */
  function ContentRecords(hashes: seq<Bytes>, blob: Bytes -> Option<Bytes>): seq<Record> {
    if hashes == [] then []
    else
      (if blob(hashes[0]).Some? then [Record(MAX32, MAX8, MAX32, hashes[0], blob(hashes[0]).value)] else [])
      + ContentRecords(hashes[1..], blob)
  }

  function LinkOp(r: Record): seq<Op> {
    [Account(r.account), Collection(r.collection), Document(r.document), KeyValue(r.key, [])]
  }

  function LinkOps(recs: seq<Record>): seq<Op> {
    if recs == [] then [] else LinkOp(recs[0]) + LinkOps(recs[1..])
  }

  function BlobOps(links: seq<Record>, blob: Bytes -> Option<Bytes>): seq<Op> {
    LinkOps(LinkRecords(links))
    + if Unlinked(links) == [] then []
      else [Account(MAX32), Document(MAX32)] + KeyValues(ContentRecords(Unlinked(links), blob))
  }

  lemma {:induction false} LinkOpsMean(codec: Codec, c: Reader, recs: seq<Record>)
    requires c.family.Blob? && forall i | 0 <= i < |recs| :: recs[i].value == []
    ensures Meaning(codec, c, LinkOps(recs)) == Replayed(codec, Blob, recs)
    ensures MoveAll(c, LinkOps(recs)).family == Blob
    decreases |recs|
  {
    if recs != [] {
      var r := recs[0];
      var pre := [Account(r.account), Collection(r.collection), Document(r.document)];
      var rest := LinkOps(recs[1..]);
      var moved := At(Blob, r);
      assert LinkOps(recs) == pre + ([KeyValue(r.key, r.value)] + rest);
      AnnounceAll(c, r);
      MeaningContext(codec, c, pre, [KeyValue(r.key, r.value)] + rest);
      MoveConcat(c, pre, [KeyValue(r.key, r.value)] + rest);
      MeaningEntry(codec, moved, r.key, r.value, rest);
      assert ([KeyValue(r.key, r.value)] + rest)[1..] == rest;
      LinkOpsMean(codec, moved, recs[1..]);
      hide Denote, Content, Decodes, Meaning, LinkOps;
    }
  }

  lemma AnnounceAll(c: Reader, r: Record)
    ensures MoveAll(c, [Account(r.account), Collection(r.collection), Document(r.document)])
         == At(c.family, r)
  {
    MoveConcat(c, [Account(r.account)], [Collection(r.collection)]);
    MoveConcat(c, [Account(r.account), Collection(r.collection)], [Document(r.document)]);
  }

  lemma {:induction false} LinkRecordsEmpty(links: seq<Record>)
    ensures forall i | 0 <= i < |LinkRecords(links)| :: LinkRecords(links)[i].value == []
  {
    if links != [] { LinkRecordsEmpty(links[1..]); }
  }

  lemma {:induction false} ContentAlike(c: Reader, hashes: seq<Bytes>, blob: Bytes -> Option<Bytes>)
    requires c.family.Blob? && !Linked(c)
    ensures AllAlike(c, ContentRecords(hashes, blob))
  {
    if hashes != [] { ContentAlike(c, hashes[1..], blob); }
  }

  lemma BlobOpsMean(codec: Codec, c: Reader, links: seq<Record>, blob: Bytes -> Option<Bytes>)
    requires c.family.Blob?
    ensures Meaning(codec, c, BlobOps(links, blob))
         == Replayed(codec, Blob, LinkRecords(links) + ContentRecords(Unlinked(links), blob))
  {
    var linked, hashes := LinkRecords(links), Unlinked(links);
    var contents := ContentRecords(hashes, blob);
    LinkRecordsEmpty(links);
    LinkOpsMean(codec, c, linked);
    ReplayedConcat(codec, Blob, linked, contents);
    if hashes == [] {
      assert linked + contents == linked && LinkOps(linked) + [] == LinkOps(linked);
    } else {
      var pre := [Account(MAX32), Document(MAX32)];
      var at := MoveAll(c, LinkOps(linked));
      var top := MoveAll(at, pre);
      MoveConcat(at, [Account(MAX32)], [Document(MAX32)]);
      MeaningConcat(codec, c, LinkOps(linked), pre + KeyValues(contents));
      MeaningContext(codec, at, pre, KeyValues(contents));
      assert top == at.(account := MAX32, document := MAX32);
      hide LinkRecords, LinkOps, ContentRecords, Unlinked, Meaning, Replayed, KeyValues;
      ContentAlike(top, hashes, blob);
      KeyValuesMean(codec, top, contents);
    }
  }

  lemma {:induction false} LinkOpsOneFamily(recs: seq<Record>)
    ensures OneFamily(LinkOps(recs))
  {
    if recs != [] { LinkOpsOneFamily(recs[1..]); }
  }

  /** Every link comes back as a link of the same document; every other hash that the blob store
      has comes back with its content and is committed. */
  lemma BlobsRestore(codec: Codec, links: seq<Record>, blob: Bytes -> Option<Bytes>)
    requires AllFramable(BlobOps(links, blob))
    ensures Restores(codec, [SetFamily(Blob)] + BlobOps(links, blob),
                     Replayed(codec, Blob, LinkRecords(links) + ContentRecords(Unlinked(links), blob)))
  {
    LinkOpsOneFamily(LinkRecords(links));
    DumpRestores(codec, Blob, BlobOps(links, blob));
    BlobOpsMean(codec, TOP.(family := Blob), links, blob);
  }

  /** The bitmaps of a collection, by class; None where the store has none any more. */
  datatype Group = Group(account: u32, collection: byte, classes: seq<(Bytes, Option<Bytes>)>)

  function ClassRecords(a: u32, c: byte, classes: seq<(Bytes, Option<Bytes>)>): seq<Record> {
    if classes == [] then []
    else
      (if classes[0].1.Some? then [Record(a, c, MAX32, classes[0].0, classes[0].1.value)] else [])
      + ClassRecords(a, c, classes[1..])
  }

  function BitmapRecords(groups: seq<Group>): seq<Record> {
    if groups == [] then []
    else ClassRecords(groups[0].account, groups[0].collection, groups[0].classes) + BitmapRecords(groups[1..])
  }

  function GroupOps(g: Group): seq<Op> {
    [Account(g.account), Collection(g.collection)] + KeyValues(ClassRecords(g.account, g.collection, g.classes))
  }

  function BitmapOps(groups: seq<Group>): seq<Op> {
    if groups == [] then [] else GroupOps(groups[0]) + BitmapOps(groups[1..])
  }

  lemma {:induction false} ClassesAlike(c: Reader, classes: seq<(Bytes, Option<Bytes>)>)
    requires c.family.Bitmap?
    ensures AllAlike(c, ClassRecords(c.account, c.collection, classes))
  {
    if classes != [] { ClassesAlike(c, classes[1..]); }
  }

  lemma GroupMean(codec: Codec, c: Reader, g: Group)
    requires c.family.Bitmap?
    ensures Meaning(codec, c, GroupOps(g)) == Replayed(codec, Bitmap, ClassRecords(g.account, g.collection, g.classes))
    ensures MoveAll(c, GroupOps(g)).family == Bitmap
  {
    var pre := [Account(g.account), Collection(g.collection)];
    var recs := ClassRecords(g.account, g.collection, g.classes);
    var at := MoveAll(c, pre);
    MoveConcat(c, [Account(g.account)], [Collection(g.collection)]);
    MoveConcat(c, pre, KeyValues(recs));
    MeaningContext(codec, c, pre, KeyValues(recs));
    ClassesAlike(at, g.classes);
    KeyValuesMean(codec, at, recs);
  }

  lemma {:induction false} BitmapOpsMean(codec: Codec, c: Reader, groups: seq<Group>)
    requires c.family.Bitmap?
    ensures Meaning(codec, c, BitmapOps(groups)) == Replayed(codec, Bitmap, BitmapRecords(groups))
    decreases |groups|
  {
    if groups != [] {
      var g, more := groups[0], groups[1..];
      var at := MoveAll(c, GroupOps(g));
      GroupMean(codec, c, g);
      MeaningConcat(codec, c, GroupOps(g), BitmapOps(more));
      BitmapOpsMean(codec, at, more);
      ReplayedConcat(codec, Bitmap, ClassRecords(g.account, g.collection, g.classes), BitmapRecords(more));
      hide Meaning, Replayed, GroupOps, ClassRecords;
    }
  }

  lemma {:induction false} BitmapOpsOneFamily(groups: seq<Group>)
    ensures OneFamily(BitmapOps(groups))
  {
    if groups != [] { BitmapOpsOneFamily(groups[1..]); }
  }

  /** Every document of every bitmap gets its bit back, although a bitmap may be spread over
      several batches. */
  lemma BitmapsRestore(codec: Codec, groups: seq<Group>)
    requires AllFramable(BitmapOps(groups))
    ensures Restores(codec, [SetFamily(Bitmap)] + BitmapOps(groups), Replayed(codec, Bitmap, BitmapRecords(groups)))
  {
    BitmapOpsOneFamily(groups);
    DumpRestores(codec, Bitmap, BitmapOps(groups));
    BitmapOpsMean(codec, TOP.(family := Bitmap), groups);
  }

  // ---- Their writers ----

  lemma LinkStep(sent: seq<Op>, hashes: seq<Bytes>, links: seq<Record>, i: nat)
    requires i < |links|
    ensures var r := links[i]; var linked := Linked(At(Blob, r));
            && sent + LinkOps(LinkRecords(links[i..]))
               == (sent + if linked then LinkOp(r) else []) + LinkOps(LinkRecords(links[i + 1..]))
            && hashes + Unlinked(links[i..]) == (hashes + if linked then [] else [r.key]) + Unlinked(links[i + 1..])
  {
    var r := links[i];
    var linked := Linked(At(Blob, r));
    assert links[i..][1..] == links[i + 1..];
    var rest := LinkRecords(links[i + 1..]);
    if linked {
      assert ([r.(value := [])] + rest)[1..] == rest;
      Associate(sent, LinkOp(r), LinkOps(rest));
      assert [] + Unlinked(links[i + 1..]) == Unlinked(links[i + 1..]);
    } else {
      assert [] + rest == rest;
      Associate(hashes, [r.key], Unlinked(links[i + 1..]));
    }
  }

  lemma ContentStep(sent: seq<Op>, hashes: seq<Bytes>, blob: Bytes -> Option<Bytes>, i: nat)
    requires i < |hashes|
    ensures sent + KeyValues(ContentRecords(hashes[i..], blob))
         == (sent + if blob(hashes[i]).Some? then [KeyValue(hashes[i], blob(hashes[i]).value)] else [])
            + KeyValues(ContentRecords(hashes[i + 1..], blob))
  {
    assert hashes[i..][1..] == hashes[i + 1..];
    var rest := ContentRecords(hashes[i + 1..], blob);
    if blob(hashes[i]).Some? {
      var kv := KeyValue(hashes[i], blob(hashes[i]).value);
      assert KeyValues(ContentRecords(hashes[i..], blob)) == [kv] + KeyValues(rest);
      Associate(sent, [kv], KeyValues(rest));
    } else {
      assert [] + rest == rest;
    }
  }

  lemma NoLinks(links: seq<Record>)
    requires links == []
    ensures LinkOps(LinkRecords(links)) == [] && Unlinked(links) == []
  {
  }

  method SendLink(sent: seq<Op>, r: Record) returns (ops: seq<Op>)
    ensures ops == sent + LinkOp(r)
  {
    ops := sent + [Account(r.account)];
    ops := ops + [Collection(r.collection)];
    ops := ops + [Document(r.document)];
    ops := ops + [KeyValue(r.key, [])];
  }

  method SendLinks(links: seq<Record>) returns (ops: seq<Op>, hashes: seq<Bytes>)
    ensures ops == [SetFamily(Blob)] + LinkOps(LinkRecords(links)) && hashes == Unlinked(links)
  {
    hide LinkOps, LinkRecords, Unlinked, LinkOp;
    ops, hashes := [SetFamily(Blob)], [];
    assert links[0..] == links;
    for i := 0 to |links|
      invariant ops + LinkOps(LinkRecords(links[i..])) == [SetFamily(Blob)] + LinkOps(LinkRecords(links))
      invariant hashes + Unlinked(links[i..]) == Unlinked(links)
    {
      var r := links[i];
      LinkStep(ops, hashes, links, i);
      if r.account != MAX32 && r.document != MAX32 {
        ops := SendLink(ops, r);
      } else {
        hashes := hashes + [r.key];
      }
    }
    NoLinks(links[|links|..]);
  }

  method BackupBlobs(links: seq<Record>, blob: Bytes -> Option<Bytes>) returns (ops: seq<Op>)
    ensures ops == [SetFamily(Blob)] + BlobOps(links, blob)
  {
    hide LinkOps, LinkRecords, Unlinked, ContentRecords, KeyValues;
    var hashes;
    ops, hashes := SendLinks(links);
    if hashes != [] {
      Associate([SetFamily(Blob)], LinkOps(LinkRecords(links)),
                [Account(MAX32), Document(MAX32)] + KeyValues(ContentRecords(hashes, blob)));
      ops := SendContents(ops, hashes, blob);
    }
  }

  method SendContents(sent: seq<Op>, hashes: seq<Bytes>, blob: Bytes -> Option<Bytes>) returns (ops: seq<Op>)
    ensures ops == sent + ([Account(MAX32), Document(MAX32)] + KeyValues(ContentRecords(hashes, blob)))
  {
    Associate(sent, [Account(MAX32), Document(MAX32)], KeyValues(ContentRecords(hashes, blob)));
    ops := sent + [Account(MAX32), Document(MAX32)];
    assert hashes[0..] == hashes;
    for i := 0 to |hashes|
      invariant ops + KeyValues(ContentRecords(hashes[i..], blob))
             == (sent + [Account(MAX32), Document(MAX32)]) + KeyValues(ContentRecords(hashes, blob))
    {
      ContentStep(ops, hashes, blob, i);
      hide KeyValues, ContentRecords;
      var content := blob(hashes[i]);
      if content.Some? {
        ops := ops + [KeyValue(hashes[i], content.value)];
      }
    }
    assert ContentRecords(hashes[|hashes|..], blob) == [];
  }

  lemma ClassStep(sent: seq<Op>, g: Group, i: nat)
    requires i < |g.classes|
    ensures var k := g.classes[i];
            sent + KeyValues(ClassRecords(g.account, g.collection, g.classes[i..]))
            == (sent + if k.1.Some? then [KeyValue(k.0, k.1.value)] else [])
               + KeyValues(ClassRecords(g.account, g.collection, g.classes[i + 1..]))
  {
    var k := g.classes[i];
    assert g.classes[i..][1..] == g.classes[i + 1..];
    var rest := ClassRecords(g.account, g.collection, g.classes[i + 1..]);
    if k.1.Some? {
      assert KeyValues(ClassRecords(g.account, g.collection, g.classes[i..])) == [KeyValue(k.0, k.1.value)] + KeyValues(rest);
      Associate(sent, [KeyValue(k.0, k.1.value)], KeyValues(rest));
    } else {
      assert [] + rest == rest;
    }
  }

  method SendGroup(sent: seq<Op>, g: Group) returns (ops: seq<Op>)
    ensures ops == sent + GroupOps(g)
  {
    var pre := [Account(g.account), Collection(g.collection)];
    ghost var all := KeyValues(ClassRecords(g.account, g.collection, g.classes));
    Associate(sent, pre, all);
    ops := sent + pre;
    assert g.classes[0..] == g.classes;
    for i := 0 to |g.classes|
      invariant ops + KeyValues(ClassRecords(g.account, g.collection, g.classes[i..])) == (sent + pre) + all
    {
      ClassStep(ops, g, i);
      hide KeyValues, ClassRecords;
      var k := g.classes[i];
      if k.1.Some? {
        ops := ops + [KeyValue(k.0, k.1.value)];
      }
    }
    assert ClassRecords(g.account, g.collection, g.classes[|g.classes|..]) == [];
  }

  method BackupBitmaps(groups: seq<Group>) returns (ops: seq<Op>)
    ensures ops == [SetFamily(Bitmap)] + BitmapOps(groups)
  {
    ops := [SetFamily(Bitmap)];
    assert groups[0..] == groups;
    for i := 0 to |groups|
      invariant ops + BitmapOps(groups[i..]) == [SetFamily(Bitmap)] + BitmapOps(groups)
    {
      assert groups[i..][1..] == groups[i + 1..];
      Associate(ops, GroupOps(groups[i]), BitmapOps(groups[i + 1..]));
      hide GroupOps;
      ops := SendGroup(ops, groups[i]);
    }
  }

  /** From the operations through the file to the store. */
  method DumpAndRestore(codec: Codec, ops: seq<Op>, ghost m: Restored)
    returns (written: seq<Batch>, blobs: seq<(Bytes, Bytes)>, ok: bool)
    requires Restores(codec, ops, m)
    ensures ok == m.ok && blobs == m.blobs && AllEffects(written) <= m.writes
    ensures ok ==> AllEffects(written) == m.writes
  {
    PlacedOutcome(codec, Begin(FILE_VERSION), false, ops);
    var file := WriteFile(ops);
    written, blobs, ok := RestoreFile(codec, file);
  }
}
