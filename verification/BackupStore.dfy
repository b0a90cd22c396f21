/**
 * Backup and restore on the contents of the store: what is read out of it, dumped and restored
 * into an empty one is what it holds afterwards.
 */
module BackupStore {
  import opened Prelude
  import opened BackupFile
  import opened StoreKeys
  import opened Restore
  import opened Backup

  /** The key a write goes to: its address, and the write without its value. */
  datatype Slot = Slot(at: Address, kind: What)

  function SlotOf(w: Write): Slot {
    Slot(w.at, match w.what
               case Set(f, k, _) => Set(f, k, [])
               case Add(f, k, _) => Add(f, k, [])
               case LogEntry(_) => LogEntry([])
               case what => what)
  }

  function ValueOf(w: Write): Bytes {
    match w.what
    case Set(_, _, v) => v
    case Add(_, _, v) => v
    case LogEntry(v) => v
    case _ => []
  }

  /** Running writes on a store: a counter that is there is added to, all else is replaced. */
  function Store(plus: (Bytes, Bytes) -> Bytes, ws: seq<Write>): map<Slot, Bytes> {
    if ws == [] then map[]
    else
      var n := |ws| - 1;
      var before, slot := Store(plus, ws[..n]), SlotOf(ws[n]);
      before[slot := if ws[n].what.Add? && slot in before then plus(before[slot], ValueOf(ws[n])) else ValueOf(ws[n])]
  }

  predicate Distinct(slots: seq<Slot>) {
    forall i, j | 0 <= i < j < |slots| :: slots[i] != slots[j]
  }

  /** The store holds these values in these slots and nothing else. */
  ghost predicate Holds(store: map<Slot, Bytes>, slots: seq<Slot>, values: seq<Bytes>)
    requires |slots| == |values|
  {
    && (forall i | 0 <= i < |slots| :: slots[i] in store && store[slots[i]] == values[i])
    && (forall s <- store :: s in slots)
  }

  function Slots(ws: seq<Write>): (r: seq<Slot>)
    ensures |r| == |ws|
  {
    seq(|ws|, i requires 0 <= i < |ws| => SlotOf(ws[i]))
  }

  function Values(ws: seq<Write>): (r: seq<Bytes>)
    ensures |r| == |ws|
  {
    seq(|ws|, i requires 0 <= i < |ws| => ValueOf(ws[i]))
  }

  lemma {:induction false} StoreHolds(plus: (Bytes, Bytes) -> Bytes, ws: seq<Write>)
    requires Distinct(Slots(ws))
    ensures Holds(Store(plus, ws), Slots(ws), Values(ws))
    decreases |ws|
  {
    if ws != [] {
      var n := |ws| - 1;
      var before := Store(plus, ws[..n]);
      assert Slots(ws[..n]) == Slots(ws)[..n] && Values(ws[..n]) == Values(ws)[..n];
      StoreHolds(plus, ws[..n]);
      assert Slots(ws)[n] == SlotOf(ws[n]);
      assert Slots(ws)[n] !in Slots(ws)[..n];
      forall i | 0 <= i < |ws|
        ensures Slots(ws)[i] in Store(plus, ws) && Store(plus, ws)[Slots(ws)[i]] == Values(ws)[i]
      {
        if i < n { assert Slots(ws)[..n][i] in before && before[Slots(ws)[..n][i]] == Values(ws)[..n][i]; }
      }
    }
  }

  // ---- Where an entry goes ----

  /** Which keys of one family have the same part kept. */
  predicate SameKey(f: Family, k: Bytes, l: Bytes)
    requires Formed(f, k) && Formed(f, l)
  {
    match f
    case Property => k[0] == l[0]
    case Acl => k[..4] == l[..4]
    case FtsIndex => Kept(FtsIndex, k) == Kept(FtsIndex, l)
    case Queue => if k[0] == 0 then k[..9] == l[..9] else l[0] == 1 && k[..17] == l[..17]
    case Directory =>
      if k[0] == 2 || k[0] == 4 then k[0] == l[0] && UnLeb(k[1..], 5).value % U32 == UnLeb(l[1..], 5).value % U32
      else if k[0] == 5 || k[0] == 6 then k[0] == l[0] && k[..9] == l[..9]
      else k == l
    case _ => k == l
  }

  lemma DirectoryKeys(k: Bytes, l: Bytes)
    requires Formed(Directory, k) && Formed(Directory, l)
    ensures Kept(Directory, k) == Kept(Directory, l) <==> SameKey(Directory, k, l)
  {
    var p, q := Kept(Directory, k), Kept(Directory, l);
    assert p[0] == k[0] && q[0] == l[0];
    if k[0] == 2 || k[0] == 4 {
      if p == q {
        assert p[1..] == Leb(UnLeb(k[1..], 5).value % U32) && q[1..] == Leb(UnLeb(l[1..], 5).value % U32);
        LebInjective(UnLeb(k[1..], 5).value % U32, UnLeb(l[1..], 5).value % U32);
      }
    }
  }

  lemma KeysApart(f: Family, k: Bytes, l: Bytes)
    requires !f.Bitmap? && Formed(f, k) && Formed(f, l)
    ensures Kept(f, k) == Kept(f, l) <==> SameKey(f, k, l)
    ensures f.Property? || f.Directory? ==> (SameKey(f, k, l) ==> k[0] == l[0])
  {
    if f.Directory? {
      DirectoryKeys(k, l);
    } else if f.Property? {
      assert k[..1] == [k[0]] && l[..1] == [l[0]];
    } else if f.Queue? {
      assert Kept(f, k)[0] == k[0] && Kept(f, l)[0] == l[0];
      if k[0] == 0 && SameKey(f, k, l) { assert k[..9][0] == l[..9][0]; }
    }
  }

  /** The parts of the context and of the key that tell the entries of a family apart: one byte of
      a property, four of an access right, the token of an index, the number of a principal. */
  predicate SamePlace(c: Reader, k: Bytes, e: Reader, l: Bytes)
    requires c.family == e.family && Formed(c.family, k) && Formed(e.family, l)
  {
    var sameCollection := c.account == e.account && c.collection == e.collection;
    var sameDocument := sameCollection && c.document == e.document;
    match c.family
    case Log => sameCollection && k[..8] == l[..8]
    case Blob => k == l && Linked(c) == Linked(e) && (Linked(c) ==> sameDocument)
    case Property => SameKey(c.family, k, l) && sameDocument
    case Acl => SameKey(c.family, k, l) && sameDocument
    case FtsIndex => SameKey(c.family, k, l) && sameDocument
    case Index => SameKey(c.family, k, l) && sameDocument
    case _ => SameKey(c.family, k, l)
  }

  /** The slot of an entry, which the value has no part in. */
  function EntrySlot(c: Reader, k: Bytes): Slot
    requires Formed(c.family, k)
  {
    var w := WhatOf(c, k, []);
    Slot(Place(Context(c.account, c.collection, c.document, if |k| >= 8 then k[..8] else MAX_CHANGE), w), w)
  }

  lemma OneEntry(codec: Codec, c: Reader, k: Bytes, v: Bytes)
    requires Decodes(codec, c.family, k, v) && !c.family.Bitmap?
    ensures var ws := Denote(codec, c, k, v); |ws| == 1 && SlotOf(ws[0]) == EntrySlot(c, k)
  {
    hide Kept, Formed;
  }

  lemma SameFamily(c: Reader, k: Bytes, e: Reader, l: Bytes)
    requires c.family == e.family && !c.family.Bitmap? && Formed(c.family, k) && Formed(e.family, l)
    ensures EntrySlot(c, k) == EntrySlot(e, l) <==> SamePlace(c, k, e, l)
  {
    KeysApart(c.family, k, l);
    if c.family.Blob? { assert Kept(Blob, k) == k && Kept(Blob, l) == l; }
    hide Kept, SameKey;
  }

  lemma TwoFamilies(c: Reader, k: Bytes, e: Reader, l: Bytes)
    requires c.family != e.family && !c.family.Bitmap? && !e.family.Bitmap? && Formed(c.family, k) && Formed(e.family, l)
    ensures EntrySlot(c, k).kind != EntrySlot(e, l).kind
  {
    hide Kept;
  }

  /** Two entries of a dump go to the same slot, so that one can replace the other, exactly if
      they are of one family and in one place; the values do not matter. */
  lemma SlotsApart(codec: Codec, c: Reader, k: Bytes, v: Bytes, e: Reader, l: Bytes, u: Bytes)
    requires Decodes(codec, c.family, k, v) && Decodes(codec, e.family, l, u) && !c.family.Bitmap? && !e.family.Bitmap?
    ensures var a, b := Denote(codec, c, k, v), Denote(codec, e, l, u);
            && |a| == |b| == 1
            && (SlotOf(a[0]) == SlotOf(b[0]) <==> c.family == e.family && SamePlace(c, k, e, l))
  {
    OneEntry(codec, c, k, v);
    OneEntry(codec, e, l, u);
    if c.family == e.family { SameFamily(c, k, e, l); } else { TwoFamilies(c, k, e, l); }
    hide Denote, EntrySlot, SamePlace, Formed, SlotOf;
  }

  // ---- The families with one write per record ----

  predicate Simple(f: Family) {
    f.Property? || f.FtsIndex? || f.Acl? || f.Index? || f.Log?
  }

  function Start(k: Bytes, n: nat): Bytes {
    if |k| >= n then k[..n] else k
  }

  function RecordSlot(f: Family, r: Record): Slot {
    var at, k := AtDocument(r.account, r.collection, r.document), r.key;
    match f
    case Log => Slot(AtChange(r.account, r.collection, Start(k, 8)), LogEntry([]))
    case Index => Slot(at, IndexKey(k))
    case Property =>
      var field := Start(k, 1);
      Slot(at, if r.collection == MAILBOX && field == [EMAIL_IDS] then Add(Property, field, []) else Set(Property, field, []))
    case Acl => Slot(at, Set(Acl, Start(k, 4), []))
    case FtsIndex => Slot(at, Set(FtsIndex, if |k| == 9 then TokenPart(k[..8], k[8]) else k, []))
    case _ => Slot(at, Set(f, k, []))
  }

  function RecordValue(f: Family, r: Record): Bytes {
    if f.Index? then [] else r.value
  }

  /** The record can be written to a dump and decoded again. */
  predicate Sane(codec: Codec, f: Family, r: Record) {
    Fits(r) && Decodes(codec, f, r.key, r.value)
  }

  lemma OneWrite(codec: Codec, f: Family, r: Record)
    requires Simple(f) && Sane(codec, f, r)
    ensures var c := At(f, r);
            var ws := Denote(codec, c, r.key, r.value);
            |ws| == 1 && SlotOf(ws[0]) == RecordSlot(f, r) && ValueOf(ws[0]) == RecordValue(f, r)
  {
    if f.Property? { assert r.key[..1] == [r.key[0]]; }
    hide TokenPart, BitmapPart, UnLeb, Leb;
  }

  function RecordSlots(f: Family, recs: seq<Record>): (r: seq<Slot>)
    ensures |r| == |recs|
  {
    seq(|recs|, i requires 0 <= i < |recs| => RecordSlot(f, recs[i]))
  }

  function RecordValues(f: Family, recs: seq<Record>): (r: seq<Bytes>)
    ensures |r| == |recs|
  {
    seq(|recs|, i requires 0 <= i < |recs| => RecordValue(f, recs[i]))
  }

  predicate AllSane(codec: Codec, f: Family, recs: seq<Record>) {
    forall i | 0 <= i < |recs| :: Sane(codec, f, recs[i])
  }

  lemma ConsWrites(w: Write, ws: seq<Write>)
    ensures Slots([w] + ws) == [SlotOf(w)] + Slots(ws) && Values([w] + ws) == [ValueOf(w)] + Values(ws)
  {
    hide SlotOf, ValueOf;
  }

  lemma ConsRecords(f: Family, r: Record, recs: seq<Record>)
    ensures RecordSlots(f, [r] + recs) == [RecordSlot(f, r)] + RecordSlots(f, recs)
    ensures RecordValues(f, [r] + recs) == [RecordValue(f, r)] + RecordValues(f, recs)
  {
    hide RecordSlot, RecordValue;
  }

  lemma {:induction false} RecordWrites(codec: Codec, f: Family, recs: seq<Record>)
    requires Simple(f) && AllSane(codec, f, recs)
    ensures var m := Replayed(codec, f, recs);
            m.ok && Slots(m.writes) == RecordSlots(f, recs) && Values(m.writes) == RecordValues(f, recs)
    decreases |recs|
  {
    if recs != [] {
      var r, rest := recs[0], recs[1..];
      assert Sane(codec, f, r);
      OneWrite(codec, f, r);
      RecordWrites(codec, f, rest);
      var ws, n := Denote(codec, At(f, r), r.key, r.value), Replayed(codec, f, rest);
      assert ws == [ws[0]];
      ConsWrites(ws[0], n.writes);
      ConsRecords(f, r, rest);
      assert recs == [r] + rest;
      hide Denote, RecordSlot, RecordValue, SlotOf, ValueOf, Slots, Values, RecordSlots, RecordValues;
    }
  }

  /** Restoring the dump of records with distinct keys into an empty store leaves exactly the
      records in it, whatever order they were dumped in and however the batches were cut. */
  lemma {:induction false} StoreRestored(codec: Codec, plus: (Bytes, Bytes) -> Bytes, f: Family, mode: Documents, recs: seq<Record>)
    requires Simple(f) && (mode.Never? ==> f.Log?) && AllSane(codec, f, recs) && Distinct(RecordSlots(f, recs))
    ensures var m := Replayed(codec, f, recs);
            && m.ok && Restores(codec, [SetFamily(f)] + Deltas(mode, recs, MAX32, MAX8, MAX32), m)
            && Holds(Store(plus, m.writes), RecordSlots(f, recs), RecordValues(f, recs))
  {
    forall i | 0 <= i < |recs| ensures Fits(recs[i]) {
      assert Sane(codec, f, recs[i]);
    }
    DeltasRestore(codec, f, mode, recs);
    RecordWrites(codec, f, recs);
    StoreHolds(plus, Replayed(codec, f, recs).writes);
  }

  // ---- Bitmaps ----

  lemma {:induction false} StoreHas(plus: (Bytes, Bytes) -> Bytes, ws: seq<Write>, s: Slot)
    ensures s in Store(plus, ws) <==> exists w <- ws :: SlotOf(w) == s
    decreases |ws|
  {
    if ws != [] {
      var n := |ws| - 1;
      StoreHas(plus, ws[..n], s);
      assert ws == ws[..n] + [ws[n]];
    }
  }

  /** The bitmap in the record is of the class, as the store writes it, and has the document. */
  predicate HasBit(codec: Codec, r: Record, a: u32, c: byte, d: u32, class_: Bytes) {
    && r.account == a && r.collection == c && Formed(Bitmap, r.key) && BitmapPart(r.key) == class_
    && codec.docs(r.value).Some? && d in codec.docs(r.value).value
  }

  /** Of the keys a backup writes, no two are of one class. */
  lemma WrittenBit(codec: Codec, r: Record, a: u32, c: byte, d: u32, k: Bytes)
    requires WrittenClass(r.key) && WrittenClass(k)
    ensures HasBit(codec, r, a, c, d, BitmapPart(k)) <==>
              && r.account == a && r.collection == c && r.key == k
              && codec.docs(r.value).Some? && d in codec.docs(r.value).value
  {
    if BitmapPart(r.key) == BitmapPart(k) { WrittenApart(r.key, k); }
  }

  function BitWrite(a: u32, c: byte, d: u32, k: Bytes): Write {
    Write(AtDocument(a, c, d), Bit(k))
  }

  lemma OneBitmap(codec: Codec, r: Record, a: u32, c: byte, d: u32, k: Bytes)
    requires Decodes(codec, Bitmap, r.key, r.value)
    ensures var ws := Denote(codec, At(Bitmap, r), r.key, r.value);
            && (BitWrite(a, c, d, k) in ws <==> HasBit(codec, r, a, c, d, k))
            && forall w <- ws :: w.what.Bit?
  {
    var docs := codec.docs(r.value).value;
    var ws := Bits(r.account, r.collection, BitmapPart(r.key), docs);
    hide BitmapPart;
    if HasBit(codec, r, a, c, d, k) {
      var i :| 0 <= i < |docs| && docs[i] == d;
      assert ws[i] == BitWrite(a, c, d, k);
    }
  }

  lemma {:induction false} BitmapWrites(codec: Codec, recs: seq<Record>, a: u32, c: byte, d: u32, k: Bytes)
    requires forall r <- recs :: Decodes(codec, Bitmap, r.key, r.value)
    ensures var m := Replayed(codec, Bitmap, recs);
            && m.ok && (BitWrite(a, c, d, k) in m.writes <==> exists r <- recs :: HasBit(codec, r, a, c, d, k))
            && forall w <- m.writes :: w.what.Bit?
    decreases |recs|
  {
    if recs != [] {
      var r := recs[0];
      OneBitmap(codec, r, a, c, d, k);
      BitmapWrites(codec, recs[1..], a, c, d, k);
      assert recs == [r] + recs[1..];
      hide Denote, HasBit, Decodes;
    }
  }

  /** After a restore the bit of a document is set exactly if one of the dumped bitmaps has it. */
  lemma {:induction false} BitmapsRestored(codec: Codec, plus: (Bytes, Bytes) -> Bytes, groups: seq<Group>, a: u32, c: byte, d: u32, k: Bytes)
    requires AllFramable(BitmapOps(groups))
    requires forall r <- BitmapRecords(groups) :: Decodes(codec, Bitmap, r.key, r.value)
    ensures var m := Replayed(codec, Bitmap, BitmapRecords(groups));
            && m.ok && Restores(codec, [SetFamily(Bitmap)] + BitmapOps(groups), m)
            && (Slot(AtDocument(a, c, d), Bit(k)) in Store(plus, m.writes)
                <==> exists r <- BitmapRecords(groups) :: HasBit(codec, r, a, c, d, k))
  {
    var m := Replayed(codec, Bitmap, BitmapRecords(groups));
    BitmapsRestore(codec, groups);
    BitmapWrites(codec, BitmapRecords(groups), a, c, d, k);
    StoreHas(plus, m.writes, Slot(AtDocument(a, c, d), Bit(k)));
    hide Replayed, BitmapRecords, Store, HasBit, BitmapOps, Restores;
    assert forall w <- m.writes :: SlotOf(w) == Slot(AtDocument(a, c, d), Bit(k)) <==> w == BitWrite(a, c, d, k);
  }

  // ---- Blobs ----

  function BlobWrite(r: Record): Write {
    if Linked(At(Blob, r)) then Write(AtDocument(r.account, r.collection, r.document), Link(r.key))
    else Write(Anywhere, Commit(r.key))
  }

  lemma OneBlob(codec: Codec, r: Record)
    requires Decodes(codec, Blob, r.key, r.value)
    ensures Denote(codec, At(Blob, r), r.key, r.value) == [BlobWrite(r)]
  {
  }

  predicate ContentOf(r: Record, h: Bytes, v: Bytes) {
    !Linked(At(Blob, r)) && r.key == h && r.value == v
  }

  lemma {:induction false} BlobContents(codec: Codec, recs: seq<Record>, h: Bytes, v: Bytes)
    requires forall r <- recs :: Decodes(codec, Blob, r.key, r.value)
    ensures (h, v) in Replayed(codec, Blob, recs).blobs <==> exists r <- recs :: ContentOf(r, h, v)
    decreases |recs|
  {
    if recs != [] {
      var r, rest := recs[0], recs[1..];
      assert r in recs;
      BlobContents(codec, rest, h, v);
      assert recs == [r] + rest;
      hide Denote, Decodes;
    }
  }

  lemma {:induction false} BlobWrites(codec: Codec, recs: seq<Record>)
    requires forall r <- recs :: Decodes(codec, Blob, r.key, r.value)
    ensures var m := Replayed(codec, Blob, recs);
            m.ok && |m.writes| == |recs| && forall i | 0 <= i < |recs| :: m.writes[i] == BlobWrite(recs[i])
    decreases |recs|
  {
    if recs != [] {
      var r, rest := recs[0], recs[1..];
      assert r in recs;
      BlobWrites(codec, rest);
      assert recs == [r] + rest;
      OneBlob(codec, r);
      var m, n := Replayed(codec, Blob, recs), Replayed(codec, Blob, rest);
      assert m.writes == [BlobWrite(r)] + n.writes;
      hide Denote, BlobWrite, Decodes;
      forall i | 0 <= i < |recs| ensures m.writes[i] == BlobWrite(recs[i]) {
        if i > 0 { assert m.writes[i] == n.writes[i - 1] && recs[i] == rest[i - 1]; }
      }
    }
  }

  lemma {:induction false} LinkRecordsOf(links: seq<Record>, x: Record)
    ensures x in LinkRecords(links) <==> exists r <- links :: Linked(At(Blob, r)) && x == r.(value := [])
    decreases |links|
  {
    if links != [] {
      LinkRecordsOf(links[1..], x);
      assert links == [links[0]] + links[1..];
    }
  }

  lemma {:induction false} ContentRecordsOf(hashes: seq<Bytes>, blob: Bytes -> Option<Bytes>, x: Record)
    ensures x in ContentRecords(hashes, blob)
        <==> exists h <- hashes :: blob(h).Some? && x == Record(MAX32, MAX8, MAX32, h, blob(h).value)
    decreases |hashes|
  {
    if hashes != [] {
      ContentRecordsOf(hashes[1..], blob, x);
      assert hashes == [hashes[0]] + hashes[1..];
    }
  }

  function BlobRecords(links: seq<Record>, blob: Bytes -> Option<Bytes>): seq<Record> {
    LinkRecords(links) + ContentRecords(Unlinked(links), blob)
  }

  lemma {:induction false} InBlobRecords(links: seq<Record>, blob: Bytes -> Option<Bytes>, x: Record)
    ensures x in BlobRecords(links, blob) <==>
              || (exists r <- links :: Linked(At(Blob, r)) && x == r.(value := []))
              || (exists h <- Unlinked(links) :: blob(h).Some? && x == Record(MAX32, MAX8, MAX32, h, blob(h).value))
  {
    LinkRecordsOf(links, x);
    ContentRecordsOf(Unlinked(links), blob, x);
  }

  /** Which slots the writes of records fill. */
  lemma {:induction false} BlobSlots(plus: (Bytes, Bytes) -> Bytes, recs: seq<Record>, ws: seq<Write>, s: Slot)
    requires |ws| == |recs| && forall i | 0 <= i < |recs| :: ws[i] == BlobWrite(recs[i])
    ensures s in Store(plus, ws) <==> exists r <- recs :: SlotOf(BlobWrite(r)) == s
  {
    StoreHas(plus, ws, s);
    hide Store, BlobWrite, SlotOf;
    if r :| r in recs && SlotOf(BlobWrite(r)) == s {
      var i :| 0 <= i < |recs| && recs[i] == r;
      assert ws[i] in ws;
    }
    if w :| w in ws && SlotOf(w) == s {
      var i :| 0 <= i < |ws| && ws[i] == w;
      assert recs[i] in recs;
    }
  }

  /** The link of a document to a blob is there exactly if the dumped store had it; a blob is
      committed, with its content, exactly if it was unlinked and the blob store had it. */
  ghost predicate BlobsHeld(store: map<Slot, Bytes>, blobs: seq<(Bytes, Bytes)>, links: seq<Record>,
                            blob: Bytes -> Option<Bytes>)
  {
    && (forall a: u32, c: byte, d: u32, h: Bytes :: Slot(AtDocument(a, c, d), Link(h)) in store
          <==> a != MAX32 && d != MAX32 && exists r <- links :: LinkOf(r, a, c, d, h))
    && (forall h: Bytes :: Slot(Anywhere, Commit(h)) in store <==> Loose(links, h) && blob(h).Some?)
    && (forall h: Bytes, v: Bytes :: (h, v) in blobs <==> Loose(links, h) && blob(h) == Some(v))
  }

  /** The hash is in the store without an account or a document. */
  predicate Loose(links: seq<Record>, h: Bytes) {
    exists r <- links :: r.key == h && (r.account == MAX32 || r.document == MAX32)
  }

  lemma {:induction false} UnlinkedOf(links: seq<Record>, h: Bytes)
    ensures h in Unlinked(links) <==> Loose(links, h)
    decreases |links|
  {
    if links != [] {
      UnlinkedOf(links[1..], h);
      assert links == [links[0]] + links[1..];
    }
  }

  predicate LinkOf(r: Record, a: u32, c: byte, d: u32, h: Bytes) {
    r.account == a && r.collection == c && r.document == d && r.key == h
  }

  lemma {:induction false} LinkHeld(plus: (Bytes, Bytes) -> Bytes, links: seq<Record>, blob: Bytes -> Option<Bytes>, ws: seq<Write>,
                 a: u32, c: byte, d: u32, h: Bytes)
    requires var recs := BlobRecords(links, blob); |ws| == |recs| && forall i | 0 <= i < |recs| :: ws[i] == BlobWrite(recs[i])
    ensures Slot(AtDocument(a, c, d), Link(h)) in Store(plus, ws)
        <==> Linked(Cursor(FILE_VERSION, Blob, a, c, d, 0)) && exists r <- links :: LinkOf(r, a, c, d, h)
  {
    var s, recs := Slot(AtDocument(a, c, d), Link(h)), BlobRecords(links, blob);
    BlobSlots(plus, recs, ws, s);
    hide Store, BlobRecords;
    if x :| x in recs && SlotOf(BlobWrite(x)) == s {
      InBlobRecords(links, blob, x);
      var r :| r in links && Linked(At(Blob, r)) && x == r.(value := []);
      assert LinkOf(r, a, c, d, h);
    }
    if Linked(Cursor(FILE_VERSION, Blob, a, c, d, 0)) && exists r <- links :: LinkOf(r, a, c, d, h) {
      var r :| r in links && LinkOf(r, a, c, d, h);
      InBlobRecords(links, blob, r.(value := []));
      assert SlotOf(BlobWrite(r.(value := []))) == s;
    }
  }

  lemma {:induction false} CommitHeld(plus: (Bytes, Bytes) -> Bytes, links: seq<Record>, blob: Bytes -> Option<Bytes>, ws: seq<Write>, h: Bytes)
    requires var recs := BlobRecords(links, blob); |ws| == |recs| && forall i | 0 <= i < |recs| :: ws[i] == BlobWrite(recs[i])
    ensures Slot(Anywhere, Commit(h)) in Store(plus, ws) <==> h in Unlinked(links) && blob(h).Some?
  {
    var s, recs := Slot(Anywhere, Commit(h)), BlobRecords(links, blob);
    BlobSlots(plus, recs, ws, s);
    hide Store, BlobRecords, Unlinked;
    if x :| x in recs && SlotOf(BlobWrite(x)) == s {
      InBlobRecords(links, blob, x);
    }
    if h in Unlinked(links) && blob(h).Some? {
      var x := Record(MAX32, MAX8, MAX32, h, blob(h).value);
      InBlobRecords(links, blob, x);
      assert SlotOf(BlobWrite(x)) == s;
    }
  }

  lemma {:induction false} ContentHeld(links: seq<Record>, blob: Bytes -> Option<Bytes>, h: Bytes, v: Bytes)
    ensures (exists r <- BlobRecords(links, blob) :: ContentOf(r, h, v)) <==> h in Unlinked(links) && blob(h) == Some(v)
  {
    hide BlobRecords, Unlinked;
    if r :| r in BlobRecords(links, blob) && ContentOf(r, h, v) {
      InBlobRecords(links, blob, r);
    }
    if h in Unlinked(links) && blob(h) == Some(v) {
      var x := Record(MAX32, MAX8, MAX32, h, v);
      InBlobRecords(links, blob, x);
      assert ContentOf(x, h, v);
    }
  }

  lemma {:induction false} BlobStore(plus: (Bytes, Bytes) -> Bytes, links: seq<Record>, blob: Bytes -> Option<Bytes>,
                                     ws: seq<Write>, blobs: seq<(Bytes, Bytes)>)
    requires var recs := BlobRecords(links, blob); |ws| == |recs| && forall i | 0 <= i < |recs| :: ws[i] == BlobWrite(recs[i])
    requires forall h, v :: (h, v) in blobs <==> exists r <- BlobRecords(links, blob) :: ContentOf(r, h, v)
    ensures BlobsHeld(Store(plus, ws), blobs, links, blob)
  {
    hide Store, Unlinked, Loose, BlobWrite, BlobRecords, ContentOf;
    forall a: u32, c: byte, d: u32, h: Bytes
      ensures Slot(AtDocument(a, c, d), Link(h)) in Store(plus, ws)
          <==> a != MAX32 && d != MAX32 && exists r <- links :: LinkOf(r, a, c, d, h)
    {
      LinkHeld(plus, links, blob, ws, a, c, d, h);
    }
    forall h: Bytes ensures Slot(Anywhere, Commit(h)) in Store(plus, ws) <==> Loose(links, h) && blob(h).Some? {
      UnlinkedOf(links, h);
      CommitHeld(plus, links, blob, ws, h);
    }
    forall h: Bytes, v: Bytes ensures (h, v) in blobs <==> Loose(links, h) && blob(h) == Some(v) {
      UnlinkedOf(links, h);
      ContentHeld(links, blob, h, v);
    }
  }

  lemma {:induction false} BlobsRestored(codec: Codec, plus: (Bytes, Bytes) -> Bytes, links: seq<Record>,
                                         blob: Bytes -> Option<Bytes>)
    requires AllFramable(BlobOps(links, blob))
    requires forall r <- BlobRecords(links, blob) :: Decodes(codec, Blob, r.key, r.value)
    ensures var m := Replayed(codec, Blob, BlobRecords(links, blob));
            && m.ok && Restores(codec, [SetFamily(Blob)] + BlobOps(links, blob), m)
            && BlobsHeld(Store(plus, m.writes), m.blobs, links, blob)
  {
    var recs := BlobRecords(links, blob);
    var m := Replayed(codec, Blob, recs);
    BlobsRestore(codec, links, blob);
    BlobWrites(codec, recs);
    hide Replayed, Store, Restores, Unlinked, BlobOps, BlobWrite, BlobRecords, Decodes, BlobsHeld, ContentOf;
    forall h: Bytes, v: Bytes ensures (h, v) in m.blobs <==> exists r <- recs :: ContentOf(r, h, v) {
      BlobContents(codec, recs, h, v);
    }
    BlobStore(plus, links, blob, m.writes, m.blobs);
  }

  // ---- From store to store ----

  /** Dumps the records, writes the file, and restores it: the batches, run on an empty store,
      leave exactly the records. */
  method CopyRecords(codec: Codec, ghost plus: (Bytes, Bytes) -> Bytes, f: Family, mode: Documents, recs: seq<Record>)
    returns (written: seq<Batch>, ok: bool)
    requires Simple(f) && (mode.Never? ==> f.Log?) && AllSane(codec, f, recs) && Distinct(RecordSlots(f, recs))
    ensures ok && Holds(Store(plus, AllEffects(written)), RecordSlots(f, recs), RecordValues(f, recs))
  {
    StoreRestored(codec, plus, f, mode, recs);
    var ops := SendRecords(f, mode, recs);
    var blobs;
    written, blobs, ok := DumpAndRestore(codec, ops, Replayed(codec, f, recs));
  }

  // ---- Properties, entry by entry ----

  function PropertySlot(e: Entry): Slot {
    var counts := e.collection == 1 && e.field == 84;
    Slot(AtDocument(e.account, e.collection, e.document),
         if counts then Add(Property, [84], []) else Set(Property, [e.field], []))
  }

  /** The value of a mailbox, with a counter of message ids. */
  predicate WithCounter(e: Entry) {
    e.collection == 1 && e.field == 50 && e.counter.Some?
  }

  function CounterSlot(e: Entry): Slot {
    Slot(AtDocument(e.account, 1, e.document), Add(Property, [84], []))
  }

  /** Each property has its value, each mailbox its counter, and there is nothing else. */
  ghost predicate PropertiesHeld(store: map<Slot, Bytes>, es: seq<Entry>) {
    && (forall e <- es :: PropertySlot(e) in store && store[PropertySlot(e)] == e.value)
    && (forall e <- es | WithCounter(e) :: CounterSlot(e) in store && store[CounterSlot(e)] == e.counter.value)
    && (forall s <- store :: exists e <- es :: s == PropertySlot(e) || (WithCounter(e) && s == CounterSlot(e)))
  }

  lemma {:induction false} PropertyRecordsOf(es: seq<Entry>, r: Record)
    ensures r in PropertyRecords(es) <==> exists e <- es :: r in RecordsOf(e)
    decreases |es|
  {
    if es != [] {
      PropertyRecordsOf(es[1..], r);
      assert es == [es[0]] + es[1..];
      hide RecordsOf;
    }
  }

  function PropertyRecord(e: Entry): Record {
    Record(e.account, e.collection, e.document, [e.field], e.value)
  }

  function CounterRecord(e: Entry): Record
    requires WithCounter(e)
  {
    Record(e.account, e.collection, e.document, [84], e.counter.value)
  }

  lemma EntryRecords(e: Entry, r: Record)
    ensures r in RecordsOf(e) <==> r == PropertyRecord(e) || (WithCounter(e) && r == CounterRecord(e))
    ensures RecordSlot(Property, PropertyRecord(e)) == PropertySlot(e) && RecordValue(Property, PropertyRecord(e)) == e.value
    ensures WithCounter(e) ==> RecordSlot(Property, CounterRecord(e)) == CounterSlot(e)
                               && RecordValue(Property, CounterRecord(e)) == e.counter.value
  {
    assert Start([e.field], 1) == [e.field] && Start([84], 1) == [84];
    assert [e.field] == [84] <==> e.field == 84 by { assert [e.field][0] == e.field; }
  }

  lemma HeldRecord(store: map<Slot, Bytes>, recs: seq<Record>, r: Record)
    requires Holds(store, RecordSlots(Property, recs), RecordValues(Property, recs)) && r in recs
    ensures RecordSlot(Property, r) in store && store[RecordSlot(Property, r)] == RecordValue(Property, r)
  {
    hide RecordSlot, RecordValue;
    var i :| 0 <= i < |recs| && recs[i] == r;
    assert RecordSlots(Property, recs)[i] in store;
  }

  lemma HeldSlot(store: map<Slot, Bytes>, recs: seq<Record>, s: Slot) returns (r: Record)
    requires Holds(store, RecordSlots(Property, recs), RecordValues(Property, recs)) && s in store
    ensures r in recs && RecordSlot(Property, r) == s
  {
    hide RecordSlot, RecordValue;
    var i :| 0 <= i < |recs| && RecordSlots(Property, recs)[i] == s;
    r := recs[i];
  }

  lemma EntriesHeld(store: map<Slot, Bytes>, es: seq<Entry>)
    requires var recs := PropertyRecords(es); Holds(store, RecordSlots(Property, recs), RecordValues(Property, recs))
    ensures PropertiesHeld(store, es)
  {
    var recs := PropertyRecords(es);
    hide Holds, RecordSlot, RecordValue, RecordSlots, RecordValues, PropertyRecords, RecordsOf, PropertySlot, CounterSlot;
    forall e <- es ensures PropertySlot(e) in store && store[PropertySlot(e)] == e.value {
      var r := PropertyRecord(e);
      EntryRecords(e, r);
      PropertyRecordsOf(es, r);
      HeldRecord(store, recs, r);
    }
    forall e <- es | WithCounter(e) ensures CounterSlot(e) in store && store[CounterSlot(e)] == e.counter.value {
      var r := CounterRecord(e);
      EntryRecords(e, r);
      PropertyRecordsOf(es, r);
      HeldRecord(store, recs, r);
    }
    forall s <- store ensures exists e <- es :: s == PropertySlot(e) || (WithCounter(e) && s == CounterSlot(e)) {
      var r := HeldSlot(store, recs, s);
      PropertyRecordsOf(es, r);
      var e :| e in es && r in RecordsOf(e);
      EntryRecords(e, r);
    }
  }

  method CopyProperties(codec: Codec, ghost plus: (Bytes, Bytes) -> Bytes, es: seq<Entry>)
    returns (written: seq<Batch>, ok: bool)
    requires AllSane(codec, Property, PropertyRecords(es)) && Distinct(RecordSlots(Property, PropertyRecords(es)))
    ensures ok && PropertiesHeld(Store(plus, AllEffects(written)), es)
  {
    ghost var recs := PropertyRecords(es);
    StoreRestored(codec, plus, Property, OnChange, recs);
    hide Restores, Store, PropertyRecords, Distinct, AllSane, Replayed, Holds, PropertiesHeld;
    var ops := BackupProperties(es);
    var blobs;
    written, blobs, ok := DumpAndRestore(codec, ops, Replayed(codec, Property, recs));
    EntriesHeld(Store(plus, AllEffects(written)), es);
  }

  method CopyBitmaps(codec: Codec, ghost plus: (Bytes, Bytes) -> Bytes, groups: seq<Group>)
    returns (written: seq<Batch>, ok: bool)
    requires AllFramable(BitmapOps(groups))
    requires forall r <- BitmapRecords(groups) :: Decodes(codec, Bitmap, r.key, r.value)
    ensures ok && forall a: u32, c: byte, d: u32, k: Bytes ::
              Slot(AtDocument(a, c, d), Bit(k)) in Store(plus, AllEffects(written))
              <==> exists r <- BitmapRecords(groups) :: HasBit(codec, r, a, c, d, k)
  {
    ghost var m := Replayed(codec, Bitmap, BitmapRecords(groups));
    BitmapsRestored(codec, plus, groups, 0, 0, 0, []);
    hide Replayed, Store, Restores, BitmapRecords, BitmapOps, HasBit;
    var ops := BackupBitmaps(groups);
    var blobs;
    written, blobs, ok := DumpAndRestore(codec, ops, m);
    forall a: u32, c: byte, d: u32, k: Bytes
      ensures Slot(AtDocument(a, c, d), Bit(k)) in Store(plus, AllEffects(written))
          <==> exists r <- BitmapRecords(groups) :: HasBit(codec, r, a, c, d, k)
    {
      BitmapsRestored(codec, plus, groups, a, c, d, k);
    }
  }

  method CopyBlobs(codec: Codec, ghost plus: (Bytes, Bytes) -> Bytes, links: seq<Record>, blob: Bytes -> Option<Bytes>)
    returns (written: seq<Batch>, blobs: seq<(Bytes, Bytes)>, ok: bool)
    requires AllFramable(BlobOps(links, blob))
    requires forall r <- BlobRecords(links, blob) :: Decodes(codec, Blob, r.key, r.value)
    ensures ok && BlobsHeld(Store(plus, AllEffects(written)), blobs, links, blob)
  {
    BlobsRestored(codec, plus, links, blob);
    ghost var m := Replayed(codec, Blob, BlobRecords(links, blob));
    hide Replayed, Store, Restores, BlobOps, BlobsHeld;
    var ops := BackupBlobs(links, blob);
    written, blobs, ok := DumpAndRestore(codec, ops, m);
  }
}
