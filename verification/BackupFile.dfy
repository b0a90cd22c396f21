/**
 * The dump files of backup and restore (crates/common/src/manager/backup.rs and
 * crates/common/src/manager/restore.rs): a header of two bytes, then one frame per operation.
 */
module BackupFile {
  import opened Prelude

  const U32 := 0x1_0000_0000

  type byte = n: nat | n < 256
  type u32 = n: nat | n < U32
  type Bytes = seq<byte>

  datatype Family = Property | FtsIndex | Acl | Blob | Config | LookupValue | LookupCounter
                  | Directory | Queue | Index | Bitmap | Log | NoFamily

  datatype Op =
    | SetFamily(family: Family)
    | Account(account: u32)
    | Collection(collection: byte)
    | Document(document: u32)
    | KeyValue(key: Bytes, value: Bytes)

  const MAGIC_MARKER: byte := 123
  const FILE_VERSION: byte := 2

  function FamilyByte(f: Family): (b: byte) {
    match f
    case Property => 0
    case FtsIndex => 1
    case Acl => 2
    case Blob => 3
    case Config => 4
    case LookupValue => 5
    case LookupCounter => 6
    case Directory => 7
    case Queue => 8
    case Index => 9
    case Bitmap => 10
    case Log => 11
    case NoFamily => 255
  }

  function FamilyOf(b: byte): (f: Option<Family>)
    ensures forall g :: f == Some(g) <==> FamilyByte(g) == b && g != NoFamily
  {
    match b
    case 0 => Some(Property)
    case 1 => Some(FtsIndex)
    case 2 => Some(Acl)
    case 3 => Some(Blob)
    case 4 => Some(Config)
    case 5 => Some(LookupValue)
    case 6 => Some(LookupCounter)
    case 7 => Some(Directory)
    case 8 => Some(Queue)
    case 9 => Some(Index)
    case 10 => Some(Bitmap)
    case 11 => Some(Log)
    case _ => None
  }

  // ---- Writing ----

  /** A length is cut down to 32 bits and written most significant byte first. */
  function U32Bytes(n: nat): (s: Bytes)
    ensures |s| == 4
  {
    [n / 0x100_0000 % 256, n / 0x1_0000 % 256, n / 0x100 % 256, n % 256]
  }

  function Sized(s: Bytes): Bytes {
    U32Bytes(|s|) + s
  }

  function Frame(op: Op): Bytes {
    match op
    case SetFamily(f) => [0, FamilyByte(f)]
    case KeyValue(k, v) => if v == [] then [2] + Sized(k) else [1] + (Sized(k) + Sized(v))
    case Account(a) => [3] + U32Bytes(a)
    case Collection(c) => [4, c]
    case Document(d) => [5] + U32Bytes(d)
  }

  /** The families in the order of their numbers. */
  const FAMILIES := [Property, FtsIndex, Acl, Blob, Config, LookupValue, LookupCounter, Directory, Queue, Index, Bitmap, Log]

  /** The number with these four bytes. */
  function Word(b: (byte, byte, byte, byte)): u32 {
    var b0: nat, b1: nat, b2: nat, b3: nat := b.0, b.1, b.2, b.3;
    b0 * 0x100_0000 + b1 * 0x1_0000 + b2 * 0x100 + b3
  }

  lemma WordBytes(b: (byte, byte, byte, byte))
    ensures U32Bytes(Word(b)) == [b.0, b.1, b.2, b.3]
  {
    var b0: nat, b1: nat, b2: nat, b3: nat := b.0, b.1, b.2, b.3;
    var n := Word(b);
    assert n / 0x100 == b0 * 0x1_0000 + b1 * 0x100 + b2 && n / 0x1_0000 == b0 * 0x100 + b1 && n / 0x100_0000 == b0;
  }

  /** The bytes of every kind of operation: a tag, then a family or a collection as one byte, an
      account or a document as four, and a key, with its value if there is one, each after its
      length. */
  lemma FrameBytes(b: (byte, byte, byte, byte), c: (byte, byte, byte, byte), x: byte, k: Bytes, v: Bytes)
    ensures forall i | 0 <= i < 12 :: Frame(SetFamily(FAMILIES[i])) == [0, i]
    ensures FileOf([]) == [123, 2]
    ensures Frame(Account(Word(b))) == [3, b.0, b.1, b.2, b.3]
    ensures Frame(Collection(x)) == [4, x]
    ensures Frame(Document(Word(b))) == [5, b.0, b.1, b.2, b.3]
    ensures |k| == Word(b) ==> Frame(KeyValue(k, [])) == [2, b.0, b.1, b.2, b.3] + k
    ensures |k| == Word(b) && |v| == Word(c) && v != [] ==>
              Frame(KeyValue(k, v)) == [1, b.0, b.1, b.2, b.3] + k + [c.0, c.1, c.2, c.3] + v
  {
    WordBytes(b);
    WordBytes(c);
    hide U32Bytes, Word;
    if |k| == Word(b) {
      Associate([2], [b.0, b.1, b.2, b.3], k);
      Associate([1], [b.0, b.1, b.2, b.3], k);
      assert [2] + [b.0, b.1, b.2, b.3] == [2, b.0, b.1, b.2, b.3] && [1] + [b.0, b.1, b.2, b.3] == [1, b.0, b.1, b.2, b.3];
      if |v| == Word(c) {
        Associate([1], Sized(k), Sized(v));
        Associate([1] + Sized(k), [c.0, c.1, c.2, c.3], v);
      }
    }
  }

  function Frames(ops: seq<Op>): Bytes {
    if ops == [] then [] else Frame(ops[0]) + Frames(ops[1..])
  }

  function FileOf(ops: seq<Op>): Bytes {
    [MAGIC_MARKER, FILE_VERSION] + Frames(ops)
  }

  lemma {:induction false} FramesSnoc(ops: seq<Op>, op: Op)
    ensures Frames(ops + [op]) == Frames(ops) + Frame(op)
  {
    if ops == [] {
      assert ops + [op] == [op];
    } else {
      assert (ops + [op])[1..] == ops[1..] + [op];
      FramesSnoc(ops[1..], op);
    }
  }

  lemma FileSnoc(ops: seq<Op>, i: nat)
    requires i < |ops|
    ensures FileOf(ops[..i + 1]) == FileOf(ops[..i]) + Frame(ops[i])
  {
    FramesSnoc(ops[..i], ops[i]);
    assert ops[..i + 1] == ops[..i] + [ops[i]];
    Associate([MAGIC_MARKER, FILE_VERSION], Frames(ops[..i]), Frame(ops[i]));
  }

  /** What the writer does for one operation: one `write_all` after the other. */
  method WriteOp(file: Bytes, op: Op) returns (longer: Bytes)
    ensures longer == file + Frame(op)
  {
    hide U32Bytes, FamilyByte;
    longer := file;
    match op
    case SetFamily(f) =>
      longer := longer + [0, FamilyByte(f)];
    case KeyValue(k, v) =>
      longer := longer + [if v != [] then 1 else 2];
      longer := longer + U32Bytes(|k|);
      longer := longer + k;
      Associate(file + [if v != [] then 1 else 2], U32Bytes(|k|), k);
      Associate(file, [if v != [] then 1 else 2], Sized(k));
      if v != [] {
        Associate(longer, U32Bytes(|v|), v);
        Associate(file, [1] + Sized(k), Sized(v));
        Associate([1], Sized(k), Sized(v));
        longer := longer + U32Bytes(|v|);
        longer := longer + v;
      }
    case Account(a) =>
      longer := longer + [3];
      longer := longer + U32Bytes(a);
    case Collection(c) =>
      longer := longer + [4, c];
    case Document(d) =>
      longer := longer + [5];
      longer := longer + U32Bytes(d);
  }

  method WriteFile(ops: seq<Op>) returns (file: Bytes)
    ensures file == FileOf(ops)
  {
    file := [MAGIC_MARKER, FILE_VERSION];
    for i := 0 to |ops|
      invariant file == FileOf(ops[..i])
    {
      FileSnoc(ops, i);
      hide Frame, FileOf;
      file := WriteOp(file, ops[i]);
    }
    assert ops[..|ops|] == ops;
  }

  // ---- Reading ----

  function FromBytes(s: Bytes): (n: u32)
    requires |s| == 4
  {
    var a: nat, b: nat, c: nat, d: nat := s[0], s[1], s[2], s[3];
    a * 0x100_0000 + b * 0x1_0000 + c * 0x100 + d
  }

  /** What is read and what is left to read; None when the file ends too early. */
  function TakeByte(s: Bytes): Option<(byte, Bytes)> {
    if s == [] then None else Some((s[0], s[1..]))
  }

  function TakeU32(s: Bytes): Option<(u32, Bytes)> {
    if |s| < 4 then None else Some((FromBytes(s[..4]), s[4..]))
  }

  function TakeSized(s: Bytes): Option<(Bytes, Bytes)> {
    if |s| < 4 || |s| - 4 < FromBytes(s[..4]) then None
    else
      var n := FromBytes(s[..4]);
      Some((s[4..][..n], s[4..][n..]))
  }

  datatype Next = Eof | Corrupt | Got(op: Op, rest: Bytes)

  function ReadFamily(t: Bytes): Next {
    match TakeByte(t)
    case None => Corrupt
    case Some(b) => match FamilyOf(b.0) case None => Corrupt case Some(f) => Got(SetFamily(f), b.1)
  }

  function ReadPair(t: Bytes): Next {
    match TakeSized(t)
    case None => Corrupt
    case Some(k) => match TakeSized(k.1) case None => Corrupt case Some(v) => Got(KeyValue(k.0, v.0), v.1)
  }

  function ReadBody(tag: byte, t: Bytes): (r: Next)
    ensures r != Eof && (r.Got? ==> |r.rest| <= |t|)
  {
    match tag
    case 0 => ReadFamily(t)
    case 1 => ReadPair(t)
    case 2 => (match TakeSized(t) case None => Corrupt case Some(k) => Got(KeyValue(k.0, []), k.1))
    case 3 => (match TakeU32(t) case None => Corrupt case Some(a) => Got(Account(a.0), a.1))
    case 4 => (match TakeByte(t) case None => Corrupt case Some(c) => Got(Collection(c.0), c.1))
    case 5 => (match TakeU32(t) case None => Corrupt case Some(d) => Got(Document(d.0), d.1))
    case _ => Corrupt
  }

  function ReadOp(s: Bytes): (r: Next)
    ensures r.Got? ==> |r.rest| < |s|
  {
    if s == [] then Eof else ReadBody(s[0], s[1..])
  }

  /** The operations read before the end of the file or the first failure. */
  datatype Parsed = Parsed(ops: seq<Op>, ok: bool)

  function ReadOps(s: Bytes): Parsed
    decreases |s|
  {
    match ReadOp(s)
    case Eof => Parsed([], true)
    case Corrupt => Parsed([], false)
    case Got(op, rest) => var p := ReadOps(rest); Parsed([op] + p.ops, p.ok)
  }

  function ReadFile(file: Bytes): Parsed {
    if |file| < 2 || file[0] != MAGIC_MARKER || file[1] > FILE_VERSION then Parsed([], false)
    else ReadOps(file[2..])
  }

  /** The reader of a dump: what is left of the file is consumed call by call. */
  class OpReader {
    var version: byte
    var rest: Bytes

    constructor (file: Bytes)
      requires |file| >= 2 && file[0] == MAGIC_MARKER && file[1] <= FILE_VERSION
      ensures version == file[1] && rest == file[2..]
    {
      version, rest := file[1], file[2..];
    }

    method ExpectByte() returns (b: Option<byte>)
      modifies `rest
      ensures b.None? <==> TakeByte(old(rest)).None?
      ensures b.Some? ==> TakeByte(old(rest)) == Some((b.value, rest))
    {
      if rest == [] { return None; }
      b := Some(rest[0]);
      rest := rest[1..];
    }

    method ExpectU32() returns (n: Option<u32>)
      modifies `rest
      ensures n.None? <==> TakeU32(old(rest)).None?
      ensures n.Some? ==> TakeU32(old(rest)) == Some((n.value, rest))
    {
      if |rest| < 4 { return None; }
      n := Some(FromBytes(rest[..4]));
      rest := rest[4..];
    }

    method ExpectSized() returns (s: Option<Bytes>)
      modifies `rest
      ensures s.None? <==> TakeSized(old(rest)).None?
      ensures s.Some? ==> TakeSized(old(rest)) == Some((s.value, rest))
    {
      var n := ExpectU32();
      if n.None? || |rest| < n.value { return None; }
      s := Some(rest[..n.value]);
      rest := rest[n.value..];
    }

    method ReadNext() returns (r: Next)
      modifies `rest
      ensures r == ReadOp(old(rest)) && (r.Got? ==> rest == r.rest)
    {
      var tag := ExpectByte();
      if tag.None? { return Eof; }
      match tag.value
      case 0 =>
        var b := ExpectByte();
        if b.None? { return Corrupt; }
        var f := FamilyOf(b.value);
        return if f.None? then Corrupt else Got(SetFamily(f.value), rest);
      case 1 =>
        var k := ExpectSized();
        if k.None? { return Corrupt; }
        var v := ExpectSized();
        return if v.None? then Corrupt else Got(KeyValue(k.value, v.value), rest);
      case 2 =>
        var k := ExpectSized();
        return if k.None? then Corrupt else Got(KeyValue(k.value, []), rest);
      case 3 =>
        var a := ExpectU32();
        return if a.None? then Corrupt else Got(Account(a.value), rest);
      case 4 =>
        var c := ExpectByte();
        return if c.None? then Corrupt else Got(Collection(c.value), rest);
      case 5 =>
        var d := ExpectU32();
        return if d.None? then Corrupt else Got(Document(d.value), rest);
      case _ =>
        return Corrupt;
    }
  }

  // ---- Round trip ----

  lemma U32RoundTrip(n: nat)
    ensures FromBytes(U32Bytes(n)) == n % U32
  {
    var a, b, c := n / 0x100, n / 0x1_0000, n / 0x100_0000;
    assert b == a / 0x100 && c == b / 0x100;
    assert n == a * 0x100 + n % 256 && a == b * 0x100 + a % 256 && b == c * 0x100 + b % 256;
    var d := c / 0x100;
    assert c == d * 0x100 + c % 256;
    assert n == d * U32 + FromBytes(U32Bytes(n));
  }

  lemma TakeU32Written(n: nat, rest: Bytes)
    ensures TakeU32(U32Bytes(n) + rest) == Some((n % U32, rest))
  {
    var s := U32Bytes(n) + rest;
    assert s[..4] == U32Bytes(n) && s[4..] == rest;
    U32RoundTrip(n);
  }

  /** A field longer than 32 bits can count loses its tail to what follows. */
  lemma TakeSizedWritten(s: Bytes, rest: Bytes)
    ensures var n := |s| % U32; TakeSized(Sized(s) + rest) == Some((s[..n], s[n..] + rest))
  {
    var w, n := Sized(s) + rest, |s| % U32;
    assert w[..4] == U32Bytes(|s|) && w[4..] == s + rest;
    U32RoundTrip(|s|);
    assert n <= |s|;
    assert (s + rest)[..n] == s[..n] && (s + rest)[n..] == s[n..] + rest;
  }

  predicate Framable(op: Op) {
    match op
    case SetFamily(f) => f != NoFamily
    case KeyValue(k, v) => |k| < U32 && |v| < U32
    case _ => true
  }

  /** An operation is read back as it was written, or not at all. */
  ghost predicate ReadsBack(op: Op, r: Next, rest: Bytes) {
    if Framable(op) then r == Got(op, rest) else r.Corrupt? || (r.Got? && r.op != op)
  }

  lemma ReadTagged(tag: byte, t: Bytes)
    ensures ReadOp([tag] + t) == ReadBody(tag, t)
  {
    assert ([tag] + t)[1..] == t;
  }

  lemma ReadFrame(op: Op, rest: Bytes)
    ensures ReadsBack(op, ReadOp(Frame(op) + rest), rest)
  {
    match op
    case SetFamily(f) =>
      ReadByteFrame(0, FamilyByte(f), rest);
    case Account(a) =>
      ReadWordFrame(3, a, rest);
    case Collection(c) =>
      ReadByteFrame(4, c, rest);
    case Document(d) =>
      ReadWordFrame(5, d, rest);
    case KeyValue(k, v) =>
      if v == [] { ReadKeyFrame(k, rest); } else { ReadPairFrame(k, v, rest); }
    hide ReadOp, U32Bytes, TakeU32, TakeByte, Sized;
  }

  lemma ReadByteFrame(tag: byte, b: byte, rest: Bytes)
    ensures ReadOp([tag, b] + rest) == ReadBody(tag, [b] + rest) && TakeByte([b] + rest) == Some((b, rest))
  {
    assert [tag, b] + rest == [tag] + ([b] + rest);
    ReadTagged(tag, [b] + rest);
  }

  lemma ReadWordFrame(tag: byte, n: u32, rest: Bytes)
    ensures ReadOp(([tag] + U32Bytes(n)) + rest) == ReadBody(tag, U32Bytes(n) + rest)
    ensures TakeU32(U32Bytes(n) + rest) == Some((n, rest))
  {
    hide U32Bytes, ReadOp, ReadBody, TakeU32;
    Associate([tag], U32Bytes(n), rest);
    ReadTagged(tag, U32Bytes(n) + rest);
    TakeU32Written(n, rest);
  }

  lemma ReadKeyFrame(k: Bytes, rest: Bytes)
    ensures ReadsBack(KeyValue(k, []), ReadOp(Frame(KeyValue(k, [])) + rest), rest)
  {
    assert Frame(KeyValue(k, [])) + rest == [2] + (Sized(k) + rest);
    ReadTagged(2, Sized(k) + rest);
    TakeSizedWritten(k, rest);
    hide TakeSized, Sized;
    WholeField(k, rest);
  }

  lemma WholeField(s: Bytes, rest: Bytes)
    ensures var n := |s| % U32; |s| < U32 ==> s[..n] == s && s[n..] + rest == rest
    ensures var n := |s| % U32; |s| >= U32 ==> s[..n] != s
  {
    var n := |s| % U32;
    if |s| < U32 {
      assert s[..n] == s && s[n..] + rest == rest;
    } else {
      assert |s[..n]| < |s|;
    }
  }

  lemma ReadPairFrame(k: Bytes, v: Bytes, rest: Bytes)
    requires v != []
    ensures ReadsBack(KeyValue(k, v), ReadOp(Frame(KeyValue(k, v)) + rest), rest)
  {
    PairFrame(k, v, rest);
    ReadTagged(1, Sized(k) + (Sized(v) + rest));
    TakeSizedWritten(k, Sized(v) + rest);
    TakeSizedWritten(v, rest);
    hide TakeSized, Sized;
    WholeField(k, Sized(v) + rest);
    WholeField(v, rest);
  }

  lemma PairFrame(k: Bytes, v: Bytes, rest: Bytes)
    requires v != []
    ensures Frame(KeyValue(k, v)) + rest == [1] + (Sized(k) + (Sized(v) + rest))
  {
    hide Sized;
  }

  predicate AllFramable(ops: seq<Op>) {
    forall i | 0 <= i < |ops| :: Framable(ops[i])
  }

  lemma {:induction false} OpsRoundTrip(ops: seq<Op>)
    ensures ReadOps(Frames(ops)) == Parsed(ops, true) <==> AllFramable(ops)
  {
    if ops != [] {
      var op, more := ops[0], ops[1..];
      ReadFrame(op, Frames(more));
      OpsRoundTrip(more);
      assert ops == [op] + more;
      if Framable(op) {
        assert AllFramable(more) <==> AllFramable(ops) by {
          if AllFramable(more) {
            forall i | 0 <= i < |ops| ensures Framable(ops[i]) {
              if i > 0 { assert ops[i] == more[i - 1]; }
            }
          }
        }
        var p := ReadOps(Frames(more));
        assert ReadOps(Frames(ops)) == Parsed([op] + p.ops, p.ok);
        assert ([op] + p.ops)[1..] == p.ops;
      } else {
        assert ReadOps(Frames(ops)).ops == [] || ReadOps(Frames(ops)).ops[0] != op;
      }
    }
  }

  /** Whatever follows whole frames is read after them. */
  lemma {:induction false} OpsThen(ops: seq<Op>, s: Bytes)
    requires AllFramable(ops)
    ensures ReadOps(Frames(ops) + s) == Parsed(ops + ReadOps(s).ops, ReadOps(s).ok)
    decreases |ops|
  {
    if ops == [] {
      assert Frames(ops) + s == s && [] + ReadOps(s).ops == ReadOps(s).ops;
    } else {
      var op, more := ops[0], ops[1..];
      assert Framable(op);
      ReadFrame(op, Frames(more) + s);
      OpsThen(more, s);
      Associate(Frame(op), Frames(more), s);
      assert ops == [op] + more;
      Associate([op], more, ReadOps(s).ops);
      hide ReadOp, Frame, Frames;
    }
  }

  lemma FileThen(ops: seq<Op>, s: Bytes)
    requires AllFramable(ops) && ReadOp(s) == Corrupt
    ensures ReadFile(FileOf(ops) + s) == Parsed(ops, false)
  {
    hide Frames, ReadOp, AllFramable;
    assert (FileOf(ops) + s)[2..] == Frames(ops) + s && ops + [] == ops;
    OpsThen(ops, s);
  }

  /** A frame of an unknown kind, or of an unknown family, ends the reading with a failure. */
  lemma UnknownFrame(ops: seq<Op>, tag: byte, family: byte, rest: Bytes)
    requires AllFramable(ops)
    ensures tag > 5 ==> ReadFile(FileOf(ops) + ([tag] + rest)) == Parsed(ops, false)
    ensures family > 11 ==> ReadFile(FileOf(ops) + ([0, family] + rest)) == Parsed(ops, false)
  {
    ReadTagged(tag, rest);
    ReadByteFrame(0, family, rest);
    assert tag > 5 ==> ReadOp([tag] + rest) == Corrupt;
    assert family > 11 ==> ReadOp([0, family] + rest) == Corrupt;
    hide ReadFile, FileOf, ReadOp, ReadBody, AllFramable;
    if tag > 5 { FileThen(ops, [tag] + rest); }
    if family > 11 { FileThen(ops, [0, family] + rest); }
  }

  /** Reading a written dump gives the same operations back, exactly when no operation has the
      family that stands for none and no key or value reaches 2^32 bytes. */
  lemma FileRoundTrip(ops: seq<Op>)
    ensures ReadFile(FileOf(ops)) == Parsed(ops, true) <==> AllFramable(ops)
  {
    assert FileOf(ops)[2..] == Frames(ops);
    OpsRoundTrip(ops);
  }

  // ---- Interrupted dumps ----

  lemma ReadCut(op: Op, n: nat)
    requires Framable(op) && 0 < n < |Frame(op)|
    ensures ReadOp(Frame(op)[..n]) == Corrupt
  {
    var s := Frame(op)[..n];
    match op
    case SetFamily(f) =>
    case Account(a) =>
      assert |s[1..]| < 4;
    case Collection(c) =>
    case Document(d) =>
      assert |s[1..]| < 4;
    case KeyValue(k, v) =>
      if v == [] {
        assert s[1..] == Sized(k)[..n - 1];
        TakeCut(k, n - 1);
        hide TakeSized, Sized;
      } else {
        ReadPairCut(k, v, n - 1);
      }
  }

  lemma ReadPairCut(k: Bytes, v: Bytes, n: nat)
    requires |k| < U32 && |v| < U32 && v != [] && n < |Sized(k) + Sized(v)|
    ensures ReadOp(Frame(KeyValue(k, v))[..n + 1]) == Corrupt
  {
    var t := (Sized(k) + Sized(v))[..n];
    assert Frame(KeyValue(k, v))[..n + 1] == [1] + t;
    ReadTagged(1, t);
    if n < |Sized(k)| {
      assert t == Sized(k)[..n];
      TakeCut(k, n);
    } else {
      var cut := Sized(v)[..n - |Sized(k)|];
      assert t == Sized(k) + cut;
      TakeSizedWritten(k, cut);
      WholeField(k, cut);
      TakeCut(v, n - |Sized(k)|);
    }
    hide TakeSized, Sized, ReadOp;
  }

  lemma TakeCut(s: Bytes, n: nat)
    requires |s| < U32 && n < |Sized(s)|
    ensures TakeSized(Sized(s)[..n]).None?
  {
    if n >= 4 {
      assert Sized(s)[..n][..4] == U32Bytes(|s|);
      U32RoundTrip(|s|);
    }
  }

  /** How many operations lie whole in the first n bytes. */
  function WholeOps(ops: seq<Op>, n: nat): (k: nat)
    ensures k <= |ops|
  {
    if ops == [] || n < |Frame(ops[0])| then 0 else 1 + WholeOps(ops[1..], n - |Frame(ops[0])|)
  }

  /** A cut within the rest of the dump, behind a first operation that is whole. */
  lemma CutLater(ops: seq<Op>, n: nat)
    requires ops != [] && Framable(ops[0]) && |Frame(ops[0])| <= n <= |Frames(ops)|
    requires CutReads(ops[1..], n - |Frame(ops[0])|)
    ensures CutReads(ops, n)
  {
    var op, more := ops[0], ops[1..];
    var m := n - |Frame(op)|;
    var k := WholeOps(more, m);
    assert Frames(ops)[..n] == Frame(op) + Frames(more)[..m];
    ReadFrame(op, Frames(more)[..m]);
    assert ops[..k + 1] == [op] + more[..k];
    assert ops[..k + 1][1..] == more[..k];
    hide Frame, ReadOp;
  }

  ghost predicate CutReads(ops: seq<Op>, n: nat)
    requires n <= |Frames(ops)|
  {
    var k := WholeOps(ops, n);
    ReadOps(Frames(ops)[..n]) == Parsed(ops[..k], n == |Frames(ops[..k])|)
  }

  lemma {:induction false} CutOps(ops: seq<Op>, n: nat)
    requires AllFramable(ops) && n <= |Frames(ops)|
    ensures CutReads(ops, n)
    decreases |ops|
  {
    if ops == [] || n == 0 {
      assert Frames(ops)[..n] == [] && ops[..0] == [];
      FrameNonempty(ops);
    } else if n < |Frame(ops[0])| {
      assert Frames(ops)[..n] == Frame(ops[0])[..n];
      ReadCut(ops[0], n);
    } else {
      hide Frame, Framable;
      CutOps(ops[1..], n - |Frame(ops[0])|);
      CutLater(ops, n);
    }
  }

  lemma FrameNonempty(ops: seq<Op>)
    ensures ops != [] ==> |Frame(ops[0])| > 0
  {
  }

  /** A dump cut anywhere gives back the operations that were written whole, and the reader
      notices the loss unless the cut falls between two operations. */
  lemma CutDump(ops: seq<Op>, n: nat)
    requires AllFramable(ops) && n <= |FileOf(ops)|
    ensures n < 2 ==> ReadFile(FileOf(ops)[..n]) == Parsed([], false)
    ensures n >= 2 ==> var k := WholeOps(ops, n - 2);
                       ReadFile(FileOf(ops)[..n]) == Parsed(ops[..k], n == |FileOf(ops[..k])|)
  {
    if n >= 2 {
      assert FileOf(ops)[..n][2..] == Frames(ops)[..n - 2];
      CutOps(ops, n - 2);
    }
  }
}
