/**
 * What a restore keeps of the keys in a dump (crates/common/src/manager/restore.rs and
 * crates/store/src/write/key.rs): the part that goes into the key of the store.
 */
module StoreKeys {
  import opened Prelude
  import opened BackupFile

  const BLOB_HASH_LEN := 32

  // ---- Numbers of variable length ----

  function Leb(n: nat): (s: Bytes)
    ensures |s| > 0
  {
    if n < 128 then [n] else [128 + n % 128] + Leb(n / 128)
  }

  /** The number at the start of s, which must end within the given number of bytes. */
  function UnLeb(s: Bytes, left: nat): Option<nat> {
    if left == 0 || s == [] then None
    else if s[0] < 128 then Some(s[0])
    else
      var rest := UnLeb(s[1..], left - 1);
      if rest.None? then None else var low: nat := s[0]; Some(low - 128 + 128 * rest.value)
  }

  lemma {:induction false} LebInjective(m: nat, n: nat)
    requires Leb(m) == Leb(n)
    ensures m == n
    decreases m
  {
    assert Leb(m)[0] == Leb(n)[0];
    if m >= 128 && n >= 128 {
      assert Leb(m)[1..] == Leb(m / 128) && Leb(n)[1..] == Leb(n / 128);
      LebInjective(m / 128, n / 128);
    }
  }

  // ---- Tokens of full-text indexes ----

  /** Up to seven bytes are the token itself; eight bytes of a hash carry the token's length. */
  function TokenPart(hash: Bytes, len: byte): Bytes
    requires |hash| == 8
  {
    if len >= 8 then hash + [len] else hash[..len]
  }

  // ---- Keys by family ----

  /** The key can be taken apart: it is long enough, and of a known class. */
  predicate Formed(f: Family, k: Bytes) {
    match f
    case NoFamily => false
    case Property => |k| >= 1
    case Index => |k| >= 1
    case Acl => |k| >= 4
    case Log => |k| >= 8
    case Blob => |k| == BLOB_HASH_LEN
    case FtsIndex => 1 <= |k| <= 7 || |k| == 9
    case Directory =>
      |k| >= 1 && (match k[0]
                   case 0 => true
                   case 1 => true
                   case 2 => UnLeb(k[1..], 5).Some?
                   case 4 => UnLeb(k[1..], 5).Some?
                   case 5 => |k| >= 9
                   case 6 => |k| >= 9
                   case _ => false)
    case Queue => |k| >= 1 && (if k[0] == 0 then |k| >= 9 else k[0] == 1 && |k| >= 17)
    case Bitmap =>
      |k| >= 1 && (match k[0]
                   case 0 => true
                   case 1 => |k| >= 6
                   case 2 => |k| >= 2
                   case 3 => |k| >= 3
                   case 4 => |k| >= 11
                   case _ => false)
    case _ => true
  }

  /** The class of a bitmap as the store writes it: all documents, a tag with a number or a text,
      or a token. The field of a text tag has its highest bit set. */
  function BitmapPart(k: Bytes): Bytes
    requires Formed(Bitmap, k)
  {
    match k[0]
    case 0 => [0]
    case 1 => [1, k[1]] + Leb(FromBytes(k[2..6]))
    case 2 => [1, Marked(k[1])] + k[2..]
    case 3 => [1, k[1]] + Leb(k[2])
    case _ => [2, k[1]] + TokenPart(k[3..11], k[2])
  }

  function Marked(field: byte): byte {
    if field < 128 then field + 128 else field
  }

  /** The part of a key that the store's key is made of. */
  function Kept(f: Family, k: Bytes): Bytes
    requires Formed(f, k)
  {
    match f
    case Property => k[..1]
    case Acl => k[..4]
    case FtsIndex => if |k| == 9 then TokenPart(k[..8], k[8]) else k
    case Directory =>
      if k[0] == 2 || k[0] == 4 then [k[0]] + Leb(UnLeb(k[1..], 5).value % U32)
      else if k[0] == 5 || k[0] == 6 then k[..9]
      else k
    case Queue => if k[0] == 0 then k[..9] else k[..17]
    case Bitmap => BitmapPart(k)
    case _ => k
  }

  /** Tags with small numbers have two forms that the store does not tell apart. */
  lemma TagsMerge(field: byte, id: byte)
    ensures BitmapPart([3, field, id]) == BitmapPart([1, field, 0, 0, 0, id])
  {
    assert [1, field, 0, 0, 0, id][2..6] == [0, 0, 0, id];
  }

  // ---- The keys a backup writes ----

  /** A class as the backup writes it: exact lengths, fields of seven bits for tags, and tokens
      padded with zeros. */
  predicate WrittenClass(k: Bytes) {
    || k == [0]
    || (|k| == 6 && k[0] == 1 && k[1] < 128)
    || (|k| >= 2 && k[0] == 2 && k[1] < 128)
    || (|k| == 11 && k[0] == 4 && forall i | 3 + k[2] as int <= i < 11 :: k[i] == 0)
  }

  /** The classes of bitmaps: all documents, tags with a number or a text, and tokens. */
  datatype BitmapClass =
    | DocumentIds
    | TagId(field: byte, id: u32)
    | TagText(field: byte, text: Bytes)
    | Token(field: byte, hash: Bytes, len: byte)

  predicate ValidClass(c: BitmapClass) {
    match c
    case DocumentIds => true
    case TagId(field, _) => field < 128
    case TagText(field, _) => field < 128
    case Token(_, hash, _) => |hash| == 8
  }

  /** How the store writes a class, after the number of its space: a text tag has the highest bit
      of its field set, and a token of eight bytes or more is a hash with its length. */
  function StorePart(c: BitmapClass): Bytes
    requires ValidClass(c)
  {
    match c
    case DocumentIds => [0]
    case TagId(field, id) => [1, field] + Leb(id)
    case TagText(field, text) => [1, field + 128] + text
    case Token(field, hash, len) => if len < 8 then [2, field] + hash[..len] else [2, field] + (hash + [len])
  }

  /** How a dump writes it. */
  function DumpKey(c: BitmapClass): Bytes
    requires ValidClass(c)
  {
    match c
    case DocumentIds => [0]
    case TagId(field, id) => [1, field] + U32Bytes(id)
    case TagText(field, text) => [2, field] + text
    case Token(field, hash, len) => [4, field, len] + hash
  }

  /** The restore of a dumped class is the class that the store had. */
  lemma ClassRestored(c: BitmapClass)
    requires ValidClass(c)
    ensures Formed(Bitmap, DumpKey(c)) && BitmapPart(DumpKey(c)) == StorePart(c)
  {
    match c
    case DocumentIds =>
    case TagId(field, id) => IdRestored(field, id);
    case TagText(field, text) => assert ([2, field] + text)[2..] == text;
    case Token(field, hash, len) => assert ([4, field, len] + hash)[3..11] == hash;
  }

  lemma IdRead(id: u32)
    ensures FromBytes(U32Bytes(id)) == id
  {
    U32RoundTrip(id);
  }

  lemma IdRestored(field: byte, id: u32)
    ensures var k := [1, field] + U32Bytes(id); Formed(Bitmap, k) && BitmapPart(k) == [1, field] + Leb(id)
  {
    hide FromBytes, Leb, U32Bytes;
    IdRead(id);
    assert ([1, field] + U32Bytes(id))[2..6] == U32Bytes(id);
  }

  /** Keys of the length the backup writes are taken apart without a failure. */
  lemma WrittenFormed(f: Family, k: Bytes)
    ensures f.Property? && |k| == 1 ==> Formed(f, k)
    ensures f.Acl? && |k| == 4 ==> Formed(f, k)
    ensures f.Log? && |k| == 8 ==> Formed(f, k)
    ensures f.Blob? && |k| == 32 ==> Formed(f, k)
    ensures f.Index? && |k| >= 1 ==> Formed(f, k)
    ensures f.FtsIndex? && |k| in {1, 2, 3, 4, 5, 6, 7, 9} ==> Formed(f, k)
    ensures f.Bitmap? && WrittenClass(k) ==> Formed(f, k)
  {
  }

  lemma NumbersApart(a: Bytes, b: Bytes)
    requires |a| == |b| == 4 && FromBytes(a) == FromBytes(b)
    ensures a == b
  {
    var a0: nat, a1: nat, a2: nat, a3: nat := a[0], a[1], a[2], a[3];
    var b0: nat, b1: nat, b2: nat, b3: nat := b[0], b[1], b[2], b[3];
    assert a0 == b0 && a1 == b1 && a2 == b2 && a3 == b3;
  }

  lemma TokensApart(a: Bytes, m: byte, b: Bytes, n: byte)
    requires |a| == |b| == 8 && TokenPart(a, m) == TokenPart(b, n)
    requires (forall i | m as int <= i < 8 :: a[i] == 0) && (forall i | n as int <= i < 8 :: b[i] == 0)
    ensures a == b && m == n
  {
    var p, q := TokenPart(a, m), TokenPart(b, n);
    if m >= 8 {
      assert |p| == 9 && p[8] == m && n >= 8 && q[8] == n && p[..8] == a && q[..8] == b;
    } else {
      assert |p| == m && n == m;
      forall i | 0 <= i < 8 ensures a[i] == b[i] {
        if i < m { assert p[i] == q[i]; }
      }
    }
  }

  /** The classes a backup writes are never merged. */
  lemma WrittenApart(k: Bytes, l: Bytes)
    requires WrittenClass(k) && WrittenClass(l) && BitmapPart(k) == BitmapPart(l)
    ensures k == l
  {
    var p, q := BitmapPart(k), BitmapPart(l);
    assert p[0] == q[0];
    if k[0] == 1 {
      assert p[1] == q[1] && l[0] == 1;
      assert p[2..] == Leb(FromBytes(k[2..6])) && q[2..] == Leb(FromBytes(l[2..6]));
      LebInjective(FromBytes(k[2..6]), FromBytes(l[2..6]));
      NumbersApart(k[2..6], l[2..6]);
      assert k == [1, k[1]] + k[2..6] && l == [1, l[1]] + l[2..6];
    } else if k[0] == 2 {
      assert p[1] == q[1] && l[0] == 2;
      assert p[2..] == k[2..] && q[2..] == l[2..];
      assert k == [2, k[1]] + k[2..] && l == [2, l[1]] + l[2..];
    } else if k[0] == 4 {
      assert p[1] == q[1] && p[2..] == TokenPart(k[3..11], k[2]) && q[2..] == TokenPart(l[3..11], l[2]);
      TokensApart(k[3..11], k[2], l[3..11], l[2]);
      assert k == [4, k[1], k[2]] + k[3..11] && l == [4, l[1], l[2]] + l[3..11];
    }
  }
}
