/** The GGUF header reader, against an encoder written from the GGUF
    specification, section "File Structure". */
module Gguf {
  import opened Base

  type Bytes = seq<Byte>

  const TWO_32: int := 0x1_0000_0000
  const TWO_63: int := 0x8000_0000_0000_0000
  const TWO_64: int := 0x1_0000_0000_0000_0000
  const MAX_STRING: nat := 1_048_576
  const MAX_ARRAY: nat := 10_000_000

  // ---- little-endian integers ----

  function LittleEndian(n: nat, k: nat): (r: Bytes)
    ensures |r| == k
  {
    if k == 0 then [] else [n % 256] + LittleEndian(n / 256, k - 1)
  }

  function FromLittleEndian(s: Bytes): nat
  {
    if s == [] then 0 else s[0] + 256 * FromLittleEndian(s[1..])
  }

  lemma {:induction false} LittleEndianInverts(n: nat, k: nat)
    requires n < Pow256(k)
    ensures FromLittleEndian(LittleEndian(n, k)) == n
  {
    if k > 0 { LittleEndianInverts(n / 256, k - 1); }
  }

  /** Two's complement of `two_n` values, both ways. */
  function ToTwos(i: int, twoN: nat): int { if i < 0 then i + twoN else i }

  function FromTwos(n: nat, twoN: nat): int { if 2 * n < twoN then n else n - twoN }

  // ---- the format ----

  /** `Fixed` is any scalar the reader only steps over. */
  datatype Value =
    | Fixed(ty: nat, raw: Bytes)
    | U32(u: nat) | I32(i: int) | U64(u64: nat) | I64(i64: int)
    | Str(text: Bytes)
    | Arr(elemType: nat, elems: seq<Value>)

  datatype Entry = Entry(key: Bytes, value: Value)

  datatype Header = Header(version: nat, nTensors: nat, entries: seq<Entry>)

  function TypeId(v: Value): nat
  {
    match v
    case Fixed(ty, _) => ty
    case U32(_) => 4
    case I32(_) => 5
    case Str(_) => 8
    case Arr(_, _) => 9
    case U64(_) => 10
    case I64(_) => 11
  }

  predicate ValueOk(v: Value)
  {
    match v
    case Fixed(ty, raw) =>
      (|raw| == 1 && ty in {0, 1, 7}) || (|raw| == 2 && ty in {2, 3}) || (|raw| == 4 && ty == 6) || (|raw| == 8 && ty == 12)
    case U32(n) => n < TWO_32
    case I32(i) => -0x8000_0000 <= i < 0x8000_0000
    case U64(n) => n < TWO_64
    case I64(i) => -TWO_63 <= i < TWO_63
    case Str(s) => |s| < TWO_63
    case Arr(ty, elems) =>
      ty < TWO_32 && |elems| <= 10_000_000 && forall e :: e in elems ==> TypeId(e) == ty && ValueOk(e)
  }

  function EncodeString(s: Bytes): Bytes { LittleEndian(|s|, 8) + s }

  function Encode(v: Value): Bytes
  {
    match v
    case Fixed(_, raw) => raw
    case U32(n) => LittleEndian(n, 4)
    case I32(i) => if ToTwos(i, TWO_32) >= 0 then LittleEndian(ToTwos(i, TWO_32), 4) else []
    case U64(n) => LittleEndian(n, 8)
    case I64(i) => if ToTwos(i, TWO_64) >= 0 then LittleEndian(ToTwos(i, TWO_64), 8) else []
    case Str(s) => EncodeString(s)
    case Arr(ty, elems) => LittleEndian(ty, 4) + LittleEndian(|elems|, 8) + EncodeAll(elems)
  }

  function EncodeAll(vs: seq<Value>): Bytes
  {
    if vs == [] then [] else Encode(vs[0]) + EncodeAll(vs[1..])
  }

  function EncodeEntry(e: Entry): Bytes
  {
    EncodeString(e.key) + (LittleEndian(TypeId(e.value), 4) + Encode(e.value))
  }

  function EncodeEntries(es: seq<Entry>): Bytes
  {
    if es == [] then [] else EncodeEntry(es[0]) + EncodeEntries(es[1..])
  }

  const MAGIC: Bytes := [0x47, 0x47, 0x55, 0x46]

  function EncodeHeader(h: Header): Bytes
  {
    MAGIC + (LittleEndian(h.version, 4) + (LittleEndian(h.nTensors, 8)
      + (LittleEndian(|h.entries|, 8) + EncodeEntries(h.entries))))
  }

  function Ascii(s: string): (r: Bytes)
    requires forall i :: 0 <= i < |s| ==> s[i] < 128 as char
    ensures |r| == |s| && forall i :: 0 <= i < |s| ==> r[i] as char == s[i]
  {
    seq(|s|, i requires 0 <= i < |s| => s[i] as int)
  }

  const ARCHITECTURE: Bytes := Ascii("general.architecture")

  predicate DistinctKeys(es: seq<Entry>)
  {
    forall i, j :: 0 <= i < j < |es| ==> es[i].key != es[j].key
  }

  predicate EntryOk(e: Entry)
  {
    && |e.key| <= 1_048_576 && ValueOk(e.value)
    && (e.key == ARCHITECTURE && e.value.Str? ==> |e.value.text| <= 1_048_576)
  }

  predicate HeaderOk(h: Header)
  {
    && h.version in {2, 3} && h.nTensors < TWO_64 && |h.entries| < TWO_64
    && DistinctKeys(h.entries) && forall e :: e in h.entries ==> EntryOk(e)
  }

  // ---- what the entries say, whatever their order ----

  function Unsigned(v: Value): Option<nat>
  {
    match v
    case U32(n) => Some(n)
    case I32(i) => Some(Max(i, 0))
    case U64(n) => Some(n)
    case I64(i) => Some(Max(i, 0))
    case _ => None
  }

  function Scalars(es: seq<Entry>): map<Bytes, nat>
  {
    if es == [] then map[]
    else
      var e := es[|es| - 1];
      var before := Scalars(es[..|es| - 1]);
      if Unsigned(e.value).Some? then before[e.key := Unsigned(e.value).value] else before
  }

  function Arch(es: seq<Entry>): Bytes
  {
    if es == [] then []
    else if es[|es| - 1].key == ARCHITECTURE && es[|es| - 1].value.Str? then es[|es| - 1].value.text
    else Arch(es[..|es| - 1])
  }

  lemma {:induction false} ScalarsMean(es: seq<Entry>, k: Bytes)
    requires DistinctKeys(es)
    ensures k in Scalars(es) <==> exists e :: e in es && e.key == k && Unsigned(e.value).Some?
    ensures forall e :: e in es && e.key == k && Unsigned(e.value).Some? ==>
      k in Scalars(es) && Scalars(es)[k] == Unsigned(e.value).value
  {
    if es != [] {
      var front, last := es[..|es| - 1], es[|es| - 1];
      ScalarsMean(front, k);
      assert es == front + [last];
      assert forall e :: e in front ==> e.key != last.key;
    }
  }

  lemma {:induction false} ArchMeans(es: seq<Entry>)
    requires DistinctKeys(es)
    ensures forall e :: e in es && e.key == ARCHITECTURE && e.value.Str? ==> Arch(es) == e.value.text
    ensures (forall e :: e in es && e.key == ARCHITECTURE ==> !e.value.Str?) ==> Arch(es) == []
  {
    if es != [] {
      var front, last := es[..|es| - 1], es[|es| - 1];
      ArchMeans(front);
      assert es == front + [last];
      assert forall e :: e in front ==> e.key != last.key;
    }
  }

  /** The order of the entries does not matter. */
  lemma OrderDoesNotMatter(a: seq<Entry>, b: seq<Entry>)
    requires DistinctKeys(a) && DistinctKeys(b) && forall e :: e in a <==> e in b
    ensures Scalars(a) == Scalars(b) && Arch(a) == Arch(b)
  {
    forall k ensures k in Scalars(a) <==> k in Scalars(b) {
      ScalarsMean(a, k);
      ScalarsMean(b, k);
    }
    forall k | k in Scalars(a) ensures Scalars(a)[k] == Scalars(b)[k] {
      ScalarsMean(a, k);
      ScalarsMean(b, k);
    }
    ArchMeans(a);
    ArchMeans(b);
  }

  datatype Shape = Shape(nLayer: nat, nEmbd: nat, nHead: nat, nHeadKv: nat)

  predicate Usable(s: Shape) { s.nLayer > 0 && s.nEmbd > 0 && s.nHead > 0 && s.nHeadKv > 0 }

  predicate Fallback(k: Bytes, suffix: Bytes) { EndsWith(k, suffix) && '.' as int in k }

  /** What a lookup may answer: the exact key, else any dotted key with that
      suffix (the hash map's order decides), else nothing. */
  predicate Answers(m: map<Bytes, nat>, arch: Bytes, suffix: Bytes, r: Option<nat>)
  {
    var key := arch + Ascii(".") + suffix;
    if key in m then r == Some(m[key])
    else if r.Some? then exists k :: k in m && Fallback(k, suffix) && m[k] == r.value
    else forall k :: k in m ==> !Fallback(k, suffix)
  }

  function ArchOrDefault(arch: Bytes): Bytes { if arch == [] then Ascii("llama") else arch }

  const BLOCK_COUNT: Bytes := Ascii("block_count")
  const EMBEDDING_LENGTH: Bytes := Ascii("embedding_length")
  const HEAD_COUNT: Bytes := Ascii("attention.head_count")
  const HEAD_COUNT_KV: Bytes := Ascii("attention.head_count_kv")

  /** The shape the entries describe, for some answers to the four lookups. */
  ghost predicate Describes(es: seq<Entry>, r: Option<Shape>)
  {
    exists layer, embd, head, kv :: LookedUp(es, layer, embd, head, kv) && ShapeOf(r, layer, embd, head, kv)
  }

  ghost predicate LookedUp(es: seq<Entry>, layer: Option<nat>, embd: Option<nat>, head: Option<nat>, kv: Option<nat>)
  {
    && Answers(Scalars(es), ArchOrDefault(Arch(es)), BLOCK_COUNT, layer)
    && Answers(Scalars(es), ArchOrDefault(Arch(es)), EMBEDDING_LENGTH, embd)
    && Answers(Scalars(es), ArchOrDefault(Arch(es)), HEAD_COUNT, head)
    && Answers(Scalars(es), ArchOrDefault(Arch(es)), HEAD_COUNT_KV, kv)
  }

  /** None unless the first three counts are there and all four non-zero once
      truncated to 32 bits; a missing KV count is the head count. */
  ghost predicate ShapeOf(r: Option<Shape>, layer: Option<nat>, embd: Option<nat>, head: Option<nat>, kv: Option<nat>)
  {
    if layer.None? || embd.None? || head.None? then r.None?
    else ShapeIs(r, layer.value, embd.value, head.value, if kv.Some? then kv.value else head.value)
  }

  ghost predicate ShapeIs(r: Option<Shape>, layer: nat, embd: nat, head: nat, kv: nat)
  {
    if layer % 0x1_0000_0000 == 0 || embd % 0x1_0000_0000 == 0 || head % 0x1_0000_0000 == 0 || kv % 0x1_0000_0000 == 0 then r.None?
    else
      && r.Some? && r.value.nLayer == layer % 0x1_0000_0000 && r.value.nEmbd == embd % 0x1_0000_0000
      && r.value.nHead == head % 0x1_0000_0000 && r.value.nHeadKv == kv % 0x1_0000_0000
  }

  /** The entry stores this count, as any of the four integer types; a negative
      one counts as zero. */
  ghost predicate StoresCount(v: Value, n: nat)
  {
    v == U32(n) || v == U64(n) || v == I32(n) || v == I64(n) || (n == 0 && ((v.I32? && v.i < 0) || (v.I64? && v.i64 < 0)))
  }

  /** The header stores the count under the architecture's own key. */
  ghost predicate Stores(es: seq<Entry>, arch: Bytes, suffix: Bytes, n: nat)
  {
    exists e :: e in es && e.key == arch + Ascii(".") + suffix && StoresCount(e.value, n)
  }

  /** The architecture named by the header, `llama` where it names none. */
  ghost predicate ArchIs(es: seq<Entry>, arch: Bytes)
  {
    || (arch != [] && exists e :: e in es && e.key == Ascii("general.architecture") && e.value == Str(arch))
    || (arch == Ascii("llama") && forall e :: e in es && e.key == Ascii("general.architecture") && e.value.Str? ==> e.value.text == [])
  }

  /** No dotted key of a count ends in the suffix. */
  ghost predicate StoresNone(es: seq<Entry>, suffix: Bytes)
  {
    forall e :: e in es && (exists n :: StoresCount(e.value, n)) ==>
      !('.' as int in e.key && |e.key| >= |suffix| && e.key[|e.key| - |suffix|..] == suffix)
  }

  ghost predicate StoresCounts(es: seq<Entry>, arch: Bytes, layer: nat, embd: nat, head: nat, kv: Option<nat>)
  {
    && Stores(es, arch, Ascii("block_count"), layer) && Stores(es, arch, Ascii("embedding_length"), embd)
    && Stores(es, arch, Ascii("attention.head_count"), head)
    && match kv
       case Some(n) => Stores(es, arch, Ascii("attention.head_count_kv"), n)
       case None => StoresNone(es, Ascii("attention.head_count_kv"))
  }

  /** A header that stores its architecture's own counts has exactly one
      described shape: field by field the stored counts truncated to 32 bits. */
  lemma ExactKeysDetermineShape(es: seq<Entry>, arch: Bytes, layer: nat, embd: nat, head: nat, kv: Option<nat>, r: Option<Shape>)
    requires DistinctKeys(es) && Describes(es, r) && ArchIs(es, arch) && StoresCounts(es, arch, layer, embd, head, kv)
    ensures r.Some? <==>
      && layer % 0x1_0000_0000 != 0 && embd % 0x1_0000_0000 != 0 && head % 0x1_0000_0000 != 0
      && (kv.Some? ==> kv.value % 0x1_0000_0000 != 0)
    ensures r.Some? ==> r.value.nLayer == layer % 0x1_0000_0000 && r.value.nEmbd == embd % 0x1_0000_0000
    ensures r.Some? ==> r.value.nHead == head % 0x1_0000_0000
    ensures r.Some? ==> r.value.nHeadKv == (if kv.Some? then kv.value else head) % 0x1_0000_0000
  {
    ArchIsNamed(es, arch);
    StoredAnswers(es, arch, BLOCK_COUNT, layer);
    StoredAnswers(es, arch, EMBEDDING_LENGTH, embd);
    StoredAnswers(es, arch, HEAD_COUNT, head);
    if kv.Some? { StoredAnswers(es, arch, HEAD_COUNT_KV, kv.value); } else { MissingAnswers(es, arch, HEAD_COUNT_KV); }
    OneAnswer(es, layer, embd, head, kv, r);
  }

  lemma OneAnswer(es: seq<Entry>, layer: nat, embd: nat, head: nat, kv: Option<nat>, r: Option<Shape>)
    requires Describes(es, r)
    requires forall a :: Answers(Scalars(es), ArchOrDefault(Arch(es)), BLOCK_COUNT, a) ==> a == Some(layer)
    requires forall a :: Answers(Scalars(es), ArchOrDefault(Arch(es)), EMBEDDING_LENGTH, a) ==> a == Some(embd)
    requires forall a :: Answers(Scalars(es), ArchOrDefault(Arch(es)), HEAD_COUNT, a) ==> a == Some(head)
    requires forall a :: Answers(Scalars(es), ArchOrDefault(Arch(es)), HEAD_COUNT_KV, a) ==> a == kv
    ensures ShapeIs(r, layer, embd, head, if kv.Some? then kv.value else head)
  {
    var l, e, h, k :| LookedUp(es, l, e, h, k) && ShapeOf(r, l, e, h, k);
  }

  lemma ArchIsNamed(es: seq<Entry>, arch: Bytes)
    requires DistinctKeys(es) && ArchIs(es, arch)
    ensures ArchOrDefault(Arch(es)) == arch
  {
    ArchMeans(es);
  }

  lemma CountIsUnsigned(v: Value, n: nat)
    ensures StoresCount(v, n) <==> Unsigned(v) == Some(n)
  {
  }

  lemma StoredAnswers(es: seq<Entry>, arch: Bytes, suffix: Bytes, n: nat)
    requires DistinctKeys(es) && Stores(es, arch, suffix, n)
    ensures forall a :: Answers(Scalars(es), arch, suffix, a) ==> a == Some(n)
  {
    var e :| e in es && e.key == arch + Ascii(".") + suffix && StoresCount(e.value, n);
    CountIsUnsigned(e.value, n);
    ScalarsMean(es, e.key);
  }

  lemma MissingAnswers(es: seq<Entry>, arch: Bytes, suffix: Bytes)
    requires DistinctKeys(es) && StoresNone(es, suffix)
    ensures forall a :: Answers(Scalars(es), arch, suffix, a) ==> a == None
  {
    forall k | k in Scalars(es) ensures !Fallback(k, suffix) {
      ScalarsMean(es, k);
      var e :| e in es && e.key == k && Unsigned(e.value).Some?;
      CountIsUnsigned(e.value, Unsigned(e.value).value);
    }
    var key := arch + Ascii(".") + suffix;
    assert key[|key| - |suffix|..] == suffix && key[|arch|] == '.' as int;
    assert Fallback(key, suffix);
  }

  lemma FourBytes(n: nat)
    ensures LittleEndian(n, 4) == [n % 256, n / 256 % 256, n / 256 / 256 % 256, n / 256 / 256 / 256 % 256]
  {
    assert LittleEndian(n / 256, 3) == [n / 256 % 256] + LittleEndian(n / 256 / 256, 2);
    assert LittleEndian(n / 256 / 256 / 256, 1) == [n / 256 / 256 / 256 % 256];
  }

  lemma {:induction false} ZeroBytes(k: nat)
    ensures LittleEndian(0, k) == seq(k, _ => 0)
  {
    if k > 0 {
      ZeroBytes(k - 1);
      assert seq(k, _ => 0) == [0] + seq(k - 1, _ => 0);
    }
  }

  lemma ShortLength(n: nat)
    requires n < 256
    ensures LittleEndian(n, 8) == [n, 0, 0, 0, 0, 0, 0, 0]
  {
    ZeroBytes(7);
    assert n / 256 == 0 && n % 256 == n;
  }

  /** Entries by the book: a count, a negative count, a flag and an array. */
  lemma EncodedCount()
    ensures EncodeEntry(Entry([0x6B], U32(258))) == [1, 0, 0, 0, 0, 0, 0, 0, 0x6B, 4, 0, 0, 0, 2, 1, 0, 0]
  {
    ShortLength(1);
    FourBytes(4);
    FourBytes(258);
  }

  lemma EncodedNegative()
    ensures EncodeEntry(Entry([], I32(-2))) == [0, 0, 0, 0, 0, 0, 0, 0, 5, 0, 0, 0, 0xFE, 0xFF, 0xFF, 0xFF]
  {
    ShortLength(0);
    FourBytes(5);
    FourBytes(0xFFFF_FFFE);
  }

  lemma KeylessEntry(v: Value, ty: Bytes, raw: Bytes)
    requires Encode(v) == raw && LittleEndian(TypeId(v), 4) == ty
    ensures EncodeEntry(Entry([], v)) == [0, 0, 0, 0, 0, 0, 0, 0] + ty + raw
  {
    ShortLength(0);
  }

  lemma ArrayBytes()
    ensures Encode(Arr(7, [Fixed(7, [1])])) == [7, 0, 0, 0, 1, 0, 0, 0, 0, 0, 0, 0, 1]
  {
    FourBytes(7);
    ShortLength(1);
    assert EncodeAll([Fixed(7, [1])]) == [1];
  }

  lemma EncodedArray()
    ensures EncodeEntry(Entry([], Arr(7, [Fixed(7, [1])]))) ==
      [0, 0, 0, 0, 0, 0, 0, 0] + [9, 0, 0, 0] + [7, 0, 0, 0, 1, 0, 0, 0, 0, 0, 0, 0, 1]
  {
    ArrayBytes();
    FourBytes(9);
    KeylessEntry(Arr(7, [Fixed(7, [1])]), [9, 0, 0, 0], [7, 0, 0, 0, 1, 0, 0, 0, 0, 0, 0, 0, 1]);
  }

  lemma EncodedText(text: Bytes)
    requires |text| < 256
    ensures EncodeEntry(Entry([], Str(text))) ==
      [0, 0, 0, 0, 0, 0, 0, 0] + [8, 0, 0, 0] + ([|text|, 0, 0, 0, 0, 0, 0, 0] + text)
  {
    FourBytes(8);
    ShortLength(|text|);
    KeylessEntry(Str(text), [8, 0, 0, 0], [|text|, 0, 0, 0, 0, 0, 0, 0] + text);
  }

  lemma EncodedLong(n: nat)
    requires n < 256
    ensures EncodeEntry(Entry([], U64(n))) == [0, 0, 0, 0, 0, 0, 0, 0] + [10, 0, 0, 0] + [n, 0, 0, 0, 0, 0, 0, 0]
  {
    FourBytes(10);
    ShortLength(n);
    KeylessEntry(U64(n), [10, 0, 0, 0], [n, 0, 0, 0, 0, 0, 0, 0]);
  }

  lemma EncodedSignedLong(n: nat)
    requires n < 256
    ensures EncodeEntry(Entry([], I64(n))) == [0, 0, 0, 0, 0, 0, 0, 0] + [11, 0, 0, 0] + [n, 0, 0, 0, 0, 0, 0, 0]
  {
    FourBytes(11);
    ShortLength(n);
    KeylessEntry(I64(n), [11, 0, 0, 0], [n, 0, 0, 0, 0, 0, 0, 0]);
  }

  // ---- the reader ----

  predicate StartsAt(data: Bytes, pos: nat, b: Bytes)
  {
    pos + |b| <= |data| && data[pos..pos + |b|] == b
  }

  lemma StartsSplit(data: Bytes, pos: nat, a: Bytes, b: Bytes)
    requires StartsAt(data, pos, a + b)
    ensures StartsAt(data, pos, a) && StartsAt(data, pos + |a|, b)
  {
    assert (a + b)[..|a|] == a && (a + b)[|a|..] == b;
  }

  lemma EntryParts(data: Bytes, pos: nat, e: Entry)
    requires EntryOk(e) && StartsAt(data, pos, EncodeEntry(e))
    ensures TypeId(e.value) < Pow256(4) && |EncodeEntry(e)| == |EncodeString(e.key)| + 4 + |Encode(e.value)|
    ensures var p := pos + |EncodeString(e.key)|;
      && StartsAt(data, pos, EncodeString(e.key)) && StartsAt(data, p, LittleEndian(TypeId(e.value), 4))
      && StartsAt(data, p + 4, Encode(e.value))
  {
    PowersOf256();
    StartsSplit(data, pos, EncodeString(e.key), LittleEndian(TypeId(e.value), 4) + Encode(e.value));
    StartsSplit(data, pos + |EncodeString(e.key)|, LittleEndian(TypeId(e.value), 4), Encode(e.value));
  }

  /** The front entry is encoded first. */
  lemma NextEntry(es: seq<Entry>, i: nat)
    requires i < |es|
    ensures EncodeEntries(es[i..]) == EncodeEntry(es[i]) + EncodeEntries(es[i + 1..])
  {
    var rest := es[i..];
    assert rest[0] == es[i] && rest[1..] == es[i + 1..];
  }

  /** The scalars and the architecture of one more entry follow from those
      before it. */
  lemma NextMeaning(es: seq<Entry>, i: nat)
    requires i < |es|
    ensures Scalars(es[..i + 1]) ==
      if Unsigned(es[i].value).Some? then Scalars(es[..i])[es[i].key := Unsigned(es[i].value).value] else Scalars(es[..i])
    ensures Arch(es[..i + 1]) ==
      if es[i].key == ARCHITECTURE && es[i].value.Str? then es[i].value.text else Arch(es[..i])
  {
    var front := es[..i + 1];
    assert front[..|front| - 1] == es[..i] && front[|front| - 1] == es[i];
  }

  lemma NextEntryAt(data: Bytes, pos: nat, es: seq<Entry>, i: nat)
    requires i < |es| && StartsAt(data, pos, EncodeEntries(es[i..]))
    ensures |EncodeEntries(es[i..])| == |EncodeEntry(es[i])| + |EncodeEntries(es[i + 1..])|
    ensures StartsAt(data, pos, EncodeEntry(es[i])) && StartsAt(data, pos + |EncodeEntry(es[i])|, EncodeEntries(es[i + 1..]))
  {
    NextEntry(es, i);
    StartsSplit(data, pos, EncodeEntry(es[i]), EncodeEntries(es[i + 1..]));
  }

  class GgufFile {
    const data: Bytes
    var pos: nat

    constructor (data: Bytes)
      ensures this.data == data && pos == 0
    {
      this.data, pos := data, 0;
    }

    method ReadExact(n: nat) returns (r: Option<Bytes>)
      modifies this`pos
      ensures old(pos) + n <= |data| ==> r == Some(data[old(pos)..old(pos) + n]) && pos == old(pos) + n
      ensures old(pos) + n > |data| ==> r == None
    {
      if pos + n > |data| {
        pos := Max(pos, |data|);
        return None;
      }
      r := Some(data[pos..pos + n]);
      pos := pos + n;
    }

    /** `read_u32` and `read_u64`. */
    method ReadUint(k: nat, ghost n: nat) returns (r: Option<nat>)
      modifies this`pos
      ensures old(pos) + k <= |data| ==> r == Some(FromLittleEndian(data[old(pos)..old(pos) + k])) && pos == old(pos) + k
      ensures n < Pow256(k) && StartsAt(data, old(pos), LittleEndian(n, k)) ==> r == Some(n)
      ensures old(pos) + k > |data| ==> r == None
    {
      var buf := ReadExact(k);
      if n < Pow256(k) { LittleEndianInverts(n, k); }
      return if buf.None? then None else Some(FromLittleEndian(buf.value));
    }

    method ReadString(ghost s: Bytes) returns (r: Option<Bytes>)
      modifies this`pos
      ensures |s| <= 1_048_576 && StartsAt(data, old(pos), EncodeString(s)) ==> r == Some(s) && pos == old(pos) + |EncodeString(s)|
      ensures r.Some? ==> |r.value| <= 1_048_576
    {
      ghost var start := pos;
      PowersOf256();
      if StartsAt(data, pos, EncodeString(s)) { StartsSplit(data, pos, LittleEndian(|s|, 8), s); }
      var len := ReadUint(8, |s|);
      if len.None? || len.value > MAX_STRING {
        return None;
      }
      r := ReadExact(len.value);
    }

    /** `seek(SeekFrom::Current(len as i64))`: past the end is allowed, before
        the start is an error. */
    method SeekCurrent(len: nat) returns (ok: bool)
      requires len < TWO_64
      modifies this`pos
      ensures var delta := if len < TWO_63 then len else len - TWO_64;
        if old(pos) + delta < 0 then !ok && pos == old(pos) else ok && pos == old(pos) + delta
    {
      var delta := if len < TWO_63 then len else len - TWO_64;
      if pos + delta < 0 {
        return false;
      }
      pos := pos + delta;
      return true;
    }

    /** `Some(None)` when the type is not an integer the reader keeps. */
    method ReadUnsigned(ty: nat, ghost v: Value) returns (r: Option<Option<nat>>)
      requires ValueOk(v) && TypeId(v) == ty && StartsAt(data, pos, Encode(v))
      modifies this`pos
      ensures r == Some(Unsigned(v))
      ensures pos == old(pos) + if Unsigned(v).Some? then |Encode(v)| else 0
    {
      PowersOf256();
      if ty == 4 {
        var n := ReadUint(4, v.u);
        return if n.None? then None else Some(n);
      } else if ty == 5 {
        var n := ReadUint(4, ToTwos(v.i, TWO_32));
        if n.None? {
          return None;
        }
        var kept: nat := Max(FromTwos(n.value, TWO_32), 0);
        return Some(Some(kept));
      } else if ty == 10 {
        var n := ReadUint(8, v.u64);
        return if n.None? then None else Some(n);
      } else if ty == 11 {
        var n := ReadUint(8, ToTwos(v.i64, TWO_64));
        if n.None? {
          return None;
        }
        var kept: nat := Max(FromTwos(n.value, TWO_64), 0);
        return Some(Some(kept));
      }
      return Some(None);
    }

    /** Steps over one value, nested arrays included, and not a byte further. */
    method SkipValue(ty: nat, ghost v: Value) returns (ok: bool)
      requires ValueOk(v) && TypeId(v) == ty && StartsAt(data, pos, Encode(v))
      modifies this`pos
      ensures ok && pos == old(pos) + |Encode(v)|
      decreases v, 1
    {
      if ty in {0, 1, 7} {
        ok := SeekCurrent(1);
      } else if ty in {2, 3} {
        ok := SeekCurrent(2);
      } else if ty in {4, 5, 6} {
        ok := SeekCurrent(4);
      } else if ty == 8 {
        PowersOf256();
        StartsSplit(data, pos, LittleEndian(|v.text|, 8), v.text);
        var len := ReadUint(8, |v.text|);
        if len.None? {
          return false;
        }
        ok := SeekCurrent(len.value);
      } else if ty == 9 {
        ok := SkipArray(v);
      } else if ty in {10, 11, 12} {
        ok := SeekCurrent(8);
      } else {
        return false;
      }
    }

    method SkipArray(ghost v: Value) returns (ok: bool)
      requires ValueOk(v) && v.Arr? && StartsAt(data, pos, Encode(v))
      modifies this`pos
      ensures ok && pos == old(pos) + |Encode(v)|
      decreases v, 0
    {
      ghost var end := pos + |Encode(v)|;
      PowersOf256();
      StartsSplit(data, pos, LittleEndian(v.elemType, 4) + LittleEndian(|v.elems|, 8), EncodeAll(v.elems));
      StartsSplit(data, pos, LittleEndian(v.elemType, 4), LittleEndian(|v.elems|, 8));
      var elemType := ReadUint(4, v.elemType);
      if elemType.None? {
        return false;
      }
      var count := ReadUint(8, |v.elems|);
      if count.None? {
        return false;
      }
      var i := 0;
      while i < Min(count.value, MAX_ARRAY)
        invariant 0 <= i <= |v.elems| && StartsAt(data, pos, EncodeAll(v.elems[i..]))
        invariant pos + |EncodeAll(v.elems[i..])| == end
      {
        assert v.elems[i..][1..] == v.elems[i + 1..];
        StartsSplit(data, pos, Encode(v.elems[i]), EncodeAll(v.elems[i + 1..]));
        var skipped := SkipValue(elemType.value, v.elems[i]);
        if !skipped {
          return false;
        }
        i := i + 1;
      }
      return true;
    }

    method Scalar(m: map<Bytes, nat>, arch: Bytes, suffix: Bytes) returns (r: Option<nat>)
      ensures Answers(m, arch, suffix, r)
    {
      var key := arch + Ascii(".") + suffix;
      if key in m {
        return Some(m[key]);
      }
      if exists k :: k in m && Fallback(k, suffix) {
        var k :| k in m && Fallback(k, suffix);
        return Some(m[k]);
      }
      return None;
    }

    /** One key-value pair. */
    method ReadEntry(arch: Bytes, scalars: map<Bytes, nat>, ghost e: Entry)
      returns (ok: bool, arch': Bytes, scalars': map<Bytes, nat>)
      requires EntryOk(e) && StartsAt(data, pos, EncodeEntry(e))
      modifies this`pos
      ensures ok && pos == old(pos) + |EncodeEntry(e)|
      ensures arch' == if e.key == ARCHITECTURE && e.value.Str? then e.value.text else arch
      ensures scalars' == if Unsigned(e.value).Some? then scalars[e.key := Unsigned(e.value).value] else scalars
    {
      arch', scalars' := arch, scalars;
      EntryParts(data, pos, e);
      var key := ReadString(e.key);
      if key.None? {
        return false, arch, scalars;
      }
      var ty := ReadUint(4, TypeId(e.value));
      if ty.None? {
        return false, arch, scalars;
      }
      if key.value == ARCHITECTURE && ty.value == 8 {
        var text := ReadString(e.value.text);
        return text.Some?, if text.Some? then text.value else arch, scalars;
      }
      var n := ReadUnsigned(ty.value, e.value);
      if n.None? {
        return false, arch, scalars;
      }
      ok := true;
      if n.value.Some? {
        scalars' := scalars[key.value := n.value.value];
      } else {
        ok := SkipValue(ty.value, e.value);
      }
    }

    method ReadNextEntry(arch: Bytes, scalars: map<Bytes, nat>, ghost es: seq<Entry>, ghost i: nat)
      returns (ok: bool, arch': Bytes, scalars': map<Bytes, nat>)
      requires i < |es| && (forall e :: e in es ==> EntryOk(e)) && StartsAt(data, pos, EncodeEntries(es[i..]))
      requires arch == Arch(es[..i]) && scalars == Scalars(es[..i])
      modifies this`pos
      ensures ok && StartsAt(data, pos, EncodeEntries(es[i + 1..]))
      ensures pos + |EncodeEntries(es[i + 1..])| == old(pos) + |EncodeEntries(es[i..])|
      ensures arch' == Arch(es[..i + 1]) && scalars' == Scalars(es[..i + 1])
    {
      NextEntryAt(data, pos, es, i);
      NextMeaning(es, i);
      ok, arch', scalars' := ReadEntry(arch, scalars, es[i]);
    }

    method ReadEntries(n: nat, ghost es: seq<Entry>) returns (ok: bool, arch: Bytes, scalars: map<Bytes, nat>)
      requires n == |es| && (forall e :: e in es ==> EntryOk(e)) && StartsAt(data, pos, EncodeEntries(es))
      modifies this`pos
      ensures ok && pos == old(pos) + |EncodeEntries(es)| && arch == Arch(es) && scalars == Scalars(es)
    {
      ghost var end := pos + |EncodeEntries(es)|;
      arch, scalars := [], map[];
      var i := 0;
      while i < n
        invariant 0 <= i <= n && StartsAt(data, pos, EncodeEntries(es[i..]))
        invariant pos + |EncodeEntries(es[i..])| == end
        invariant arch == Arch(es[..i]) && scalars == Scalars(es[..i])
      {
        ok, arch, scalars := ReadNextEntry(arch, scalars, es, i);
        if !ok {
          return;
        }
        i := i + 1;
      }
      assert es[..n] == es;
      ok := true;
    }

    method ReadShape(scalars: map<Bytes, nat>, arch: Bytes, ghost es: seq<Entry>) returns (r: Option<Shape>)
      requires scalars == Scalars(es) && arch == Arch(es)
      ensures Describes(es, r)
    {
      var arch := if arch == [] then Ascii("llama") else arch;
      var layer := Scalar(scalars, arch, BLOCK_COUNT);
      var embd := Scalar(scalars, arch, EMBEDDING_LENGTH);
      var head := Scalar(scalars, arch, HEAD_COUNT);
      var kv := Scalar(scalars, arch, HEAD_COUNT_KV);
      assert LookedUp(es, layer, embd, head, kv);
      if layer.None? || embd.None? || head.None? {
        r := None;
      } else {
        var nHeadKv := if kv.Some? then kv.value else head.value;
        var shape := Shape(layer.value % TWO_32, embd.value % TWO_32, head.value % TWO_32, nHeadKv % TWO_32);
        r := if Usable(shape) then Some(shape) else None;
      }
      assert ShapeOf(r, layer, embd, head, kv);
    }

    /** `Some(None)` is "not a GGUF file we read", `None` an I/O error. Past a
        valid magic and version the file must hold a well-formed header. */
    method GgufShapeUncached(ghost h: Header) returns (r: Option<Option<Shape>>)
      requires pos == 0
      requires |data| >= 8 && data[..4] == [0x47, 0x47, 0x55, 0x46] && 2 <= FromLittleEndian(data[4..8]) <= 3 ==>
        HeaderOk(h) && StartsAt(data, 0, EncodeHeader(h))
      modifies this`pos
      ensures |data| < 4 ==> r == None
      ensures |data| >= 4 && data[..4] != [0x47, 0x47, 0x55, 0x46] ==> r == Some(None)
      ensures |data| >= 8 && data[..4] == [0x47, 0x47, 0x55, 0x46] && !(2 <= FromLittleEndian(data[4..8]) <= 3) ==> r == Some(None)
      ensures |data| >= 8 && data[..4] == [0x47, 0x47, 0x55, 0x46] && 2 <= FromLittleEndian(data[4..8]) <= 3 ==>
        r.Some? && Describes(h.entries, r.value)
      ensures |data| >= 8 && data[..4] == [0x47, 0x47, 0x55, 0x46] && 2 <= FromLittleEndian(data[4..8]) <= 3 ==> pos == |EncodeHeader(h)|
      ensures 4 <= |data| < 8 && data[..4] == [0x47, 0x47, 0x55, 0x46] ==> r == None
    {
      var magic := ReadExact(4);
      if magic.None? {
        return None;
      }
      if magic.value != MAGIC {
        return Some(None);
      }
      var version := ReadUint(4, 0);
      if version.None? {
        return None;
      }
      if !(2 <= version.value <= 3) {
        return Some(None);
      }
      HeaderSplits(data, h);
      r := ReadBody(h);
    }

    /** Everything after the version. */
    method ReadBody(ghost h: Header) returns (r: Option<Option<Shape>>)
      requires pos == 8 && HeaderOk(h) && StartsAt(data, 8, LittleEndian(h.nTensors, 8))
      requires StartsAt(data, 16, LittleEndian(|h.entries|, 8)) && StartsAt(data, 24, EncodeEntries(h.entries))
      modifies this`pos
      ensures r.Some? && Describes(h.entries, r.value) && pos == 24 + |EncodeEntries(h.entries)|
    {
      PowersOf256();
      var nTensors := ReadUint(8, h.nTensors);
      if nTensors.None? {
        return None;
      }
      var nKv := ReadUint(8, |h.entries|);
      if nKv.None? {
        return None;
      }
      var ok, arch, scalars := ReadEntries(nKv.value, h.entries);
      if !ok {
        return None;
      }
      var shape := ReadShape(scalars, arch, h.entries);
      return Some(shape);
    }
  }

  lemma HeaderSplits(data: Bytes, h: Header)
    requires StartsAt(data, 0, EncodeHeader(h))
    ensures StartsAt(data, 8, LittleEndian(h.nTensors, 8)) && StartsAt(data, 16, LittleEndian(|h.entries|, 8))
    ensures StartsAt(data, 24, EncodeEntries(h.entries)) && |EncodeHeader(h)| == 24 + |EncodeEntries(h.entries)|
  {
    var body := LittleEndian(|h.entries|, 8) + EncodeEntries(h.entries);
    StartsSplit(data, 0, MAGIC, LittleEndian(h.version, 4) + (LittleEndian(h.nTensors, 8) + body));
    StartsSplit(data, 4, LittleEndian(h.version, 4), LittleEndian(h.nTensors, 8) + body);
    BodySplits(data, h);
  }

  lemma BodySplits(data: Bytes, h: Header)
    requires StartsAt(data, 8, LittleEndian(h.nTensors, 8) + (LittleEndian(|h.entries|, 8) + EncodeEntries(h.entries)))
    ensures StartsAt(data, 8, LittleEndian(h.nTensors, 8)) && StartsAt(data, 16, LittleEndian(|h.entries|, 8))
    ensures StartsAt(data, 24, EncodeEntries(h.entries))
  {
    StartsSplit(data, 8, LittleEndian(h.nTensors, 8), LittleEndian(|h.entries|, 8) + EncodeEntries(h.entries));
    StartsSplit(data, 16, LittleEndian(|h.entries|, 8), EncodeEntries(h.entries));
  }
}
