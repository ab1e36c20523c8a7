/**
 Portable storage (go/node/levin/storage.go): the values, and the encoder and the
 decoder as functions of their input.  StorageCode.dfy holds the source's loops,
 proved equal to these functions.
 */
module Storage {
  import opened Bytes
  import opened Varint

  // ---------- data model ----------

  /** A Go string is a sequence of bytes. */
  type Name = seq<Byte>

  datatype Kind = Int64 | Int32 | Int16 | Int8 | Uint64 | Uint32 | Uint16 | Uint8 | Double

  datatype Section = Section(entries: map<Name, Value>)

  /** A double is held as the 64-bit pattern that math.Float64bits gives. */
  datatype Value =
    | Number(kind: Kind, n: int)
    | Boolean(b: bool)
    | Text(bytes: seq<Byte>)
    | Object(section: Section)
    | Uint64Array(u64s: seq<nat>)
    | Uint32Array(u32s: seq<nat>)
    | TextArray(texts: seq<seq<Byte>>)
    | ObjectArray(sections: seq<Section>)
    | Unsupported(badTag: BadTag)

  datatype Entry = Entry(name: Name, value: Value)

  const TAG_STRING: Byte := 10
  const TAG_BOOL: Byte := 11
  const TAG_OBJECT: Byte := 12
  const ARRAY_FLAG: Byte := 0x80

  function KindTag(k: Kind): Byte
  {
    match k
    case Int64 => 1
    case Int32 => 2
    case Int16 => 3
    case Int8 => 4
    case Uint64 => 5
    case Uint32 => 6
    case Uint16 => 7
    case Uint8 => 8
    case Double => 9
  }

  function Width(k: Kind): (w: nat)
    ensures w in {1, 2, 4, 8}
  {
    match k
    case Int64 => 8
    case Int32 => 4
    case Int16 => 2
    case Int8 => 1
    case Uint64 => 8
    case Uint32 => 4
    case Uint16 => 2
    case Uint8 => 1
    case Double => 8
  }

  predicate Signed(k: Kind)
  {
    k.Int64? || k.Int32? || k.Int16? || k.Int8?
  }

  function KindOf(tag: Byte): (k: Option<Kind>)
    ensures k.Some? ==> KindTag(k.value) == tag
    ensures k.None? ==> forall k': Kind :: KindTag(k') != tag
  {
    match tag
    case 1 => Some(Int64)
    case 2 => Some(Int32)
    case 3 => Some(Int16)
    case 4 => Some(Int8)
    case 5 => Some(Uint64)
    case 6 => Some(Uint32)
    case 7 => Some(Uint16)
    case 8 => Some(Uint8)
    case 9 => Some(Double)
    case _ => None
  }

  predicate SupportedTag(tag: Byte)
  {
    1 <= tag <= 12 || tag - ARRAY_FLAG in {5, 6, 10, 12}
  }

  type BadTag = t: Byte | !SupportedTag(t) witness 0

  function Tag(v: Value): Byte
  {
    match v
    case Number(k, _) => KindTag(k)
    case Boolean(_) => TAG_BOOL
    case Text(_) => TAG_STRING
    case Object(_) => TAG_OBJECT
    case Uint64Array(_) => 0x85
    case Uint32Array(_) => 0x86
    case TextArray(_) => 0x8A
    case ObjectArray(_) => 0x8C
    case Unsupported(t) => t
  }

  /** The tags of integers: 1 to 4 signed and 5 to 8 unsigned, each from 8 bytes down to 1. */
  lemma TagsSayKinds(k: Kind)
    ensures Signed(k) <==> KindTag(k) <= 4
    ensures !k.Double? ==> KindTag(k) <= 8 && Width(k) == [8, 4, 2, 1][(KindTag(k) - 1) % 4]
    ensures k.Double? ==> KindTag(k) == 9 && Width(k) == 8
  {
  }

  /** The tag of an array is that of its elements with the high bit set. */
  lemma ArrayTags(ns: seq<nat>, ts: seq<seq<Byte>>, ss: seq<Section>, t: seq<Byte>, s: Section)
    ensures Tag(Uint64Array(ns)) == ARRAY_FLAG + KindTag(Uint64) && Tag(Uint32Array(ns)) == ARRAY_FLAG + KindTag(Uint32)
    ensures Tag(TextArray(ts)) == ARRAY_FLAG + Tag(Text(t)) && Tag(ObjectArray(ss)) == ARRAY_FLAG + Tag(Object(s))
  {
  }

  // ---------- well-formed values ----------

  predicate NumberFits(k: Kind, n: int)
  {
    if Signed(k) then SignedRange(Width(k), n) else 0 <= n < Pow256(Width(k))
  }

  /**
   What the constructors and Go's types guarantee of a value that the encoder accepts:
   numbers in the range of their type, supported tags, names of at most 255 bytes, and
   lengths that a varint can carry.
   */
  ghost predicate WellFormed(s: Section)
    decreases s, 1
  {
    && |s.entries| <= MAX8
    && forall k | k in s.entries :: |k| <= 255 && WellFormedValue(s.entries[k])
  }

  ghost predicate WellFormedValue(v: Value)
    decreases v, 0
  {
    match v
    case Number(k, n) => NumberFits(k, n)
    case Boolean(_) => true
    case Text(b) => |b| <= MAX8
    case Object(s) => WellFormed(s)
    case Uint64Array(ns) => |ns| <= MAX8 && forall i | 0 <= i < |ns| :: ns[i] < TWO64
    case Uint32Array(ns) => |ns| <= MAX8 && forall i | 0 <= i < |ns| :: ns[i] < TWO32
    case TextArray(ts) => |ts| <= MAX8 && forall i | 0 <= i < |ts| :: |ts[i]| <= MAX8
    case ObjectArray(ss) => |ss| <= MAX8 && forall i | 0 <= i < |ss| :: WellFormed(ss[i])
    case Unsupported(_) => false
  }

  // ---------- decoder ----------

  /** One decoded element in front of the elements decoded after it. */
  function Cons<T>(head: Parsed<T>, tail: Result<Parsed<seq<T>>, Error>): Result<Parsed<seq<T>>, Error>
  {
    if tail.Err? then tail
    else Ok(Parsed([head.value] + tail.value.value, head.used + tail.value.used))
  }

  function ParseSection(buf: seq<Byte>): (r: Result<Parsed<Section>, Error>)
    ensures r.Ok? ==> 1 <= r.value.used <= |buf|
    decreases |buf|, 0
  {
    var c :- UnpackVarint(buf);
    var es :- ParseEntries(buf[c.used..], c.value);
    Ok(Parsed(Section(MapOf(es.value)), c.used + es.used))
  }

  function ParseEntries(buf: seq<Byte>, count: nat): (r: Result<Parsed<seq<Entry>>, Error>)
    ensures r.Ok? ==> r.value.used <= |buf| && |r.value.value| == count
    decreases |buf|, 2
  {
    if count == 0 then Ok(Parsed([], 0))
    else
      var e :- ParseEntry(buf);
      Cons(e, ParseEntries(buf[e.used..], count - 1))
  }

  function ParseEntry(buf: seq<Byte>): (r: Result<Parsed<Entry>, Error>)
    ensures r.Ok? ==> 3 <= r.value.used <= |buf|
    decreases |buf|, 1
  {
    if |buf| == 0 then Err(StorageTruncated)
    else
      var n := buf[0] as nat + 1;
      if n >= |buf| then Err(StorageTruncated)
      else
        var v :- ParseValue(buf[n + 1..], buf[n]);
        Ok(Parsed(Entry(buf[1..n], v.value), n + 1 + v.used))
  }

  /** The section that a list of decoded entries builds: a repeated name keeps its last value. */
  function MapOf(es: seq<Entry>): map<Name, Value>
  {
    if es == [] then map[] else map[es[0].name := es[0].value] + MapOf(es[1..])
  }

  function ParseNumber(k: Kind, buf: seq<Byte>): (r: Result<Parsed<Value>, Error>)
    ensures r.Ok? ==> 1 <= r.value.used <= |buf|
  {
    var w := Width(k);
    if |buf| < w then Err(StorageTruncated)
    else
      var u := FromLittleEndian(buf[..w]);
      FromLittleEndianBound(buf[..w]);
      Ok(Parsed(Number(k, if Signed(k) then ToSigned(w, u) else u), w))
  }

  function ParseText(buf: seq<Byte>): (r: Result<Parsed<seq<Byte>>, Error>)
    ensures r.Ok? ==> 1 <= r.value.used <= |buf|
    ensures r.Err? ==> r.error == VarintTruncated || r.error == StorageTruncated
  {
    var c :- UnpackVarint(buf);
    if |buf| - c.used < c.value then Err(StorageTruncated)
    else Ok(Parsed(buf[c.used..c.used + c.value], c.used + c.value))
  }

  function ParseValue(buf: seq<Byte>, tag: Byte): (r: Result<Parsed<Value>, Error>)
    ensures r.Ok? ==> 1 <= r.value.used <= |buf|
    decreases |buf|, 1
  {
    if tag >= ARRAY_FLAG then
      var c :- UnpackVarint(buf);
      var a :- ParseArray(buf[c.used..], tag - ARRAY_FLAG, c.value);
      Ok(Parsed(a.value, c.used + a.used))
    else if KindOf(tag).Some? then ParseNumber(KindOf(tag).value, buf)
    else if tag == TAG_BOOL then
      if |buf| < 1 then Err(StorageTruncated) else Ok(Parsed(Boolean(buf[0] != 0), 1))
    else if tag == TAG_STRING then
      var t :- ParseText(buf);
      Ok(Parsed(Text(t.value), t.used))
    else if tag == TAG_OBJECT then
      var s :- ParseSection(buf);
      Ok(Parsed(Object(s.value), s.used))
    else Err(UnknownType)
  }

  /** The elements of an array, after its count. */
  function ParseArray(buf: seq<Byte>, elem: Byte, count: nat): (r: Result<Parsed<Value>, Error>)
    ensures r.Ok? ==> r.value.used <= |buf|
    decreases |buf|, 3
  {
    if elem == KindTag(Uint64) then
      var a :- ParseNats(8, buf, count);
      Ok(Parsed(Uint64Array(a.value), a.used))
    else if elem == KindTag(Uint32) then
      var a :- ParseNats(4, buf, count);
      Ok(Parsed(Uint32Array(a.value), a.used))
    else if elem == TAG_STRING then
      var a :- ParseTexts(buf, count);
      Ok(Parsed(TextArray(a.value), a.used))
    else if elem == TAG_OBJECT then
      var a :- ParseSections(buf, count);
      Ok(Parsed(ObjectArray(a.value), a.used))
    else Err(UnknownType)
  }

  function ParseNats(w: nat, buf: seq<Byte>, count: nat): (r: Result<Parsed<seq<nat>>, Error>)
    requires w > 0
    ensures r.Ok? ==> r.value.used <= |buf| && |r.value.value| == count
    ensures r.Err? ==> r.error == StorageTruncated
    decreases count
  {
    if count == 0 then Ok(Parsed([], 0))
    else if |buf| < w then Err(StorageTruncated)
    else
      Cons(Parsed(FromLittleEndian(buf[..w]), w), ParseNats(w, buf[w..], count - 1))
  }

  function ParseTexts(buf: seq<Byte>, count: nat): (r: Result<Parsed<seq<seq<Byte>>>, Error>)
    ensures r.Ok? ==> r.value.used <= |buf| && |r.value.value| == count
    ensures r.Err? ==> r.error == VarintTruncated || r.error == StorageTruncated
    decreases count
  {
    if count == 0 then Ok(Parsed([], 0))
    else
      var t :- ParseText(buf);
      Cons(t, ParseTexts(buf[t.used..], count - 1))
  }

  function ParseSections(buf: seq<Byte>, count: nat): (r: Result<Parsed<seq<Section>>, Error>)
    ensures r.Ok? ==> r.value.used <= |buf| && |r.value.value| == count
    decreases |buf|, 2
  {
    if count == 0 then Ok(Parsed([], 0))
    else
      var s :- ParseSection(buf);
      Cons(s, ParseSections(buf[s.used..], count - 1))
  }

  // ---------- file header ----------

  const SIGNATURE_A: nat := 0x01011101
  const SIGNATURE_B: nat := 0x01020101
  const VERSION: Byte := 1
  const HEADER_SIZE: nat := 9

  function HeaderBytes(): (h: seq<Byte>)
    ensures |h| == HEADER_SIZE
  {
    LittleEndian(4, SIGNATURE_A) + LittleEndian(4, SIGNATURE_B) + [VERSION]
  }

  function ParseStorage(data: seq<Byte>): (r: Result<Parsed<Section>, Error>)
    ensures r.Ok? ==> HEADER_SIZE < r.value.used <= |data|
  {
    if |data| < HEADER_SIZE then Err(StorageTruncated)
    else if FromLittleEndian(data[..4]) != SIGNATURE_A || FromLittleEndian(data[4..8]) != SIGNATURE_B then
      Err(BadSignature)
    else if data[8] != VERSION then Err(BadVersion)
    else
      var s :- ParseSection(data[HEADER_SIZE..]);
      Ok(Parsed(s.value, HEADER_SIZE + s.used))
  }

  // ---------- encoder ----------

  /** Go's string order: bytewise, a proper prefix first. */
  predicate Before(a: Name, b: Name)
  {
    if b == [] then false
    else if a == [] then true
    else a[0] < b[0] || (a[0] == b[0] && Before(a[1..], b[1..]))
  }

  ghost predicate Ascending(ks: seq<Name>)
  {
    forall i, j | 0 <= i < j < |ks| :: Before(ks[i], ks[j])
  }

  ghost predicate Enumerates(ks: seq<Name>, names: set<Name>)
  {
    Ascending(ks) && forall k :: k in ks <==> k in names
  }

  ghost function SortedNames(names: set<Name>): (ks: seq<Name>)
    ensures Enumerates(ks, names) && |ks| == |names|
  {
    SortedNamesExist(names);
    var ks :| Enumerates(ks, names) && |ks| == |names|;
    ks
  }

  ghost function EncodeSection(s: Section): (r: Result<seq<Byte>, Error>)
    decreases s, 2
  {
    var body :- EncodeEntries(s, SortedNames(s.entries.Keys));
    Ok(PackVarint(|s.entries|) + body)
  }

  ghost function EncodeEntries(s: Section, ks: seq<Name>): (r: Result<seq<Byte>, Error>)
    requires forall k | k in ks :: k in s.entries
    decreases s, 1, |ks|
  {
    if ks == [] then Ok([])
    else
      var e :- EncodeEntry(ks[0], s.entries[ks[0]]);
      var es :- EncodeEntries(s, ks[1..]);
      Ok(e + es)
  }

  ghost function EncodeEntry(name: Name, v: Value): (r: Result<seq<Byte>, Error>)
    decreases v, 2
  {
    if |name| > 255 then Err(NameTooLong)
    else
      var body :- EncodeValue(v);
      Ok([|name|] + name + [Tag(v)] + body)
  }

  ghost function EncodeValue(v: Value): (r: Result<seq<Byte>, Error>)
    decreases v, 1
  {
    match v
    case Number(k, n) => Ok(LittleEndian(Width(k), ToUnsigned(Width(k), n)))
    case Boolean(b) => Ok([if b then 1 else 0])
    case Text(t) => Ok(TextBytes(t))
    case Object(s) => EncodeSection(s)
    case Uint64Array(ns) => Ok(PackVarint(|ns|) + NatsBytes(8, ns))
    case Uint32Array(ns) => Ok(PackVarint(|ns|) + NatsBytes(4, ns))
    case TextArray(ts) => Ok(PackVarint(|ts|) + TextsBytes(ts))
    case ObjectArray(ss) =>
      var body :- EncodeSections(ss);
      Ok(PackVarint(|ss|) + body)
    case Unsupported(_) => Err(UnknownType)
  }

  function TextBytes(t: seq<Byte>): seq<Byte>
  {
    PackVarint(|t|) + t
  }

  function NatsBytes(w: nat, ns: seq<nat>): seq<Byte>
  {
    if ns == [] then [] else LittleEndian(w, ns[0]) + NatsBytes(w, ns[1..])
  }

  function TextsBytes(ts: seq<seq<Byte>>): seq<Byte>
  {
    if ts == [] then [] else TextBytes(ts[0]) + TextsBytes(ts[1..])
  }

  ghost function EncodeSections(ss: seq<Section>): (r: Result<seq<Byte>, Error>)
    decreases ss, 0
  {
    if ss == [] then Ok([])
    else
      var s :- EncodeSection(ss[0]);
      var rest :- EncodeSections(ss[1..]);
      Ok(s + rest)
  }

  ghost function EncodeStorage(s: Section): (r: Result<seq<Byte>, Error>)
  {
    var body :- EncodeSection(s);
    Ok(HeaderBytes() + body)
  }

  // ---------- the order on names ----------

  lemma {:induction false} BeforeTotal(a: Name, b: Name)
    ensures a == b || Before(a, b) || Before(b, a)
    ensures !(Before(a, b) && Before(b, a)) && !Before(a, a)
  {
    if a != [] && b != [] {
      BeforeTotal(a[1..], b[1..]);
      if a[0] == b[0] && a[1..] == b[1..] {
        assert a == [a[0]] + a[1..] && b == [b[0]] + b[1..];
      }
    }
    if a != [] {
      BeforeTotal(a[1..], a[1..]);
    }
  }

  /** The names agree up to i, where a ends or has the smaller byte. */
  predicate DecidedAt(a: Name, b: Name, i: nat)
  {
    i <= |a| && i < |b| && a[..i] == b[..i] && (i == |a| || a[i] < b[i])
  }

  /** The first difference decides, and a proper prefix comes first. */
  ghost predicate Lexicographic(a: Name, b: Name)
  {
    exists i: nat :: DecidedAt(a, b, i)
  }

  lemma {:induction false} BeforeIsLexicographic(a: Name, b: Name)
    ensures Before(a, b) <==> Lexicographic(a, b)
  {
    if a == [] || b == [] {
      assert b != [] ==> DecidedAt(a, b, 0);
    } else {
      BeforeIsLexicographic(a[1..], b[1..]);
      if a[0] == b[0] {
        if i: nat :| DecidedAt(a[1..], b[1..], i) {
          assert a[..i + 1] == [a[0]] + a[1..][..i] && b[..i + 1] == [b[0]] + b[1..][..i];
          assert DecidedAt(a, b, i + 1);
        }
        if i: nat :| DecidedAt(a, b, i) {
          assert i > 0;
          assert a[1..][..i - 1] == a[..i][1..] && b[1..][..i - 1] == b[..i][1..];
          assert DecidedAt(a[1..], b[1..], i - 1);
        }
      } else {
        assert a[0] < b[0] ==> DecidedAt(a, b, 0);
        if i: nat :| DecidedAt(a, b, i) {
          assert i == 0;
        }
      }
    }
  }

  lemma {:induction false} BeforeTransitive(a: Name, b: Name, c: Name)
    requires Before(a, b) && Before(b, c)
    ensures Before(a, c)
  {
    if a != [] && a[0] == b[0] && b[0] == c[0] {
      BeforeTransitive(a[1..], b[1..], c[1..]);
    }
  }

  /** Insertion into an ascending list: the place is the number of names that come before. */
  function Rank(k: Name, ks: seq<Name>): (i: nat)
    ensures i <= |ks|
  {
    if ks == [] || !Before(ks[0], k) then 0 else 1 + Rank(k, ks[1..])
  }

  function Insert(k: Name, ks: seq<Name>): (r: seq<Name>)
    ensures |r| == |ks| + 1
  {
    ks[..Rank(k, ks)] + [k] + ks[Rank(k, ks)..]
  }

  lemma {:induction false} RankSplits(k: Name, ks: seq<Name>)
    requires Ascending(ks) && k !in ks
    ensures forall i | 0 <= i < Rank(k, ks) :: Before(ks[i], k)
    ensures forall i | Rank(k, ks) <= i < |ks| :: Before(k, ks[i])
  {
    if ks != [] {
      BeforeTotal(ks[0], k);
      if Before(ks[0], k) {
        assert ks == [ks[0]] + ks[1..];
        RankSplits(k, ks[1..]);
      } else {
        forall i | 0 < i < |ks| ensures Before(k, ks[i]) {
          BeforeTransitive(k, ks[0], ks[i]);
        }
      }
    }
  }

  lemma InsertEnumerates(k: Name, ks: seq<Name>, names: set<Name>)
    requires Enumerates(ks, names) && k !in names
    ensures Enumerates(Insert(k, ks), names + {k})
  {
    RankSplits(k, ks);
    var p, r := Rank(k, ks), Insert(k, ks);
    forall i, j | 0 <= i < j < |r| ensures Before(r[i], r[j]) {
      if i < p <= j - 1 {
        assert r[i] == ks[i] && r[j] == if j == p then k else ks[j - 1];
      }
    }
    forall x ensures x in r <==> x in names + {k} {
      assert x in r <==> x in ks[..p] || x == k || x in ks[p..];
      assert ks == ks[..p] + ks[p..];
    }
  }

  lemma {:induction false} SortedNamesExist(names: set<Name>)
    ensures exists ks :: Enumerates(ks, names) && |ks| == |names|
  {
    if names == {} {
      assert Enumerates([], names);
    } else {
      var k :| k in names;
      SortedNamesExist(names - {k});
      var ks :| Enumerates(ks, names - {k}) && |ks| == |names - {k}|;
      InsertEnumerates(k, ks, names - {k});
      assert names - {k} + {k} == names;
      assert Enumerates(Insert(k, ks), names) && |Insert(k, ks)| == |names|;
    }
  }

  /** A set of names has one ascending enumeration, so the output cannot depend on map order. */
  lemma {:induction false} EnumerationUnique(a: seq<Name>, b: seq<Name>, names: set<Name>)
    requires Enumerates(a, names) && Enumerates(b, names)
    ensures a == b
  {
    assert a != [] ==> a[0] in b;
    assert b != [] ==> b[0] in a;
    if a != [] {
      HeadsAgree(a, b, names);
      TailEnumerates(a, names);
      TailEnumerates(b, names);
      EnumerationUnique(a[1..], b[1..], names - {a[0]});
      assert a == [a[0]] + a[1..] && b == [b[0]] + b[1..];
    }
  }

  lemma HeadsAgree(a: seq<Name>, b: seq<Name>, names: set<Name>)
    requires Enumerates(a, names) && Enumerates(b, names) && a != [] && b != []
    ensures a[0] == b[0]
  {
    assert a[0] in b && b[0] in a;
    BeforeTotal(a[0], b[0]);
    BeforeTotal(b[0], a[0]);
  }

  lemma TailEnumerates(a: seq<Name>, names: set<Name>)
    requires Enumerates(a, names) && a != []
    ensures Enumerates(a[1..], names - {a[0]})
  {
    assert a == [a[0]] + a[1..];
    BeforeTotal(a[0], a[0]);
    forall k ensures k in a[1..] <==> k in names - {a[0]} {
      assert k in a <==> k == a[0] || k in a[1..];
      if k in a[1..] {
        var i :| 0 <= i < |a[1..]| && a[1..][i] == k;
        assert Before(a[0], a[i + 1]);
      }
    }
  }
}
