/** Decoding what was encoded: the round trip, which inputs the encoder refuses, and prefix freedom. */
module StorageRoundTrip {
  import opened Bytes
  import opened Varint
  import opened Storage

  // ---------- when encoding fails ----------

  /** Some name in s, at any depth, is longer than the one-byte length can say. */
  ghost predicate HasLongName(s: Section)
    decreases s, 1
  {
    exists k | k in s.entries :: |k| > 255 || HasLongNameIn(s.entries[k])
  }

  ghost predicate HasLongNameIn(v: Value)
    decreases v, 0
  {
    match v
    case Object(s) => HasLongName(s)
    case ObjectArray(ss) => exists s | s in ss :: HasLongName(s)
    case _ => false
  }

  /** Some value in s, at any depth, has a tag that the format does not define. */
  ghost predicate HasBadTag(s: Section)
    decreases s, 1
  {
    exists k | k in s.entries :: HasBadTagIn(s.entries[k])
  }

  ghost predicate HasBadTagIn(v: Value)
    decreases v, 0
  {
    match v
    case Unsupported(_) => true
    case Object(s) => HasBadTag(s)
    case ObjectArray(ss) => exists s | s in ss :: HasBadTag(s)
    case _ => false
  }

  /** The outcome of an encoding, given whether a long name or a bad tag is reachable. */
  ghost predicate Explained(r: Result<seq<Byte>, Error>, longName: bool, badTag: bool)
  {
    && (r.Ok? <==> !longName && !badTag)
    && (r == Err(NameTooLong) ==> longName)
    && (r == Err(UnknownType) ==> badTag)
    && (r.Err? ==> r.error == NameTooLong || r.error == UnknownType)
  }

  /** Encoding fails exactly when a long name or an unsupported tag is reachable, with the matching error. */
  lemma {:induction false} EncodeFailsExactly(s: Section)
    ensures Explained(EncodeSection(s), HasLongName(s), HasBadTag(s))
    decreases s, 2
  {
    var ks := SortedNames(s.entries.Keys);
    EntriesFailExactly(s, ks);
  }

  lemma {:induction false} EntriesFailExactly(s: Section, ks: seq<Name>)
    requires forall k | k in ks :: k in s.entries
    ensures Explained(EncodeEntries(s, ks),
                      exists k | k in ks :: |k| > 255 || HasLongNameIn(s.entries[k]),
                      exists k | k in ks :: HasBadTagIn(s.entries[k]))
    decreases s, 1, |ks|
  {
    if ks != [] {
      ValueFailsExactly(s.entries[ks[0]]);
      EntriesFailExactly(s, ks[1..]);
      assert forall k :: k in ks <==> k == ks[0] || k in ks[1..];
    }
  }

  lemma {:induction false} ValueFailsExactly(v: Value)
    ensures Explained(EncodeValue(v), HasLongNameIn(v), HasBadTagIn(v))
    decreases v, 1
  {
    match v
    case Object(s) => EncodeFailsExactly(s);
    case ObjectArray(ss) => SectionsFailExactly(ss);
    case _ =>
  }

  lemma {:induction false} SectionsFailExactly(ss: seq<Section>)
    ensures Explained(EncodeSections(ss),
                      exists s | s in ss :: HasLongName(s),
                      exists s | s in ss :: HasBadTag(s))
    decreases ss, 0
  {
    if ss != [] {
      EncodeFailsExactly(ss[0]);
      SectionsFailExactly(ss[1..]);
      assert forall s :: s in ss <==> s == ss[0] || s in ss[1..];
    }
  }

  // ---------- round trip ----------
  // "e <= buf" says that buf starts with the bytes e.

  lemma PrefixSplit(a: seq<Byte>, b: seq<Byte>, buf: seq<Byte>)
    requires a + b <= buf
    ensures a <= buf && b <= buf[|a|..]
  {
    assert a == (a + b)[..|a|] && b == (a + b)[|a|..];
  }

  lemma VarintAt(v: nat, buf: seq<Byte>)
    requires v <= MAX8 && PackVarint(v) <= buf
    ensures UnpackVarint(buf) == Ok(Parsed(v, |PackVarint(v)|))
  {
    VarintRoundTrip(v, buf[|PackVarint(v)|..]);
    assert buf == PackVarint(v) + buf[|PackVarint(v)|..];
  }

  lemma {:induction false} NatAt(w: nat, n: nat, buf: seq<Byte>)
    requires n < Pow256(w) && LittleEndian(w, n) <= buf
    ensures FromLittleEndian(buf[..w]) == n
  {
    LittleEndianRoundTrip(w, n);
    RemainderUnique(n, Pow256(w), 0, n);
    assert buf[..w] == LittleEndian(w, n);
  }

  lemma NumberRoundTrip(k: Kind, n: int, buf: seq<Byte>)
    requires NumberFits(k, n) && LittleEndian(Width(k), ToUnsigned(Width(k), n)) <= buf
    ensures ParseNumber(k, buf) == Ok(Parsed(Number(k, n), Width(k)))
  {
    var w := Width(k);
    NatAt(w, ToUnsigned(w, n), buf);
    if Signed(k) {
      TwosComplement(w, n);
    } else {
      RemainderUnique(n, Pow256(w), 0, n);
    }
  }

  lemma TextRoundTrip(b: seq<Byte>, buf: seq<Byte>)
    requires |b| <= MAX8 && TextBytes(b) <= buf
    ensures ParseText(buf) == Ok(Parsed(b, |TextBytes(b)|))
  {
    var head := PackVarint(|b|);
    PrefixSplit(head, b, buf);
    VarintAt(|b|, buf);
    assert buf[|head|..|head| + |b|] == buf[|head|..][..|b|] == b;
  }

  lemma {:induction false} NatsRoundTrip(w: nat, ns: seq<nat>, buf: seq<Byte>)
    requires w > 0 && (forall i | 0 <= i < |ns| :: ns[i] < Pow256(w)) && NatsBytes(w, ns) <= buf
    ensures ParseNats(w, buf, |ns|) == Ok(Parsed(ns, |NatsBytes(w, ns)|))
  {
    if ns != [] {
      PrefixSplit(LittleEndian(w, ns[0]), NatsBytes(w, ns[1..]), buf);
      NatAt(w, ns[0], buf);
      NatsRoundTrip(w, ns[1..], buf[w..]);
      HeadAndTail(ns);
    }
  }

  lemma {:induction false} TextsRoundTrip(ts: seq<seq<Byte>>, buf: seq<Byte>)
    requires (forall i | 0 <= i < |ts| :: |ts[i]| <= MAX8) && TextsBytes(ts) <= buf
    ensures ParseTexts(buf, |ts|) == Ok(Parsed(ts, |TextsBytes(ts)|))
  {
    if ts != [] {
      var head := TextBytes(ts[0]);
      PrefixSplit(head, TextsBytes(ts[1..]), buf);
      TextRoundTrip(ts[0], buf);
      TextsRoundTrip(ts[1..], buf[|head|..]);
      HeadAndTail(ts);
    }
  }

  lemma {:induction false} SectionsCons(buf: seq<Byte>, s: Parsed<Section>, rest: Parsed<seq<Section>>, count: nat,
                                        left: nat)
    requires count == left + 1 && ParseSection(buf) == Ok(s) && ParseSections(buf[s.used..], left) == Ok(rest)
    ensures ParseSections(buf, count) == Ok(Parsed([s.value] + rest.value, s.used + rest.used))
  {
  }

  lemma HeadAndTail<T>(s: seq<T>)
    requires s != []
    ensures s == [s[0]] + s[1..]
  {
  }

  lemma {:induction false} EncodeSectionsStep(ss: seq<Section>)
    requires ss != [] && EncodeSections(ss).Ok?
    ensures EncodeSection(ss[0]).Ok? && EncodeSections(ss[1..]).Ok?
    ensures EncodeSections(ss).value == EncodeSection(ss[0]).value + EncodeSections(ss[1..]).value
  {
  }

  /** One encoded section, then the encodings of the others. */
  lemma {:induction false} SectionsStep(ss: seq<Section>, n: nat, m: nat, buf: seq<Byte>)
    requires ss != [] && ParseSection(buf) == Ok(Parsed(ss[0], n))
    requires ParseSections(buf[n..], |ss[1..]|) == Ok(Parsed(ss[1..], m))
    ensures ParseSections(buf, |ss|).Ok? && ParseSections(buf, |ss|).value == Parsed(ss, n + m)
  {
    HeadAndTail(ss);
    SectionsCons(buf, Parsed(ss[0], n), Parsed(ss[1..], m), |ss|, |ss[1..]|);
  }

  lemma {:induction false} SectionsJoin(ss: seq<Section>, head: seq<Byte>, rest: seq<Byte>, buf: seq<Byte>)
    requires ss != [] && ParseSection(buf) == Ok(Parsed(ss[0], |head|))
    requires ParseSections(buf[|head|..], |ss[1..]|) == Ok(Parsed(ss[1..], |rest|))
    ensures ParseSections(buf, |ss|) == Ok(Parsed(ss, |head + rest|))
  {
    hide ParseSection;
    SectionsStep(ss, |head|, |rest|, buf);
  }

  lemma {:induction false} SectionsRoundTrip(ss: seq<Section>, e: seq<Byte>, buf: seq<Byte>)
    requires forall i | 0 <= i < |ss| :: WellFormed(ss[i])
    requires EncodeSections(ss) == Ok(e) && e <= buf
    ensures ParseSections(buf, |ss|) == Ok(Parsed(ss, |e|))
    decreases ss, 0
  {
    if ss != [] {
      EncodeSectionsStep(ss);
      var head, rest := EncodeSection(ss[0]).value, EncodeSections(ss[1..]).value;
      PrefixSplit(head, rest, buf);
      SectionRoundTrip(ss[0], head, buf);
      SectionsRoundTrip(ss[1..], rest, buf[|head|..]);
      SectionsJoin(ss, head, rest, buf);
    }
  }

  /** A counted array: the count, then what its elements parse to. */
  lemma {:induction false} ArrayAt(v: Value, count: nat, body: seq<Byte>, buf: seq<Byte>)
    requires count <= MAX8 && Tag(v) >= ARRAY_FLAG && PackVarint(count) <= buf
    requires ParseArray(buf[|PackVarint(count)|..], Tag(v) - ARRAY_FLAG, count) == Ok(Parsed(v, |body|))
    ensures ParseValue(buf, Tag(v)) == Ok(Parsed(v, |PackVarint(count) + body|))
  {
    VarintAt(count, buf);
  }

  lemma {:induction false} ObjectAt(s: Section, n: nat, buf: seq<Byte>)
    requires ParseSection(buf) == Ok(Parsed(s, n))
    ensures ParseValue(buf, TAG_OBJECT) == Ok(Parsed(Object(s), n))
  {
    assert KindOf(TAG_OBJECT).None?;
  }

  lemma {:induction false} ScalarRoundTrip(v: Value, e: seq<Byte>, buf: seq<Byte>)
    requires WellFormedValue(v) && EncodeValue(v) == Ok(e) && e <= buf && (v.Number? || v.Boolean? || v.Text?)
    ensures ParseValue(buf, Tag(v)) == Ok(Parsed(v, |e|))
  {
    hide ParseSection;
    if v.Number? {
      NumberRoundTrip(v.kind, v.n, buf);
    } else if v.Boolean? {
      assert buf[0] == e[0];
    } else {
      TextRoundTrip(v.bytes, buf);
    }
  }

  lemma {:induction false} ValueRoundTrip(v: Value, e: seq<Byte>, buf: seq<Byte>)
    requires WellFormedValue(v) && EncodeValue(v) == Ok(e) && e <= buf
    ensures ParseValue(buf, Tag(v)) == Ok(Parsed(v, |e|))
    decreases v, 1
  {
    if v.Object? {
      SectionRoundTrip(v.section, e, buf);
      ObjectAt(v.section, |e|, buf);
    } else if Tag(v) < ARRAY_FLAG {
      ScalarRoundTrip(v, e, buf);
    } else {
      ArrayRoundTrip(v, e, buf);
    }
  }

  lemma {:induction false} ArrayRoundTrip(v: Value, e: seq<Byte>, buf: seq<Byte>)
    requires WellFormedValue(v) && EncodeValue(v) == Ok(e) && e <= buf && Tag(v) >= ARRAY_FLAG
    ensures ParseValue(buf, Tag(v)) == Ok(Parsed(v, |e|))
    decreases v, 0
  {
    hide ParseNats, ParseTexts, ParseSections, EncodeSections;
    Pow256Values();
    match v
    case Uint64Array(ns) =>
      var head, body := PackVarint(|ns|), NatsBytes(8, ns);
      PrefixSplit(head, body, buf);
      NatsRoundTrip(8, ns, buf[|head|..]);
      ArrayAt(v, |ns|, body, buf);
    case Uint32Array(ns) =>
      var head, body := PackVarint(|ns|), NatsBytes(4, ns);
      PrefixSplit(head, body, buf);
      NatsRoundTrip(4, ns, buf[|head|..]);
      ArrayAt(v, |ns|, body, buf);
    case TextArray(ts) =>
      var head, body := PackVarint(|ts|), TextsBytes(ts);
      PrefixSplit(head, body, buf);
      TextsRoundTrip(ts, buf[|head|..]);
      ArrayAt(v, |ts|, body, buf);
    case ObjectArray(ss) =>
      var head, body := PackVarint(|ss|), EncodeSections(ss).value;
      PrefixSplit(head, body, buf);
      SectionsRoundTrip(ss, body, buf[|head|..]);
      ArrayAt(v, |ss|, body, buf);
  }

  lemma EntryParts(name: Name, tag: Byte, body: seq<Byte>, buf: seq<Byte>)
    requires |name| <= 255 && [|name|] + name + [tag] + body <= buf
    ensures var n := |name| + 1;
            && n < |buf| && buf[0] == |name| && buf[1..n] == name && buf[n] == tag && body <= buf[n + 1..]
  {
    var head := [|name|] + name + [tag];
    PrefixSplit(head, body, buf);
    assert buf[..|head|] == head;
    assert buf[1..|name| + 1] == head[1..|name| + 1];
  }

  lemma {:induction false} EntryAt(name: Name, v: Value, n: nat, buf: seq<Byte>)
    requires |name| + 1 < |buf| && buf[0] == |name| && buf[1..|name| + 1] == name && buf[|name| + 1] == Tag(v)
    requires ParseValue(buf[|name| + 2..], Tag(v)) == Ok(Parsed(v, n))
    ensures ParseEntry(buf) == Ok(Parsed(Entry(name, v), |name| + 2 + n))
  {
    hide ParseValue;
    var k := buf[0] as nat + 1;
    assert k == |name| + 1 && buf[k + 1..] == buf[|name| + 2..];
  }

  lemma {:induction false} EntryRoundTrip(name: Name, v: Value, e: seq<Byte>, buf: seq<Byte>)
    requires WellFormedValue(v) && EncodeEntry(name, v) == Ok(e) && e <= buf
    ensures ParseEntry(buf) == Ok(Parsed(Entry(name, v), |e|))
    decreases v, 2
  {
    hide ParseValue, EncodeValue;
    var body := EncodeValue(v).value;
    EntryParts(name, Tag(v), body, buf);
    ValueRoundTrip(v, body, buf[|name| + 2..]);
    EntryAt(name, v, |body|, buf);
  }

  /** The entries that encoding the names ks writes. */
  ghost function EntriesOf(s: Section, ks: seq<Name>): seq<Entry>
    requires forall k | k in ks :: k in s.entries
  {
    if ks == [] then [] else [Entry(ks[0], s.entries[ks[0]])] + EntriesOf(s, ks[1..])
  }

  lemma {:induction false} EntriesCons(buf: seq<Byte>, e: Parsed<Entry>, rest: Parsed<seq<Entry>>, count: nat,
                                       left: nat)
    requires count == left + 1 && ParseEntry(buf) == Ok(e) && ParseEntries(buf[e.used..], left) == Ok(rest)
    ensures ParseEntries(buf, count) == Ok(Parsed([e.value] + rest.value, e.used + rest.used))
  {
  }

  lemma {:induction false} EncodeEntriesStep(s: Section, ks: seq<Name>)
    requires ks != [] && (forall k | k in ks :: k in s.entries) && EncodeEntries(s, ks).Ok?
    ensures EncodeEntry(ks[0], s.entries[ks[0]]).Ok? && EncodeEntries(s, ks[1..]).Ok?
    ensures EncodeEntries(s, ks).value == EncodeEntry(ks[0], s.entries[ks[0]]).value + EncodeEntries(s, ks[1..]).value
  {
  }

  lemma {:induction false} EntriesStep(ks: seq<Name>, e: Entry, es: seq<Entry>, head: seq<Byte>, rest: seq<Byte>,
                                       buf: seq<Byte>)
    requires ks != [] && ParseEntry(buf) == Ok(Parsed(e, |head|))
    requires ParseEntries(buf[|head|..], |ks[1..]|) == Ok(Parsed(es, |rest|))
    ensures ParseEntries(buf, |ks|) == Ok(Parsed([e] + es, |head + rest|))
  {
    EntriesCons(buf, Parsed(e, |head|), Parsed(es, |rest|), |ks|, |ks[1..]|);
  }

  lemma {:induction false} EntriesRoundTrip(s: Section, ks: seq<Name>, e: seq<Byte>, buf: seq<Byte>)
    requires WellFormed(s) && forall k | k in ks :: k in s.entries
    requires EncodeEntries(s, ks) == Ok(e) && e <= buf
    ensures ParseEntries(buf, |ks|) == Ok(Parsed(EntriesOf(s, ks), |e|))
    decreases s, 1, |ks|
  {
    if ks != [] {
      EncodeEntriesStep(s, ks);
      var v := s.entries[ks[0]];
      var head, rest := EncodeEntry(ks[0], v).value, EncodeEntries(s, ks[1..]).value;
      PrefixSplit(head, rest, buf);
      EntryRoundTrip(ks[0], v, head, buf);
      EntriesRoundTrip(s, ks[1..], rest, buf[|head|..]);
      EntriesStep(ks, Entry(ks[0], v), EntriesOf(s, ks[1..]), head, rest, buf);
    }
  }

  lemma {:induction false} MapOfEntries(s: Section, ks: seq<Name>)
    requires forall k | k in ks :: k in s.entries
    ensures forall k :: k in MapOf(EntriesOf(s, ks)) <==> k in ks
    ensures forall k | k in ks :: MapOf(EntriesOf(s, ks))[k] == s.entries[k]
  {
    if ks != [] {
      MapOfEntries(s, ks[1..]);
      assert EntriesOf(s, ks)[1..] == EntriesOf(s, ks[1..]);
      assert ks == [ks[0]] + ks[1..];
    }
  }

  lemma {:induction false} SectionRoundTrip(s: Section, e: seq<Byte>, buf: seq<Byte>)
    requires WellFormed(s) && EncodeSection(s) == Ok(e) && e <= buf
    ensures ParseSection(buf) == Ok(Parsed(s, |e|))
    decreases s, 2
  {
    EncodeSectionParts(s);
    var ks := SortedNames(s.entries.Keys);
    var count := |ks|;
    var head, body := PackVarint(count), EncodeEntries(s, ks).value;
    PrefixSplit(head, body, buf);
    EntriesRoundTrip(s, ks, body, buf[|head|..]);
    EntriesRebuild(s);
    SectionAt(s, buf, count, EntriesOf(s, ks), head, body);
  }

  lemma {:induction false} EntriesRebuild(s: Section)
    ensures MapOf(EntriesOf(s, SortedNames(s.entries.Keys))) == s.entries
  {
    MapOfEntries(s, SortedNames(s.entries.Keys));
  }

  lemma {:induction false} EncodeSectionParts(s: Section)
    requires EncodeSection(s).Ok?
    ensures var ks := SortedNames(s.entries.Keys);
            EncodeEntries(s, ks).Ok? && EncodeSection(s).value == PackVarint(|ks|) + EncodeEntries(s, ks).value
  {
  }

  /** A count, then entries that rebuild s. */
  lemma {:induction false} SectionAt(s: Section, buf: seq<Byte>, count: nat, es: seq<Entry>, head: seq<Byte>,
                                     body: seq<Byte>)
    requires count <= MAX8 && head == PackVarint(count) && head <= buf
    requires ParseEntries(buf[|head|..], count) == Ok(Parsed(es, |body|)) && MapOf(es) == s.entries
    ensures ParseSection(buf) == Ok(Parsed(s, |head + body|))
  {
    hide ParseEntries, UnpackVarint, PackVarint, MapOf;
    VarintAt(count, buf);
  }

  // ---------- the whole file ----------

  lemma {:induction false} WellFormedHasNeither(s: Section)
    requires WellFormed(s)
    ensures !HasLongName(s) && !HasBadTag(s)
    decreases s, 1
  {
    forall k | k in s.entries ensures !HasLongNameIn(s.entries[k]) && !HasBadTagIn(s.entries[k]) {
      WellFormedValueHasNeither(s.entries[k]);
    }
  }

  lemma {:induction false} WellFormedValueHasNeither(v: Value)
    requires WellFormedValue(v)
    ensures !HasLongNameIn(v) && !HasBadTagIn(v)
    decreases v, 0
  {
    match v
    case Object(s) => WellFormedHasNeither(s);
    case ObjectArray(ss) =>
      forall s | s in ss ensures !HasLongName(s) && !HasBadTag(s) {
        WellFormedHasNeither(s);
      }
    case _ =>
  }

  lemma {:induction false} WellFormedEncodes(s: Section)
    requires WellFormed(s)
    ensures EncodeSection(s).Ok?
  {
    WellFormedHasNeither(s);
    EncodeFailsExactly(s);
  }

  lemma HeaderAccepted(body: seq<Byte>)
    ensures var data := HeaderBytes() + body;
            && FromLittleEndian(data[..4]) == SIGNATURE_A && FromLittleEndian(data[4..8]) == SIGNATURE_B
            && data[8] == VERSION && data[HEADER_SIZE..] == body
  {
    Pow256Values();
    LittleEndianRoundTrip(4, SIGNATURE_A);
    LittleEndianRoundTrip(4, SIGNATURE_B);
    var data := HeaderBytes() + body;
    assert data[..4] == LittleEndian(4, SIGNATURE_A);
    assert data[4..8] == LittleEndian(4, SIGNATURE_B);
  }

  lemma {:induction false} ParseStorageOf(rest: seq<Byte>, s: Parsed<Section>)
    requires ParseSection(rest) == Ok(s)
    ensures ParseStorage(HeaderBytes() + rest) == Ok(Parsed(s.value, HEADER_SIZE + s.used))
  {
    HeaderAccepted(rest);
  }

  lemma {:induction false} FileParses(s: Section, e: seq<Byte>, t: seq<Byte>)
    requires ParseSection(e + t) == Ok(Parsed(s, |e|))
    ensures ParseStorage(HeaderBytes() + e + t) == Ok(Parsed(s, |HeaderBytes() + e|))
  {
    ParseStorageOf(e + t, Parsed(s, |e|));
    Assoc(HeaderBytes(), e, t);
  }

  /**
   Any well-formed section of any depth encodes; followed by any bytes, its encoding decodes to
   the same section, and exactly the encoded bytes are consumed.
   */
  lemma {:induction false} FileRoundTrip(s: Section, t: seq<Byte>)
    requires WellFormed(s)
    ensures EncodeStorage(s).Ok?
    ensures ParseStorage(EncodeStorage(s).value + t) == Ok(Parsed(s, |EncodeStorage(s).value|))
  {
    WellFormedEncodes(s);
    var e := EncodeSection(s).value;
    SectionRoundTrip(s, e, e + t);
    FileParses(s, e, t);
  }

  /** No encoding is a prefix of the encoding of another section; in particular encoding is injective. */
  lemma {:induction false} EncodingsArePrefixFree(s1: Section, s2: Section)
    requires WellFormed(s1) && WellFormed(s2) && EncodeSection(s1).Ok? && EncodeSection(s2).Ok?
    requires EncodeSection(s1).value <= EncodeSection(s2).value
    ensures s1 == s2
  {
    var e2 := EncodeSection(s2).value;
    SectionRoundTrip(s1, EncodeSection(s1).value, e2);
    SectionRoundTrip(s2, e2, e2);
  }
}
