/** What the bytes of portable storage (go/node/levin/storage.go) say, apart from being read back. */
module StorageFormat {
  import opened Bytes
  import opened Varint
  import opened Storage
  import opened StorageRoundTrip

  // ---------- the order of the entries ----------

  lemma {:induction false} EntriesOfAt(s: Section, ks: seq<Name>)
    requires forall k | k in ks :: k in s.entries
    ensures |EntriesOf(s, ks)| == |ks|
    ensures forall i | 0 <= i < |ks| :: EntriesOf(s, ks)[i] == Entry(ks[i], s.entries[ks[i]])
  {
    if ks != [] {
      EntriesOfAt(s, ks[1..]);
    }
  }

  /** In the list each name of s has its entry, and of two entries the name that is lexicographically less is first. */
  ghost predicate InOrder(es: seq<Entry>, s: Section)
  {
    && |es| == |s.entries|
    && (forall i | 0 <= i < |es| :: es[i].name in s.entries && es[i].value == s.entries[es[i].name])
    && (forall i, j | 0 <= i < j < |es| :: Lexicographic(es[i].name, es[j].name))
  }

  lemma {:induction false} SortedEntriesInOrder(s: Section)
    ensures InOrder(EntriesOf(s, SortedNames(s.entries.Keys)), s)
  {
    var ks := SortedNames(s.entries.Keys);
    EntriesOfAt(s, ks);
    var es := EntriesOf(s, ks);
    assert |s.entries| == |s.entries.Keys|;
    forall i, j | 0 <= i < j < |es| ensures Lexicographic(es[i].name, es[j].name) {
      BeforeIsLexicographic(ks[i], ks[j]);
    }
  }

  /** An encoded section, whatever follows it, is the number of its entries and then the entries in order of names. */
  lemma {:induction false} EntriesAreWrittenInOrder(s: Section, e: seq<Byte>, buf: seq<Byte>)
    requires WellFormed(s) && EncodeSection(s) == Ok(e) && e <= buf
    ensures UnpackVarint(buf).Ok? && UnpackVarint(buf).value.value == |s.entries|
    ensures var es := ParseEntries(buf[UnpackVarint(buf).value.used..], |s.entries|);
            es.Ok? && InOrder(es.value.value, s)
  {
    EncodeSectionParts(s);
    var ks := SortedNames(s.entries.Keys);
    var head, body := PackVarint(|ks|), EncodeEntries(s, ks).value;
    PrefixSplit(head, body, buf);
    VarintAt(|ks|, buf);
    EntriesRoundTrip(s, ks, body, buf[|head|..]);
    SortedEntriesInOrder(s);
  }

  lemma OneName(name: Name)
    ensures SortedNames({name}) == [name]
  {
    assert forall k :: k in [name] <==> k in {name};
    EnumerationUnique(SortedNames({name}), [name], {name});
  }

  function NumberEntry(name: Name, k: Kind, n: int): seq<Byte>
    requires |name| <= 255
  {
    [|name|] + name + [KindTag(k)] + LittleEndian(Width(k), ToUnsigned(Width(k), n))
  }

  lemma OneEntry(name: Name, k: Kind, n: int)
    requires |name| <= 255
    ensures EncodeEntries(Section(map[name := Number(k, n)]), [name]) == Ok(NumberEntry(name, k, n))
  {
    hide LittleEndian, ToUnsigned, Width, KindTag;
    var s, e := Section(map[name := Number(k, n)]), NumberEntry(name, k, n);
    assert EncodeValue(Number(k, n)) == Ok(LittleEndian(Width(k), ToUnsigned(Width(k), n)));
    assert EncodeEntry(name, Number(k, n)) == Ok(e);
    assert EncodeEntries(s, [name][1..]) == Ok([]) && e + [] == e;
  }

  /** A section with one number, byte for byte: the count, the length of the name, the name, the tag, the number. */
  lemma OneNumberBytes(name: Name, k: Kind, n: int)
    requires |name| <= 255
    ensures EncodeSection(Section(map[name := Number(k, n)]))
         == Ok([4, |name|] + name + [KindTag(k)] + LittleEndian(Width(k), ToUnsigned(Width(k), n)))
  {
    OneName(name);
    OneEntry(name, k, n);
    CountOfOne();
    hide LittleEndian, ToUnsigned, Width, KindTag, PackVarint, EncodeEntries;
    assert map[name := Number(k, n)].Keys == {name};
    Prepend(4, |name|, name, [KindTag(k)], LittleEndian(Width(k), ToUnsigned(Width(k), n)));
  }

  lemma CountOfOne()
    ensures PackVarint(1) == [4]
  {
    assert LittleEndian(1, 4) == [4];
  }

  lemma Prepend(x: Byte, y: Byte, a: seq<Byte>, b: seq<Byte>, c: seq<Byte>)
    ensures [x] + ([y] + a + b + c) == [x, y] + a + b + c
  {
  }

  // ---------- the header, tags and booleans ----------

  /** The nine bytes that every file starts with. */
  lemma FileStart()
    ensures HeaderBytes() == [0x01, 0x11, 0x01, 0x01, 0x01, 0x01, 0x02, 0x01, 0x01]
  {
    assert LittleEndian(4, SIGNATURE_A) == [0x01] + LittleEndian(3, 0x010111);
    assert LittleEndian(4, SIGNATURE_B) == [0x01] + LittleEndian(3, 0x010201);
  }

  lemma {:induction false} LittleEndianOnly(w: nat, v: nat, s: seq<Byte>)
    requires |s| == w && FromLittleEndian(s) == v
    ensures s == LittleEndian(w, v)
  {
    FromLittleEndianRoundTrip(s);
  }

  /** A file is accepted exactly when it starts with those bytes and a section can be decoded after them. */
  lemma AcceptsExactly(data: seq<Byte>)
    ensures ParseStorage(data).Ok? <==> HeaderBytes() <= data && ParseSection(data[HEADER_SIZE..]).Ok?
  {
    hide ParseSection;
    if HeaderBytes() <= data {
      HeaderAccepted(data[HEADER_SIZE..]);
      assert data == HeaderBytes() + data[HEADER_SIZE..];
    }
    if ParseStorage(data).Ok? {
      LittleEndianOnly(4, SIGNATURE_A, data[..4]);
      LittleEndianOnly(4, SIGNATURE_B, data[4..8]);
      assert data[..9] == data[..4] + data[4..8] + [data[8]];
    }
  }

  /** A file that does not start with them is refused for the first of the three reasons that applies. */
  lemma RefusedHeader(data: seq<Byte>)
    requires !(HeaderBytes() <= data)
    ensures ParseStorage(data) == Err(if |data| < HEADER_SIZE then StorageTruncated
                                      else if data[..8] != HeaderBytes()[..8] then BadSignature else BadVersion)
  {
    hide ParseSection;
    if |data| >= HEADER_SIZE {
      var h := HeaderBytes();
      HeaderAccepted([]);
      assert h + [] == h && h[..8] == h[..4] + h[4..8] && data[..8] == data[..4] + data[4..8];
      if FromLittleEndian(data[..4]) == SIGNATURE_A && FromLittleEndian(data[4..8]) == SIGNATURE_B {
        LittleEndianOnly(4, SIGNATURE_A, data[..4]);
        LittleEndianOnly(4, SIGNATURE_B, data[4..8]);
        assert data[..9] == data[..8] + [data[8]] && h == h[..8] + [h[8]];
      } else {
        assert data[..8][..4] == data[..4] && data[..8][4..] == data[4..8];
        assert h[..8][..4] == h[..4] && h[..8][4..] == h[4..8];
      }
    }
  }

  /** A tag that the format does not define is refused as such, once the count of an array can be read. */
  lemma {:induction false} UnknownTagIsRefused(buf: seq<Byte>, tag: BadTag)
    ensures ParseValue(buf, tag)
         == Err(if tag >= ARRAY_FLAG && UnpackVarint(buf).Err? then VarintTruncated else UnknownType)
  {
    assert !SupportedTag(tag);
    if tag >= ARRAY_FLAG {
      assert tag - ARRAY_FLAG !in {5, 6, 10, 12};
    } else {
      assert KindOf(tag).None?;
    }
  }

  /** Every byte but 0 is true. */
  lemma {:induction false} BooleansAreBytes(x: Byte, t: seq<Byte>)
    ensures ParseValue([x] + t, TAG_BOOL) == Ok(Parsed(Boolean(x != 0), 1))
  {
    assert KindOf(TAG_BOOL).None?;
  }
}
