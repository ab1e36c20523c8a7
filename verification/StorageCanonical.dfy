/**
 What every accepted input has in common: the decoded section is well formed, its canonical
 re-encoding is no longer than the bytes consumed, and so is the number of things it holds.
 */
module StorageCanonical {
  import opened Bytes
  import opened Varint
  import opened Storage
  import opened StorageRoundTrip

  // ---------- decoded sections are well formed ----------

  ghost predicate GoodEntry(e: Entry)
  {
    |e.name| <= 255 && WellFormedValue(e.value)
  }

  lemma {:induction false} NatsAreBounded(w: nat, buf: seq<Byte>, count: nat)
    requires w > 0 && ParseNats(w, buf, count).Ok?
    ensures var ns := ParseNats(w, buf, count).value.value;
            forall i | 0 <= i < |ns| :: ns[i] < Pow256(w)
    decreases count
  {
    if count != 0 {
      FromLittleEndianBound(buf[..w]);
      NatsAreBounded(w, buf[w..], count - 1);
    }
  }

  lemma {:induction false} TextsAreBounded(buf: seq<Byte>, count: nat)
    requires ParseTexts(buf, count).Ok?
    ensures var ts := ParseTexts(buf, count).value.value;
            forall i | 0 <= i < |ts| :: |ts[i]| <= MAX8
    decreases count
  {
    if count != 0 {
      UnpackIsBounded(buf);
      TextsAreBounded(buf[ParseText(buf).value.used..], count - 1);
    }
  }

  lemma ParseSectionsUncons(buf: seq<Byte>, count: nat)
    requires count > 0 && ParseSections(buf, count).Ok?
    ensures ParseSection(buf).Ok?
    ensures var s := ParseSection(buf).value;
            var rest := ParseSections(buf[s.used..], count - 1);
            && rest.Ok?
            && ParseSections(buf, count).value == Parsed([s.value] + rest.value.value, s.used + rest.value.used)
  {
  }

  ghost predicate AllWellFormed(ss: seq<Section>)
  {
    forall i | 0 <= i < |ss| :: WellFormed(ss[i])
  }

  lemma {:induction false} AllWellFormedCons(s: Section, ss: seq<Section>)
    requires WellFormed(s) && AllWellFormed(ss)
    ensures AllWellFormed([s] + ss)
  {
  }

  lemma {:induction false} SectionsAreWellFormed(buf: seq<Byte>, count: nat)
    requires ParseSections(buf, count).Ok?
    ensures AllWellFormed(ParseSections(buf, count).value.value)
    decreases |buf|, 2
  {
    hide ParseSection, WellFormed;
    if count != 0 {
      SectionIsWellFormed(buf);
      ParseSectionsUncons(buf, count);
      var s := ParseSection(buf).value;
      SectionsAreWellFormed(buf[s.used..], count - 1);
      AllWellFormedCons(s.value, ParseSections(buf[s.used..], count - 1).value.value);
    }
  }

  lemma NumberIsWellFormed(k: Kind, buf: seq<Byte>)
    requires ParseNumber(k, buf).Ok?
    ensures WellFormedValue(ParseNumber(k, buf).value.value)
  {
    FromLittleEndianBound(buf[..Width(k)]);
  }

  lemma {:induction false} ArrayIsWellFormed(buf: seq<Byte>, elem: Byte, count: nat)
    requires count <= MAX8 && ParseArray(buf, elem, count).Ok?
    ensures WellFormedValue(ParseArray(buf, elem, count).value.value)
    decreases |buf|, 3
  {
    Pow256Values();
    if elem == KindTag(Uint64) {
      NatsAreBounded(8, buf, count);
    } else if elem == KindTag(Uint32) {
      NatsAreBounded(4, buf, count);
    } else if elem == TAG_STRING {
      TextsAreBounded(buf, count);
    } else {
      SectionsAreWellFormed(buf, count);
    }
  }

  lemma {:induction false} ValueIsWellFormed(buf: seq<Byte>, tag: Byte)
    requires ParseValue(buf, tag).Ok?
    ensures WellFormedValue(ParseValue(buf, tag).value.value)
    decreases |buf|, 1
  {
    if tag >= ARRAY_FLAG {
      UnpackIsBounded(buf);
      var c := UnpackVarint(buf).value;
      ArrayIsWellFormed(buf[c.used..], tag - ARRAY_FLAG, c.value);
    } else if KindOf(tag).Some? {
      NumberIsWellFormed(KindOf(tag).value, buf);
    } else if tag == TAG_STRING {
      UnpackIsBounded(buf);
    } else if tag == TAG_OBJECT {
      SectionIsWellFormed(buf);
    }
  }

  lemma {:induction false} EntriesAreGood(buf: seq<Byte>, count: nat)
    requires ParseEntries(buf, count).Ok?
    ensures forall e | e in ParseEntries(buf, count).value.value :: GoodEntry(e)
    decreases |buf|, 2
  {
    if count != 0 {
      EntryIsGood(buf);
      EntriesAreGood(buf[ParseEntry(buf).value.used..], count - 1);
    }
  }

  lemma {:induction false} EntryIsGood(buf: seq<Byte>)
    requires ParseEntry(buf).Ok?
    ensures GoodEntry(ParseEntry(buf).value.value)
    decreases |buf|, 1
  {
    var n := buf[0] as nat + 1;
    ValueIsWellFormed(buf[n + 1..], buf[n]);
  }

  /** The map holds only listed entries, and no more of them than were listed. */
  lemma {:induction false} MapOfHolds(es: seq<Entry>)
    ensures forall k | k in MapOf(es) :: Entry(k, MapOf(es)[k]) in es
    ensures |MapOf(es)| <= |es|
  {
    if es != [] {
      MapOfHolds(es[1..]);
      assert MapOf(es).Keys == {es[0].name} + MapOf(es[1..]).Keys;
    }
  }

  lemma {:induction false} SectionIsWellFormed(buf: seq<Byte>)
    requires ParseSection(buf).Ok?
    ensures WellFormed(ParseSection(buf).value.value)
    decreases |buf|, 0
  {
    UnpackIsBounded(buf);
    var c := UnpackVarint(buf).value;
    EntriesAreGood(buf[c.used..], c.value);
    var es := ParseEntries(buf[c.used..], c.value).value.value;
    MapOfHolds(es);
    forall k | k in MapOf(es) ensures GoodEntry(Entry(k, MapOf(es)[k])) {
      assert Entry(k, MapOf(es)[k]) in es;
    }
  }

  // ---------- the canonical encoding is the shortest ----------

  ghost function EntrySize(e: Entry): nat
  {
    var r := EncodeEntry(e.name, e.value);
    if r.Ok? then |r.value| else 0
  }

  ghost function EntriesSize(es: seq<Entry>): nat
  {
    if es == [] then 0 else EntrySize(es[0]) + EntriesSize(es[1..])
  }

  /** The size of the entries that the map m keeps under the names ks. */
  ghost function KeptSize(m: map<Name, Value>, ks: seq<Name>): nat
    requires forall k | k in ks :: k in m
  {
    if ks == [] then 0 else EntrySize(Entry(ks[0], m[ks[0]])) + KeptSize(m, ks[1..])
  }

  lemma {:induction false} EncodedEntriesSize(s: Section, ks: seq<Name>)
    requires (forall k | k in ks :: k in s.entries) && EncodeEntries(s, ks).Ok?
    ensures |EncodeEntries(s, ks).value| == KeptSize(s.entries, ks)
  {
    if ks != [] {
      EncodedEntriesSize(s, ks[1..]);
    }
  }

  ghost predicate Distinct(ks: seq<Name>)
  {
    forall i, j | 0 <= i < j < |ks| :: ks[i] != ks[j]
  }

  lemma {:induction false} KeptSizeCongruent(m1: map<Name, Value>, m2: map<Name, Value>, ks: seq<Name>)
    requires forall k | k in ks :: k in m1 && k in m2 && m1[k] == m2[k]
    ensures KeptSize(m1, ks) == KeptSize(m2, ks)
  {
    if ks != [] {
      KeptSizeCongruent(m1, m2, ks[1..]);
    }
  }

  lemma {:induction false} KeptSizeRemove(m: map<Name, Value>, ks: seq<Name>, i: nat)
    requires i < |ks| && forall k | k in ks :: k in m
    ensures KeptSize(m, ks) == EntrySize(Entry(ks[i], m[ks[i]])) + KeptSize(m, ks[..i] + ks[i + 1..])
  {
    if i == 0 {
      assert ks[..0] + ks[1..] == ks[1..];
    } else {
      KeptSizeRemove(m, ks[1..], i - 1);
      assert (ks[..i] + ks[i + 1..])[1..] == ks[1..][..i - 1] + ks[1..][i..];
    }
  }

  /** Overwriting loses entries, so what the map keeps is no larger than what was listed. */
  lemma {:induction false} KeptSizeBounded(es: seq<Entry>, ks: seq<Name>)
    requires Distinct(ks) && forall k | k in ks :: k in MapOf(es)
    ensures KeptSize(MapOf(es), ks) <= EntriesSize(es)
    decreases |es|
  {
    assert ks != [] ==> ks[0] in MapOf(es);
    if es != [] {
      var name, rest := es[0].name, MapOf(es[1..]);
      if name !in ks || name in rest {
        KeptSizeCongruent(MapOf(es), rest, ks);
        KeptSizeBounded(es[1..], ks);
      } else {
        var i :| 0 <= i < |ks| && ks[i] == name;
        var others := ks[..i] + ks[i + 1..];
        KeptSizeRemove(MapOf(es), ks, i);
        assert Distinct(others) && name !in others;
        forall k | k in others ensures k in rest && rest[k] == MapOf(es)[k] {
          assert k in ks;
        }
        KeptSizeCongruent(MapOf(es), rest, others);
        KeptSizeBounded(es[1..], others);
      }
    }
  }

  lemma AscendingIsDistinct(ks: seq<Name>)
    requires Ascending(ks)
    ensures Distinct(ks)
  {
    forall i, j | 0 <= i < j < |ks| ensures ks[i] != ks[j] {
      BeforeTotal(ks[i], ks[j]);
    }
  }

  /** An encoding that exists and is no longer than the bytes used in the input. */
  ghost predicate FitsIn(r: Result<seq<Byte>, Error>, used: nat)
  {
    r.Ok? && |r.value| <= used
  }

  lemma {:induction false} NatsFit(w: nat, buf: seq<Byte>, count: nat)
    requires w > 0 && ParseNats(w, buf, count).Ok?
    ensures var p := ParseNats(w, buf, count).value; |NatsBytes(w, p.value)| <= p.used
    decreases count
  {
    if count != 0 {
      NatsFit(w, buf[w..], count - 1);
      var p := ParseNats(w, buf, count).value;
      assert p.value[1..] == ParseNats(w, buf[w..], count - 1).value.value;
    }
  }

  lemma TextFits(buf: seq<Byte>)
    requires ParseText(buf).Ok?
    ensures var p := ParseText(buf).value; |TextBytes(p.value)| <= p.used
  {
    UnpackIsBounded(buf);
  }

  lemma {:induction false} TextsFit(buf: seq<Byte>, count: nat)
    requires ParseTexts(buf, count).Ok?
    ensures var p := ParseTexts(buf, count).value; |TextsBytes(p.value)| <= p.used
    decreases count
  {
    if count != 0 {
      var n := ParseText(buf).value.used;
      TextFits(buf);
      TextsFit(buf[n..], count - 1);
      var p := ParseTexts(buf, count).value;
      assert p.value[1..] == ParseTexts(buf[n..], count - 1).value.value;
    }
  }

  lemma {:induction false} EncodeSectionsCons(s: Section, ss: seq<Section>)
    requires EncodeSection(s).Ok? && EncodeSections(ss).Ok?
    ensures EncodeSections([s] + ss) == Ok(EncodeSection(s).value + EncodeSections(ss).value)
  {
    assert ([s] + ss)[1..] == ss;
  }

  lemma SectionsFitStep(s: Parsed<Section>, rest: Parsed<seq<Section>>)
    requires FitsIn(EncodeSection(s.value), s.used) && FitsIn(EncodeSections(rest.value), rest.used)
    ensures FitsIn(EncodeSections([s.value] + rest.value), s.used + rest.used)
  {
    EncodeSectionsCons(s.value, rest.value);
  }

  lemma {:induction false} SectionsFit(buf: seq<Byte>, count: nat)
    requires ParseSections(buf, count).Ok?
    ensures var p := ParseSections(buf, count).value; FitsIn(EncodeSections(p.value), p.used)
    decreases |buf|, 2
  {
    hide ParseSection, EncodeSection;
    if count != 0 {
      var n := ParseSection(buf).value.used;
      SectionFits(buf);
      ParseSectionsUncons(buf, count);
      SectionsFit(buf[n..], count - 1);
      SectionsFitStep(ParseSection(buf).value, ParseSections(buf[n..], count - 1).value);
    }
  }

  lemma {:induction false} ArrayFits(buf: seq<Byte>, elem: Byte, count: nat)
    requires ParseArray(buf, elem, count).Ok?
    ensures var p := ParseArray(buf, elem, count).value;
            FitsIn(EncodeValue(p.value), |PackVarint(count)| + p.used)
    decreases |buf|, 3
  {
    hide ParseNats, ParseTexts, ParseSections, EncodeSections;
    if elem == KindTag(Uint64) {
      NatsFit(8, buf, count);
    } else if elem == KindTag(Uint32) {
      NatsFit(4, buf, count);
    } else if elem == TAG_STRING {
      TextsFit(buf, count);
    } else {
      SectionsFit(buf, count);
    }
  }

  lemma {:induction false} ValueFits(buf: seq<Byte>, tag: Byte)
    requires ParseValue(buf, tag).Ok?
    ensures var p := ParseValue(buf, tag).value; FitsIn(EncodeValue(p.value), p.used)
    decreases |buf|, 1
  {
    if tag >= ARRAY_FLAG {
      UnpackIsBounded(buf);
      var c := UnpackVarint(buf).value;
      ArrayFits(buf[c.used..], tag - ARRAY_FLAG, c.value);
    } else if tag == TAG_STRING {
      TextFits(buf);
    } else if tag == TAG_OBJECT {
      SectionFits(buf);
    }
  }

  lemma {:induction false} EntryFits(buf: seq<Byte>)
    requires ParseEntry(buf).Ok?
    ensures var p := ParseEntry(buf).value; FitsIn(EncodeEntry(p.value.name, p.value.value), p.used)
    decreases |buf|, 1
  {
    var n := buf[0] as nat + 1;
    ValueFits(buf[n + 1..], buf[n]);
  }

  lemma {:induction false} EntriesFit(buf: seq<Byte>, count: nat)
    requires ParseEntries(buf, count).Ok?
    ensures var p := ParseEntries(buf, count).value; EntriesSize(p.value) <= p.used
    decreases |buf|, 2
  {
    if count != 0 {
      var n := ParseEntry(buf).value.used;
      EntryFits(buf);
      EntriesFit(buf[n..], count - 1);
      var p := ParseEntries(buf, count).value;
      assert p.value[1..] == ParseEntries(buf[n..], count - 1).value.value;
    }
  }

  lemma {:induction false} SectionFits(buf: seq<Byte>)
    requires ParseSection(buf).Ok?
    ensures var p := ParseSection(buf).value; FitsIn(EncodeSection(p.value), p.used)
    decreases |buf|, 0
  {
    UnpackIsBounded(buf);
    var c := UnpackVarint(buf).value;
    var es := ParseEntries(buf[c.used..], c.value).value.value;
    var s := Section(MapOf(es));
    EntriesFit(buf[c.used..], c.value);
    SectionIsWellFormed(buf);
    WellFormedEncodes(s);
    SectionSize(s);
    MapOfHolds(es);
    PackWidthMonotone(|s.entries|, c.value);
    KeptSizeBounded(es, SortedNames(s.entries.Keys));
  }

  lemma {:induction false} SectionSize(s: Section)
    requires EncodeSection(s).Ok?
    ensures var ks := SortedNames(s.entries.Keys);
            Distinct(ks) && |EncodeSection(s).value| == |PackVarint(|s.entries|)| + KeptSize(s.entries, ks)
  {
    var ks := SortedNames(s.entries.Keys);
    AscendingIsDistinct(ks);
    EncodedEntriesSize(s, ks);
  }

  // ---------- how much a section holds ----------

  /** Entries and array elements, at every depth. */
  ghost function Count(s: Section): nat
    decreases s, 2
  {
    CountEntries(s, SortedNames(s.entries.Keys))
  }

  ghost function CountEntries(s: Section, ks: seq<Name>): nat
    requires forall k | k in ks :: k in s.entries
    decreases s, 1, |ks|
  {
    if ks == [] then 0 else 1 + CountValue(s.entries[ks[0]]) + CountEntries(s, ks[1..])
  }

  ghost function CountValue(v: Value): nat
    decreases v, 1
  {
    match v
    case Object(s) => Count(s)
    case Uint64Array(ns) => |ns|
    case Uint32Array(ns) => |ns|
    case TextArray(ts) => |ts|
    case ObjectArray(ss) => CountSections(ss)
    case _ => 0
  }

  ghost function CountSections(ss: seq<Section>): nat
    decreases ss, 0
  {
    if ss == [] then 0 else 1 + Count(ss[0]) + CountSections(ss[1..])
  }

  lemma {:induction false} CountIsBounded(s: Section)
    requires EncodeSection(s).Ok?
    ensures Count(s) < |EncodeSection(s).value|
    decreases s, 2
  {
    CountEntriesIsBounded(s, SortedNames(s.entries.Keys));
  }

  lemma {:induction false} CountEntriesIsBounded(s: Section, ks: seq<Name>)
    requires (forall k | k in ks :: k in s.entries) && EncodeEntries(s, ks).Ok?
    ensures CountEntries(s, ks) <= |EncodeEntries(s, ks).value|
    decreases s, 1, |ks|
  {
    if ks != [] {
      CountValueIsBounded(s.entries[ks[0]]);
      CountEntriesIsBounded(s, ks[1..]);
    }
  }

  lemma {:induction false} CountValueIsBounded(v: Value)
    requires EncodeValue(v).Ok?
    ensures CountValue(v) <= |EncodeValue(v).value|
    decreases v, 1
  {
    match v
    case Object(s) => CountIsBounded(s);
    case Uint64Array(ns) => NatsBytesSize(8, ns);
    case Uint32Array(ns) => NatsBytesSize(4, ns);
    case TextArray(ts) => TextsBytesSize(ts);
    case ObjectArray(ss) => CountSectionsIsBounded(ss);
    case _ =>
  }

  lemma {:induction false} CountSectionsIsBounded(ss: seq<Section>)
    requires EncodeSections(ss).Ok?
    ensures CountSections(ss) <= |EncodeSections(ss).value|
    decreases ss, 0
  {
    if ss != [] {
      CountIsBounded(ss[0]);
      CountSectionsIsBounded(ss[1..]);
    }
  }

  lemma {:induction false} NatsBytesSize(w: nat, ns: seq<nat>)
    requires w > 0
    ensures |ns| <= |NatsBytes(w, ns)|
  {
    if ns != [] {
      NatsBytesSize(w, ns[1..]);
    }
  }

  lemma {:induction false} TextsBytesSize(ts: seq<seq<Byte>>)
    ensures |ts| <= |TextsBytes(ts)|
  {
    if ts != [] {
      TextsBytesSize(ts[1..]);
    }
  }

  // ---------- main results ----------

  /**
   For every accepted input, canonical or not: the decoded section encodes, to no more bytes than
   were consumed, and that encoding decodes to the same section, whatever follows it.
   */
  lemma CanonicalForm(data: seq<Byte>, t: seq<Byte>)
    requires ParseStorage(data).Ok?
    ensures var Parsed(s, used) := ParseStorage(data).value;
            && EncodeStorage(s).Ok?
            && var e := EncodeStorage(s).value;
            && |e| <= used
            && ParseStorage(e + t) == Ok(Parsed(s, |e|))
  {
    var s := ParseStorage(data).value.value;
    SectionIsWellFormed(data[HEADER_SIZE..]);
    SectionFits(data[HEADER_SIZE..]);
    FileRoundTrip(s, t);
  }

  /** However large a count the input claims, what is built never exceeds the bytes consumed. */
  lemma {:induction false} DecodedSizeIsBounded(buf: seq<Byte>)
    requires ParseSection(buf).Ok?
    ensures var Parsed(s, used) := ParseSection(buf).value;
            WellFormed(s) && Count(s) < used <= |buf|
  {
    var s := ParseSection(buf).value.value;
    SectionIsWellFormed(buf);
    SectionFits(buf);
    CountIsBounded(s);
  }
}
