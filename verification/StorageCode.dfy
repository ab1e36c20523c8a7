/**
 The encoder and decoder as go/node/levin/storage.go runs them: the encoder grows a buffer in
 loops over sorted keys and elements, the decoder moves an offset and fills a map or a slice.
 Each is proved equal to its function in module Storage.
 */
module StorageCode {
  import opened Bytes
  import opened Varint
  import opened Storage

  // ---------- encoder ----------

  /** The outcome r of an encoding, appended to what the buffer already held. */
  ghost function Appended(buf: seq<Byte>, r: Result<seq<Byte>, Error>): Result<seq<Byte>, Error>
  {
    if r.Err? then r else Ok(buf + r.value)
  }

  lemma AppendedTwice(buf: seq<Byte>, head: seq<Byte>, r: Result<seq<Byte>, Error>)
    ensures Appended(buf + head, r) == Appended(buf, Appended(head, r))
  {
    if r.Ok? {
      assert buf + head + r.value == buf + (head + r.value);
    }
  }

  /** slices.Sorted over maps.Keys: the keys arrive in any order. */
  method SortKeys(names: set<Name>) returns (ks: seq<Name>)
    ensures ks == SortedNames(names)
  {
    ks := [];
    var left := names;
    while left != {}
      invariant left <= names
      invariant Enumerates(ks, names - left)
      decreases left
    {
      var k :| k in left;
      InsertEnumerates(k, ks, names - left);
      assert names - (left - {k}) == names - left + {k};
      ks := Insert(k, ks);
      left := left - {k};
    }
    assert names - left == names;
    EnumerationUnique(ks, SortedNames(names), names);
  }

  method AppendSection(buf: seq<Byte>, s: Section) returns (r: Result<seq<Byte>, Error>)
    ensures r == Appended(buf, EncodeSection(s))
    decreases s, 2
  {
    var keys := SortKeys(s.entries.Keys);
    AppendedTwice(buf, PackVarint(|keys|), EncodeEntries(s, keys));
    var out: seq<Byte> := buf + PackVarint(|keys|);
    r := AppendEntries(out, s, keys);
  }

  /** The loop over the sorted keys. */
  method AppendEntries(buf: seq<Byte>, s: Section, keys: seq<Name>) returns (r: Result<seq<Byte>, Error>)
    requires forall k | k in keys :: k in s.entries
    ensures r == Appended(buf, EncodeEntries(s, keys))
    decreases s, 1
  {
    var out := buf;
    for i := 0 to |keys|
      invariant Appended(buf, EncodeEntries(s, keys)) == Appended(out, EncodeEntries(s, keys[i..]))
    {
      EntriesStep(s, keys, i, out);
      var encoded := AppendEntry(out, keys[i], s.entries[keys[i]]);
      if encoded.Err? {
        return encoded;
      }
      out := encoded.value;
    }
    assert keys[|keys|..] == [] && out + [] == out;
    r := Ok(out);
  }

  /** One turn of that loop: name length, name, type tag, value. */
  method AppendEntry(buf: seq<Byte>, name: Name, v: Value) returns (r: Result<seq<Byte>, Error>)
    ensures r == Appended(buf, EncodeEntry(name, v))
    decreases v, 2
  {
    if |name| > 255 {
      return Err(NameTooLong);
    }
    var out := buf + [|name|];
    out := out + name;
    out := out + [Tag(v)];
    r := AppendValue(out, v);
    AppendedTwice(buf, [|name|] + name + [Tag(v)], EncodeValue(v));
    assert out == buf + ([|name|] + name + [Tag(v)]);
  }

  lemma {:induction false} EntriesStep(s: Section, ks: seq<Name>, i: nat, out: seq<Byte>)
    requires i < |ks| && forall k | k in ks :: k in s.entries
    ensures ks[i] in s.entries
    ensures var e := EncodeEntry(ks[i], s.entries[ks[i]]);
            Appended(out, EncodeEntries(s, ks[i..])) ==
            if e.Err? then e else Appended(out + e.value, EncodeEntries(s, ks[i + 1..]))
  {
    assert ks[i] in ks;
    assert ks[i..][0] == ks[i] && ks[i..][1..] == ks[i + 1..];
    var e := EncodeEntry(ks[i], s.entries[ks[i]]);
    if e.Ok? {
      AppendedTwice(out, e.value, EncodeEntries(s, ks[i + 1..]));
    }
  }

  method AppendValue(buf: seq<Byte>, v: Value) returns (r: Result<seq<Byte>, Error>)
    ensures r == Appended(buf, EncodeValue(v))
    decreases v, 1
  {
    if Tag(v) >= ARRAY_FLAG {
      r := AppendArray(buf, v);
      return;
    }
    match v
    case Number(k, n) =>
      r := Ok(buf + LittleEndian(Width(k), ToUnsigned(Width(k), n)));
    case Boolean(b) =>
      r := if b then Ok(buf + [1]) else Ok(buf + [0]);
    case Text(t) =>
      var out := buf + PackVarint(|t|);
      r := Ok(out + t);
      assert out + t == buf + TextBytes(t);
    case Object(s) =>
      r := AppendSection(buf, s);
    case Unsupported(_) =>
      r := Err(UnknownType);
  }

  method AppendArray(buf: seq<Byte>, v: Value) returns (r: Result<seq<Byte>, Error>)
    requires Tag(v) >= ARRAY_FLAG
    ensures r == Appended(buf, EncodeValue(v))
    decreases v, 0
  {
    match v
    case Uint64Array(ns) =>
      var out := AppendNats(buf + PackVarint(|ns|), 8, ns);
      Assoc(buf, PackVarint(|ns|), NatsBytes(8, ns));
      r := Ok(out);
    case Uint32Array(ns) =>
      var out := AppendNats(buf + PackVarint(|ns|), 4, ns);
      Assoc(buf, PackVarint(|ns|), NatsBytes(4, ns));
      r := Ok(out);
    case TextArray(ts) =>
      var out := AppendTexts(buf + PackVarint(|ts|), ts);
      Assoc(buf, PackVarint(|ts|), TextsBytes(ts));
      r := Ok(out);
    case ObjectArray(ss) =>
      AppendedTwice(buf, PackVarint(|ss|), EncodeSections(ss));
      r := AppendSections(buf + PackVarint(|ss|), ss);
    case Unsupported(_) =>
      r := Err(UnknownType);
  }

  method AppendNats(buf: seq<Byte>, w: nat, ns: seq<nat>) returns (out: seq<Byte>)
    ensures out == buf + NatsBytes(w, ns)
  {
    out := buf;
    for i := 0 to |ns|
      invariant buf + NatsBytes(w, ns) == out + NatsBytes(w, ns[i..])
    {
      assert ns[i..][1..] == ns[i + 1..];
      assert out + (LittleEndian(w, ns[i]) + NatsBytes(w, ns[i + 1..]))
          == out + LittleEndian(w, ns[i]) + NatsBytes(w, ns[i + 1..]);
      out := out + LittleEndian(w, ns[i]);
    }
  }

  method AppendTexts(buf: seq<Byte>, ts: seq<seq<Byte>>) returns (out: seq<Byte>)
    ensures out == buf + TextsBytes(ts)
  {
    out := buf;
    for i := 0 to |ts|
      invariant buf + TextsBytes(ts) == out + TextsBytes(ts[i..])
    {
      assert ts[i..][1..] == ts[i + 1..];
      assert out + (TextBytes(ts[i]) + TextsBytes(ts[i + 1..]))
          == out + PackVarint(|ts[i]|) + ts[i] + TextsBytes(ts[i + 1..]);
      out := out + PackVarint(|ts[i]|);
      out := out + ts[i];
    }
  }

  method AppendSections(buf: seq<Byte>, ss: seq<Section>) returns (r: Result<seq<Byte>, Error>)
    ensures r == Appended(buf, EncodeSections(ss))
    decreases ss, 0
  {
    var out := buf;
    for i := 0 to |ss|
      invariant Appended(buf, EncodeSections(ss)) == Appended(out, EncodeSections(ss[i..]))
    {
      SectionsStep(ss, i, out);
      var encoded := AppendSection(out, ss[i]);
      if encoded.Err? {
        return encoded;
      }
      out := encoded.value;
    }
    assert ss[|ss|..] == [] && out + [] == out;
    r := Ok(out);
  }

  lemma SectionsStep(ss: seq<Section>, i: nat, out: seq<Byte>)
    requires i < |ss|
    ensures var e := EncodeSection(ss[i]);
            Appended(out, EncodeSections(ss[i..])) ==
            if e.Err? then e else Appended(out + e.value, EncodeSections(ss[i + 1..]))
  {
    assert ss[i..][0] == ss[i] && ss[i..][1..] == ss[i + 1..];
    var e := EncodeSection(ss[i]);
    if e.Ok? {
      AppendedTwice(out, e.value, EncodeSections(ss[i + 1..]));
    }
  }

  method EncodeFile(s: Section) returns (r: Result<seq<Byte>, Error>)
    ensures r == EncodeStorage(s)
  {
    var buf := HeaderBytes();
    r := AppendSection(buf, s);
  }

  // ---------- decoder ----------

  /** The outcome r of parsing the rest, after the elements done that took n bytes. */
  function Prepended<T>(done: seq<T>, n: nat, r: Result<Parsed<seq<T>>, Error>): Result<Parsed<seq<T>>, Error>
  {
    if r.Err? then r else Ok(Parsed(done + r.value.value, n + r.value.used))
  }

  lemma PrependedStep<T>(done: seq<T>, n: nat, e: Parsed<T>, r: Result<Parsed<seq<T>>, Error>)
    ensures Prepended(done, n, Cons(e, r)) == Prepended(done + [e.value], n + e.used, r)
  {
    if r.Ok? {
      assert done + ([e.value] + r.value.value) == done + [e.value] + r.value.value;
    }
  }

  /** The outcome r of parsing from offset n, its end reported as an offset too. */
  function Shifted<T>(n: nat, r: Result<Parsed<T>, Error>): Result<Parsed<T>, Error>
  {
    if r.Err? then r else Ok(Parsed(r.value.value, n + r.value.used))
  }

  lemma PrependedNone<T>(n: nat, r: Result<Parsed<seq<T>>, Error>)
    ensures Prepended([], n, r) == Shifted(n, r)
  {
    if r.Ok? {
      assert [] + r.value.value == r.value.value;
    }
  }

  lemma PrependedAll<T>(done: seq<T>, n: nat)
    ensures Prepended(done, n, Ok(Parsed([], 0))) == Ok(Parsed(done, n))
  {
    assert done + [] == done;
  }

  lemma {:induction false} MapOfSnoc(es: seq<Entry>, e: Entry)
    ensures MapOf(es + [e]) == MapOf(es)[e.name := e.value]
  {
    if es != [] {
      MapOfSnoc(es[1..], e);
      assert (es + [e])[1..] == es[1..] + [e];
    }
  }

  method DecodeSection(buf: seq<Byte>) returns (r: Result<Parsed<Section>, Error>)
    ensures r == ParseSection(buf)
    decreases |buf|, 0
  {
    var unpacked := UnpackVarint(buf);
    if unpacked.Err? {
      return Err(unpacked.error);
    }
    var count, off := unpacked.value.value, unpacked.value.used;
    var rest := buf[off..];
    r := DecodeEntries(rest, off, count);
  }

  /** The entry loop; rest is buf[off:]. */
  method DecodeEntries(start: seq<Byte>, off0: nat, count: nat) returns (r: Result<Parsed<Section>, Error>)
    ensures r == BuildSection(Shifted(off0, ParseEntries(start, count)))
    decreases |start|, 5
  {
    hide ParseEntry;
    var rest, off: nat, left: nat := start, off0, count;
    var s: map<Name, Value> := map[];
    ghost var done: seq<Entry> := [];
    PrependedNone(off, ParseEntries(rest, left));
    while left > 0
      invariant |rest| <= |start|
      invariant s == MapOf(done)
      invariant Shifted(off0, ParseEntries(start, count)) == Prepended(done, off, ParseEntries(rest, left))
    {
      var e := DecodeEntry(rest);
      if e.Err? {
        return Err(e.error);
      }
      PrependedStep(done, off, e.value, ParseEntries(rest[e.value.used..], left - 1));
      MapOfSnoc(done, e.value.value);
      s := s[e.value.value.name := e.value.value.value];
      done := done + [e.value.value];
      off, rest, left := off + e.value.used, rest[e.value.used..], left - 1;
    }
    PrependedAll(done, off);
    r := Ok(Parsed(Section(s), off));
  }

  ghost function BuildSection(es: Result<Parsed<seq<Entry>>, Error>): Result<Parsed<Section>, Error>
  {
    if es.Err? then Err(es.error) else Ok(Parsed(Section(MapOf(es.value.value)), es.value.used))
  }

  /** One turn of the entry loop: name length, name, type tag, value. */
  method DecodeEntry(buf: seq<Byte>) returns (r: Result<Parsed<Entry>, Error>)
    ensures r == ParseEntry(buf)
    decreases |buf|, 4
  {
    var off := 0;
    if off >= |buf| {
      return Err(StorageTruncated);
    }
    var nameLen := buf[off] as nat;
    off := off + 1;
    if off + nameLen > |buf| {
      return Err(StorageTruncated);
    }
    var name := buf[off..off + nameLen];
    off := off + nameLen;
    if off >= |buf| {
      return Err(StorageTruncated);
    }
    var tag := buf[off];
    off := off + 1;
    var decoded := DecodeValue(buf[off..], tag);
    if decoded.Err? {
      return Err(decoded.error);
    }
    off := off + decoded.value.used;
    r := Ok(Parsed(Entry(name, decoded.value.value), off));
  }

  method DecodeValue(buf: seq<Byte>, tag: Byte) returns (r: Result<Parsed<Value>, Error>)
    ensures r == ParseValue(buf, tag)
    decreases |buf|, 3
  {
    if tag >= ARRAY_FLAG {
      r := DecodeArray(buf, tag);
    } else if KindOf(tag).Some? {
      r := ParseNumber(KindOf(tag).value, buf);
    } else if tag == TAG_BOOL {
      r := if |buf| < 1 then Err(StorageTruncated) else Ok(Parsed(Boolean(buf[0] != 0), 1));
    } else if tag == TAG_STRING {
      var unpacked := UnpackVarint(buf);
      if unpacked.Err? {
        return Err(unpacked.error);
      }
      var strLen, n := unpacked.value.value, unpacked.value.used;
      if |buf| - n < strLen {
        return Err(StorageTruncated);
      }
      r := Ok(Parsed(Text(buf[n..n + strLen]), n + strLen));
    } else if tag == TAG_OBJECT {
      var decoded := DecodeSection(buf);
      r := if decoded.Err? then Err(decoded.error) else Ok(Parsed(Object(decoded.value.value), decoded.value.used));
    } else {
      r := Err(UnknownType);
    }
  }

  method DecodeArray(buf: seq<Byte>, tag: Byte) returns (r: Result<Parsed<Value>, Error>)
    requires tag >= ARRAY_FLAG
    ensures r == ParseValue(buf, tag)
    decreases |buf|, 2
  {
    var elem := tag - ARRAY_FLAG;
    var unpacked := UnpackVarint(buf);
    if unpacked.Err? {
      return Err(unpacked.error);
    }
    var count, off := unpacked.value.value, unpacked.value.used;
    r := DecodeElements(buf[off..], off, elem, count);
  }

  /** The switch on the element type; rest is buf[off:]. */
  method DecodeElements(rest: seq<Byte>, off: nat, elem: Byte, count: nat) returns (r: Result<Parsed<Value>, Error>)
    ensures r == Shifted(off, ParseArray(rest, elem, count))
    decreases |rest|, 3
  {
    hide ParseNats, ParseTexts, ParseSections;
    if elem == KindTag(Uint64) {
      var a := DecodeNats(8, rest, off, count);
      r := if a.Err? then Err(a.error) else Ok(Parsed(Uint64Array(a.value.value), a.value.used));
    } else if elem == KindTag(Uint32) {
      var a := DecodeNats(4, rest, off, count);
      r := if a.Err? then Err(a.error) else Ok(Parsed(Uint32Array(a.value.value), a.value.used));
    } else if elem == TAG_STRING {
      var a := DecodeTexts(rest, off, count);
      r := if a.Err? then Err(a.error) else Ok(Parsed(TextArray(a.value.value), a.value.used));
    } else if elem == TAG_OBJECT {
      var a := DecodeSections(rest, off, count);
      r := if a.Err? then Err(a.error) else Ok(Parsed(ObjectArray(a.value.value), a.value.used));
    } else {
      r := Err(UnknownType);
    }
  }

  // The element loops: rest is buf[off:].

  method DecodeNats(w: nat, start: seq<Byte>, off0: nat, count: nat) returns (r: Result<Parsed<seq<nat>>, Error>)
    requires w > 0
    ensures r == Shifted(off0, ParseNats(w, start, count))
  {
    var rest, off: nat, left: nat := start, off0, count;
    var arr: seq<nat> := [];
    PrependedNone(off, ParseNats(w, rest, left));
    while left > 0
      invariant |rest| <= |start|
      invariant Shifted(off0, ParseNats(w, start, count)) == Prepended(arr, off, ParseNats(w, rest, left))
    {
      if w > |rest| {
        return Err(StorageTruncated);
      }
      PrependedStep(arr, off, Parsed(FromLittleEndian(rest[..w]), w), ParseNats(w, rest[w..], left - 1));
      arr := arr + [FromLittleEndian(rest[..w])];
      off, rest, left := off + w, rest[w..], left - 1;
    }
    PrependedAll(arr, off);
    r := Ok(Parsed(arr, off));
  }

  method DecodeTexts(start: seq<Byte>, off0: nat, count: nat) returns (r: Result<Parsed<seq<seq<Byte>>>, Error>)
    ensures r == Shifted(off0, ParseTexts(start, count))
  {
    hide UnpackVarint;
    var rest, off: nat, left: nat := start, off0, count;
    var arr: seq<seq<Byte>> := [];
    PrependedNone(off, ParseTexts(rest, left));
    while left > 0
      invariant |rest| <= |start|
      invariant Shifted(off0, ParseTexts(start, count)) == Prepended(arr, off, ParseTexts(rest, left))
    {
      var unpacked := UnpackVarint(rest);
      if unpacked.Err? {
        return Err(unpacked.error);
      }
      var strLen, sn := unpacked.value.value, unpacked.value.used;
      if |rest| - sn < strLen {
        return Err(StorageTruncated);
      }
      var data := rest[sn..sn + strLen];
      PrependedStep(arr, off, Parsed(data, sn + strLen), ParseTexts(rest[sn + strLen..], left - 1));
      arr := arr + [data];
      off, rest, left := off + sn + strLen, rest[sn + strLen..], left - 1;
    }
    PrependedAll(arr, off);
    r := Ok(Parsed(arr, off));
  }

  method DecodeSections(start: seq<Byte>, off0: nat, count: nat) returns (r: Result<Parsed<seq<Section>>, Error>)
    ensures r == Shifted(off0, ParseSections(start, count))
    decreases |start|, 2
  {
    hide ParseSection;
    var rest, off: nat, left: nat := start, off0, count;
    var arr: seq<Section> := [];
    PrependedNone(off, ParseSections(rest, left));
    while left > 0
      invariant |rest| <= |start|
      invariant Shifted(off0, ParseSections(start, count)) == Prepended(arr, off, ParseSections(rest, left))
    {
      var next := DecodeSection(rest);
      if next.Err? {
        return Err(next.error);
      }
      PrependedStep(arr, off, next.value, ParseSections(rest[next.value.used..], left - 1));
      arr := arr + [next.value.value];
      off, rest, left := off + next.value.used, rest[next.value.used..], left - 1;
    }
    PrependedAll(arr, off);
    r := Ok(Parsed(arr, off));
  }

  method DecodeFile(data: seq<Byte>) returns (r: Result<Section, Error>)
    ensures ParseStorage(data).Ok? ==> r == Ok(ParseStorage(data).value.value)
    ensures ParseStorage(data).Err? ==> r == Err(ParseStorage(data).error)
  {
    if |data| < HEADER_SIZE {
      return Err(StorageTruncated);
    }
    var sigA := FromLittleEndian(data[..4]);
    var sigB := FromLittleEndian(data[4..8]);
    var ver := data[8];
    if sigA != SIGNATURE_A || sigB != SIGNATURE_B {
      return Err(BadSignature);
    }
    if ver != VERSION {
      return Err(BadVersion);
    }
    var decoded := DecodeSection(data[HEADER_SIZE..]);
    r := if decoded.Err? then Err(decoded.error) else Ok(decoded.value.value);
  }
}
