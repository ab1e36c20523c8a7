/**
 A decoder reads exactly the bytes it consumes: its answer is the same on every buffer that
 starts with them, and every shorter buffer is reported as truncated.
 */
module StorageLocality {
  import opened Bytes
  import opened Varint
  import opened Storage

  predicate IsTruncation(e: Error)
  {
    e == VarintTruncated || e == StorageTruncated
  }

  /** buf2 holds everything the outcome r on buf depended on. */
  ghost predicate Covers<T>(r: Result<Parsed<T>, Error>, buf: seq<Byte>, buf2: seq<Byte>)
  {
    match r
    case Ok(p) => p.used <= |buf| && p.used <= |buf2| && buf[..p.used] == buf2[..p.used]
    case Err(e) => !IsTruncation(e) && buf <= buf2
  }

  lemma SliceAgrees(a: seq<Byte>, b: seq<Byte>, lo: nat, hi: nat, n: nat)
    requires lo <= hi <= n <= |a| && n <= |b| && a[..n] == b[..n]
    ensures a[lo..hi] == b[lo..hi]
  {
    assert a[lo..hi] == a[..n][lo..hi];
    assert b[lo..hi] == b[..n][lo..hi];
  }

  /** What covers the whole also covers the part that was read first. */
  lemma CoversHead<T, U>(r: Result<Parsed<T>, Error>, head: Result<Parsed<U>, Error>, buf: seq<Byte>, buf2: seq<Byte>)
    requires Covers(r, buf, buf2)
    requires head.Ok? && head.value.used <= |buf|
    requires r.Ok? ==> head.value.used <= r.value.used
    ensures Covers(head, buf, buf2)
  {
    if r.Ok? {
      SliceAgrees(buf, buf2, 0, head.value.used, r.value.used);
    }
  }

  /** And the part that was read after the first n bytes. */
  lemma CoversTail<T, U>(r: Result<Parsed<T>, Error>, tail: Result<Parsed<U>, Error>, n: nat,
                         buf: seq<Byte>, buf2: seq<Byte>)
    requires Covers(r, buf, buf2) && n <= |buf|
    requires tail.Ok? ==> r.Ok? && r.value.used == n + tail.value.used
    requires tail.Err? ==> r == Err(tail.error)
    ensures n <= |buf2| && Covers(tail, buf[n..], buf2[n..])
  {
    if r.Ok? {
      var m := r.value.used;
      SliceAgrees(buf, buf2, n, m, m);
      assert buf[n..][..m - n] == buf[n..m];
      assert buf2[n..][..m - n] == buf2[n..m];
    }
  }

  lemma VarintLocal(buf: seq<Byte>, buf2: seq<Byte>)
    requires Covers(UnpackVarint(buf), buf, buf2)
    ensures UnpackVarint(buf2) == UnpackVarint(buf)
  {
    var n := UnpackVarint(buf).value.used;
    UnpackIsLocal(buf, []);
    UnpackIsLocal(buf[..n], buf2[n..]);
    assert buf2 == buf[..n] + buf2[n..];
  }

  lemma TextLocal(buf: seq<Byte>, buf2: seq<Byte>)
    requires Covers(ParseText(buf), buf, buf2)
    ensures ParseText(buf2) == ParseText(buf)
  {
    var r, c := ParseText(buf), UnpackVarint(buf);
    CoversHead(r, c, buf, buf2);
    VarintLocal(buf, buf2);
    SliceAgrees(buf, buf2, c.value.used, r.value.used, r.value.used);
  }

  lemma {:induction false} NatsLocal(w: nat, buf: seq<Byte>, buf2: seq<Byte>, count: nat)
    requires w > 0 && Covers(ParseNats(w, buf, count), buf, buf2)
    ensures ParseNats(w, buf2, count) == ParseNats(w, buf, count)
    decreases count
  {
    if count != 0 {
      var r, a := ParseNats(w, buf, count), ParseNats(w, buf[w..], count - 1);
      SliceAgrees(buf, buf2, 0, w, r.value.used);
      CoversTail(r, a, w, buf, buf2);
      NatsLocal(w, buf[w..], buf2[w..], count - 1);
    }
  }

  lemma {:induction false} TextsLocal(buf: seq<Byte>, buf2: seq<Byte>, count: nat)
    requires Covers(ParseTexts(buf, count), buf, buf2)
    ensures ParseTexts(buf2, count) == ParseTexts(buf, count)
    decreases count
  {
    if count != 0 {
      var r, t := ParseTexts(buf, count), ParseText(buf);
      CoversHead(r, t, buf, buf2);
      TextLocal(buf, buf2);
      var n := t.value.used;
      CoversTail(r, ParseTexts(buf[n..], count - 1), n, buf, buf2);
      TextsLocal(buf[n..], buf2[n..], count - 1);
    }
  }

  lemma {:induction false} SectionsLocal(buf: seq<Byte>, buf2: seq<Byte>, count: nat)
    requires Covers(ParseSections(buf, count), buf, buf2)
    ensures ParseSections(buf2, count) == ParseSections(buf, count)
    decreases |buf|, 2
  {
    hide ParseSection;
    if count != 0 {
      var r, s := ParseSections(buf, count), ParseSection(buf);
      if s.Ok? {
        CoversHead(r, s, buf, buf2);
      }
      SectionLocal(buf, buf2);
      if s.Ok? {
        var n := s.value.used;
        CoversTail(r, ParseSections(buf[n..], count - 1), n, buf, buf2);
        SectionsLocal(buf[n..], buf2[n..], count - 1);
      }
    }
  }

  lemma {:induction false} ArrayLocal(buf: seq<Byte>, buf2: seq<Byte>, elem: Byte, count: nat)
    requires Covers(ParseArray(buf, elem, count), buf, buf2)
    ensures ParseArray(buf2, elem, count) == ParseArray(buf, elem, count)
    decreases |buf|, 3
  {
    hide ParseNats, ParseTexts, ParseSections;
    if elem == KindTag(Uint64) {
      NatsLocal(8, buf, buf2, count);
    } else if elem == KindTag(Uint32) {
      NatsLocal(4, buf, buf2, count);
    } else if elem == TAG_STRING {
      TextsLocal(buf, buf2, count);
    } else if elem == TAG_OBJECT {
      SectionsLocal(buf, buf2, count);
    }
  }

  lemma {:induction false} ValueLocal(buf: seq<Byte>, buf2: seq<Byte>, tag: Byte)
    requires Covers(ParseValue(buf, tag), buf, buf2)
    ensures ParseValue(buf2, tag) == ParseValue(buf, tag)
    decreases |buf|, 1
  {
    var r := ParseValue(buf, tag);
    if tag >= ARRAY_FLAG {
      var c := UnpackVarint(buf);
      CoversHead(r, c, buf, buf2);
      VarintLocal(buf, buf2);
      var n := c.value.used;
      CoversTail(r, ParseArray(buf[n..], tag - ARRAY_FLAG, c.value.value), n, buf, buf2);
      ArrayLocal(buf[n..], buf2[n..], tag - ARRAY_FLAG, c.value.value);
    } else if KindOf(tag).Some? {
    } else if tag == TAG_STRING {
      TextLocal(buf, buf2);
    } else if tag == TAG_OBJECT {
      SectionLocal(buf, buf2);
    } else if tag == TAG_BOOL {
      assert buf[..1][0] == buf2[..1][0];
    }
  }

  lemma EntryHeadAgrees(buf: seq<Byte>, buf2: seq<Byte>, n: nat)
    requires 0 < n < |buf| && n < |buf2| && buf[..n + 1] == buf2[..n + 1]
    ensures buf2[0] == buf[0] && buf2[n] == buf[n] && buf2[1..n] == buf[1..n]
  {
    assert buf[0] == buf[..n + 1][0] && buf2[0] == buf2[..n + 1][0];
    assert buf[n] == buf[..n + 1][n] && buf2[n] == buf2[..n + 1][n];
    SliceAgrees(buf, buf2, 1, n, n + 1);
  }

  lemma {:induction false} EntryLocal(buf: seq<Byte>, buf2: seq<Byte>)
    requires Covers(ParseEntry(buf), buf, buf2)
    ensures ParseEntry(buf2) == ParseEntry(buf)
    decreases |buf|, 1
  {
    hide ParseValue;
    var r, n := ParseEntry(buf), buf[0] as nat + 1;
    CoversTail(r, ParseValue(buf[n + 1..], buf[n]), n + 1, buf, buf2);
    if r.Ok? {
      SliceAgrees(buf, buf2, 0, n + 1, r.value.used);
    }
    EntryHeadAgrees(buf, buf2, n);
    ValueLocal(buf[n + 1..], buf2[n + 1..], buf[n]);
  }

  lemma {:induction false} FirstEntryLocal(buf: seq<Byte>, buf2: seq<Byte>, count: nat)
    requires count > 0 && Covers(ParseEntries(buf, count), buf, buf2)
    ensures ParseEntry(buf2) == ParseEntry(buf)
    decreases |buf|, 2, 0
  {
    if ParseEntry(buf).Ok? {
      CoversHead(ParseEntries(buf, count), ParseEntry(buf), buf, buf2);
    }
    EntryLocal(buf, buf2);
  }

  lemma {:induction false} EntriesLocal(buf: seq<Byte>, buf2: seq<Byte>, count: nat)
    requires Covers(ParseEntries(buf, count), buf, buf2)
    ensures ParseEntries(buf2, count) == ParseEntries(buf, count)
    decreases |buf|, 2, 1
  {
    hide ParseEntry;
    if count != 0 {
      FirstEntryLocal(buf, buf2, count);
      if ParseEntry(buf).Ok? {
        var n := ParseEntry(buf).value.used;
        CoversTail(ParseEntries(buf, count), ParseEntries(buf[n..], count - 1), n, buf, buf2);
        EntriesLocal(buf[n..], buf2[n..], count - 1);
      }
    }
  }

  /** The general form: any buffer that holds what the decoder looked at gets the same answer. */
  lemma {:induction false} SectionLocal(buf: seq<Byte>, buf2: seq<Byte>)
    requires Covers(ParseSection(buf), buf, buf2)
    ensures ParseSection(buf2) == ParseSection(buf)
    decreases |buf|, 0
  {
    hide ParseEntries;
    var r, c := ParseSection(buf), UnpackVarint(buf);
    CoversHead(r, c, buf, buf2);
    VarintLocal(buf, buf2);
    var n := c.value.used;
    CoversTail(r, ParseEntries(buf[n..], c.value.value), n, buf, buf2);
    EntriesLocal(buf[n..], buf2[n..], c.value.value);
  }

  /** Bytes after the consumed ones never matter, present or absent. */
  lemma {:induction false} DecodeIgnoresTail(buf: seq<Byte>, n: nat, t: seq<Byte>)
    requires ParseSection(buf).Ok? && n == ParseSection(buf).value.used
    ensures ParseSection(buf[..n] + t) == ParseSection(buf)
  {
    assert (buf[..n] + t)[..n] == buf[..n];
    SectionLocal(buf, buf[..n] + t);
  }

  /** Every strict prefix of an accepted encoding is reported as truncated, never as something else. */
  lemma {:induction false} TruncationIsDetected(buf: seq<Byte>, n: nat, cut: nat)
    requires ParseSection(buf).Ok? && n == ParseSection(buf).value.used && cut < n
    ensures ParseSection(buf[..cut]).Err? && IsTruncation(ParseSection(buf[..cut]).error)
  {
    var short := ParseSection(buf[..cut]);
    if short.Ok? || !IsTruncation(short.error) {
      assert buf[..cut] <= buf;
      SectionLocal(buf[..cut], buf);
    }
  }
}
