/**
 How much the storage decoder builds on the way: every entry and every array element at every depth, those that a
 repeated name overwrites and those of an input that is refused in the end included.
 */
module StorageBuilt {
  import opened Bytes
  import opened Varint
  import opened Storage
  import opened StorageRoundTrip

  // ---------- what is built, along the decoder ----------

  function BuiltSection(buf: seq<Byte>): nat
    decreases |buf|, 0
  {
    var c := UnpackVarint(buf);
    if c.Err? then 0 else BuiltEntries(buf[c.value.used..], c.value.value)
  }

  function BuiltEntries(buf: seq<Byte>, count: nat): nat
    decreases |buf|, 2
  {
    if count == 0 then 0
    else
      var e := ParseEntry(buf);
      BuiltInEntry(buf) + if e.Err? then 0 else 1 + BuiltEntries(buf[e.value.used..], count - 1)
  }

  /** What the value of an entry builds, besides the entry itself. */
  function BuiltInEntry(buf: seq<Byte>): nat
    decreases |buf|, 1
  {
    if |buf| == 0 then 0
    else
      var n := buf[0] as nat + 1;
      if n >= |buf| then 0 else BuiltValue(buf[n + 1..], buf[n])
  }

  function BuiltValue(buf: seq<Byte>, tag: Byte): nat
    decreases |buf|, 1
  {
    if tag >= ARRAY_FLAG then
      var c := UnpackVarint(buf);
      if c.Err? then 0 else BuiltArray(buf[c.value.used..], tag - ARRAY_FLAG, c.value.value)
    else if tag == TAG_OBJECT then BuiltSection(buf)
    else 0
  }

  function BuiltArray(buf: seq<Byte>, elem: Byte, count: nat): nat
    decreases |buf|, 3
  {
    if elem == KindTag(Uint64) then BuiltNats(8, buf, count)
    else if elem == KindTag(Uint32) then BuiltNats(4, buf, count)
    else if elem == TAG_STRING then BuiltTexts(buf, count)
    else if elem == TAG_OBJECT then BuiltSections(buf, count)
    else 0
  }

  function BuiltNats(w: nat, buf: seq<Byte>, count: nat): nat
    decreases count
  {
    if count == 0 || |buf| < w then 0 else 1 + BuiltNats(w, buf[w..], count - 1)
  }

  function BuiltTexts(buf: seq<Byte>, count: nat): nat
    decreases count
  {
    if count == 0 || ParseText(buf).Err? then 0 else 1 + BuiltTexts(buf[ParseText(buf).value.used..], count - 1)
  }

  function BuiltSections(buf: seq<Byte>, count: nat): nat
    decreases |buf|, 2
  {
    if count == 0 then 0
    else
      var s := ParseSection(buf);
      BuiltSection(buf) + if s.Err? then 0 else 1 + BuiltSections(buf[s.value.used..], count - 1)
  }

  // ---------- never more than the bytes read ----------

  /** No more was built than there are bytes, nor than were consumed if the input was accepted. */
  predicate Within<T>(built: nat, r: Result<Parsed<T>, Error>, buf: seq<Byte>)
  {
    built <= |buf| && (r.Ok? ==> built <= r.value.used)
  }

  lemma {:induction false} NatsBuilt(w: nat, buf: seq<Byte>, count: nat)
    requires w > 0
    ensures Within(BuiltNats(w, buf, count), ParseNats(w, buf, count), buf)
    decreases count
  {
    if count != 0 && |buf| >= w {
      NatsBuilt(w, buf[w..], count - 1);
    }
  }

  lemma {:induction false} TextsBuilt(buf: seq<Byte>, count: nat)
    ensures Within(BuiltTexts(buf, count), ParseTexts(buf, count), buf)
    decreases count
  {
    if count != 0 && ParseText(buf).Ok? {
      TextsBuilt(buf[ParseText(buf).value.used..], count - 1);
    }
  }

  /** One element of at least one byte more than it built inside, then the others. */
  lemma OneMore<T>(inside: nat, head: Result<Parsed<T>, Error>, others: nat,
                   rest: Result<Parsed<seq<T>>, Error>, buf: seq<Byte>)
    requires head.Ok? && inside < head.value.used <= |buf| && Within(others, rest, buf[head.value.used..])
    ensures Within(inside + (1 + others), Cons(head.value, rest), buf)
  {
  }

  lemma {:induction false} SectionsBuilt(buf: seq<Byte>, count: nat)
    ensures Within(BuiltSections(buf, count), ParseSections(buf, count), buf)
    decreases |buf|, 2
  {
    if count != 0 {
      SectionBuilt(buf);
      var s := ParseSection(buf);
      if s.Ok? {
        var n := s.value.used;
        SectionsBuilt(buf[n..], count - 1);
        OneMore(BuiltSection(buf), s, BuiltSections(buf[n..], count - 1), ParseSections(buf[n..], count - 1), buf);
      }
    }
  }

  lemma {:induction false} ArrayBuilt(buf: seq<Byte>, elem: Byte, count: nat)
    ensures Within(BuiltArray(buf, elem, count), ParseArray(buf, elem, count), buf)
    decreases |buf|, 3
  {
    if elem == KindTag(Uint64) {
      NatsBuilt(8, buf, count);
    } else if elem == KindTag(Uint32) {
      NatsBuilt(4, buf, count);
    } else if elem == TAG_STRING {
      TextsBuilt(buf, count);
    } else if elem == TAG_OBJECT {
      SectionsBuilt(buf, count);
    }
  }

  lemma {:induction false} ValueBuilt(buf: seq<Byte>, tag: Byte)
    ensures Within(BuiltValue(buf, tag), ParseValue(buf, tag), buf)
    decreases |buf|, 1
  {
    if tag >= ARRAY_FLAG {
      var c := UnpackVarint(buf);
      if c.Ok? {
        ArrayBuilt(buf[c.value.used..], tag - ARRAY_FLAG, c.value.value);
      }
    } else if tag == TAG_OBJECT {
      SectionBuilt(buf);
    }
  }

  lemma {:induction false} EntryBuilt(buf: seq<Byte>)
    ensures BuiltInEntry(buf) <= |buf| && (ParseEntry(buf).Ok? ==> BuiltInEntry(buf) < ParseEntry(buf).value.used)
    decreases |buf|, 1
  {
    if |buf| > 0 {
      var n := buf[0] as nat + 1;
      if n < |buf| {
        ValueBuilt(buf[n + 1..], buf[n]);
      }
    }
  }

  lemma {:induction false} EntriesBuilt(buf: seq<Byte>, count: nat)
    ensures Within(BuiltEntries(buf, count), ParseEntries(buf, count), buf)
    decreases |buf|, 2
  {
    if count != 0 {
      EntryBuilt(buf);
      var e := ParseEntry(buf);
      if e.Ok? {
        var n := e.value.used;
        EntriesBuilt(buf[n..], count - 1);
        OneMore(BuiltInEntry(buf), e, BuiltEntries(buf[n..], count - 1), ParseEntries(buf[n..], count - 1), buf);
      }
    }
  }

  /**
   For every input, accepted or not, and however large the counts it claims: the entries and elements built at all
   depths, overwritten ones included, are no more than its bytes, and fewer than those consumed if it is accepted.
   */
  lemma {:induction false} SectionBuilt(buf: seq<Byte>)
    ensures BuiltSection(buf) <= |buf|
    ensures ParseSection(buf).Ok? ==> BuiltSection(buf) < ParseSection(buf).value.used
    decreases |buf|, 0
  {
    var c := UnpackVarint(buf);
    if c.Ok? {
      EntriesBuilt(buf[c.value.used..], c.value.value);
    }
  }

  /** A repeated name is built twice and kept once: for any name and two values of any depth, whatever follows. */
  lemma {:induction false} RepeatedNameIsBuiltTwice(name: Name, v1: Value, v2: Value, e1: seq<Byte>, e2: seq<Byte>,
                                                    t: seq<Byte>)
    requires WellFormedValue(v1) && WellFormedValue(v2)
    requires EncodeEntry(name, v1) == Ok(e1) && EncodeEntry(name, v2) == Ok(e2)
    ensures var buf := PackVarint(2) + (e1 + (e2 + t));
            && BuiltSection(buf) >= 2
            && ParseSection(buf) == Ok(Parsed(Section(map[name := v2]), |PackVarint(2)| + |e1| + |e2|))
  {
    hide ParseEntry, ParseEntries, EncodeEntry, WellFormedValue, UnpackVarint, PackVarint, BuiltEntries, MapOf;
    var head, b1, b2 := PackVarint(2), e1 + (e2 + t), e2 + t;
    var buf := head + b1;
    VarintAt(2, buf);
    EntryRoundTrip(name, v1, e1, b1);
    EntryRoundTrip(name, v2, e2, b2);
    assert buf[|head|..] == b1 && b1[|e1|..] == b2 && b2[|e2|..] == t;
    TwoEntries(b1, name, v1, v2, e1, e2, t);
  }

  lemma {:induction false} TwoEntries(buf: seq<Byte>, name: Name, v1: Value, v2: Value, e1: seq<Byte>, e2: seq<Byte>,
                                      t: seq<Byte>)
    requires |e1| + |e2| <= |buf| && ParseEntry(buf) == Ok(Parsed(Entry(name, v1), |e1|))
    requires ParseEntry(buf[|e1|..]) == Ok(Parsed(Entry(name, v2), |e2|)) && buf[|e1|..][|e2|..] == t
    ensures BuiltEntries(buf, 2) >= 2
    ensures ParseEntries(buf, 2).Ok? && ParseEntries(buf, 2).value.used == |e1| + |e2|
    ensures MapOf(ParseEntries(buf, 2).value.value) == map[name := v2]
  {
    hide ParseEntry, BuiltInEntry;
    var one, two := Entry(name, v1), Entry(name, v2);
    assert ParseEntries(t, 0) == Ok(Parsed([], 0)) && [two] + [] == [two];
    assert ParseEntries(buf[|e1|..], 1) == Cons(Parsed(two, |e2|), ParseEntries(t, 0));
    assert ParseEntries(buf, 2) == Ok(Parsed([one] + [two], |e1| + |e2|));
    LastWins(one, two);
    assert BuiltEntries(buf[|e1|..], 1) >= 1;
  }

  lemma LastWins(one: Entry, two: Entry)
    requires one.name == two.name
    ensures MapOf([one] + [two]) == map[two.name := two.value]
  {
    assert ([one] + [two])[1..] == [two] && [two][1..] == [];
    assert MapOf([two]) == map[two.name := two.value] + map[];
  }
}
