/** The size-marked varint of portable storage (go/node/levin/varint.go). */
module Varint {
  import opened Bytes

  /** The sentinel errors of the levin package's varint and storage codecs. */
  datatype Error =
    | VarintTruncated
    | StorageTruncated
    | BadSignature
    | BadVersion
    | NameTooLong
    | UnknownType

  /** A decoded value and the number of bytes it took. */
  datatype Parsed<+T> = Parsed(value: T, used: nat)

  const MAX1: nat := 63
  const MAX2: nat := 16_383
  const MAX4: nat := 1_073_741_823
  const MAX8: nat := 4_611_686_018_427_387_903

  /** (v << 2) | mark in 64 bits: the shift drops the two highest bits of v. */
  function Marked(v: nat, mark: nat): (raw: nat)
    requires mark < 4
  {
    (4 * v) % TWO64 + mark
  }

  function PackVarint(v: nat): (s: seq<Byte>)
    ensures |s| in {1, 2, 4, 8}
  {
    if v <= MAX1 then LittleEndian(1, Marked(v, 0))
    else if v <= MAX2 then LittleEndian(2, Marked(v, 1))
    else if v <= MAX4 then LittleEndian(4, Marked(v, 2))
    else LittleEndian(8, Marked(v, 3))
  }

  function MarkWidth(mark: nat): (w: nat)
  {
    if mark == 0 then 1 else if mark == 1 then 2 else if mark == 2 then 4 else 8
  }

  function UnpackVarint(buf: seq<Byte>): (r: Result<Parsed<nat>, Error>)
    ensures r.Ok? ==> 1 <= r.value.used <= |buf|
    ensures r.Err? ==> r.error == VarintTruncated
  {
    if |buf| == 0 then Err(VarintTruncated)
    else
      var w := MarkWidth(buf[0] % 4);
      if |buf| < w then Err(VarintTruncated)
      else Ok(Parsed(FromLittleEndian(buf[..w]) / 4, w))
  }

  lemma SameLowBits(q: nat, c: nat, low: nat)
    requires low < 4
    ensures (256 * q + (4 * c + low)) % 4 == low && (4 * c + low) % 4 == low
  {
    RemainderUnique(256 * q + (4 * c + low), 4, 64 * q + c, low);
    RemainderUnique(4 * c + low, 4, c, low);
  }

  lemma {:induction false} LowBits(w: nat, raw: nat)
    requires w > 0
    ensures LittleEndian(w, raw)[0] % 4 == raw % 4
  {
    var q, first := raw / 256, raw % 256;
    assert LittleEndian(w, raw)[0] == first;
    SameLowBits(q, first / 4, first % 4);
  }

  lemma {:induction false} UnpackOfRaw(raw: nat, w: nat, t: seq<Byte>)
    requires w == MarkWidth(raw % 4) && raw < Pow256(w)
    ensures UnpackVarint(LittleEndian(w, raw) + t) == Ok(Parsed(raw / 4, w))
  {
    LowBits(w, raw);
    LittleEndianRoundTrip(w, raw);
    RemainderUnique(raw, Pow256(w), 0, raw);
    assert (LittleEndian(w, raw) + t)[..w] == LittleEndian(w, raw);
  }

  lemma MarkedIsExact(v: nat, mark: nat)
    requires v <= MAX8 && mark < 4
    ensures Marked(v, mark) == 4 * v + mark
    ensures Marked(v, mark) % 4 == mark && Marked(v, mark) / 4 == v
  {
  }

  /** Every value up to 2^62-1 survives, whatever bytes follow it. */
  lemma VarintRoundTrip(v: nat, t: seq<Byte>)
    requires v <= MAX8
    ensures UnpackVarint(PackVarint(v) + t) == Ok(Parsed(v, |PackVarint(v)|))
  {
    Pow256Values();
    if v <= MAX1 {
      MarkedIsExact(v, 0);
      UnpackOfRaw(4 * v + 0, 1, t);
    } else if v <= MAX2 {
      MarkedIsExact(v, 1);
      UnpackOfRaw(4 * v + 1, 2, t);
    } else if v <= MAX4 {
      MarkedIsExact(v, 2);
      UnpackOfRaw(4 * v + 2, 4, t);
    } else {
      MarkedIsExact(v, 3);
      UnpackOfRaw(4 * v + 3, 8, t);
    }
  }

  /** What a decoder can return: never above 2^62-1, and never in fewer bytes than the packer uses. */
  lemma UnpackIsBounded(buf: seq<Byte>)
    requires UnpackVarint(buf).Ok?
    ensures var Parsed(v, n) := UnpackVarint(buf).value;
            v <= MAX8 && |PackVarint(v)| <= n
  {
    Pow256Values();
    var w := MarkWidth(buf[0] % 4);
    FromLittleEndianBound(buf[..w]);
  }

  /** The round trip holds for exactly the values up to 2^62-1: above that the mark overwrites live bits. */
  lemma VarintRoundTripExact(v: nat)
    ensures UnpackVarint(PackVarint(v)).Ok?
    ensures UnpackVarint(PackVarint(v)).value.value == v <==> v <= MAX8
  {
    if v <= MAX8 {
      VarintRoundTrip(v, []);
      assert PackVarint(v) + [] == PackVarint(v);
    } else {
      LowBits(8, Marked(v, 3));
      UnpackIsBounded(PackVarint(v));
    }
  }

  /** The two low bits of the first byte say the width, 1, 2, 4 or 8 bytes, and the other bits are the value. */
  lemma PackedForm(v: nat)
    requires v <= MAX8
    ensures var s := PackVarint(v);
            && s[0] % 4 == (if |s| == 1 then 0 else if |s| == 2 then 1 else if |s| == 4 then 2 else 3)
            && FromLittleEndian(s) == 4 * v + s[0] % 4
  {
    Pow256Values();
    var w := |PackVarint(v)|;
    var mark := if w == 1 then 0 else if w == 2 then 1 else if w == 4 then 2 else 3;
    MarkedIsExact(v, mark);
    LowBits(w, 4 * v + mark);
    LittleEndianRoundTrip(w, 4 * v + mark);
    RemainderUnique(4 * v + mark, Pow256(w), 0, 4 * v + mark);
  }

  lemma PackWidthMonotone(a: nat, b: nat)
    requires a <= b
    ensures |PackVarint(a)| <= |PackVarint(b)|
  {
  }

  /** A varint that was read stays the same when bytes are appended or the unread ones are cut. */
  lemma UnpackIsLocal(buf: seq<Byte>, t: seq<Byte>)
    requires UnpackVarint(buf).Ok?
    ensures UnpackVarint(buf + t) == UnpackVarint(buf)
    ensures UnpackVarint(buf[..UnpackVarint(buf).value.used]) == UnpackVarint(buf)
  {
    var w := MarkWidth(buf[0] % 4);
    assert (buf + t)[..w] == buf[..w];
    assert buf[..w][..w] == buf[..w];
  }
}
