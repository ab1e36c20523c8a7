/** The 33-byte header of a Levin packet (go/node/levin/header.go). */
module LevinHeader {
  import opened Bytes

  const HEADER_SIZE: nat := 33
  const SIGNATURE: nat := 0x0101010101012101
  const MAX_PAYLOAD: nat := 100 * 1024 * 1024

  datatype Header = Header(
    signature: nat,
    payloadSize: nat,
    expectResponse: bool,
    command: nat,
    returnCode: int,
    flags: nat,
    protocolVersion: nat)

  datatype HeaderError = BadSignature | PayloadTooBig

  /** The ranges of the Go field types. */
  predicate Typed(h: Header)
  {
    && h.signature < TWO64 && h.payloadSize < TWO64
    && h.command < TWO32 && h.flags < TWO32 && h.protocolVersion < TWO32
    && SignedRange(4, h.returnCode)
  }

  function HeaderBytes(h: Header): (s: seq<Byte>)
    ensures |s| == HEADER_SIZE
  {
    LittleEndian(8, h.signature) + LittleEndian(8, h.payloadSize) + [if h.expectResponse then 1 else 0]
    + LittleEndian(4, h.command) + LittleEndian(4, ToUnsigned(4, h.returnCode))
    + LittleEndian(4, h.flags) + LittleEndian(4, h.protocolVersion)
  }

  /** The w bytes at off are the digits of v, least significant first. */
  ghost predicate DigitsAt(buf: seq<Byte>, off: nat, w: nat, v: nat)
    requires off + w <= |buf|
  {
    forall i | 0 <= i < w :: buf[off + i] == v / Pow256(i) % 256
  }

  lemma {:induction false} DigitsOf(buf: seq<Byte>, off: nat, w: nat, v: nat)
    requires off + w <= |buf| && buf[off..off + w] == LittleEndian(w, v)
    ensures DigitsAt(buf, off, w, v)
  {
    forall i | 0 <= i < w ensures buf[off + i] == v / Pow256(i) % 256 {
      LittleEndianDigit(w, v, i);
      assert buf[off + i] == buf[off..off + w][i];
    }
  }

  /** Where each field is, byte for byte. */
  lemma HeaderLayout(h: Header)
    ensures var b := HeaderBytes(h);
            && DigitsAt(b, 0, 8, h.signature) && DigitsAt(b, 8, 8, h.payloadSize)
            && (b[16] == if h.expectResponse then 1 else 0)
            && DigitsAt(b, 17, 4, h.command) && DigitsAt(b, 21, 4, ToUnsigned(4, h.returnCode))
            && DigitsAt(b, 25, 4, h.flags) && DigitsAt(b, 29, 4, h.protocolVersion)
  {
    hide LittleEndian, Pow256, DigitsAt;
    var b := HeaderBytes(h);
    DigitsOf(b, 0, 8, h.signature);
    DigitsOf(b, 8, 8, h.payloadSize);
    DigitsOf(b, 17, 4, h.command);
    DigitsOf(b, 21, 4, ToUnsigned(4, h.returnCode));
    DigitsOf(b, 25, 4, h.flags);
    DigitsOf(b, 29, 4, h.protocolVersion);
  }

  /** The w-byte number at offset off. */
  function Field(buf: seq<Byte>, off: nat, w: nat): (v: nat)
    requires off + w <= |buf|
    ensures v < Pow256(w)
  {
    FromLittleEndianBound(buf[off..off + w]);
    FromLittleEndian(buf[off..off + w])
  }

  function FieldsOf(buf: seq<Byte>): Header
    requires |buf| == HEADER_SIZE
  {
    Header(Field(buf, 0, 8), Field(buf, 8, 8), buf[16] == 1, Field(buf, 17, 4),
           ToSigned(4, Field(buf, 21, 4)), Field(buf, 25, 4), Field(buf, 29, 4))
  }

  function ParseHeader(buf: seq<Byte>): (r: Result<Header, HeaderError>)
    requires |buf| == HEADER_SIZE
    ensures r.Ok? <==> Field(buf, 0, 8) == SIGNATURE && Field(buf, 8, 8) <= MAX_PAYLOAD
    ensures r.Ok? ==> r.value.payloadSize <= MAX_PAYLOAD
  {
    if Field(buf, 0, 8) != SIGNATURE then Err(BadSignature)
    else if Field(buf, 8, 8) > MAX_PAYLOAD then Err(PayloadTooBig)
    else Ok(FieldsOf(buf))
  }

  lemma {:induction false} FieldOf(buf: seq<Byte>, off: nat, w: nat, v: nat)
    requires off + w <= |buf| && buf[off..off + w] == LittleEndian(w, v) && v < Pow256(w)
    ensures Field(buf, off, w) == v
  {
    LittleEndianRoundTrip(w, v);
    RemainderUnique(v, Pow256(w), 0, v);
  }

  lemma FieldsRoundTrip(h: Header)
    requires Typed(h)
    ensures FieldsOf(HeaderBytes(h)) == h
  {
    hide LittleEndian, FromLittleEndian, Field, Pow256;
    Pow256Values();
    var b := HeaderBytes(h);
    assert b[0..8] == LittleEndian(8, h.signature);
    FieldOf(b, 0, 8, h.signature);
    assert b[8..16] == LittleEndian(8, h.payloadSize);
    FieldOf(b, 8, 8, h.payloadSize);
    assert b[17..21] == LittleEndian(4, h.command);
    FieldOf(b, 17, 4, h.command);
    assert b[21..25] == LittleEndian(4, ToUnsigned(4, h.returnCode));
    FieldOf(b, 21, 4, ToUnsigned(4, h.returnCode));
    TwosComplement(4, h.returnCode);
    assert b[25..29] == LittleEndian(4, h.flags);
    FieldOf(b, 25, 4, h.flags);
    assert b[29..33] == LittleEndian(4, h.protocolVersion);
    FieldOf(b, 29, 4, h.protocolVersion);
  }

  /** Any header survives encoding and decoding, or is refused for the first reason that applies. */
  lemma HeaderRoundTrip(h: Header)
    requires Typed(h)
    ensures ParseHeader(HeaderBytes(h)) ==
            if h.signature != SIGNATURE then Err(BadSignature)
            else if h.payloadSize > MAX_PAYLOAD then Err(PayloadTooBig)
            else Ok(h)
  {
    FieldsRoundTrip(h);
  }

  lemma {:induction false} FieldBytes(buf: seq<Byte>, off: nat, w: nat)
    requires off + w <= |buf|
    ensures LittleEndian(w, Field(buf, off, w)) == buf[off..off + w]
  {
    FromLittleEndianRoundTrip(buf[off..off + w]);
  }

  lemma SignedFieldBytes(u: nat)
    requires u < Pow256(4)
    ensures ToUnsigned(4, ToSigned(4, u)) == u
  {
    if 2 * u < Pow256(4) {
      RemainderUnique(u, Pow256(4), 0, u);
    } else {
      RemainderUnique(u - Pow256(4), Pow256(4), -1, u);
    }
  }

  /** The bytes of the fields of buf, its flag byte replaced. */
  function WithFlag(buf: seq<Byte>, flag: Byte): seq<Byte>
    requires |buf| == HEADER_SIZE
  {
    buf[0..8] + buf[8..16] + [flag] + buf[17..21] + buf[21..25] + buf[25..29] + buf[29..33]
  }

  lemma WithFlagIs(buf: seq<Byte>, flag: Byte)
    requires |buf| == HEADER_SIZE
    ensures WithFlag(buf, flag) == buf[16 := flag]
  {
  }

  lemma BytesOfFields(buf: seq<Byte>)
    requires |buf| == HEADER_SIZE
    ensures Typed(FieldsOf(buf))
    ensures HeaderBytes(FieldsOf(buf)) == WithFlag(buf, if buf[16] == 1 then 1 else 0)
  {
    hide LittleEndian, FromLittleEndian, Field, Pow256;
    Pow256Values();
    FieldBytes(buf, 0, 8);
    FieldBytes(buf, 8, 8);
    FieldBytes(buf, 17, 4);
    FieldBytes(buf, 21, 4);
    SignedFieldBytes(Field(buf, 21, 4));
    FieldBytes(buf, 25, 4);
    FieldBytes(buf, 29, 4);
  }

  /** Re-encoding a decoded header gives back the same bytes exactly when the flag byte was 0 or 1. */
  lemma HeaderReencode(buf: seq<Byte>)
    requires |buf| == HEADER_SIZE
    ensures Typed(FieldsOf(buf))
    ensures HeaderBytes(FieldsOf(buf)) == buf <==> buf[16] in {0, 1}
  {
    BytesOfFields(buf);
    var flag: Byte := if buf[16] == 1 then 1 else 0;
    WithFlagIs(buf, flag);
    assert buf[16 := flag][16] == flag;
    assert flag == buf[16] ==> buf[16 := flag] == buf;
  }

  // ---------- the source's form: writes into a 33-byte array ----------

  /** binary.LittleEndian.PutUint16/32/64 on buf[off:off+w]. */
  method PutUint(buf: array<Byte>, off: nat, w: nat, v: nat)
    requires off + w <= buf.Length
    modifies buf
    ensures buf[..] == old(buf[..off]) + LittleEndian(w, v) + old(buf[off + w..])
  {
    ghost var before := buf[..];
    var left := v;
    ghost var done: seq<Byte> := [];
    for i := 0 to w
      invariant |done| == i && done + LittleEndian(w - i, left) == LittleEndian(w, v)
      invariant forall j | 0 <= j < buf.Length :: buf[j] == if off <= j < off + i then done[j - off] else before[j]
    {
      ghost var rest := LittleEndian(w - i - 1, left / 256);
      assert done + ([left % 256] + rest) == done + [left % 256] + rest;
      buf[off + i] := left % 256;
      done := done + [left % 256];
      left := left / 256;
    }
    assert done == LittleEndian(w, v);
    assert buf[..] == before[..off] + done + before[off + w..];
  }

  method EncodeHeader(h: Header) returns (buf: array<Byte>)
    ensures fresh(buf) && buf[..] == HeaderBytes(h)
  {
    buf := new Byte[HEADER_SIZE](_ => 0);
    PutUint(buf, 0, 8, h.signature);
    ghost var s1 := LittleEndian(8, h.signature);
    assert buf[..8] == s1;
    PutUint(buf, 8, 8, h.payloadSize);
    ghost var s2 := s1 + LittleEndian(8, h.payloadSize);
    assert buf[..16] == s2;
    if h.expectResponse {
      buf[16] := 1;
    } else {
      buf[16] := 0;
    }
    ghost var s3 := s2 + [if h.expectResponse then 1 else 0];
    assert buf[..17] == s3;
    PutUint(buf, 17, 4, h.command);
    ghost var s4 := s3 + LittleEndian(4, h.command);
    assert buf[..21] == s4;
    PutUint(buf, 21, 4, ToUnsigned(4, h.returnCode));
    ghost var s5 := s4 + LittleEndian(4, ToUnsigned(4, h.returnCode));
    assert buf[..25] == s5;
    PutUint(buf, 25, 4, h.flags);
    ghost var s6 := s5 + LittleEndian(4, h.flags);
    assert buf[..29] == s6;
    PutUint(buf, 29, 4, h.protocolVersion);
    assert buf[..] == s6 + LittleEndian(4, h.protocolVersion);
  }
}
