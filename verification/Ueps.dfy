/** UEPS frames: signed TLV lists (go/ueps/packet.go, go/ueps/reader.go). */
module Ueps {
  import opened Bytes

  const TAG_VERSION: Byte := 0x01
  const TAG_CURRENT_LAYER: Byte := 0x02
  const TAG_TARGET_LAYER: Byte := 0x03
  const TAG_INTENT: Byte := 0x04
  const TAG_THREAT_SCORE: Byte := 0x05
  const TAG_HMAC: Byte := 0x06
  const TAG_PAYLOAD: Byte := 0xFF
  const MAX_VALUE: nat := 65535

  datatype Header = Header(version: Byte, currentLayer: Byte, targetLayer: Byte, intentID: Byte, threatScore: nat)

  datatype Packet = Packet(header: Header, payload: seq<Byte>)

  datatype Tlv = Tlv(tag: Byte, value: seq<Byte>)

  /** IndexPanic is Go's run-time panic on a header value that is too short to index. */
  datatype Error = ValueTooLarge | KeyDerivation | EndOfStream | IndexPanic | MissingSignature | MacMismatch

  type Digest = s: seq<Byte> | |s| == 32 witness seq(32, _ => 0)

  /** HKDF-Expand of the shared secret, and HMAC-SHA256, as given functions. */
  datatype Crypto = Crypto(derive: seq<Byte> -> Option<seq<Byte>>, mac: (seq<Byte>, seq<Byte>) -> Digest)

  // ---------- encoding ----------

  function BigEndian16(n: nat): (s: seq<Byte>)
    requires n <= MAX_VALUE
    ensures |s| == 2 && FromBigEndian16(s) == n
  {
    [n / 256, n % 256]
  }

  function FromBigEndian16(s: seq<Byte>): (n: nat)
    requires |s| >= 2
    ensures n <= MAX_VALUE
  {
    s[0] as nat * 256 + s[1]
  }

  function TlvBytes(t: Tlv): seq<Byte>
    requires |t.value| <= MAX_VALUE
  {
    [t.tag] + BigEndian16(|t.value|) + t.value
  }

  /** Every value fits its two-byte length. */
  ghost predicate Fit(ts: seq<Tlv>)
  {
    forall i | 0 <= i < |ts| :: |ts[i].value| <= MAX_VALUE
  }

  function TlvsBytes(ts: seq<Tlv>): seq<Byte>
    requires Fit(ts)
  {
    if ts == [] then [] else TlvBytes(ts[0]) + TlvsBytes(ts[1..])
  }

  function HeaderTlvs(h: Header): (ts: seq<Tlv>)
    requires h.threatScore <= MAX_VALUE
    ensures Fit(ts)
  {
    [Tlv(TAG_VERSION, [h.version]), Tlv(TAG_CURRENT_LAYER, [h.currentLayer]), Tlv(TAG_TARGET_LAYER, [h.targetLayer]),
     Tlv(TAG_INTENT, [h.intentID]), Tlv(TAG_THREAT_SCORE, BigEndian16(h.threatScore))]
  }

  /** What the signature covers: the header TLVs, then the payload without its tag and length. */
  function Signature(c: Crypto, p: Packet, key: seq<Byte>): (d: Digest)
    requires p.header.threatScore <= MAX_VALUE
  {
    c.mac(key, TlvsBytes(HeaderTlvs(p.header)) + p.payload)
  }

  function FrameTlvs(c: Crypto, p: Packet, key: seq<Byte>): (ts: seq<Tlv>)
    requires p.header.threatScore <= MAX_VALUE
    ensures Fit(ts)
  {
    HeaderTlvs(p.header) + [Tlv(TAG_HMAC, Signature(c, p, key))]
  }

  function Marshal(c: Crypto, p: Packet, secret: seq<Byte>): (r: Result<seq<Byte>, Error>)
    requires p.header.threatScore <= MAX_VALUE
  {
    match c.derive(secret)
    case None => Err(KeyDerivation)
    case Some(key) =>
      if |p.payload| > MAX_VALUE then Err(ValueTooLarge)
      else Ok(TlvsBytes(FrameTlvs(c, p, key)) + TlvBytes(Tlv(TAG_PAYLOAD, p.payload)))
  }

  // ---------- reading ----------

  /** The variables of the TLV loop. */
  datatype Loop = Loop(header: Header, signedData: seq<Byte>, signature: seq<Byte>)

  const LOOP_START := Loop(Header(0, 0, 0, 0, 0), [], [])

  datatype Read<+T> = Read(value: T, rest: seq<Byte>)

  function ReadTlv(stream: seq<Byte>): (r: Result<Read<Tlv>, Error>)
    ensures r.Ok? ==> |r.value.rest| < |stream| && |r.value.value.value| <= MAX_VALUE
  {
    if |stream| < 3 then Err(EndOfStream)
    else
      var length := FromBigEndian16(stream[1..3]);
      if |stream| < 3 + length then Err(EndOfStream)
      else Ok(Read(Tlv(stream[0], stream[3..3 + length]), stream[3 + length..]))
  }

  /** How many bytes of a header value the loop indexes. */
  function Indexed(tag: Byte): nat
  {
    if TAG_VERSION <= tag <= TAG_INTENT then 1 else if tag == TAG_THREAT_SCORE then 2 else 0
  }

  function SetField(h: Header, t: Tlv): Header
    requires |t.value| >= Indexed(t.tag)
  {
    if t.tag == TAG_VERSION then h.(version := t.value[0])
    else if t.tag == TAG_CURRENT_LAYER then h.(currentLayer := t.value[0])
    else if t.tag == TAG_TARGET_LAYER then h.(targetLayer := t.value[0])
    else if t.tag == TAG_INTENT then h.(intentID := t.value[0])
    else if t.tag == TAG_THREAT_SCORE then h.(threatScore := FromBigEndian16(t.value))
    else h
  }

  /** One turn of the loop on a TLV other than the payload. */
  function Absorb(l: Loop, t: Tlv): (r: Result<Loop, Error>)
    requires |t.value| <= MAX_VALUE
  {
    if t.tag == TAG_HMAC then Ok(l.(signature := t.value))
    else if |t.value| < Indexed(t.tag) then Err(IndexPanic)
    else Ok(l.(header := SetField(l.header, t), signedData := l.signedData + TlvBytes(t)))
  }

  function ReadLoop(stream: seq<Byte>, l: Loop): (r: Result<Read<(Loop, seq<Byte>)>, Error>)
    ensures r.Ok? ==> |r.value.rest| < |stream|
    decreases |stream|
  {
    var t :- ReadTlv(stream);
    if t.value.tag == TAG_PAYLOAD then Ok(Read((l, t.value.value), t.rest))
    else
      var l' :- Absorb(l, t.value);
      ReadLoop(t.rest, l')
  }

  /** What the loop leaves unread: nothing once the stream has ended, else what follows the TLV it stopped at. */
  function Unread(stream: seq<Byte>, l: Loop): seq<Byte>
    decreases |stream|
  {
    var t := ReadTlv(stream);
    if t.Err? then []
    else if t.value.value.tag == TAG_PAYLOAD || Absorb(l, t.value.value).Err? then t.value.rest
    else Unread(t.value.rest, Absorb(l, t.value.value).value)
  }

  function Verify(c: Crypto, l: Loop, payload: seq<Byte>, secret: seq<Byte>): (r: Result<Packet, Error>)
  {
    if |l.signature| == 0 then Err(MissingSignature)
    else match c.derive(secret)
      case None => Err(KeyDerivation)
      case Some(key) =>
        if l.signature != c.mac(key, l.signedData + payload) then Err(MacMismatch)
        else Ok(Packet(l.header, payload))
  }

  function ReadAndVerify(c: Crypto, stream: seq<Byte>, secret: seq<Byte>): (r: Result<Read<Packet>, Error>)
    ensures r.Ok? ==> |r.value.rest| < |stream|
  {
    var o :- ReadLoop(stream, LOOP_START);
    var p :- Verify(c, o.value.0, o.value.1, secret);
    Ok(Read(p, o.rest))
  }

  /** n calls on one stream: the packets, or the first error. */
  function ReadMany(c: Crypto, stream: seq<Byte>, secret: seq<Byte>, n: nat): Result<Read<seq<Packet>>, Error>
    decreases n
  {
    if n == 0 then Ok(Read([], stream))
    else
      var p :- ReadAndVerify(c, stream, secret);
      var ps :- ReadMany(c, p.rest, secret, n - 1);
      Ok(Read([p.value] + ps.value, ps.rest))
  }

  // ---------- what a TLV list means, without the loop ----------

  /** The last value with this tag, if any. */
  function LastValue(ts: seq<Tlv>, tag: Byte): (v: Option<seq<Byte>>)
  {
    if ts == [] then None
    else if ts[|ts| - 1].tag == tag then Some(ts[|ts| - 1].value)
    else LastValue(ts[..|ts| - 1], tag)
  }

  /** The TLVs that the signature covers, in order: all but the HMAC ones, unknown tags included. */
  function SignedTlvs(ts: seq<Tlv>): (r: seq<Tlv>)
    ensures forall t | t in r :: t in ts
  {
    if ts == [] then []
    else if ts[0].tag == TAG_HMAC then SignedTlvs(ts[1..])
    else [ts[0]] + SignedTlvs(ts[1..])
  }

  ghost predicate LongEnough(ts: seq<Tlv>)
  {
    forall i | 0 <= i < |ts| :: |ts[i].value| >= Indexed(ts[i].tag)
  }

  function ByteOr0(v: Option<seq<Byte>>): Byte
  {
    if v.Some? && |v.value| > 0 then v.value[0] else 0
  }

  function HeaderOf(ts: seq<Tlv>): Header
  {
    var score := LastValue(ts, TAG_THREAT_SCORE);
    Header(ByteOr0(LastValue(ts, TAG_VERSION)), ByteOr0(LastValue(ts, TAG_CURRENT_LAYER)),
           ByteOr0(LastValue(ts, TAG_TARGET_LAYER)), ByteOr0(LastValue(ts, TAG_INTENT)),
           if score.Some? && |score.value| >= 2 then FromBigEndian16(score.value) else 0)
  }

  function SignatureOf(ts: seq<Tlv>): seq<Byte>
  {
    var v := LastValue(ts, TAG_HMAC);
    if v.Some? then v.value else []
  }

  ghost predicate NoPayload(ts: seq<Tlv>)
  {
    forall i | 0 <= i < |ts| :: ts[i].tag != TAG_PAYLOAD
  }

  lemma {:induction false} SignedFit(ts: seq<Tlv>)
    requires Fit(ts)
    ensures Fit(SignedTlvs(ts))
  {
    forall i | 0 <= i < |SignedTlvs(ts)| ensures |SignedTlvs(ts)[i].value| <= MAX_VALUE {
      assert SignedTlvs(ts)[i] in ts;
    }
  }

  /** The loop variables after the list ts. */
  ghost function Meaning(ts: seq<Tlv>): Loop
    requires Fit(ts)
  {
    SignedFit(ts);
    Loop(HeaderOf(ts), TlvsBytes(SignedTlvs(ts)), SignatureOf(ts))
  }
}
