/** What the UEPS reader accepts, and that it reads back what the builder signs. */
module UepsReader {
  import opened Bytes
  import opened Ueps

  // ---------- the loop computes the meaning of the list ----------

  lemma {:induction false} TlvsBytesConcat(a: seq<Tlv>, b: seq<Tlv>)
    requires Fit(a) && Fit(b)
    ensures Fit(a + b) && TlvsBytes(a + b) == TlvsBytes(a) + TlvsBytes(b)
  {
    if a == [] {
      assert a + b == b;
    } else {
      TlvsBytesConcat(a[1..], b);
      assert (a + b)[1..] == a[1..] + b;
      Assoc(TlvBytes(a[0]), TlvsBytes(a[1..]), TlvsBytes(b));
    }
  }

  lemma {:induction false} SignedConcat(a: seq<Tlv>, b: seq<Tlv>)
    ensures SignedTlvs(a + b) == SignedTlvs(a) + SignedTlvs(b)
  {
    if a == [] {
      assert a + b == b;
    } else {
      SignedConcat(a[1..], b);
      assert (a + b)[1..] == a[1..] + b;
      Assoc([a[0]], SignedTlvs(a[1..]), SignedTlvs(b));
    }
  }

  lemma MeaningOfNone()
    ensures Fit([]) && Meaning([]) == LOOP_START
  {
  }

  lemma {:induction false} LastValueSnoc(ts: seq<Tlv>, t: Tlv, tag: Byte)
    ensures LastValue(ts + [t], tag) == if t.tag == tag then Some(t.value) else LastValue(ts, tag)
  {
    assert (ts + [t])[..|ts + [t]| - 1] == ts;
  }

  lemma HeaderSnoc(ts: seq<Tlv>, t: Tlv)
    requires |t.value| >= Indexed(t.tag)
    ensures HeaderOf(ts + [t]) == SetField(HeaderOf(ts), t)
    ensures SignatureOf(ts + [t]) == if t.tag == TAG_HMAC then t.value else SignatureOf(ts)
  {
    LastValueSnoc(ts, t, TAG_VERSION);
    LastValueSnoc(ts, t, TAG_CURRENT_LAYER);
    LastValueSnoc(ts, t, TAG_TARGET_LAYER);
    LastValueSnoc(ts, t, TAG_INTENT);
    LastValueSnoc(ts, t, TAG_THREAT_SCORE);
    LastValueSnoc(ts, t, TAG_HMAC);
  }

  /** One more TLV changes the meaning of a list as one more turn changes the loop variables. */
  lemma MeaningStep(ts: seq<Tlv>, t: Tlv)
    requires Fit(ts) && |t.value| <= MAX_VALUE && |t.value| >= Indexed(t.tag)
    ensures Fit(ts + [t]) && Absorb(Meaning(ts), t) == Ok(Meaning(ts + [t]))
  {
    HeaderSnoc(ts, t);
    SignedFit(ts);
    SignedConcat(ts, [t]);
    if t.tag == TAG_HMAC {
      assert SignedTlvs([t]) == [];
      assert SignedTlvs(ts) + [] == SignedTlvs(ts);
    } else {
      assert SignedTlvs([t]) == [t];
      TlvsBytesConcat(SignedTlvs(ts), [t]);
      assert TlvsBytes([t]) == TlvBytes(t) + [] == TlvBytes(t);
    }
  }

  lemma TlvRoundTrip(t: Tlv, rest: seq<Byte>)
    requires |t.value| <= MAX_VALUE
    ensures ReadTlv(TlvBytes(t) + rest) == Ok(Read(t, rest))
  {
    var stream := TlvBytes(t) + rest;
    assert stream[1..3] == BigEndian16(|t.value|);
    assert stream[3..3 + |t.value|] == t.value;
    assert stream[3 + |t.value|..] == rest;
  }

  lemma {:induction false} LoopStep(l: Loop, t: Tlv, rest: seq<Byte>)
    requires |t.value| <= MAX_VALUE && t.tag != TAG_PAYLOAD
    ensures ReadLoop(TlvBytes(t) + rest, l) ==
            if Absorb(l, t).Err? then Err(Absorb(l, t).error) else ReadLoop(rest, Absorb(l, t).value)
  {
    TlvRoundTrip(t, rest);
  }

  lemma LongEnoughCons(ts: seq<Tlv>)
    requires ts != []
    ensures LongEnough(ts) <==> |ts[0].value| >= Indexed(ts[0].tag) && LongEnough(ts[1..])
  {
    assert ts == [ts[0]] + ts[1..];
  }

  lemma ShiftHead(done: seq<Tlv>, ts: seq<Tlv>)
    requires ts != []
    ensures done + [ts[0]] + ts[1..] == done + ts
  {
  }

  /** Reading the list ts after the list done. */
  lemma {:induction false} LoopReads(done: seq<Tlv>, ts: seq<Tlv>, end: seq<Byte>)
    requires Fit(done) && Fit(ts) && NoPayload(ts)
    ensures Fit(done + ts)
    ensures LongEnough(ts) ==> ReadLoop(TlvsBytes(ts) + end, Meaning(done)) == ReadLoop(end, Meaning(done + ts))
    ensures !LongEnough(ts) ==> ReadLoop(TlvsBytes(ts) + end, Meaning(done)) == Err(IndexPanic)
    decreases |ts|
  {
    if ts == [] {
      assert TlvsBytes(ts) + end == end && done + ts == done;
    } else {
      var t, rest := ts[0], TlvsBytes(ts[1..]) + end;
      assert TlvsBytes(ts) + end == TlvBytes(t) + rest;
      LoopStep(Meaning(done), t, rest);
      LongEnoughCons(ts);
      if |t.value| >= Indexed(t.tag) {
        MeaningStep(done, t);
        LoopReads(done + [t], ts[1..], end);
        ShiftHead(done, ts);
      }
    }
  }

  ghost function Frame(ts: seq<Tlv>, payload: seq<Byte>, tail: seq<Byte>): seq<Byte>
    requires Fit(ts) && |payload| <= MAX_VALUE
  {
    TlvsBytes(ts) + (TlvBytes(Tlv(TAG_PAYLOAD, payload)) + tail)
  }

  /**
   For any TLV list ending in a payload, with anything after it: the signed bytes are the non-HMAC TLVs in
   order and then the payload, each header field is the last one given, and the packet is accepted exactly
   when a non-empty signature (the last one given) equals the MAC of the signed bytes.
   */
  lemma {:induction false} ReaderMeaning(c: Crypto, ts: seq<Tlv>, payload: seq<Byte>, tail: seq<Byte>,
                                         secret: seq<Byte>)
    requires Fit(ts) && NoPayload(ts) && |payload| <= MAX_VALUE
    ensures Fit(SignedTlvs(ts))
    ensures ReadAndVerify(c, Frame(ts, payload, tail), secret) ==
            if !LongEnough(ts) then Err(IndexPanic)
            else if SignatureOf(ts) == [] then Err(MissingSignature)
            else if c.derive(secret).None? then Err(KeyDerivation)
            else if SignatureOf(ts) != c.mac(c.derive(secret).value, TlvsBytes(SignedTlvs(ts)) + payload)
              then Err(MacMismatch)
            else Ok(Read(Packet(HeaderOf(ts), payload), tail))
  {
    SignedFit(ts);
    MeaningOfNone();
    var end := TlvBytes(Tlv(TAG_PAYLOAD, payload)) + tail;
    LoopReads([], ts, end);
    if LongEnough(ts) {
      assert [] + ts == ts;
      TlvRoundTrip(Tlv(TAG_PAYLOAD, payload), tail);
    }
  }

  // ---------- and nothing else is accepted ----------

  lemma TlvDecompose(stream: seq<Byte>)
    requires ReadTlv(stream).Ok?
    ensures var r := ReadTlv(stream).value; stream == TlvBytes(r.value) + r.rest
  {
    var r := ReadTlv(stream).value;
    var n := FromBigEndian16(stream[1..3]);
    assert BigEndian16(n) == stream[1..3];
    assert stream == [stream[0]] + stream[1..3] + stream[3..3 + n] + stream[3 + n..];
  }

  lemma FrameCons(t: Tlv, ts: seq<Tlv>, payload: seq<Byte>, tail: seq<Byte>)
    requires |t.value| <= MAX_VALUE && t.tag != TAG_PAYLOAD && Fit(ts) && NoPayload(ts) && |payload| <= MAX_VALUE
    ensures Fit([t] + ts) && NoPayload([t] + ts)
    ensures Frame([t] + ts, payload, tail) == TlvBytes(t) + Frame(ts, payload, tail)
  {
    assert ([t] + ts)[1..] == ts;
    Assoc(TlvBytes(t), TlvsBytes(ts), TlvBytes(Tlv(TAG_PAYLOAD, payload)) + tail);
  }

  lemma {:induction false} LoopDecompose(stream: seq<Byte>, l: Loop) returns (ts: seq<Tlv>)
    requires ReadLoop(stream, l).Ok?
    ensures var r := ReadLoop(stream, l).value;
            Fit(ts) && NoPayload(ts) && |r.value.1| <= MAX_VALUE && stream == Frame(ts, r.value.1, r.rest)
    decreases |stream|
  {
    TlvDecompose(stream);
    var t := ReadTlv(stream).value;
    if t.value.tag == TAG_PAYLOAD {
      ts := [];
      assert stream == [] + stream;
    } else {
      var rest := LoopDecompose(t.rest, Absorb(l, t.value).value);
      ts := [t.value] + rest;
      var r := ReadLoop(stream, l).value;
      FrameCons(t.value, rest, r.value.1, r.rest);
    }
  }

  /** Whatever bytes are accepted, they are a TLV list ending in the payload, with a signature that covers it. */
  lemma AcceptedIsSigned(c: Crypto, stream: seq<Byte>, secret: seq<Byte>) returns (ts: seq<Tlv>)
    requires ReadAndVerify(c, stream, secret).Ok?
    ensures var r := ReadAndVerify(c, stream, secret).value;
            && Fit(ts) && NoPayload(ts) && LongEnough(ts) && Fit(SignedTlvs(ts)) && |r.value.payload| <= MAX_VALUE
            && stream == Frame(ts, r.value.payload, r.rest)
            && r.value.header == HeaderOf(ts)
            && c.derive(secret).Some?
            && SignatureOf(ts) == c.mac(c.derive(secret).value, TlvsBytes(SignedTlvs(ts)) + r.value.payload)
  {
    ts := LoopDecompose(stream, LOOP_START);
    var r := ReadAndVerify(c, stream, secret).value;
    ReaderMeaning(c, ts, r.value.payload, r.rest, secret);
  }

  // ---------- the place of the HMAC does not matter ----------

  lemma {:induction false} LastValueConcat(a: seq<Tlv>, b: seq<Tlv>, tag: Byte)
    ensures LastValue(a + b, tag) == if LastValue(b, tag).Some? then LastValue(b, tag) else LastValue(a, tag)
    decreases |b|
  {
    if b == [] {
      assert a + b == a;
    } else {
      var n := |b| - 1;
      assert (a + b)[..|a + b| - 1] == a + b[..n];
      LastValueConcat(a, b[..n], tag);
    }
  }

  /** Taking the only HMAC TLV out of a list leaves its header fields and signed bytes as they were. */
  lemma {:induction false} SoleHmac(a: seq<Tlv>, hmac: Tlv, b: seq<Tlv>)
    requires hmac.tag == TAG_HMAC && LastValue(a, TAG_HMAC).None? && LastValue(b, TAG_HMAC).None?
    ensures SignedTlvs(a + [hmac] + b) == SignedTlvs(a + b)
    ensures HeaderOf(a + [hmac] + b) == HeaderOf(a + b)
    ensures SignatureOf(a + [hmac] + b) == hmac.value
  {
    SignedConcat(a + [hmac], b);
    SignedConcat(a, [hmac]);
    SignedConcat(a, b);
    assert SignedTlvs([hmac]) == [] && SignedTlvs(a) + [] == SignedTlvs(a);
    SoleHmacValue(a, hmac, b, TAG_VERSION);
    SoleHmacValue(a, hmac, b, TAG_CURRENT_LAYER);
    SoleHmacValue(a, hmac, b, TAG_TARGET_LAYER);
    SoleHmacValue(a, hmac, b, TAG_INTENT);
    SoleHmacValue(a, hmac, b, TAG_THREAT_SCORE);
    SoleHmacValue(a, hmac, b, TAG_HMAC);
  }

  lemma {:induction false} SoleHmacValue(a: seq<Tlv>, hmac: Tlv, b: seq<Tlv>, tag: Byte)
    requires hmac.tag == TAG_HMAC && LastValue(b, TAG_HMAC).None?
    ensures LastValue(a + [hmac] + b, tag) == if tag == TAG_HMAC then Some(hmac.value) else LastValue(a + b, tag)
  {
    LastValueConcat(a + [hmac], b, tag);
    LastValueSnoc(a, hmac, tag);
    LastValueConcat(a, b, tag);
  }

  /** Moving the only HMAC TLV anywhere before the payload changes nothing the reader returns. */
  lemma {:induction false} HmacMayMove(c: Crypto, a: seq<Tlv>, b: seq<Tlv>, a': seq<Tlv>, b': seq<Tlv>, hmac: Tlv,
                    payload: seq<Byte>, tail: seq<Byte>, secret: seq<Byte>)
    requires Fit(a + [hmac] + b) && NoPayload(a + [hmac] + b) && |payload| <= MAX_VALUE
    requires a + b == a' + b' && hmac.tag == TAG_HMAC
    requires LastValue(a + b, TAG_HMAC).None?
    ensures Fit(a' + [hmac] + b')
    ensures ReadAndVerify(c, Frame(a + [hmac] + b, payload, tail), secret)
         == ReadAndVerify(c, Frame(a' + [hmac] + b', payload, tail), secret)
  {
    LastValueConcat(a, b, TAG_HMAC);
    LastValueConcat(a', b', TAG_HMAC);
    SoleHmac(a, hmac, b);
    SoleHmac(a', hmac, b');
    Regroup(a, hmac, b);
    Regroup(a', hmac, b');
    ReaderMeaning(c, a + [hmac] + b, payload, tail, secret);
    ReaderMeaning(c, a' + [hmac] + b', payload, tail, secret);
  }

  /** The conditions on a list with one more TLV in the middle are the conditions on each part. */
  lemma Regroup(a: seq<Tlv>, t: Tlv, b: seq<Tlv>)
    ensures Fit(a + [t] + b) <==> Fit(a + b) && |t.value| <= MAX_VALUE
    ensures NoPayload(a + [t] + b) <==> NoPayload(a + b) && t.tag != TAG_PAYLOAD
    ensures LongEnough(a + [t] + b) <==> LongEnough(a + b) && |t.value| >= Indexed(t.tag)
  {
    var w, wo := a + [t] + b, a + b;
    assert w[|a|] == t;
    assert forall i | 0 <= i < |wo| :: wo[i] == w[if i < |a| then i else i + 1];
    assert forall i | 0 <= i < |w| && i != |a| :: w[i] == wo[if i < |a| then i else i - 1];
  }

  // ---------- round trip ----------

  lemma {:induction false} NoHmac(ts: seq<Tlv>)
    requires forall i | 0 <= i < |ts| :: ts[i].tag != TAG_HMAC
    ensures SignedTlvs(ts) == ts && LastValue(ts, TAG_HMAC).None?
  {
    if ts != [] {
      NoHmac(ts[1..]);
      assert ts == [ts[0]] + ts[1..];
      LastValueConcat([ts[0]], ts[1..], TAG_HMAC);
    }
  }

  lemma HeaderTlvsMean(h: Header)
    requires h.threatScore <= MAX_VALUE
    ensures var ts := HeaderTlvs(h);
            && HeaderOf(ts) == h && SignedTlvs(ts) == ts
            && LongEnough(ts) && NoPayload(ts) && LastValue(ts, TAG_HMAC).None?
  {
    NoHmac(HeaderTlvs(h));
    HeaderTlvsFold(h);
  }

  /** The five fields are set one by one. */
  lemma HeaderTlvsFold(h: Header)
    requires h.threatScore <= MAX_VALUE
    ensures HeaderOf(HeaderTlvs(h)) == h
  {
    var ts := HeaderTlvs(h);
    HeaderSnoc([], ts[0]);
    HeaderSnoc([ts[0]], ts[1]);
    HeaderSnoc([ts[0], ts[1]], ts[2]);
    HeaderSnoc([ts[0], ts[1], ts[2]], ts[3]);
    HeaderSnoc([ts[0], ts[1], ts[2], ts[3]], ts[4]);
    assert [] + [ts[0]] == [ts[0]] && [ts[0]] + [ts[1]] == [ts[0], ts[1]];
    assert [ts[0], ts[1]] + [ts[2]] == [ts[0], ts[1], ts[2]];
    assert [ts[0], ts[1], ts[2]] + [ts[3]] == [ts[0], ts[1], ts[2], ts[3]];
    assert [ts[0], ts[1], ts[2], ts[3]] + [ts[4]] == ts;
  }

  /** The header TLVs, byte for byte. */
  function HeaderLayout(h: Header): seq<Byte>
    requires h.threatScore <= MAX_VALUE
  {
    [0x01, 0, 1, h.version] + ([0x02, 0, 1, h.currentLayer] + ([0x03, 0, 1, h.targetLayer]
    + ([0x04, 0, 1, h.intentID] + [0x05, 0, 2, h.threatScore / 256, h.threatScore % 256])))
  }

  lemma HeaderIsLaidOut(h: Header)
    requires h.threatScore <= MAX_VALUE
    ensures TlvsBytes(HeaderTlvs(h)) == HeaderLayout(h)
  {
    var ts := HeaderTlvs(h);
    assert TlvsBytes(ts[4..]) == TlvBytes(ts[4]) + [] == [0x05, 0, 2, h.threatScore / 256, h.threatScore % 256];
    OneByteTlv(0x01, h.version);
    OneByteTlv(0x02, h.currentLayer);
    OneByteTlv(0x03, h.targetLayer);
    OneByteTlv(0x04, h.intentID);
    hide TlvBytes, TlvsBytes;
    TlvsCons(ts, 3);
    TlvsCons(ts, 2);
    TlvsCons(ts, 1);
    TlvsCons(ts, 0);
    assert ts[0..] == ts;
  }

  lemma OneByteTlv(tag: Byte, x: Byte)
    ensures TlvBytes(Tlv(tag, [x])) == [tag, 0, 1, x]
  {
  }

  lemma TlvsCons(ts: seq<Tlv>, i: nat)
    requires Fit(ts) && i < |ts|
    ensures Fit(ts[i..]) && Fit(ts[i + 1..]) && TlvsBytes(ts[i..]) == TlvBytes(ts[i]) + TlvsBytes(ts[i + 1..])
  {
    assert ts[i..][1..] == ts[i + 1..];
  }

  /** A signed packet, byte for byte: header TLVs, the MAC of those and the bare payload, and the payload TLV. */
  lemma FrameLayout(c: Crypto, p: Packet, secret: seq<Byte>)
    requires p.header.threatScore <= MAX_VALUE && Marshal(c, p, secret).Ok?
    ensures c.derive(secret).Some? && |p.payload| <= MAX_VALUE
    ensures var head := HeaderLayout(p.header);
            Marshal(c, p, secret).value
            == head + ([0x06, 0, 32] + c.mac(c.derive(secret).value, head + p.payload))
               + ([0xFF, |p.payload| / 256, |p.payload| % 256] + p.payload)
  {
    HeaderIsLaidOut(p.header);
    var hmac := Tlv(TAG_HMAC, Signature(c, p, c.derive(secret).value));
    TlvsBytesConcat(HeaderTlvs(p.header), [hmac]);
    assert TlvsBytes([hmac]) == TlvBytes(hmac) + [] == TlvBytes(hmac);
  }

  /** A signed packet reads back as itself and leaves exactly what followed it. */
  lemma PacketRoundTrip(c: Crypto, p: Packet, secret: seq<Byte>, tail: seq<Byte>)
    requires p.header.threatScore <= MAX_VALUE && Marshal(c, p, secret).Ok?
    ensures ReadAndVerify(c, Marshal(c, p, secret).value + tail, secret) == Ok(Read(p, tail))
  {
    var key := c.derive(secret).value;
    var hs, hmac := HeaderTlvs(p.header), Tlv(TAG_HMAC, Signature(c, p, key));
    HeaderTlvsMean(p.header);
    assert hs + [hmac] + [] == hs + [hmac] && hs + [] == hs;
    SoleHmac(hs, hmac, []);
    Regroup(hs, hmac, []);
    ReaderMeaning(c, hs + [hmac], p.payload, tail, secret);
    var e := TlvBytes(Tlv(TAG_PAYLOAD, p.payload));
    Assoc(TlvsBytes(hs + [hmac]), e, tail);
  }

  ghost function Marshalled(c: Crypto, ps: seq<Packet>, secret: seq<Byte>): seq<Byte>
    requires forall i | 0 <= i < |ps| :: ps[i].header.threatScore <= MAX_VALUE && Marshal(c, ps[i], secret).Ok?
  {
    if ps == [] then [] else Marshal(c, ps[0], secret).value + Marshalled(c, ps[1..], secret)
  }

  lemma {:induction false} ReadManyCons(c: Crypto, ps: seq<Packet>, stream: seq<Byte>, secret: seq<Byte>,
                                        rest: seq<Byte>, tail: seq<Byte>)
    requires ps != [] && ReadAndVerify(c, stream, secret) == Ok(Read(ps[0], rest))
    requires ReadMany(c, rest, secret, |ps[1..]|) == Ok(Read(ps[1..], tail))
    ensures ReadMany(c, stream, secret, |ps|) == Ok(Read(ps, tail))
  {
    assert ps == [ps[0]] + ps[1..];
  }

  /** Any list of packets signed with one secret reads back in order, and the tail stays unread. */
  lemma {:induction false} StreamRoundTrip(c: Crypto, ps: seq<Packet>, secret: seq<Byte>, tail: seq<Byte>)
    requires c.derive(secret).Some?
    requires forall i | 0 <= i < |ps| :: ps[i].header.threatScore <= MAX_VALUE && |ps[i].payload| <= MAX_VALUE
    ensures ReadMany(c, Marshalled(c, ps, secret) + tail, secret, |ps|) == Ok(Read(ps, tail))
  {
    if ps == [] {
      assert Marshalled(c, ps, secret) + tail == tail;
    } else {
      var head, rest := Marshal(c, ps[0], secret).value, Marshalled(c, ps[1..], secret) + tail;
      StreamRoundTrip(c, ps[1..], secret, tail);
      PacketRoundTrip(c, ps[0], secret, rest);
      Assoc(head, Marshalled(c, ps[1..], secret), tail);
      ReadManyCons(c, ps, head + rest, secret, rest, tail);
    }
  }
}
