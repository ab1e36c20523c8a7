/** The UEPS reader on every stream: exactly where it stops, and what the signed bytes determine. */
module UepsStreams {
  import opened Bytes
  import opened Ueps
  import opened UepsReader

  // ---------- where the loop stops ----------

  /** A header TLV that is too short for the index expressions of the loop. */
  predicate Short(t: Tlv)
  {
    |t.value| < Indexed(t.tag)
  }

  /** TLVs that the loop gets past. */
  ghost predicate Passed(ts: seq<Tlv>)
  {
    Fit(ts) && NoPayload(ts) && LongEnough(ts)
  }

  ghost predicate PanicsAfter(stream: seq<Byte>, ts: seq<Tlv>, t: Tlv, rest: seq<Byte>)
  {
    Passed(ts) && |t.value| <= MAX_VALUE && Short(t) && stream == TlvsBytes(ts) + (TlvBytes(t) + rest)
  }

  ghost predicate Panics(stream: seq<Byte>)
  {
    exists ts, t, rest :: PanicsAfter(stream, ts, t, rest)
  }

  ghost predicate EndsAfter(stream: seq<Byte>, ts: seq<Tlv>, rest: seq<Byte>)
  {
    Passed(ts) && ReadTlv(rest).Err? && stream == TlvsBytes(ts) + rest
  }

  ghost predicate PayloadAfter(stream: seq<Byte>, ts: seq<Tlv>, payload: seq<Byte>, rest: seq<Byte>)
  {
    Passed(ts) && |payload| <= MAX_VALUE && stream == Frame(ts, payload, rest)
  }

  lemma {:induction false} PassedCons(t: Tlv, ts: seq<Tlv>, end: seq<Byte>)
    requires |t.value| <= MAX_VALUE && t.tag != TAG_PAYLOAD && !Short(t) && Passed(ts)
    ensures Passed([t] + ts) && TlvsBytes([t] + ts) + end == TlvBytes(t) + (TlvsBytes(ts) + end)
  {
    assert ([t] + ts)[1..] == ts;
    Assoc(TlvBytes(t), TlvsBytes(ts), end);
  }

  /** Any stream is TLVs that the loop gets past, and then something it stops at. */
  lemma {:induction false} Split(stream: seq<Byte>) returns (ts: seq<Tlv>, rest: seq<Byte>)
    ensures Passed(ts) && stream == TlvsBytes(ts) + rest
    ensures ReadTlv(rest).Ok? ==> ReadTlv(rest).value.value.tag == TAG_PAYLOAD || Short(ReadTlv(rest).value.value)
    decreases |stream|
  {
    var r := ReadTlv(stream);
    if r.Err? || r.value.value.tag == TAG_PAYLOAD || Short(r.value.value) {
      ts, rest := [], stream;
      assert stream == [] + stream;
    } else {
      TlvDecompose(stream);
      var ts';
      ts', rest := Split(r.value.rest);
      PassedCons(r.value.value, ts', rest);
      ts := [r.value.value] + ts';
    }
  }

  /** Getting past ts leaves the loop at the bytes after it. */
  lemma {:induction false} LoopPasses(done: seq<Tlv>, ts: seq<Tlv>, end: seq<Byte>)
    requires Fit(done) && Passed(ts)
    ensures Fit(done + ts) && Unread(TlvsBytes(ts) + end, Meaning(done)) == Unread(end, Meaning(done + ts))
    decreases |ts|
  {
    if ts == [] {
      assert TlvsBytes(ts) + end == end && done + ts == done;
    } else {
      var t, rest := ts[0], TlvsBytes(ts[1..]) + end;
      Assoc(TlvBytes(t), TlvsBytes(ts[1..]), end);
      TlvRoundTrip(t, rest);
      MeaningStep(done, t);
      LoopPasses(done + [t], ts[1..], end);
      ShiftHead(done, ts);
    }
  }

  lemma {:induction false} AfterPassed(ts: seq<Tlv>, end: seq<Byte>)
    requires Passed(ts)
    ensures ReadLoop(TlvsBytes(ts) + end, LOOP_START) == ReadLoop(end, Meaning(ts))
    ensures Unread(TlvsBytes(ts) + end, LOOP_START) == Unread(end, Meaning(ts))
  {
    MeaningOfNone();
    LoopReads([], ts, end);
    LoopPasses([], ts, end);
    assert [] + ts == ts;
  }

  lemma {:induction false} PanicIsReached(stream: seq<Byte>, ts: seq<Tlv>, t: Tlv, rest: seq<Byte>)
    requires PanicsAfter(stream, ts, t, rest)
    ensures ReadLoop(stream, LOOP_START) == Err(IndexPanic) && Unread(stream, LOOP_START) == rest
  {
    AfterPassed(ts, TlvBytes(t) + rest);
    TlvRoundTrip(t, rest);
  }

  lemma {:induction false} EndIsReached(stream: seq<Byte>, ts: seq<Tlv>, rest: seq<Byte>)
    requires EndsAfter(stream, ts, rest)
    ensures ReadLoop(stream, LOOP_START) == Err(EndOfStream) && Unread(stream, LOOP_START) == []
  {
    AfterPassed(ts, rest);
  }

  lemma {:induction false} PayloadIsReached(stream: seq<Byte>, ts: seq<Tlv>, payload: seq<Byte>, rest: seq<Byte>)
    requires PayloadAfter(stream, ts, payload, rest)
    ensures ReadLoop(stream, LOOP_START) == Ok(Read((Meaning(ts), payload), rest)) && Unread(stream, LOOP_START) == rest
  {
    AfterPassed(ts, TlvBytes(Tlv(TAG_PAYLOAD, payload)) + rest);
    TlvRoundTrip(Tlv(TAG_PAYLOAD, payload), rest);
  }

  /** Every stream takes exactly one of the three ways; here is the one it takes. */
  lemma StopOf(stream: seq<Byte>) returns (ts: seq<Tlv>, t: Tlv, rest: seq<Byte>)
    ensures EndsAfter(stream, ts, rest)
         || PanicsAfter(stream, ts, t, rest)
         || (t.tag == TAG_PAYLOAD && PayloadAfter(stream, ts, t.value, rest))
  {
    ts, rest := Split(stream);
    t := Tlv(TAG_PAYLOAD, []);
    if ReadTlv(rest).Ok? {
      TlvDecompose(rest);
      t, rest := ReadTlv(rest).value.value, ReadTlv(rest).value.rest;
    }
  }

  /**
   For every stream: the reader panics if and only if the stream starts with complete, long enough, non-payload TLVs
   followed by a header TLV that is too short; what follows that TLV is left unread.
   */
  lemma {:induction false} PanicsExactly(c: Crypto, stream: seq<Byte>, secret: seq<Byte>)
    ensures ReadAndVerify(c, stream, secret) == Err(IndexPanic) <==> Panics(stream)
    ensures forall ts, t, rest | PanicsAfter(stream, ts, t, rest) :: Unread(stream, LOOP_START) == rest
  {
    forall ts, t, rest | PanicsAfter(stream, ts, t, rest)
      ensures ReadLoop(stream, LOOP_START) == Err(IndexPanic) && Unread(stream, LOOP_START) == rest
    {
      PanicIsReached(stream, ts, t, rest);
    }
    Stopped(c, stream, secret);
  }

  /** For every stream: it ends too early if and only if only TLVs that the loop gets past precede an incomplete one. */
  lemma {:induction false} EndsExactly(c: Crypto, stream: seq<Byte>, secret: seq<Byte>)
    ensures ReadAndVerify(c, stream, secret) == Err(EndOfStream) <==> exists ts, rest :: EndsAfter(stream, ts, rest)
    ensures ReadAndVerify(c, stream, secret) == Err(EndOfStream) ==> Unread(stream, LOOP_START) == []
  {
    forall ts, rest | EndsAfter(stream, ts, rest)
      ensures ReadLoop(stream, LOOP_START) == Err(EndOfStream) && Unread(stream, LOOP_START) == []
    {
      EndIsReached(stream, ts, rest);
    }
    Stopped(c, stream, secret);
  }

  lemma Stopped(c: Crypto, stream: seq<Byte>, secret: seq<Byte>)
    ensures ReadAndVerify(c, stream, secret) == Err(IndexPanic) ==> Panics(stream)
    ensures ReadAndVerify(c, stream, secret) == Err(EndOfStream) ==> exists ts, rest :: EndsAfter(stream, ts, rest)
  {
    var ts, t, rest := StopOf(stream);
    if EndsAfter(stream, ts, rest) {
      EndIsReached(stream, ts, rest);
    } else if PanicsAfter(stream, ts, t, rest) {
      PanicIsReached(stream, ts, t, rest);
    } else {
      PayloadIsReached(stream, ts, t.value, rest);
    }
  }

  // ---------- what the signed bytes determine ----------

  ghost function SignedBytes(ts: seq<Tlv>, payload: seq<Byte>): seq<Byte>
    requires Fit(ts)
  {
    SignedFit(ts);
    TlvsBytes(SignedTlvs(ts)) + payload
  }

  lemma {:induction false} LastValueSigned(ts: seq<Tlv>, tag: Byte)
    requires tag != TAG_HMAC
    ensures LastValue(SignedTlvs(ts), tag) == LastValue(ts, tag)
  {
    if ts != [] {
      LastValueSigned(ts[1..], tag);
      assert ts == [ts[0]] + ts[1..];
      LastValueConcat([ts[0]], ts[1..], tag);
      if ts[0].tag != TAG_HMAC {
        LastValueConcat([ts[0]], SignedTlvs(ts[1..]), tag);
      }
    }
  }

  lemma {:induction false} HeaderOfSigned(ts: seq<Tlv>)
    ensures HeaderOf(SignedTlvs(ts)) == HeaderOf(ts)
  {
    LastValueSigned(ts, TAG_VERSION);
    LastValueSigned(ts, TAG_CURRENT_LAYER);
    LastValueSigned(ts, TAG_TARGET_LAYER);
    LastValueSigned(ts, TAG_INTENT);
    LastValueSigned(ts, TAG_THREAT_SCORE);
  }

  /** A list of TLVs is determined by its bytes. */
  lemma {:induction false} TlvsInjective(a: seq<Tlv>, b: seq<Tlv>)
    requires Fit(a) && Fit(b) && TlvsBytes(a) == TlvsBytes(b)
    ensures a == b
  {
    if a != [] && b != [] {
      TlvRoundTrip(a[0], TlvsBytes(a[1..]));
      TlvRoundTrip(b[0], TlvsBytes(b[1..]));
      TlvsInjective(a[1..], b[1..]);
      assert a == [a[0]] + a[1..] && b == [b[0]] + b[1..];
    }
  }

  lemma SameTail(x: seq<Byte>, p: seq<Byte>, y: seq<Byte>, q: seq<Byte>)
    requires x + p == y + q && |p| == |q|
    ensures x == y && p == q
  {
    assert x == (x + p)[..|x|] && y == (y + q)[..|y|];
    assert p == (x + p)[|x|..] && q == (y + q)[|y|..];
  }

  /** Two frames with the same signed bytes carry the same packet if and only if their payloads are equally long. */
  lemma SignedBytesFixPacketExactly(ts: seq<Tlv>, payload: seq<Byte>, ts2: seq<Tlv>, payload2: seq<Byte>)
    requires Fit(ts) && Fit(ts2) && SignedBytes(ts, payload) == SignedBytes(ts2, payload2)
    ensures Packet(HeaderOf(ts), payload) == Packet(HeaderOf(ts2), payload2) <==> |payload| == |payload2|
  {
    SignedFit(ts);
    SignedFit(ts2);
    if |payload| == |payload2| {
      SameTail(TlvsBytes(SignedTlvs(ts)), payload, TlvsBytes(SignedTlvs(ts2)), payload2);
      TlvsInjective(SignedTlvs(ts), SignedTlvs(ts2));
      HeaderOfSigned(ts);
      HeaderOfSigned(ts2);
    }
  }

  /**
   The length of the payload is not signed, so the lengths can differ: a payload that starts with the bytes of a
   threat-score TLV has the same signed bytes as the shorter payload after that TLV, and another header.
   */
  lemma PayloadBoundaryIsNotSigned(h: Header, score: nat, rest: seq<Byte>)
    requires h.threatScore <= MAX_VALUE && score <= MAX_VALUE && score != h.threatScore
    ensures var ts, t := HeaderTlvs(h), Tlv(TAG_THREAT_SCORE, BigEndian16(score));
            && Fit(ts + [t]) && SignedBytes(ts, TlvBytes(t) + rest) == SignedBytes(ts + [t], rest)
            && HeaderOf(ts) == h && HeaderOf(ts + [t]) == h.(threatScore := score)
  {
    var ts, t := HeaderTlvs(h), Tlv(TAG_THREAT_SCORE, BigEndian16(score));
    HeaderTlvsMean(h);
    HeaderSnoc(ts, t);
    SignedConcat(ts, [t]);
    assert SignedTlvs([t]) == [t];
    TlvsBytesConcat(ts, [t]);
    assert TlvsBytes([t]) == TlvBytes(t) + [] == TlvBytes(t);
    Assoc(TlvsBytes(ts), TlvBytes(t), rest);
  }

  /**
   The reader judges a frame by its signed bytes and its signature alone: of two frames that the loop gets through and
   that agree in both, either both are accepted, each as the packet its own TLVs say, or both are refused alike.
   */
  lemma SameSignedBytesSameVerdict(c: Crypto, ts: seq<Tlv>, payload: seq<Byte>, ts2: seq<Tlv>, payload2: seq<Byte>,
                                   tail: seq<Byte>, secret: seq<Byte>)
    requires Passed(ts) && Passed(ts2) && |payload| <= MAX_VALUE && |payload2| <= MAX_VALUE
    requires SignedBytes(ts, payload) == SignedBytes(ts2, payload2) && SignatureOf(ts) == SignatureOf(ts2)
    ensures var r := ReadAndVerify(c, Frame(ts, payload, tail), secret);
            var r2 := ReadAndVerify(c, Frame(ts2, payload2, tail), secret);
            if r.Err? then r2 == r
            else && r == Ok(Read(Packet(HeaderOf(ts), payload), tail))
                 && r2 == Ok(Read(Packet(HeaderOf(ts2), payload2), tail))
  {
    ReaderMeaning(c, ts, payload, tail, secret);
    ReaderMeaning(c, ts2, payload2, tail, secret);
  }
}
