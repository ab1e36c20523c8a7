/**
 The builder and the reader as go/ueps runs them: the builder appends to one buffer, the reader
 consumes a stream in a loop.  Each is proved equal to its function in module Ueps.
 */
module UepsCode {
  import opened Bytes
  import opened Ueps
  import opened UepsReader

  method WriteTlv(buf: seq<Byte>, tag: Byte, value: seq<Byte>) returns (r: Result<seq<Byte>, Error>)
    ensures |value| > MAX_VALUE ==> r == Err(ValueTooLarge)
    ensures |value| <= MAX_VALUE ==> r == Ok(buf + TlvBytes(Tlv(tag, value)))
  {
    if |value| > MAX_VALUE {
      return Err(ValueTooLarge);
    }
    var out := buf + [tag];
    var lenBuf := BigEndian16(|value|);
    out := out + lenBuf;
    out := out + value;
    assert out == buf + TlvBytes(Tlv(tag, value));
    r := Ok(out);
  }

  /** The five header TLVs, in order. */
  method WriteHeader(h: Header) returns (buf: seq<Byte>)
    requires h.threatScore <= MAX_VALUE
    ensures buf == TlvsBytes(HeaderTlvs(h))
  {
    ghost var ts := HeaderTlvs(h);
    var w := WriteTlv([], TAG_VERSION, [h.version]);
    HeadAppends(ts, 0, w.value);
    w := WriteTlv(w.value, TAG_CURRENT_LAYER, [h.currentLayer]);
    HeadAppends(ts, 1, w.value);
    w := WriteTlv(w.value, TAG_TARGET_LAYER, [h.targetLayer]);
    HeadAppends(ts, 2, w.value);
    w := WriteTlv(w.value, TAG_INTENT, [h.intentID]);
    HeadAppends(ts, 3, w.value);
    var tsBuf := BigEndian16(h.threatScore);
    w := WriteTlv(w.value, TAG_THREAT_SCORE, tsBuf);
    HeadAppends(ts, 4, w.value);
    assert ts[..5] == ts;
    buf := w.value;
  }

  lemma HeadAppends(ts: seq<Tlv>, i: nat, buf: seq<Byte>)
    requires Fit(ts) && i < |ts| && buf == TlvsBytes(ts[..i]) + TlvBytes(ts[i])
    ensures buf == TlvsBytes(ts[..i + 1])
  {
    assert ts[..i + 1] == ts[..i] + [ts[i]];
    TlvsBytesConcat(ts[..i], [ts[i]]);
    assert TlvsBytes([ts[i]]) == TlvBytes(ts[i]) + [] == TlvBytes(ts[i]);
  }

  method MarshalAndSign(c: Crypto, p: Packet, secret: seq<Byte>) returns (r: Result<seq<Byte>, Error>)
    requires p.header.threatScore <= MAX_VALUE
    ensures r == Marshal(c, p, secret)
  {
    var buf := WriteHeader(p.header);
    var macKey := c.derive(secret);
    if macKey.None? {
      return Err(KeyDerivation);
    }
    var signature := c.mac(macKey.value, buf + p.payload);
    var w := WriteTlv(buf, TAG_HMAC, signature);
    ghost var hmac := Tlv(TAG_HMAC, signature);
    TlvsBytesConcat(HeaderTlvs(p.header), [hmac]);
    assert TlvsBytes([hmac]) == TlvBytes(hmac) + [] == TlvBytes(hmac);
    r := WriteTlv(w.value, TAG_PAYLOAD, p.payload);
  }

  /** The buffered reader: the bytes not yet consumed. */
  class Stream {
    var left: seq<Byte>

    constructor (bytes: seq<Byte>)
      ensures left == bytes
    {
      left := bytes;
    }

    /** ReadByte and io.ReadFull: exactly n bytes, or the end of the stream. */
    method ReadFull(n: nat) returns (r: Result<seq<Byte>, Error>)
      modifies this
      ensures |old(left)| < n ==> r == Err(EndOfStream) && left == []
      ensures |old(left)| >= n ==> r == Ok(old(left)[..n]) && left == old(left)[n..]
    {
      if |left| < n {
        left := [];
        return Err(EndOfStream);
      }
      r := Ok(left[..n]);
      left := left[n..];
    }

    method NextTlv() returns (r: Result<Tlv, Error>)
      modifies this
      ensures ReadTlv(old(left)).Err? ==> r == Err(ReadTlv(old(left)).error) && left == []
      ensures ReadTlv(old(left)).Ok? ==> r == Ok(ReadTlv(old(left)).value.value)
      ensures ReadTlv(old(left)).Ok? ==> left == ReadTlv(old(left)).value.rest
    {
      hide FromBigEndian16;
      ghost var start := left;
      var tag := ReadFull(1);
      if tag.Err? {
        return Err(tag.error);
      }
      var lenBuf := ReadFull(2);
      if lenBuf.Err? {
        return Err(lenBuf.error);
      }
      assert lenBuf.value == start[1..3];
      var length := FromBigEndian16(lenBuf.value);
      assert left == start[3..];
      var value := ReadFull(length);
      if value.Err? {
        return Err(value.error);
      }
      assert value.value == start[3..3 + length] && left == start[3 + length..];
      r := Ok(Tlv(tag.value[0], value.value));
    }

    /** What is consumed depends on the TLVs alone, not on whether the packet verifies. */
    method ReadAndVerify(c: Crypto, secret: seq<Byte>) returns (r: Result<Packet, Error>)
      modifies this
      ensures var s := Ueps.ReadAndVerify(c, old(left), secret);
              if s.Err? then r == Err(s.error) else r == Ok(s.value.value) && left == s.value.rest
      ensures left == Unread(old(left), LOOP_START)
    {
      ghost var start := left;
      var l, payload: seq<Byte> := LOOP_START, [];
      while true
        invariant ReadLoop(start, LOOP_START) == ReadLoop(left, l)
        invariant Unread(start, LOOP_START) == Unread(left, l)
        decreases |left|
      {
        var tlv := NextTlv();
        if tlv.Err? {
          return Err(tlv.error);
        }
        var t := tlv.value;
        if t.tag == TAG_PAYLOAD {
          payload := t.value;
          break;
        }
        if t.tag == TAG_HMAC {
          l := l.(signature := t.value);
        } else {
          if |t.value| < Indexed(t.tag) {
            return Err(IndexPanic);
          }
          l := Loop(SetField(l.header, t), l.signedData + TlvBytes(t), l.signature);
        }
      }
      if |l.signature| == 0 {
        return Err(MissingSignature);
      }
      var macKey := c.derive(secret);
      if macKey.None? {
        return Err(KeyDerivation);
      }
      var expected := c.mac(macKey.value, l.signedData + payload);
      if l.signature != expected {
        return Err(MacMismatch);
      }
      r := Ok(Packet(l.header, payload));
    }
  }
}
