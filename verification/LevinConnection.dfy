/** Framed Levin packets on a connection, one reader and any number of writers (go/node/levin/connection.go). */
module LevinConnection {
  import opened Bytes
  import opened LevinHeader

  const FLAG_REQUEST: nat := 1
  const FLAG_RESPONSE: nat := 2
  const PROTOCOL_VERSION: nat := 1
  const RETURN_OK: int := 0

  datatype Packet = Packet(header: Header, payload: seq<Byte>)

  datatype ReadError = EndOfStream | BadHeader(reason: HeaderError)

  /** What ReadPacket returns, and the bytes it leaves unread. */
  datatype ReadOutcome = ReadOutcome(result: Result<Packet, ReadError>, rest: seq<Byte>)

  function Request(cmd: nat, payload: seq<Byte>, expectResponse: bool): Packet
  {
    Packet(Header(SIGNATURE, |payload|, expectResponse, cmd, RETURN_OK, FLAG_REQUEST, PROTOCOL_VERSION), payload)
  }

  function Response(cmd: nat, payload: seq<Byte>, returnCode: int): Packet
  {
    Packet(Header(SIGNATURE, |payload|, false, cmd, returnCode, FLAG_RESPONSE, PROTOCOL_VERSION), payload)
  }

  /** A packet the two writers build whose payload is within the package's and the reader's size limits. */
  predicate Sendable(p: Packet, limit: nat)
  {
    && Typed(p.header) && p.header.signature == SIGNATURE && p.header.payloadSize == |p.payload|
    && |p.payload| <= MAX_PAYLOAD && |p.payload| <= limit
  }

  /** Every packet of WritePacket and WriteResponse is sendable, given only Go's types and the limits. */
  lemma WritersBuildSendable(cmd: nat, payload: seq<Byte>, expectResponse: bool, returnCode: int, limit: nat)
    requires cmd < TWO32 && SignedRange(4, returnCode) && |payload| <= MAX_PAYLOAD && |payload| <= limit
    ensures Sendable(Request(cmd, payload, expectResponse), limit)
    ensures Sendable(Response(cmd, payload, returnCode), limit)
  {
    Pow256Values();
  }

  function FrameBytes(p: Packet): seq<Byte>
  {
    HeaderBytes(p.header) + p.payload
  }

  function ReadFrame(stream: seq<Byte>, limit: nat): (o: ReadOutcome)
    ensures o.result.Ok? ==> |o.rest| < |stream|
  {
    if |stream| < HEADER_SIZE then ReadOutcome(Err(EndOfStream), [])
    else
      var h, rest := ParseHeader(stream[..HEADER_SIZE]), stream[HEADER_SIZE..];
      if h.Err? then ReadOutcome(Err(BadHeader(h.error)), rest)
      else if h.value.payloadSize > limit then ReadOutcome(Err(BadHeader(PayloadTooBig)), rest)
      else if |rest| < h.value.payloadSize then ReadOutcome(Err(EndOfStream), [])
      else ReadOutcome(Ok(Packet(h.value, rest[..h.value.payloadSize])), rest[h.value.payloadSize..])
  }

  /** Reading until something goes wrong: the packets, and what stopped it. */
  function ReadAll(stream: seq<Byte>, limit: nat): (seq<Packet>, ReadError)
    decreases |stream|
  {
    var o := ReadFrame(stream, limit);
    match o.result
    case Err(e) => ([], e)
    case Ok(p) =>
      var (ps, e) := ReadAll(o.rest, limit);
      ([p] + ps, e)
  }

  function Frames(ps: seq<Packet>): seq<Byte>
  {
    if ps == [] then [] else FrameBytes(ps[0]) + Frames(ps[1..])
  }

  /** A sent frame reads back whole, whatever follows it. */
  lemma FrameRoundTrip(p: Packet, t: seq<Byte>, limit: nat)
    requires Sendable(p, limit)
    ensures ReadFrame(FrameBytes(p) + t, limit) == ReadOutcome(Ok(p), t)
  {
    hide HeaderBytes, ParseHeader;
    var stream := FrameBytes(p) + t;
    assert stream[..HEADER_SIZE] == HeaderBytes(p.header);
    HeaderRoundTrip(p.header);
    assert stream[HEADER_SIZE..] == p.payload + t;
  }

  /** The stream starts with a header that the reader takes, and all of its payload is there. */
  predicate FrameAhead(stream: seq<Byte>, limit: nat)
  {
    && |stream| >= HEADER_SIZE && Field(stream, 0, 8) == SIGNATURE
    && Field(stream, 8, 8) <= MAX_PAYLOAD && Field(stream, 8, 8) <= limit
    && HEADER_SIZE + Field(stream, 8, 8) <= |stream|
  }

  /** For any stream, what is read and what is left: one frame, or no more than a refused header, or all of it. */
  lemma ReadsExactly(stream: seq<Byte>, limit: nat)
    ensures var o := ReadFrame(stream, limit);
            && (o.result.Ok? <==> FrameAhead(stream, limit))
            && (o.result.Ok? ==> stream == stream[..HEADER_SIZE] + o.result.value.payload + o.rest
                                 && |o.result.value.payload| == Field(stream, 8, 8))
            && (o.result.Err? && o.result.error.BadHeader? ==>
                  |stream| >= HEADER_SIZE && o.rest == stream[HEADER_SIZE..])
            && (o.result == Err(EndOfStream) ==> o.rest == [])
  {
    hide FromLittleEndian;
    if |stream| >= HEADER_SIZE {
      var head := stream[..HEADER_SIZE];
      assert head[0..8] == stream[0..8] && head[8..16] == stream[8..16];
      assert Field(head, 0, 8) == Field(stream, 0, 8) && Field(head, 8, 8) == Field(stream, 8, 8);
    }
  }

  /** What the peer learns from one call of WriteResponse. */
  lemma ReaderGetsResponse(cmd: nat, payload: seq<Byte>, returnCode: int, t: seq<Byte>, limit: nat)
    requires cmd < TWO32 && SignedRange(4, returnCode) && |payload| <= MAX_PAYLOAD && |payload| <= limit
    ensures var o := ReadFrame(FrameBytes(Response(cmd, payload, returnCode)) + t, limit);
            && o.result.Ok? && o.rest == t && o.result.value.payload == payload
            && o.result.value.header.command == cmd && o.result.value.header.returnCode == returnCode
            && !o.result.value.header.expectResponse && o.result.value.header.flags == FLAG_RESPONSE
  {
    WritersBuildSendable(cmd, payload, false, returnCode, limit);
    FrameRoundTrip(Response(cmd, payload, returnCode), t, limit);
  }

  /** And from one call of WritePacket. */
  lemma ReaderGetsRequest(cmd: nat, payload: seq<Byte>, expectResponse: bool, t: seq<Byte>, limit: nat)
    requires cmd < TWO32 && |payload| <= MAX_PAYLOAD && |payload| <= limit
    ensures var o := ReadFrame(FrameBytes(Request(cmd, payload, expectResponse)) + t, limit);
            && o.result.Ok? && o.rest == t && o.result.value.payload == payload
            && o.result.value.header.command == cmd && o.result.value.header.expectResponse == expectResponse
            && o.result.value.header.returnCode == RETURN_OK && o.result.value.header.flags == FLAG_REQUEST
  {
    Pow256Values();
    WritersBuildSendable(cmd, payload, expectResponse, RETURN_OK, limit);
    FrameRoundTrip(Request(cmd, payload, expectResponse), t, limit);
  }

  /** A frame cut anywhere short of its end only ever reads as the end of the stream. */
  lemma PartialFrame(p: Packet, part: seq<Byte>, limit: nat)
    requires Sendable(p, limit) && part < FrameBytes(p)
    ensures ReadFrame(part, limit).result == Err(EndOfStream)
  {
    if |part| >= HEADER_SIZE {
      assert part[..HEADER_SIZE] == FrameBytes(p)[..HEADER_SIZE] == HeaderBytes(p.header);
      HeaderRoundTrip(p.header);
    }
  }

  lemma {:induction false} ReadAllCons(p: Packet, t: seq<Byte>, limit: nat, ps: seq<Packet>, e: ReadError)
    requires Sendable(p, limit) && ReadAll(t, limit) == (ps, e)
    ensures ReadAll(FrameBytes(p) + t, limit) == ([p] + ps, e)
  {
    FrameRoundTrip(p, t, limit);
  }

  lemma {:induction false} FramesCons(ps: seq<Packet>, part: seq<Byte>)
    requires ps != []
    ensures Frames(ps) + part == FrameBytes(ps[0]) + (Frames(ps[1..]) + part)
  {
  }

  lemma {:induction false} FramesRoundTrip(ps: seq<Packet>, part: seq<Byte>, limit: nat)
    requires forall i | 0 <= i < |ps| :: Sendable(ps[i], limit)
    requires ReadFrame(part, limit).result == Err(EndOfStream)
    ensures ReadAll(Frames(ps) + part, limit) == (ps, EndOfStream)
  {
    if ps == [] {
      assert Frames(ps) + part == part;
    } else {
      FramesRoundTrip(ps[1..], part, limit);
      ReadAllCons(ps[0], Frames(ps[1..]) + part, limit, ps[1..], EndOfStream);
      FramesCons(ps, part);
      assert ps == [ps[0]] + ps[1..];
    }
  }

  /** Whole frames at the front are read first, whatever follows. */
  lemma {:induction false} FramesFirst(ps: seq<Packet>, t: seq<Byte>, limit: nat)
    requires forall i | 0 <= i < |ps| :: Sendable(ps[i], limit)
    ensures ReadAll(Frames(ps) + t, limit) == (ps + ReadAll(t, limit).0, ReadAll(t, limit).1)
  {
    hide ReadAll, FrameBytes, Sendable;
    var qs, e := ReadAll(t, limit).0, ReadAll(t, limit).1;
    if ps == [] {
      assert Frames(ps) + t == t && ps + qs == qs;
    } else {
      FramesFirst(ps[1..], t, limit);
      ReadAllCons(ps[0], Frames(ps[1..]) + t, limit, ps[1..] + qs, e);
      FramesCons(ps, t);
      assert ps + qs == [ps[0]] + (ps[1..] + qs);
    }
  }

  /** A frame cut in its payload is filled up with whatever comes next. */
  lemma ShortFrameTakesMore(p: Packet, n: nat, t: seq<Byte>, limit: nat)
    requires Sendable(p, limit) && n <= |p.payload| <= n + |t|
    ensures var m := |p.payload| - n;
            ReadFrame(FrameBytes(p)[..HEADER_SIZE + n] + t, limit)
            == ReadOutcome(Ok(Packet(p.header, p.payload[..n] + t[..m])), t[m..])
  {
    ShortStream(p, n, t);
    HeaderRoundTrip(p.header);
    hide HeaderBytes, ParseHeader, FrameBytes;
    var rest := p.payload[..n] + t;
    var stream := HeaderBytes(p.header) + rest;
    assert stream[..HEADER_SIZE] == HeaderBytes(p.header) && stream[HEADER_SIZE..] == rest;
    assert rest[..|p.payload|] == p.payload[..n] + t[..|p.payload| - n];
    assert rest[|p.payload|..] == t[|p.payload| - n..];
  }

  lemma ShortStream(p: Packet, n: nat, t: seq<Byte>)
    requires n <= |p.payload|
    ensures FrameBytes(p)[..HEADER_SIZE + n] + t == HeaderBytes(p.header) + (p.payload[..n] + t)
  {
    hide HeaderBytes;
    assert FrameBytes(p)[..HEADER_SIZE + n] == HeaderBytes(p.header) + p.payload[..n];
    Assoc(HeaderBytes(p.header), p.payload[..n], t);
  }

  lemma {:induction false} FramesSnoc(ps: seq<Packet>, p: Packet)
    ensures Frames(ps + [p]) == Frames(ps) + FrameBytes(p)
  {
    if ps == [] {
      assert ps + [p] == [p] && FrameBytes(p) + [] == FrameBytes(p);
    } else {
      FramesSnoc(ps[1..], p);
      assert (ps + [p])[1..] == ps[1..] + [p];
      Assoc(FrameBytes(ps[0]), Frames(ps[1..]), FrameBytes(p));
    }
  }

  // ---------- the source's object ----------

  /** What one Write does: how many bytes it gets out, and whether it reports an error even with all of them out. */
  datatype Attempt = Attempt(takes: nat, fails: bool)

  /** What the network does to one frame: whether the deadline is set, and the two writes. */
  datatype Net = Net(deadlineSet: bool, header: Attempt, payload: Attempt)

  /** A Write that gets out less than it was given fails. */
  predicate Succeeds(a: Attempt, bytes: nat)
  {
    a.takes >= bytes && !a.fails
  }

  predicate FrameSucceeds(net: Net, payload: seq<Byte>)
  {
    && net.deadlineSet && Succeeds(net.header, HEADER_SIZE)
    && (payload != [] ==> Succeeds(net.payload, |payload|))
  }

  function Least(a: nat, b: nat): nat { if a < b then a else b }

  /** The bytes of the frame that reach the wire. */
  function Taken(net: Net, payload: seq<Byte>): (n: nat)
    ensures n <= HEADER_SIZE + |payload|
  {
    if !net.deadlineSet then 0
    else if !Succeeds(net.header, HEADER_SIZE) then Least(net.header.takes, HEADER_SIZE)
    else HEADER_SIZE + Least(net.payload.takes, |payload|)
  }

  /** The connection: what was written to it, and what has arrived and is not yet read. */
  class Connection {
    const maxPayloadSize: nat
    var written: seq<Byte>
    var incoming: seq<Byte>

    constructor (limit: nat, arriving: seq<Byte>)
      ensures maxPayloadSize == limit && written == [] && incoming == arriving
    {
      maxPayloadSize, written, incoming := limit, [], arriving;
    }

    /** Success puts the whole frame of a request on the wire, failure a prefix of it. */
    method WritePacket(cmd: nat, payload: seq<Byte>, expectResponse: bool, net: Net) returns (ok: bool)
      modifies this`written
      ensures written == old(written) + FrameBytes(Request(cmd, payload, expectResponse))[..Taken(net, payload)]
      ensures ok <==> FrameSucceeds(net, payload)
      ensures ok ==> written == old(written) + FrameBytes(Request(cmd, payload, expectResponse))
    {
      var h := Header(SIGNATURE, |payload|, expectResponse, cmd, RETURN_OK, FLAG_REQUEST, PROTOCOL_VERSION);
      ok := WriteFrame(h, payload, net);
    }

    method WriteResponse(cmd: nat, payload: seq<Byte>, returnCode: int, net: Net) returns (ok: bool)
      modifies this`written
      ensures written == old(written) + FrameBytes(Response(cmd, payload, returnCode))[..Taken(net, payload)]
      ensures ok <==> FrameSucceeds(net, payload)
      ensures ok ==> written == old(written) + FrameBytes(Response(cmd, payload, returnCode))
    {
      var h := Header(SIGNATURE, |payload|, false, cmd, returnCode, FLAG_RESPONSE, PROTOCOL_VERSION);
      ok := WriteFrame(h, payload, net);
    }

    method WriteFrame(h: Header, payload: seq<Byte>, net: Net) returns (ok: bool)
      modifies this`written
      ensures written == old(written) + FrameBytes(Packet(h, payload))[..Taken(net, payload)]
      ensures ok <==> FrameSucceeds(net, payload)
      ensures ok ==> written == old(written) + FrameBytes(Packet(h, payload))
    {
      ghost var before, frame := written, FrameBytes(Packet(h, payload));
      var buf := EncodeHeader(h);
      if !net.deadlineSet {
        return false;
      }
      ok := Write(buf[..], net.header);
      if !ok {
        assert frame[..Least(net.header.takes, HEADER_SIZE)] == buf[..][..Least(net.header.takes, HEADER_SIZE)];
        return;
      }
      if |payload| > 0 {
        ok := Write(payload, net.payload);
        var n := Least(net.payload.takes, |payload|);
        assert frame[..HEADER_SIZE + n] == buf[..] + payload[..n];
        assert written == before + frame[..HEADER_SIZE + n];
      }
      assert |frame| == HEADER_SIZE + |payload| && frame[..|frame|] == frame;
    }

    /** conn.Write. */
    method Write(bytes: seq<Byte>, a: Attempt) returns (ok: bool)
      modifies this`written
      ensures ok <==> Succeeds(a, |bytes|)
      ensures written == old(written) + bytes[..Least(a.takes, |bytes|)]
    {
      ok := a.takes >= |bytes| && !a.fails;
      written := written + bytes[..Least(a.takes, |bytes|)];
    }

    method ReadPacket() returns (r: Result<Packet, ReadError>)
      modifies this`incoming
      ensures ReadOutcome(r, incoming) == ReadFrame(old(incoming), maxPayloadSize)
    {
      if |incoming| < HEADER_SIZE {
        incoming := [];
        return Err(EndOfStream);
      }
      var hdrBuf := incoming[..HEADER_SIZE];
      incoming := incoming[HEADER_SIZE..];
      var header := ParseHeader(hdrBuf);
      if header.Err? {
        return Err(BadHeader(header.error));
      }
      var h := header.value;
      if h.payloadSize > maxPayloadSize {
        return Err(BadHeader(PayloadTooBig));
      }
      if h.payloadSize == 0 {
        return Ok(Packet(h, []));
      }
      if |incoming| < h.payloadSize {
        incoming := [];
        return Err(EndOfStream);
      }
      var payload := incoming[..h.payloadSize];
      incoming := incoming[h.payloadSize..];
      r := Ok(Packet(h, payload));
    }
  }
}
