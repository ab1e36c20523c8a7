/**
 Writers sharing one Levin connection: any number of threads call WritePacket and WriteResponse, the
 write mutex admits one at a time, a write may reach the wire in pieces, and it may fail at any point.  A run is any
 sequence of the steps below.
 */
module LevinWriters {
  import opened Bytes
  import opened LevinHeader
  import opened LevinConnection

  type Tid = nat

  /** Where a thread is in writeFrame: outside the lock, or with some bytes of a Write call still to go. */
  datatype Phase = Idle | InHeader(left: seq<Byte>) | InPayload(left: seq<Byte>)

  /** todo[0] is the packet being written unless the phase is Idle. */
  datatype Thread = Thread(todo: seq<Packet>, phase: Phase)

  datatype Sent = Sent(tid: Tid, packet: Packet)

  /**
   order lists the packets in the order their writers took the lock; cut those that were complete when a frame was
   first left short.
   */
  datatype State = State(
    wire: seq<Byte>, lock: Option<Tid>, threads: map<Tid, Thread>, order: seq<Sent>, cut: Option<seq<Packet>>)

  datatype Step =
    | Lock(tid: Tid)
    | WriteHeader(tid: Tid, n: nat)
    | HeaderDone(tid: Tid)
    | WritePayload(tid: Tid, n: nat)
    | Unlock(tid: Tid)
    | Fail(tid: Tid)

  predicate Enabled(s: State, step: Step)
  {
    && step.tid in s.threads
    && var th := s.threads[step.tid];
    match step
    case Lock(_) => s.lock == None && th.phase == Idle && th.todo != []
    case WriteHeader(_, n) => th.phase.InHeader? && 0 < n <= |th.phase.left|
    case HeaderDone(_) => th.phase == InHeader([]) && th.todo != []
    case WritePayload(_, n) => th.phase.InPayload? && 0 < n <= |th.phase.left|
    case Unlock(_) => th.phase == InPayload([]) && th.todo != []
    case Fail(_) => !th.phase.Idle? && th.todo != []
  }

  function Apply(s: State, step: Step): State
    requires Enabled(s, step)
  {
    var t, th := step.tid, s.threads[step.tid];
    match step
    case Lock(_) =>
      s.(lock := Some(t), order := s.order + [Sent(t, th.todo[0])],
         threads := s.threads[t := th.(phase := InHeader(LevinHeader.HeaderBytes(th.todo[0].header)))])
    case WriteHeader(_, n) =>
      s.(wire := s.wire + th.phase.left[..n], threads := s.threads[t := th.(phase := InHeader(th.phase.left[n..]))])
    case HeaderDone(_) =>
      s.(threads := s.threads[t := th.(phase := InPayload(th.todo[0].payload))])
    case WritePayload(_, n) =>
      s.(wire := s.wire + th.phase.left[..n], threads := s.threads[t := th.(phase := InPayload(th.phase.left[n..]))])
    case Unlock(_) =>
      s.(lock := None, threads := s.threads[t := Thread(th.todo[1..], Idle)])
    case Fail(_) =>
      s.(lock := None, threads := s.threads[t := Thread(th.todo[1..], Idle)],
         cut := if s.cut.None? && Unwritten(th) != [] then Some(Packets(AllButLast(s.order))) else s.cut)
  }

  /** The state after a whole schedule, if every step of it was possible. */
  function Run(s: State, steps: seq<Step>): Option<State>
    decreases |steps|
  {
    if steps == [] then Some(s)
    else if Enabled(s, steps[0]) then Run(Apply(s, steps[0]), steps[1..])
    else None
  }

  function Start(programs: map<Tid, seq<Packet>>): State
  {
    State([], None, map t | t in programs :: Thread(programs[t], Idle), [], None)
  }

  function AllButLast(order: seq<Sent>): seq<Sent>
  {
    if order == [] then [] else order[..|order| - 1]
  }

  function Packets(order: seq<Sent>): (ps: seq<Packet>)
    ensures |ps| == |order|
  {
    seq(|order|, i requires 0 <= i < |order| => order[i].packet)
  }

  /** The packets of one thread, in the order they were sent. */
  function By(order: seq<Sent>, t: Tid): seq<Packet>
  {
    if order == [] then []
    else
      var last := order[|order| - 1];
      By(order[..|order| - 1], t) + if last.tid == t then [last.packet] else []
  }

  /** The bytes of the current frame that are not on the wire yet. */
  function Unwritten(th: Thread): seq<Byte>
    requires th.phase.Idle? || th.todo != []
  {
    match th.phase
    case Idle => []
    case InHeader(left) => left + th.todo[0].payload
    case InPayload(left) => left
  }

  /** The packets a thread has not yet started on. */
  function Pending(th: Thread): seq<Packet>
    requires th.phase.Idle? || th.todo != []
  {
    if th.phase.Idle? then th.todo else th.todo[1..]
  }

  function Owed(s: State): seq<Byte>
    requires s.lock.Some? ==> s.lock.value in s.threads && s.threads[s.lock.value].todo != []
  {
    if s.lock.None? then [] else Unwritten(s.threads[s.lock.value])
  }

  /** Exactly the lock holder is inside writeFrame, and it is writing the last packet of the order. */
  ghost predicate LockHeld(s: State)
  {
    && (forall i | 0 <= i < |s.order| :: s.order[i].tid in s.threads)
    && (forall t | t in s.threads :: s.threads[t].phase.Idle? <==> s.lock != Some(t))
    && (s.lock.Some? ==>
          && s.lock.value in s.threads && s.order != []
          && var th := s.threads[s.lock.value];
          && th.todo != [] && s.order[|s.order| - 1] == Sent(s.lock.value, th.todo[0])
          && |Unwritten(th)| <= |FrameBytes(th.todo[0])|)
  }

  /**
   The wire plus what the lock holder still owes is exactly the frames in lock order, until a frame is left short;
   from then on the frames that were complete stay at the front.
   */
  ghost predicate WireIsFrames(s: State)
    requires LockHeld(s)
  {
    match s.cut
    case None => s.wire + Owed(s) == Frames(Packets(s.order))
    case Some(ps) => Frames(ps) <= s.wire && ps <= Packets(s.order)
  }

  /** Each thread's packets are sent in its own order, none twice and none skipped. */
  ghost predicate KeepsThreadOrder(s: State, programs: map<Tid, seq<Packet>>)
    requires LockHeld(s)
  {
    && s.threads.Keys == programs.Keys
    && forall t | t in s.threads :: By(s.order, t) + Pending(s.threads[t]) == programs[t]
  }

  ghost predicate Inv(s: State, programs: map<Tid, seq<Packet>>)
  {
    LockHeld(s) && WireIsFrames(s) && KeepsThreadOrder(s, programs)
  }

  lemma StartInv(programs: map<Tid, seq<Packet>>)
    ensures Inv(Start(programs), programs)
  {
    var s := Start(programs);
    forall t | t in s.threads ensures By(s.order, t) + Pending(s.threads[t]) == programs[t] {
      assert [] + programs[t] == programs[t];
    }
  }

  lemma LockKeepsHeld(s: State, step: Step)
    requires LockHeld(s) && Enabled(s, step)
    ensures LockHeld(Apply(s, step))
  {
  }

  lemma LockOwesFrame(s: State, step: Step)
    requires LockHeld(s) && WireIsFrames(s) && s.cut.None? && Enabled(s, step) && step.Lock? && LockHeld(Apply(s, step))
    ensures WireIsFrames(Apply(s, step))
  {
    var p := s.threads[step.tid].todo[0];
    FramesSnoc(Packets(s.order), p);
    assert Packets(Apply(s, step).order) == Packets(s.order) + [p];
    assert s.wire + [] == s.wire;
  }

  /** A frame left short comes after all the complete ones. */
  lemma FailCuts(s: State, step: Step)
    requires LockHeld(s) && WireIsFrames(s) && s.cut.None? && Enabled(s, step) && step.Fail? && LockHeld(Apply(s, step))
    ensures WireIsFrames(Apply(s, step))
  {
    var th := s.threads[step.tid];
    assert s.lock == Some(step.tid) && Owed(s) == Unwritten(th);
    if Owed(s) == [] {
      assert s.wire + [] == s.wire;
    } else {
      WireSplits(s);
      assert Complete(s) == Packets(AllButLast(s.order));
      assert Packets(s.order) == Complete(s) + [s.order[|s.order| - 1].packet];
    }
  }

  /** What has been written stays, and so does what was sent. */
  lemma StepOnlyAdds(s: State, step: Step)
    requires LockHeld(s) && Enabled(s, step) && s.cut.Some?
    ensures var s' := Apply(s, step); s.wire <= s'.wire && s.order <= s'.order && s'.cut == s.cut
  {
  }

  lemma CutStays(s: State, step: Step)
    requires LockHeld(s) && WireIsFrames(s) && s.cut.Some? && Enabled(s, step) && LockHeld(Apply(s, step))
    ensures WireIsFrames(Apply(s, step))
  {
    StepOnlyAdds(s, step);
    var s' := Apply(s, step);
    assert Packets(s.order) <= Packets(s'.order);
  }

  /** What is written is what was owed first. */
  lemma WriteMoves(wire: seq<Byte>, left: seq<Byte>, n: nat, after: seq<Byte>)
    requires n <= |left|
    ensures wire + left[..n] + (left[n..] + after) == wire + (left + after)
    ensures wire + left[..n] + left[n..] == wire + left
  {
    assert left == left[..n] + left[n..];
    Assoc(left[..n], left[n..], after);
    Assoc(wire, left[..n], left[n..] + after);
    Assoc(wire, left[..n], left[n..]);
  }

  lemma StepKeepsWire(s: State, step: Step)
    requires LockHeld(s) && WireIsFrames(s) && Enabled(s, step)
    ensures LockHeld(Apply(s, step)) && WireIsFrames(Apply(s, step))
  {
    LockKeepsHeld(s, step);
    if s.cut.Some? {
      CutStays(s, step);
    } else {
      WholeStepKeepsWire(s, step);
    }
  }

  lemma WholeStepKeepsWire(s: State, step: Step)
    requires LockHeld(s) && WireIsFrames(s) && s.cut.None? && Enabled(s, step) && LockHeld(Apply(s, step))
    ensures WireIsFrames(Apply(s, step))
  {
    var th := s.threads[step.tid];
    match step
    case Lock(t) => LockOwesFrame(s, step);
    case WriteHeader(t, n) => WriteMoves(s.wire, th.phase.left, n, th.todo[0].payload);
    case HeaderDone(t) => assert [] + th.todo[0].payload == th.todo[0].payload;
    case WritePayload(t, n) => WriteMoves(s.wire, th.phase.left, n, []);
    case Unlock(t) =>
    case Fail(t) => FailCuts(s, step);
  }

  lemma StepKeepsThreadOrder(s: State, step: Step, programs: map<Tid, seq<Packet>>)
    requires LockHeld(s) && KeepsThreadOrder(s, programs) && Enabled(s, step)
    ensures LockHeld(Apply(s, step)) && KeepsThreadOrder(Apply(s, step), programs)
  {
    LockKeepsHeld(s, step);
    SameThreads(s, step);
    hide Apply, Enabled, LockHeld, Pending, By;
    var s' := Apply(s, step);
    forall t | t in s'.threads ensures By(s'.order, t) + Pending(s'.threads[t]) == programs[t] {
      if step.Lock? {
        LockKeepsProgram(s, step, t);
      } else {
        OthersKeepProgram(s, step, t);
      }
    }
  }

  lemma SameThreads(s: State, step: Step)
    requires Enabled(s, step)
    ensures Apply(s, step).threads.Keys == s.threads.Keys
  {
    hide HeaderBytes, Unwritten, Packets;
  }

  lemma OthersKeepProgram(s: State, step: Step, t: Tid)
    requires LockHeld(s) && Enabled(s, step) && !step.Lock? && t in s.threads && LockHeld(Apply(s, step))
    ensures var s' := Apply(s, step);
            t in s'.threads && s'.order == s.order && Pending(s'.threads[t]) == Pending(s.threads[t])
  {
    hide HeaderBytes, Unwritten, Packets, FrameBytes;
  }

  /** The lock goes to a thread that is about to start on its next packet. */
  lemma LockStarts(s: State, step: Step, t: Tid)
    requires LockHeld(s) && Enabled(s, step) && step.Lock? && t in s.threads
    ensures var s', todo := Apply(s, step), s.threads[step.tid].todo;
            && t in s'.threads && todo != [] && s'.order == s.order + [Sent(step.tid, todo[0])]
            && (t != step.tid ==> s'.threads[t] == s.threads[t])
            && (t == step.tid ==>
                  Pending(s.threads[t]) == todo && s'.threads[t].todo == todo && !s'.threads[t].phase.Idle?)
  {
    hide HeaderBytes, Unwritten, Packets, FrameBytes;
  }

  /** Taking the lock moves a packet from what its thread has pending to what it has sent. */
  lemma {:induction false} LockKeepsProgram(s: State, step: Step, t: Tid)
    requires LockHeld(s) && Enabled(s, step) && step.Lock? && t in s.threads && LockHeld(Apply(s, step))
    ensures var s' := Apply(s, step);
            t in s'.threads && By(s'.order, t) + Pending(s'.threads[t]) == By(s.order, t) + Pending(s.threads[t])
  {
    LockStarts(s, step, t);
    var todo := s.threads[step.tid].todo;
    hide Apply, Enabled, LockHeld, By;
    BySnoc(s.order, Sent(step.tid, todo[0]), t);
    MoveOne(By(s.order, t), todo);
  }

  lemma MoveOne(sent: seq<Packet>, todo: seq<Packet>)
    requires todo != []
    ensures sent + [todo[0]] + todo[1..] == sent + todo
  {
    assert todo == [todo[0]] + todo[1..];
    Assoc(sent, [todo[0]], todo[1..]);
  }

  lemma {:induction false} BySnoc(order: seq<Sent>, x: Sent, t: Tid)
    ensures By(order + [x], t) == if x.tid == t then By(order, t) + [x.packet] else By(order, t)
  {
    assert (order + [x])[..|order + [x]| - 1] == order;
    assert By(order, t) + [] == By(order, t);
  }

  lemma {:induction false} RunKeepsInv(s: State, steps: seq<Step>, programs: map<Tid, seq<Packet>>)
    requires Inv(s, programs) && Run(s, steps).Some?
    ensures Inv(Run(s, steps).value, programs)
    decreases |steps|
  {
    if steps != [] {
      StepKeepsWire(s, steps[0]);
      StepKeepsThreadOrder(s, steps[0], programs);
      RunKeepsInv(Apply(s, steps[0]), steps[1..], programs);
    }
  }

  lemma {:induction false} RunInv(programs: map<Tid, seq<Packet>>, steps: seq<Step>)
    requires Run(Start(programs), steps).Some?
    ensures Inv(Run(Start(programs), steps).value, programs)
  {
    StartInv(programs);
    RunKeepsInv(Start(programs), steps, programs);
  }

  /** The packets whose frames are complete, and the bytes that follow them on the wire. */
  function Complete(s: State): seq<Packet>
    requires LockHeld(s)
  {
    Packets(if Owed(s) == [] then s.order else s.order[..|s.order| - 1])
  }

  function Partial(s: State): seq<Byte>
    requires LockHeld(s)
  {
    if Owed(s) == [] then []
    else
      var f := FrameBytes(s.order[|s.order| - 1].packet);
      f[..|f| - |Owed(s)|]
  }

  lemma CutTail(wire: seq<Byte>, owed: seq<Byte>, done: seq<Byte>, f: seq<Byte>)
    requires wire + owed == done + f && |owed| <= |f|
    ensures wire == done + f[..|f| - |owed|]
  {
    var n := |wire|;
    assert wire == (wire + owed)[..n];
    assert (done + f)[..n] == done + f[..|f| - |owed|];
  }

  lemma WireSplits(s: State)
    requires LockHeld(s) && WireIsFrames(s) && s.cut.None?
    ensures s.wire == Frames(Complete(s)) + Partial(s)
  {
    if Owed(s) == [] {
      assert s.wire + [] == s.wire;
      assert Frames(Complete(s)) + [] == Frames(Complete(s));
    } else {
      var last := s.order[|s.order| - 1].packet;
      assert Packets(s.order) == Complete(s) + [last];
      FramesSnoc(Complete(s), last);
      CutTail(s.wire, Owed(s), Frames(Complete(s)), FrameBytes(last));
    }
  }

  /**
   The wire of any run, at any moment.  As long as no frame was left short: whole frames in lock order, then at most
   one strict prefix of the frame its lock holder has not finished.  After that: the frames that were complete, then
   anything.  Each thread's packets are in the order it sent them.
   */
  lemma {:induction false} WireIsWholeFramesAndAPart(programs: map<Tid, seq<Packet>>, steps: seq<Step>)
    requires Run(Start(programs), steps).Some?
    ensures var s := Run(Start(programs), steps).value;
            && LockHeld(s)
            && KeepsThreadOrder(s, programs)
            && (s.cut.None? ==> s.wire == Frames(Complete(s)) + Partial(s))
            && (s.cut.None? && Partial(s) != [] ==> Partial(s) < FrameBytes(s.order[|s.order| - 1].packet))
            && (s.cut.Some? ==> Frames(s.cut.value) <= s.wire && s.cut.value <= Packets(s.order))
  {
    RunInv(programs, steps);
    if Run(Start(programs), steps).value.cut.None? {
      WireSplits(Run(Start(programs), steps).value);
    }
  }

  /** What a reader of the wire gets: the complete packets in lock order; those before a short frame in any case. */
  ghost predicate Readable(s: State, limit: nat)
    requires LockHeld(s)
  {
    match s.cut
    case None => ReadAll(s.wire, limit) == (Complete(s), EndOfStream)
    case Some(ps) => ps <= ReadAll(s.wire, limit).0
  }

  lemma {:induction false} CutIsRead(s: State, ps: seq<Packet>, limit: nat)
    requires Frames(ps) <= s.wire && ps <= Packets(s.order)
    requires forall i | 0 <= i < |s.order| :: Sendable(s.order[i].packet, limit)
    ensures ps <= ReadAll(s.wire, limit).0
  {
    hide ReadAll, Sendable;
    var rest := s.wire[|Frames(ps)|..];
    assert s.wire == Frames(ps) + rest;
    FramesFirst(ps, rest, limit);
  }

  lemma {:induction false} ReaderSeesComplete(programs: map<Tid, seq<Packet>>, steps: seq<Step>, limit: nat)
    requires Run(Start(programs), steps).Some?
    requires forall t, p | t in programs && p in programs[t] :: Sendable(p, limit)
    ensures var s := Run(Start(programs), steps).value;
            LockHeld(s) && KeepsThreadOrder(s, programs) && Readable(s, limit)
  {
    RunInv(programs, steps);
    var s := Run(Start(programs), steps).value;
    OrderIsSendable(s, programs, limit);
    if s.cut.Some? {
      CutIsRead(s, s.cut.value, limit);
    } else {
      WireSplits(s);
      if Owed(s) != [] {
        PartialFrame(s.order[|s.order| - 1].packet, Partial(s), limit);
      }
      FramesRoundTrip(Complete(s), Partial(s), limit);
    }
  }

  // ---------- threads that call the two writers ----------

  datatype Call =
    | WritePacket(cmd: nat, payload: seq<Byte>, expectResponse: bool)
    | WriteResponse(cmd: nat, payload: seq<Byte>, returnCode: int)

  function PacketOf(call: Call): Packet
  {
    match call
    case WritePacket(cmd, payload, wait) => Request(cmd, payload, wait)
    case WriteResponse(cmd, payload, code) => Response(cmd, payload, code)
  }

  /** Arguments of Go's types, and a payload within the package's and the reader's size limits. */
  predicate Allowed(call: Call, limit: nat)
  {
    && call.cmd < TWO32 && |call.payload| <= MAX_PAYLOAD && |call.payload| <= limit
    && (call.WriteResponse? ==> SignedRange(4, call.returnCode))
  }

  function PacketsOf(calls: seq<Call>): (ps: seq<Packet>)
    ensures |ps| == |calls|
  {
    seq(|calls|, i requires 0 <= i < |calls| => PacketOf(calls[i]))
  }

  function Programs(calls: map<Tid, seq<Call>>): map<Tid, seq<Packet>>
  {
    map t | t in calls :: PacketsOf(calls[t])
  }

  lemma CallIsSendable(call: Call, limit: nat)
    requires Allowed(call, limit)
    ensures Sendable(PacketOf(call), limit)
  {
    match call
    case WritePacket(cmd, payload, wait) => WritersBuildSendable(cmd, payload, wait, 0, limit);
    case WriteResponse(cmd, payload, code) => WritersBuildSendable(cmd, payload, false, code, limit);
  }

  /**
   Any threads that call WritePacket and WriteResponse within the size limits: at any moment of any run in which no
   frame was left short, a reader of the wire gets exactly the packets whose frames are complete, in lock order, and
   then waits for more.  In any run it gets those that were complete before the first short frame.
   */
  lemma {:induction false} ReaderSeesLockOrder(calls: map<Tid, seq<Call>>, steps: seq<Step>, limit: nat)
    requires Run(Start(Programs(calls)), steps).Some?
    requires forall t, call | t in calls && call in calls[t] :: Allowed(call, limit)
    ensures var s := Run(Start(Programs(calls)), steps).value;
            LockHeld(s) && KeepsThreadOrder(s, Programs(calls)) && Readable(s, limit)
  {
    var programs := Programs(calls);
    forall t, p | t in programs && p in programs[t] ensures Sendable(p, limit) {
      var i :| 0 <= i < |programs[t]| && programs[t][i] == p;
      assert calls[t][i] in calls[t];
      CallIsSendable(calls[t][i], limit);
    }
    ReaderSeesComplete(programs, steps, limit);
  }

  lemma {:induction false} ByContains(order: seq<Sent>, i: nat)
    requires i < |order|
    ensures order[i].packet in By(order, order[i].tid)
  {
    if i < |order| - 1 {
      ByContains(order[..|order| - 1], i);
    }
  }

  lemma OrderIsSendable(s: State, programs: map<Tid, seq<Packet>>, limit: nat)
    requires LockHeld(s) && KeepsThreadOrder(s, programs)
    requires forall t, p | t in programs && p in programs[t] :: Sendable(p, limit)
    ensures forall i | 0 <= i < |s.order| :: Sendable(s.order[i].packet, limit)
  {
    forall i | 0 <= i < |s.order| ensures Sendable(s.order[i].packet, limit) {
      ByContains(s.order, i);
      var t := s.order[i].tid;
      assert s.order[i].packet in By(s.order, t) + Pending(s.threads[t]);
    }
  }

  // ---------- after a short frame ----------

  lemma {:induction false} RunCons(s: State, step: Step, rest: seq<Step>)
    requires Enabled(s, step)
    ensures Run(s, [step] + rest) == Run(Apply(s, step), rest)
  {
    assert ([step] + rest)[1..] == rest;
  }

  /** The lock, the header in one piece. */
  lemma {:induction false} HeaderGoesOut(s: State, t: Tid, p: Packet)
    requires s.lock.None? && t in s.threads && s.threads[t] == Thread([p], Idle)
    ensures var r := Run(s, [Lock(t)] + ([WriteHeader(t, HEADER_SIZE)] + ([HeaderDone(t)] + [])));
            && r.Some? && r.value.wire == s.wire + HeaderBytes(p.header) && r.value.lock == Some(t)
            && r.value.cut == s.cut && |r.value.order| == |s.order| + 1
            && r.value.threads == s.threads[t := Thread([p], InPayload(p.payload))]
  {
    hide HeaderBytes;
    var s1 := Apply(s, Lock(t));
    var s2 := Apply(s1, WriteHeader(t, HEADER_SIZE));
    var h := HeaderBytes(p.header);
    assert h[..HEADER_SIZE] == h && h[HEADER_SIZE..] == [];
    assert s2.threads[t] == Thread([p], InHeader([]));
    RunCons(s2, HeaderDone(t), []);
    RunCons(s1, WriteHeader(t, HEADER_SIZE), [HeaderDone(t)] + []);
    RunCons(s, Lock(t), [WriteHeader(t, HEADER_SIZE)] + ([HeaderDone(t)] + []));
    assert Apply(s2, HeaderDone(t)).threads == s.threads[t := Thread([p], InPayload(p.payload))];
  }

  lemma {:induction false} RunConcat(s: State, a: seq<Step>, b: seq<Step>)
    requires Run(s, a).Some?
    ensures Run(s, a + b) == Run(Run(s, a).value, b)
    decreases |a|
  {
    if a == [] {
      assert a + b == b;
    } else {
      RunConcat(Apply(s, a[0]), a[1..], b);
      assert a + b == [a[0]] + (a[1..] + b);
      RunCons(s, a[0], a[1..] + b);
    }
  }

  function HeaderSteps(t: Tid): seq<Step>
  {
    [Lock(t)] + ([WriteHeader(t, HEADER_SIZE)] + ([HeaderDone(t)] + []))
  }

  lemma {:induction false} RunSingle(s: State, step: Step)
    requires Enabled(s, step)
    ensures Run(s, [step]) == Some(Apply(s, step))
  {
  }

  /** A writer fails after its header; the next one succeeds. */
  lemma FailThenWrite(p: Packet, q: Packet)
    requires p.payload != [] && q.payload == []
    ensures var steps := (HeaderSteps(0) + [Fail(0)]) + (HeaderSteps(1) + [Unlock(1)]);
            var r := Run(Start(map[0 := [p], 1 := [q]]), steps);
            r.Some? && r.value.cut == Some([]) && r.value.wire == HeaderBytes(p.header) + HeaderBytes(q.header)
  {
    hide HeaderBytes, Packets, Run;
    var s0 := Start(map[0 := [p], 1 := [q]]);
    HeaderGoesOut(s0, 0, p);
    var s1 := Run(s0, HeaderSteps(0)).value;
    var s2 := Apply(s1, Fail(0));
    RunConcat(s0, HeaderSteps(0), [Fail(0)]);
    RunSingle(s1, Fail(0));
    HeaderGoesOut(s2, 1, q);
    var s3 := Run(s2, HeaderSteps(1)).value;
    RunConcat(s2, HeaderSteps(1), [Unlock(1)]);
    RunSingle(s3, Unlock(1));
    RunConcat(s0, HeaderSteps(0) + [Fail(0)], HeaderSteps(1) + [Unlock(1)]);
    CutIsKept(s2, HeaderSteps(1) + [Unlock(1)]);
    FailAfterHeader(s1, p);
  }

  /** Then a reader takes the header of the second frame for the payload of the first. */
  lemma LaterBytesAreReadAsPayload(p: Packet, q: Packet, limit: nat)
    requires Sendable(p, limit) && 0 < |p.payload| <= HEADER_SIZE && q.payload == []
    ensures var steps := (HeaderSteps(0) + [Fail(0)]) + (HeaderSteps(1) + [Unlock(1)]);
            var r := Run(Start(map[0 := [p], 1 := [q]]), steps);
            && r.Some? && r.value.cut == Some([])
            && ReadFrame(r.value.wire, limit).result == Ok(Packet(p.header, HeaderBytes(q.header)[..|p.payload|]))
  {
    FailThenWrite(p, q);
    ShortFrameTakesMore(p, 0, HeaderBytes(q.header), limit);
    hide HeaderBytes, ReadFrame, Run, Start;
    assert FrameBytes(p)[..HEADER_SIZE + 0] == HeaderBytes(p.header);
    assert p.payload[..0] + HeaderBytes(q.header)[..|p.payload|] == HeaderBytes(q.header)[..|p.payload|];
  }

  lemma FailAfterHeader(s: State, p: Packet)
    requires Enabled(s, Fail(0)) && s.threads[0] == Thread([p], InPayload(p.payload)) && p.payload != []
    requires s.cut.None? && |s.order| == 1
    ensures Apply(s, Fail(0)).cut == Some([])
  {
  }

  lemma {:induction false} CutIsKept(s: State, steps: seq<Step>)
    requires s.cut.Some? && Run(s, steps).Some?
    ensures Run(s, steps).value.cut == s.cut
    decreases |steps|
  {
    if steps != [] {
      CutIsKept(Apply(s, steps[0]), steps[1..]);
    }
  }
}
