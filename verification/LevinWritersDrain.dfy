/**
 Every schedule of writers on one Levin connection is finite, and where it ends every packet has been written, but for
 the ones whose write failed.
 */
module LevinWritersDrain {
  import opened LevinHeader
  import opened LevinConnection
  import opened LevinWriters
  import opened Sums

  // ---------- the steps still to come ----------

  /** The lock, at most one write for each byte, the end of the header, and the unlock. */
  function PacketSteps(p: Packet): nat
  {
    HEADER_SIZE + |p.payload| + 3
  }

  function QueueSteps(ps: seq<Packet>): nat
  {
    if ps == [] then 0 else PacketSteps(ps[0]) + QueueSteps(ps[1..])
  }

  function ThreadSteps(th: Thread): nat
  {
    match th.phase
    case Idle => QueueSteps(th.todo)
    case InHeader(left) => |left| + if th.todo == [] then 0 else |th.todo[0].payload| + 2 + QueueSteps(th.todo[1..])
    case InPayload(left) => |left| + 1 + if th.todo == [] then 0 else QueueSteps(th.todo[1..])
  }

  ghost function Load(s: State): nat
  {
    Sum(map t | t in s.threads :: ThreadSteps(s.threads[t]))
  }

  lemma LoadAt(s: State, s': State, t: Tid)
    requires t in s.threads && t in s'.threads && s'.threads == s.threads[t := s'.threads[t]]
    ensures Load(s') + ThreadSteps(s.threads[t]) == Load(s) + ThreadSteps(s'.threads[t])
  {
    var w := map u | u in s.threads :: ThreadSteps(s.threads[u]);
    SumWithout(w, t);
    SumUpdate(w, t, ThreadSteps(s'.threads[t]));
    assert (map u | u in s'.threads :: ThreadSteps(s'.threads[u])) == w[t := ThreadSteps(s'.threads[t])];
  }

  lemma StepMoves(s: State, step: Step)
    requires Enabled(s, step)
    ensures var s', t := Apply(s, step), step.tid;
            && t in s.threads && t in s'.threads && s'.threads == s.threads[t := s'.threads[t]]
            && ThreadSteps(s'.threads[t]) < ThreadSteps(s.threads[t])
  {
    hide HeaderBytes, Unwritten, Packets;
  }

  lemma StepSpends(s: State, step: Step)
    requires Enabled(s, step)
    ensures Load(Apply(s, step)) < Load(s)
  {
    StepMoves(s, step);
    LoadAt(s, Apply(s, step), step.tid);
  }

  lemma {:induction false} RunIsBounded(s: State, steps: seq<Step>)
    requires Run(s, steps).Some?
    ensures |steps| + Load(Run(s, steps).value) <= Load(s)
    decreases |steps|
  {
    if steps != [] {
      StepSpends(s, steps[0]);
      RunIsBounded(Apply(s, steps[0]), steps[1..]);
    }
  }

  // ---------- where it ends ----------

  /** Nothing can happen but a failure. */
  ghost predicate AtRest(s: State)
  {
    forall step | Enabled(s, step) :: step.Fail?
  }

  /** As long as somebody has a packet to write, the holder of the lock can write on, or somebody can take it. */
  lemma SomeWriterMoves(s: State, t: Tid)
    requires LockHeld(s) && t in s.threads && (s.threads[t].todo != [] || s.lock.Some?)
    ensures !AtRest(s)
  {
    hide HeaderBytes;
    if s.lock.None? {
      assert Enabled(s, Lock(t));
    } else {
      var h := s.lock.value;
      var phase := s.threads[h].phase;
      assert !phase.Idle?;
      var step := if phase.InHeader? then (if phase.left == [] then HeaderDone(h) else WriteHeader(h, 1))
                  else if phase.left == [] then Unlock(h) else WritePayload(h, 1);
      assert Enabled(s, step) && !step.Fail?;
    }
  }

  lemma {:induction false} CutNeedsFail(s: State, steps: seq<Step>)
    requires Run(s, steps).Some? && s.cut.None? && forall i | 0 <= i < |steps| :: !steps[i].Fail?
    ensures Run(s, steps).value.cut.None?
    decreases |steps|
  {
    if steps != [] {
      CutNeedsFail(Apply(s, steps[0]), steps[1..]);
    }
  }

  /**
   Every schedule ends after at most Load steps.  Where it ends the lock is free and every thread has written all its
   packets, in its order; and if no write failed, the wire is exactly their frames.
   */
  lemma {:induction false} EveryScheduleWrites(programs: map<Tid, seq<Packet>>, steps: seq<Step>)
    requires Run(Start(programs), steps).Some?
    ensures |steps| <= Load(Start(programs))
    ensures var end := Run(Start(programs), steps).value;
            AtRest(end) ==>
              && end.lock.None?
              && (forall t | t in programs :: By(end.order, t) == programs[t])
              && ((forall i | 0 <= i < |steps| :: !steps[i].Fail?) ==> end.wire == Frames(Packets(end.order)))
  {
    hide Load, AtRest, Apply, Enabled, Frames;
    RunIsBounded(Start(programs), steps);
    RunInv(programs, steps);
    var end := Run(Start(programs), steps).value;
    if AtRest(end) {
      RestIsDone(end, programs);
      if forall i | 0 <= i < |steps| :: !steps[i].Fail? {
        CutNeedsFail(Start(programs), steps);
        assert end.wire + [] == end.wire;
      }
    }
  }

  lemma RestIsDone(s: State, programs: map<Tid, seq<Packet>>)
    requires Inv(s, programs) && AtRest(s)
    ensures s.lock.None? && forall t | t in programs :: By(s.order, t) == programs[t]
  {
    if s.lock.Some? {
      SomeWriterMoves(s, s.lock.value);
    }
    forall t | t in programs ensures By(s.order, t) == programs[t] {
      if s.threads[t].todo != [] {
        SomeWriterMoves(s, t);
      }
      assert By(s.order, t) + [] == By(s.order, t);
    }
  }
}
