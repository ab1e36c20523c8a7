/**
 Every schedule of the content bus is finite, whatever the locks make its threads wait for, and where it ends every
 call has returned and every queued event has been received.
 */
module ContentBusDrain {
  import opened ContentBus
  import opened Sums

  // ---------- the steps still to come ----------

  /** Whether a thread may still add a subscription. */
  function ToCome(th: Thread): nat
  {
    if th.op.Subscribe? && !th.pc.SubsDone? && !th.pc.Leaving? && !th.pc.Finished? then 1 else 0
  }

  ghost function Arrivals(s: State): nat
  {
    Sum(map t | t in s.threads :: ToCome(s.threads[t]))
  }

  /** No more subscriptions than this will ever be live at once. */
  ghost function Room(s: State): nat
  {
    |s.live| + Arrivals(s)
  }

  /** What a thread can still do, with at most room live subscriptions: each offer is one send and one receive. */
  function ThreadSteps(room: nat, pc: Pc): nat
  {
    match pc
    case Start => 2 * room + 30
    case OnceWon => 2 * room + 29
    case WantMu => 2 * room + 28
    case MuHeld => 2 * room + 27
    case WantSubs => 2 * room + 26
    case SubsHeld => 20
    case Sending(pending) => 2 * |pending| + 10
    case SubsDone => 2
    case Leaving => 1
    case Finished => 0
  }

  ghost function ThreadLoad(room: nat, s: State): nat
  {
    Sum(map t | t in s.threads :: ThreadSteps(room, s.threads[t].pc))
  }

  ghost function QueueLoad(s: State): nat
  {
    Sum(map id | id in s.chans :: |s.chans[id].queue|)
  }

  ghost function Load(room: nat, s: State): nat
  {
    ThreadLoad(room, s) + |s.live| + QueueLoad(s)
  }

  lemma ThreadLoadAt(room: nat, s: State, s': State, t: Tid)
    requires t in s.threads && t in s'.threads && s'.threads == s.threads[t := s'.threads[t]]
    ensures ThreadLoad(room, s') + ThreadSteps(room, s.threads[t].pc)
         == ThreadLoad(room, s) + ThreadSteps(room, s'.threads[t].pc)
  {
    var w := map u | u in s.threads :: ThreadSteps(room, s.threads[u].pc);
    SumWithout(w, t);
    var v := ThreadSteps(room, s'.threads[t].pc);
    SumUpdate(w, t, v);
    assert (map u | u in s'.threads :: ThreadSteps(room, s'.threads[u].pc)) == w[t := v];
  }

  lemma ArrivalsAt(s: State, s': State, t: Tid)
    requires t in s.threads && t in s'.threads && s'.threads == s.threads[t := s'.threads[t]]
    ensures Arrivals(s') + ToCome(s.threads[t]) == Arrivals(s) + ToCome(s'.threads[t])
  {
    var w := map u | u in s.threads :: ToCome(s.threads[u]);
    SumWithout(w, t);
    SumUpdate(w, t, ToCome(s'.threads[t]));
    assert (map u | u in s'.threads :: ToCome(s'.threads[u])) == w[t := ToCome(s'.threads[t])];
  }

  lemma QueueLoadAt(s: State, s': State, id: SubId)
    requires id in s.chans && id in s'.chans && s'.chans == s.chans[id := s'.chans[id]]
    ensures QueueLoad(s') + |s.chans[id].queue| == QueueLoad(s) + |s'.chans[id].queue|
  {
    var w := map i | i in s.chans :: |s.chans[i].queue|;
    SumWithout(w, id);
    SumUpdate(w, id, |s'.chans[id].queue|);
    assert (map i | i in s'.chans :: |s'.chans[i].queue|) == w[id := |s'.chans[id].queue|];
  }

  lemma QueueLoadNew(s: State, s': State, id: SubId)
    requires id !in s.chans && id in s'.chans && s'.chans == s.chans[id := s'.chans[id]] && s'.chans[id].queue == []
    ensures QueueLoad(s') == QueueLoad(s)
  {
    var w := map i | i in s.chans :: |s.chans[i].queue|;
    SumUpdate(w, id, 0);
    assert w - {id} == w;
    assert (map i | i in s'.chans :: |s'.chans[i].queue|) == w[id := 0];
  }

  // ---------- every step uses some of it up ----------

  lemma ConsumeSpends(room: nat, s: State, step: Step, cap: nat)
    requires Enabled(s, step) && step.Consume?
    ensures Load(room, Apply(s, step, cap)) < Load(room, s) && Room(Apply(s, step, cap)) == Room(s)
  {
    QueueLoadAt(s, Apply(s, step, cap), step.sub);
  }

  lemma SendSpends(room: nat, s: State, step: Step, cap: nat)
    requires Enabled(s, step) && step.Send?
    ensures Load(room, Apply(s, step, cap)) < Load(room, s) && Room(Apply(s, step, cap)) == Room(s)
  {
    var s' := Apply(s, step, cap);
    ThreadLoadAt(room, s, s', step.tid);
    ArrivalsAt(s, s', step.tid);
    QueueLoadAt(s, s', step.sub);
  }

  /** A subscriber that inserts is past its one subscription. */
  lemma InsertMoves(room: nat, s: State, step: Step, cap: nat)
    requires Channels(s) && Enabled(s, step) && step.Insert?
    ensures var s', t, id := Apply(s, step, cap), step.tid, s.nextSubID;
            && t in s.threads && t in s'.threads && s'.threads == s.threads[t := s'.threads[t]]
            && ThreadSteps(room, s.threads[t].pc) == 20 && ThreadSteps(room, s'.threads[t].pc) == 2
            && ToCome(s.threads[t]) == 1 && ToCome(s'.threads[t]) == 0
            && |s'.live| <= |s.live| + 1
            && id !in s.chans && id in s'.chans && s'.chans == s.chans[id := s'.chans[id]] && s'.chans[id].queue == []
  {
  }

  lemma InsertSpends(room: nat, s: State, step: Step, cap: nat)
    requires Channels(s) && Enabled(s, step) && step.Insert?
    ensures Load(room, Apply(s, step, cap)) < Load(room, s) && Room(Apply(s, step, cap)) <= Room(s)
  {
    InsertMoves(room, s, step, cap);
    hide Apply, Enabled, ThreadLoad, QueueLoad, Arrivals, ThreadSteps, ToCome;
    var s' := Apply(s, step, cap);
    ThreadLoadAt(room, s, s', step.tid);
    ArrivalsAt(s, s', step.tid);
    QueueLoadNew(s, s', s.nextSubID);
  }

  lemma CloseOneSpends(room: nat, s: State, step: Step, cap: nat)
    requires Enabled(s, step) && step.CloseOne?
    ensures Load(room, Apply(s, step, cap)) < Load(room, s) && Room(Apply(s, step, cap)) <= Room(s)
  {
    var s' := Apply(s, step, cap);
    QueueLoadAt(s, s', step.sub);
    assert |s'.live| == |s.live| - 1 && s'.threads == s.threads;
  }

  predicate LockStep(step: Step)
  {
    !step.Consume? && !step.Send? && !step.Insert? && !step.CloseOne?
  }

  /** Every other step moves its thread on and touches no subscription. */
  lemma LockStepMoves(room: nat, s: State, step: Step, cap: nat)
    requires Room(s) <= room && Enabled(s, step) && LockStep(step)
    ensures var s', t := Apply(s, step, cap), step.tid;
            && s'.live == s.live && s'.chans == s.chans
            && t in s.threads && t in s'.threads && s'.threads == s.threads[t := s'.threads[t]]
            && ThreadSteps(room, s'.threads[t].pc) < ThreadSteps(room, s.threads[t].pc)
            && ToCome(s'.threads[t]) <= ToCome(s.threads[t])
  {
    if step.RLockSubs? {
      SubsetSize(TopicSubs(s, s.threads[step.tid].op.event.topic), s.live);
    }
  }

  lemma StepSpends(room: nat, s: State, step: Step, cap: nat)
    requires Inv(s) && Room(s) <= room && Enabled(s, step)
    ensures Load(room, Apply(s, step, cap)) < Load(room, s) && Room(Apply(s, step, cap)) <= room
  {
    if step.Consume? {
      ConsumeSpends(room, s, step, cap);
    } else if step.Send? {
      SendSpends(room, s, step, cap);
    } else if step.Insert? {
      InsertSpends(room, s, step, cap);
    } else if step.CloseOne? {
      CloseOneSpends(room, s, step, cap);
    } else {
      LockStepMoves(room, s, step, cap);
      ThreadLoadAt(room, s, Apply(s, step, cap), step.tid);
      ArrivalsAt(s, Apply(s, step, cap), step.tid);
    }
  }

  lemma {:induction false} RunIsBounded(room: nat, s: State, steps: seq<Step>, cap: nat)
    requires Inv(s) && Room(s) <= room && Run(s, steps, cap).Some?
    ensures |steps| + Load(room, Run(s, steps, cap).value) <= Load(room, s)
    decreases |steps|
  {
    if steps != [] {
      StepKeepsInv(s, steps[0], cap);
      StepSpends(room, s, steps[0], cap);
      RunIsBounded(room, Apply(s, steps[0], cap), steps[1..], cap);
    }
  }

  /**
   From every reachable state every schedule ends after at most Load steps, and where no step is possible every call
   has returned and nothing is left in a queue.
   */
  lemma {:induction false} EveryScheduleFinishes(ops: map<Tid, Op>, before: seq<Step>, steps: seq<Step>, cap: nat)
    requires Run(Init(ops), before, cap).Some? && Run(Run(Init(ops), before, cap).value, steps, cap).Some?
    ensures var s := Run(Init(ops), before, cap).value;
            |steps| <= Load(Room(s), s)
    ensures var end := Run(Run(Init(ops), before, cap).value, steps, cap).value;
            (forall step :: !Enabled(end, step)) ==>
              && (forall t | t in end.threads :: end.threads[t].pc.Finished?)
              && (forall id | id in end.chans :: end.chans[id].queue == [])
  {
    RunInv(ops, before, cap);
    var s := Run(Init(ops), before, cap).value;
    RunIsBounded(Room(s), s, steps, cap);
    RunKeepsInv(s, steps, cap);
    var end := Run(s, steps, cap).value;
    forall t | t in end.threads && !end.threads[t].pc.Finished? ensures exists step :: Enabled(end, step) {
      var step := SomeThreadMoves(end, t);
    }
    forall id | id in end.chans && end.chans[id].queue != [] ensures exists step :: Enabled(end, step) {
      assert Enabled(end, Consume(id));
    }
  }
}
