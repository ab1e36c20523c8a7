/** What a call on the content bus has done once it has returned, over every run. */
module ContentBusOutcomes {
  import opened ContentBus
  import opened ContentBusDelivery

  // ---------- Publish reaches the subscribers it finds ----------

  /** Not yet at the loop over the subscriptions. */
  predicate BeforeLoop(pc: Pc)
  {
    pc.Start? || pc.MuHeld? || pc.WantSubs?
  }

  /** Publisher t has found sub, or will find it, or the bus is closed. */
  ghost predicate WillOffer(s: State, t: Tid, sub: SubId)
  {
    && t in s.threads && s.threads[t].op.Publish? && s.threads[t].op.event.topic != ""
    && (|| s.closed
        || (BeforeLoop(s.threads[t].pc) && sub in TopicSubs(s, s.threads[t].op.event.topic))
        || (!BeforeLoop(s.threads[t].pc) && sub in s.threads[t].matched))
  }

  lemma OwnStepKeepsOffer(s: State, step: Step, cap: nat, sub: SubId)
    requires Inv(s) && Enabled(s, step) && !step.Consume? && WillOffer(s, step.tid, sub)
    ensures WillOffer(Apply(s, step, cap), step.tid, sub)
  {
    assert ThreadHolds(s, step.tid);
    if s.closed {
      ClosedStays(s, step, cap);
    } else if BeforeLoop(s.threads[step.tid].pc) {
      assert step.RLockMu? || step.CheckOpen? || step.RLockSubs?;
    } else {
      assert Apply(s, step, cap).threads[step.tid].matched == s.threads[step.tid].matched;
    }
  }

  /** Only the closer removes a subscription, when the bus is closed. */
  lemma StepKeepsSub(s: State, step: Step, cap: nat, topic: string, sub: SubId)
    requires Inv(s) && Enabled(s, step) && sub in TopicSubs(s, topic)
    ensures Apply(s, step, cap).closed || sub in TopicSubs(Apply(s, step, cap), topic)
  {
    if step.CloseOne? {
      assert ThreadHolds(s, step.tid);
    }
  }

  lemma ClosedStays(s: State, step: Step, cap: nat)
    requires Enabled(s, step) && s.closed
    ensures Apply(s, step, cap).closed
  {
  }

  lemma OthersStay(s: State, step: Step, cap: nat, t: Tid)
    requires Enabled(s, step) && t in s.threads && (step.Consume? || step.tid != t)
    ensures t in Apply(s, step, cap).threads && Apply(s, step, cap).threads[t] == s.threads[t]
  {
  }

  lemma SameThreads(s: State, step: Step, cap: nat)
    requires Enabled(s, step)
    ensures Apply(s, step, cap).threads.Keys == s.threads.Keys
  {
  }

  lemma StepKeepsOffer(s: State, step: Step, cap: nat, t: Tid, sub: SubId)
    requires Inv(s) && Enabled(s, step) && WillOffer(s, t, sub)
    ensures WillOffer(Apply(s, step, cap), t, sub)
  {
    if !step.Consume? && step.tid == t {
      OwnStepKeepsOffer(s, step, cap, sub);
    } else {
      OthersStay(s, step, cap, t);
      if s.closed {
        ClosedStays(s, step, cap);
      } else if BeforeLoop(s.threads[t].pc) {
        StepKeepsSub(s, step, cap, s.threads[t].op.event.topic, sub);
      }
    }
  }

  lemma {:induction false} RunKeepsOffer(s: State, steps: seq<Step>, cap: nat, t: Tid, sub: SubId)
    requires Inv(s) && WillOffer(s, t, sub) && Run(s, steps, cap).Some?
    ensures WillOffer(Run(s, steps, cap).value, t, sub)
    decreases |steps|
  {
    if steps != [] {
      StepKeepsInv(s, steps[0], cap);
      StepKeepsOffer(s, steps[0], cap, t, sub);
      RunKeepsOffer(Apply(s, steps[0], cap), steps[1..], cap, t, sub);
    }
  }

  /**
   In every run: a publisher that had not begun when sub was a live subscription of its topic, and that has returned
   from a bus still open, has offered its event to sub exactly once.
   */
  lemma {:induction false} FinishedPublishHasOffered(ops: map<Tid, Op>, a: seq<Step>, b: seq<Step>, cap: nat, t: Tid,
                                                     sub: SubId)
    requires Run(Init(ops), a, cap).Some? && Run(Init(ops), a + b, cap).Some?
    requires var s := Run(Init(ops), a, cap).value;
             && t in s.threads && s.threads[t].op.Publish? && s.threads[t].pc.Start?
             && s.threads[t].op.event.topic != "" && sub in TopicSubs(s, s.threads[t].op.event.topic)
    requires var end := Run(Init(ops), a + b, cap).value;
             t in end.threads && end.threads[t].pc.Finished? && !end.closed
    ensures Times(Run(Init(ops), a + b, cap).value.offers, t, sub) == 1
  {
    RunConcat(Init(ops), a, b, cap);
    RunInv(ops, a, cap);
    RunKeepsOffer(Run(Init(ops), a, cap).value, b, cap, t, sub);
    RunKeepsHistory(Init(ops), a + b, cap);
    assert OfferedOnce(Run(Init(ops), a + b, cap).value, t);
  }

  // ---------- Subscribe returns a channel ----------

  predicate Inserted(pc: Pc)
  {
    pc.SubsDone? || pc.Leaving? || pc.Finished?
  }

  predicate OwnedBy(s: State, id: SubId, t: Tid)
  {
    id in s.chans && s.chans[id].owner == t
  }

  /** A channel was made by a Subscribe of its topic, which is past that. */
  ghost predicate GoodOwner(s: State, id: SubId)
    requires id in s.chans
  {
    var t := s.chans[id].owner;
    && t in s.threads && s.threads[t].op == Subscribe(s.chans[id].topic) && s.chans[id].topic != ""
    && Inserted(s.threads[t].pc)
  }

  /** A Subscribe past its critical section has its channel, or was refused. */
  ghost predicate HasChannel(s: State, t: Tid)
    requires t in s.threads
  {
    var Thread(op, pc, _) := s.threads[t];
    op.Subscribe? ==>
      && (op.topic == "" ==> pc.Start? || pc.Finished?)
      && (op.topic != "" && Inserted(pc) && !s.closed ==> exists id :: OwnedBy(s, id, t))
  }

  /** No two channels have one owner. */
  ghost predicate OneEach(s: State)
  {
    forall id, id' | id in s.chans && id' in s.chans && s.chans[id].owner == s.chans[id'].owner :: id == id'
  }

  ghost predicate Owners(s: State)
  {
    && (forall id | id in s.chans :: GoodOwner(s, id))
    && OneEach(s)
    && (forall t | t in s.threads :: HasChannel(s, t))
    && (!s.closed ==> s.chans.Keys <= s.live)
  }

  /** Channels keep their owner and topic, and only Insert makes one. */
  lemma ChansAfter(s: State, step: Step, cap: nat)
    requires Inv(s) && Enabled(s, step)
    ensures var s' := Apply(s, step, cap);
            && (forall id | id in s.chans ::
                  id in s'.chans && s'.chans[id].owner == s.chans[id].owner && s'.chans[id].topic == s.chans[id].topic)
            && (forall id | id in s'.chans && id !in s.chans ::
                  step.Insert? && id == s.nextSubID && s'.chans[id].owner == step.tid)
            && (step.Insert? ==> OwnedBy(s', s.nextSubID, step.tid))
  {
    hide TopicSubs;
  }

  lemma OldOwner(s: State, step: Step, cap: nat, id: SubId)
    requires Inv(s) && Enabled(s, step) && id in s.chans && GoodOwner(s, id)
    ensures id in Apply(s, step, cap).chans && GoodOwner(Apply(s, step, cap), id)
  {
    ChansAfter(s, step, cap);
    var t := s.chans[id].owner;
    if !step.Consume? && step.tid == t {
      OwnerMoves(s, step, cap);
    } else {
      OthersStay(s, step, cap, t);
    }
  }

  /** A Subscribe past its critical section stays past it. */
  lemma OwnerMoves(s: State, step: Step, cap: nat)
    requires Enabled(s, step) && !step.Consume? && s.threads[step.tid].op.Subscribe? && Inserted(s.threads[step.tid].pc)
    ensures var s' := Apply(s, step, cap);
            && step.tid in s'.threads && s'.threads[step.tid].op == s.threads[step.tid].op
            && Inserted(s'.threads[step.tid].pc)
  {
  }

  lemma NewOwner(s: State, step: Step, cap: nat)
    requires Inv(s) && Owners(s) && Enabled(s, step) && step.Insert?
    ensures s.nextSubID in Apply(s, step, cap).chans && GoodOwner(Apply(s, step, cap), s.nextSubID)
    ensures forall id | id in s.chans :: s.chans[id].owner != step.tid
  {
    assert HasChannel(s, step.tid);
    forall id | id in s.chans ensures s.chans[id].owner != step.tid {
      assert GoodOwner(s, id);
    }
  }

  lemma OwnStepKeepsChannel(s: State, step: Step, cap: nat)
    requires Inv(s) && Enabled(s, step) && !step.Consume? && HasChannel(s, step.tid)
    ensures HasChannel(Apply(s, step, cap), step.tid)
  {
    var s', t := Apply(s, step, cap), step.tid;
    assert ThreadHolds(s, t);
    ChansAfter(s, step, cap);
    if id :| OwnedBy(s, id, t) {
      assert OwnedBy(s', id, t);
    }
    if step.Insert? {
      assert OwnedBy(s', s.nextSubID, t);
    }
  }

  lemma StepKeepsChannel(s: State, step: Step, cap: nat, t: Tid)
    requires Inv(s) && Enabled(s, step) && t in s.threads && HasChannel(s, t)
    ensures t in Apply(s, step, cap).threads && HasChannel(Apply(s, step, cap), t)
  {
    if !step.Consume? && step.tid == t {
      OwnStepKeepsChannel(s, step, cap);
    } else {
      OthersStay(s, step, cap, t);
      ChansAfter(s, step, cap);
      if s.closed {
        ClosedStays(s, step, cap);
      }
      hide Apply, Enabled;
      if id :| OwnedBy(s, id, t) {
        assert OwnedBy(Apply(s, step, cap), id, t);
      }
    }
  }

  lemma OpenKeepsLive(s: State, step: Step, cap: nat)
    requires Inv(s) && Enabled(s, step) && (!s.closed ==> s.chans.Keys <= s.live)
    ensures !Apply(s, step, cap).closed ==> Apply(s, step, cap).chans.Keys <= Apply(s, step, cap).live
  {
    if !step.Consume? {
      assert ThreadHolds(s, step.tid);
    }
  }

  lemma StepKeepsOwners(s: State, step: Step, cap: nat)
    requires Inv(s) && Owners(s) && Enabled(s, step)
    ensures Owners(Apply(s, step, cap))
  {
    hide Apply, Enabled, Inv, GoodOwner, HasChannel;
    ChansAfter(s, step, cap);
    OpenKeepsLive(s, step, cap);
    SameThreads(s, step, cap);
    if step.Insert? {
      NewOwner(s, step, cap);
    }
    var s' := Apply(s, step, cap);
    forall id | id in s'.chans ensures GoodOwner(s', id) {
      if id in s.chans {
        OldOwner(s, step, cap, id);
      }
    }
    forall t | t in s'.threads ensures HasChannel(s', t) {
      StepKeepsChannel(s, step, cap, t);
    }
  }

  lemma {:induction false} RunKeepsOwners(s: State, steps: seq<Step>, cap: nat)
    requires Inv(s) && Owners(s) && Run(s, steps, cap).Some?
    ensures Inv(Run(s, steps, cap).value) && Owners(Run(s, steps, cap).value)
    decreases |steps|
  {
    if steps != [] {
      StepKeepsInv(s, steps[0], cap);
      StepKeepsOwners(s, steps[0], cap);
      RunKeepsOwners(Apply(s, steps[0], cap), steps[1..], cap);
    }
  }

  /**
   In every run: a Subscribe that has returned from a bus still open owns one channel, which is open, live and of its
   topic, unless the topic was empty; and every channel was made by one Subscribe of its topic.
   */
  lemma {:induction false} FinishedSubscribeHasChannel(ops: map<Tid, Op>, steps: seq<Step>, cap: nat)
    requires Run(Init(ops), steps, cap).Some?
    ensures var s := Run(Init(ops), steps, cap).value;
            && (forall t | t in s.threads && s.threads[t].op.Subscribe? && s.threads[t].pc.Finished? && !s.closed
                           && s.threads[t].op.topic != "" ::
                  exists id :: OwnedBy(s, id, t) && id in TopicSubs(s, s.threads[t].op.topic) && !s.chans[id].closed)
            && OneEach(s)
            && (forall id | id in s.chans :: GoodOwner(s, id))
  {
    RunKeepsOwners(Init(ops), steps, cap);
    var s := Run(Init(ops), steps, cap).value;
    forall t | t in s.threads && s.threads[t].op.Subscribe? && s.threads[t].pc.Finished? && !s.closed
               && s.threads[t].op.topic != ""
      ensures exists id :: OwnedBy(s, id, t) && id in TopicSubs(s, s.threads[t].op.topic) && !s.chans[id].closed
    {
      OpenChannelIsLive(s, t);
    }
  }

  lemma OpenChannelIsLive(s: State, t: Tid)
    requires Inv(s) && Owners(s) && t in s.threads && s.threads[t].op.Subscribe? && s.threads[t].pc.Finished?
    requires !s.closed && s.threads[t].op.topic != ""
    ensures exists id :: OwnedBy(s, id, t) && id in TopicSubs(s, s.threads[t].op.topic) && !s.chans[id].closed
  {
    assert HasChannel(s, t);
    var id :| OwnedBy(s, id, t);
    assert GoodOwner(s, id);
    assert id in s.live;
  }

  // ---------- Close leaves nothing open ----------

  /** closeOnce lets a Close return only when the one that ran has finished. */
  ghost predicate ClosersDone(s: State)
  {
    forall t | t in s.threads && s.threads[t].op.Close? && s.threads[t].pc.Finished? :: s.once.Done?
  }

  lemma StepKeepsClosersDone(s: State, step: Step, cap: nat)
    requires Inv(s) && ClosersDone(s) && Enabled(s, step)
    ensures ClosersDone(Apply(s, step, cap))
  {
    if !step.Consume? {
      assert ThreadHolds(s, step.tid);
    }
  }

  lemma {:induction false} RunKeepsClosersDone(s: State, steps: seq<Step>, cap: nat)
    requires Inv(s) && ClosersDone(s) && Run(s, steps, cap).Some?
    ensures ClosersDone(Run(s, steps, cap).value)
    decreases |steps|
  {
    if steps != [] {
      StepKeepsInv(s, steps[0], cap);
      StepKeepsClosersDone(s, steps[0], cap);
      RunKeepsClosersDone(Apply(s, steps[0], cap), steps[1..], cap);
    }
  }

  /** In every run: once any call of Close has returned, the bus is closed and so is every channel ever made. */
  lemma {:induction false} FinishedCloseHasClosed(ops: map<Tid, Op>, steps: seq<Step>, cap: nat, t: Tid)
    requires Run(Init(ops), steps, cap).Some?
    requires var s := Run(Init(ops), steps, cap).value;
             t in s.threads && s.threads[t].op.Close? && s.threads[t].pc.Finished?
    ensures var s := Run(Init(ops), steps, cap).value;
            s.closed && s.live == {} && forall id | id in s.chans :: s.chans[id].closed
  {
    BusIsSafe(ops, steps, cap);
    RunKeepsClosersDone(Init(ops), steps, cap);
  }
}
