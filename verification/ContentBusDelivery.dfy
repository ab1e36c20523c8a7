/** What each subscriber of the content bus gets, over every run. */
module ContentBusDelivery {
  import opened ContentBus

  /** The events that sends to sub put in its channel, in order: those that met a queue with room. */
  function Accepted(offers: seq<Offer>, sub: SubId, cap: nat): seq<Event>
  {
    if offers == [] then []
    else
      var o := offers[|offers| - 1];
      Accepted(offers[..|offers| - 1], sub, cap) + if o.sub == sub && o.queued < cap then [o.event] else []
  }

  /** How often thread t has offered to sub. */
  function Times(offers: seq<Offer>, t: Tid, sub: SubId): nat
  {
    if offers == [] then 0
    else
      var o := offers[|offers| - 1];
      Times(offers[..|offers| - 1], t, sub) + if o.sender == t && o.sub == sub then 1 else 0
  }

  lemma {:induction false} AcceptedSnoc(offers: seq<Offer>, o: Offer, sub: SubId, cap: nat)
    ensures Accepted(offers + [o], sub, cap)
         == Accepted(offers, sub, cap) + if o.sub == sub && o.queued < cap then [o.event] else []
  {
    assert (offers + [o])[..|offers + [o]| - 1] == offers;
  }

  lemma {:induction false} TimesSnoc(offers: seq<Offer>, o: Offer, t: Tid, sub: SubId)
    ensures Times(offers + [o], t, sub) == Times(offers, t, sub) + if o.sender == t && o.sub == sub then 1 else 0
  {
    assert (offers + [o])[..|offers + [o]| - 1] == offers;
  }

  /** A channel has held exactly the accepted events: those taken out, then those still queued. */
  ghost predicate ChanHistory(s: State, id: SubId, cap: nat)
    requires id in s.chans
  {
    && |s.chans[id].queue| <= cap
    && s.chans[id].received + s.chans[id].queue == Accepted(s.offers, id, cap)
  }

  /** An offer goes to a subscription of its event's topic, carries its sender's event, and met at most a full queue. */
  ghost predicate GoodOffer(s: State, o: Offer, cap: nat)
  {
    && o.sub in s.chans && s.chans[o.sub].topic == o.event.topic
    && o.sender in s.threads && s.threads[o.sender].op == Publish(o.event)
    && o.queued <= cap
  }

  function StillPending(pc: Pc): set<SubId>
  {
    if pc.Sending? then pc.pending else {}
  }

  /** A publisher has offered once to each matched subscription that it is past, and to no other. */
  ghost predicate OfferedOnce(s: State, t: Tid)
    requires t in s.threads
  {
    var Thread(op, pc, matched) := s.threads[t];
    && (matched != {} ==> op.Publish? && (pc.Sending? || pc.SubsDone? || pc.Leaving? || pc.Finished?))
    && forall sub :: Times(s.offers, t, sub) == if sub in matched && sub !in StillPending(pc) then 1 else 0
  }

  ghost predicate History(s: State, cap: nat)
  {
    && (forall id | id in s.chans :: ChanHistory(s, id, cap))
    && (forall i | 0 <= i < |s.offers| :: GoodOffer(s, s.offers[i], cap))
    && (forall t | t in s.threads :: OfferedOnce(s, t))
  }

  lemma {:induction false} NoOffersYet(offers: seq<Offer>, id: SubId, cap: nat)
    requires forall i | 0 <= i < |offers| :: offers[i].sub != id
    ensures Accepted(offers, id, cap) == []
  {
    if offers != [] {
      NoOffersYet(offers[..|offers| - 1], id, cap);
    }
  }

  lemma SendKeepsChan(s: State, step: Step, cap: nat, id: SubId)
    requires step.Send? && Enabled(s, step) && id in s.chans && ChanHistory(s, id, cap)
    ensures ChanHistory(Apply(s, step, cap), id, cap)
  {
    var ch := s.chans[id];
    var o := Offer(step.tid, step.sub, s.threads[step.tid].op.event, |s.chans[step.sub].queue|);
    assert Apply(s, step, cap).offers == s.offers + [o];
    AcceptedSnoc(s.offers, o, id, cap);
    if id == step.sub && o.queued < cap {
      assert ch.received + (ch.queue + [o.event]) == ch.received + ch.queue + [o.event];
    } else {
      assert Accepted(s.offers, id, cap) + [] == Accepted(s.offers, id, cap);
    }
  }

  lemma ConsumeKeepsChan(s: State, step: Step, cap: nat, id: SubId)
    requires step.Consume? && Enabled(s, step) && id in s.chans && ChanHistory(s, id, cap)
    ensures ChanHistory(Apply(s, step, cap), id, cap)
  {
    var ch := s.chans[id];
    if id == step.sub {
      assert ch.received + [ch.queue[0]] + ch.queue[1..] == ch.received + ch.queue;
    }
  }

  /** No other step touches what a channel holds, or the record of offers. */
  lemma OthersKeepChan(s: State, step: Step, cap: nat, id: SubId)
    requires !step.Send? && !step.Consume? && Enabled(s, step) && id in s.chans && id != s.nextSubID
    ensures var s' := Apply(s, step, cap);
            && s'.offers == s.offers && id in s'.chans
            && s'.chans[id].queue == s.chans[id].queue && s'.chans[id].received == s.chans[id].received
  {
    hide TopicSubs;
  }

  lemma StepKeepsChan(s: State, step: Step, cap: nat, id: SubId)
    requires Inv(s) && History(s, cap) && Enabled(s, step) && id in s.chans
    ensures id in Apply(s, step, cap).chans && ChanHistory(Apply(s, step, cap), id, cap)
  {
    assert ChanHistory(s, id, cap);
    if step.Send? {
      SendKeepsChan(s, step, cap, id);
    } else if step.Consume? {
      ConsumeKeepsChan(s, step, cap, id);
    } else {
      OthersKeepChan(s, step, cap, id);
    }
  }

  /** A new subscription starts with an empty channel, and nothing has been offered to its number before. */
  lemma NewChan(s: State, step: Step, cap: nat)
    requires Channels(s) && History(s, cap) && Enabled(s, step) && step.Insert?
    ensures ChanHistory(Apply(s, step, cap), s.nextSubID, cap)
  {
    forall i | 0 <= i < |s.offers| ensures s.offers[i].sub != s.nextSubID {
      assert GoodOffer(s, s.offers[i], cap);
    }
    NoOffersYet(s.offers, s.nextSubID, cap);
  }

  lemma NewChans(s: State, step: Step, cap: nat, id: SubId)
    requires Enabled(s, step) && id in Apply(s, step, cap).chans && id !in s.chans
    ensures step.Insert? && id == s.nextSubID
  {
  }

  /** Numbers, topics and operations never change, so a good offer stays good. */
  lemma OldOffers(s: State, step: Step, cap: nat, o: Offer)
    requires Channels(s) && Enabled(s, step) && GoodOffer(s, o, cap)
    ensures GoodOffer(Apply(s, step, cap), o, cap)
  {
    hide TopicSubs;
    assert o.sub < s.nextSubID;
  }

  lemma NewOffer(s: State, step: Step, cap: nat)
    requires Inv(s) && History(s, cap) && Enabled(s, step) && step.Send?
    ensures var s' := Apply(s, step, cap);
            && |s'.offers| == |s.offers| + 1 && s'.offers[..|s.offers|] == s.offers
            && GoodOffer(s', s'.offers[|s.offers|], cap)
  {
    assert Current(s, step.tid) && ChanHistory(s, step.sub, cap);
  }

  lemma StepKeepsOffers(s: State, step: Step, cap: nat, i: nat)
    requires Inv(s) && History(s, cap) && Enabled(s, step) && i < |Apply(s, step, cap).offers|
    ensures GoodOffer(Apply(s, step, cap), Apply(s, step, cap).offers[i], cap)
  {
    if step.Send? {
      NewOffer(s, step, cap);
    }
    if i < |s.offers| {
      assert GoodOffer(s, s.offers[i], cap);
      OldOffers(s, step, cap, s.offers[i]);
      assert Apply(s, step, cap).offers[i] == s.offers[i];
    }
  }

  lemma SendKeepsOfferedOnce(s: State, step: Step, cap: nat, t: Tid)
    requires step.Send? && Enabled(s, step) && t in s.threads && OfferedOnce(s, t) && Current(s, t)
    ensures OfferedOnce(Apply(s, step, cap), t)
  {
    var o := Offer(step.tid, step.sub, s.threads[step.tid].op.event, |s.chans[step.sub].queue|);
    var s' := Apply(s, step, cap);
    assert s'.offers == s.offers + [o];
    forall sub
      ensures Times(s'.offers, t, sub) == Times(s.offers, t, sub) + if o.sender == t && o.sub == sub then 1 else 0
    {
      TimesSnoc(s.offers, o, t, sub);
    }
  }

  lemma OthersKeepOfferedOnce(s: State, step: Step, cap: nat, t: Tid)
    requires !step.Send? && Enabled(s, step) && t in s.threads && OfferedOnce(s, t) && ThreadHolds(s, t)
    ensures OfferedOnce(Apply(s, step, cap), t)
  {
    assert Apply(s, step, cap).offers == s.offers;
  }

  lemma StepKeepsOfferedOnce(s: State, step: Step, cap: nat, t: Tid)
    requires Inv(s) && History(s, cap) && Enabled(s, step) && t in s.threads
    ensures OfferedOnce(Apply(s, step, cap), t)
  {
    assert OfferedOnce(s, t) && Current(s, t) && ThreadHolds(s, t);
    if step.Send? {
      SendKeepsOfferedOnce(s, step, cap, t);
    } else {
      OthersKeepOfferedOnce(s, step, cap, t);
    }
  }

  lemma StepKeepsHistory(s: State, step: Step, cap: nat)
    requires Inv(s) && History(s, cap) && Enabled(s, step)
    ensures History(Apply(s, step, cap), cap)
  {
    var s' := Apply(s, step, cap);
    forall id | id in s'.chans ensures ChanHistory(s', id, cap) {
      if id in s.chans {
        StepKeepsChan(s, step, cap, id);
      } else {
        NewChans(s, step, cap, id);
        NewChan(s, step, cap);
      }
    }
    forall i | 0 <= i < |s'.offers| ensures GoodOffer(s', s'.offers[i], cap) {
      StepKeepsOffers(s, step, cap, i);
    }
    forall t | t in s'.threads ensures OfferedOnce(s', t) {
      StepKeepsOfferedOnce(s, step, cap, t);
    }
  }

  lemma {:induction false} RunKeepsHistory(s: State, steps: seq<Step>, cap: nat)
    requires Inv(s) && History(s, cap) && Run(s, steps, cap).Some?
    ensures Inv(Run(s, steps, cap).value) && History(Run(s, steps, cap).value, cap)
    decreases |steps|
  {
    if steps != [] {
      StepKeepsInv(s, steps[0], cap);
      StepKeepsHistory(s, steps[0], cap);
      RunKeepsHistory(Apply(s, steps[0], cap), steps[1..], cap);
    }
  }

  lemma {:induction false} AcceptedHaveTopic(offers: seq<Offer>, sub: SubId, cap: nat, topic: string)
    requires forall i | 0 <= i < |offers| && offers[i].sub == sub :: offers[i].event.topic == topic
    ensures forall e | e in Accepted(offers, sub, cap) :: e.topic == topic
  {
    if offers != [] {
      AcceptedHaveTopic(offers[..|offers| - 1], sub, cap, topic);
    }
  }

  /**
   In every run: what a subscriber has received, followed by what is queued for it, is exactly the events
   offered to it that met room, in the order of the offers; they all carry its topic; the queue never
   exceeds the buffer, so an offer is missed only when it met a full buffer.
   */
  lemma {:induction false} SubscriberGetsAcceptedOffers(ops: map<Tid, Op>, steps: seq<Step>, cap: nat, id: SubId)
    requires Run(Init(ops), steps, cap).Some? && id in Run(Init(ops), steps, cap).value.chans
    ensures var s := Run(Init(ops), steps, cap).value;
            var ch := s.chans[id];
            && ch.received + ch.queue == Accepted(s.offers, id, cap)
            && |ch.queue| <= cap
            && (forall e | e in ch.received + ch.queue :: e.topic == ch.topic)
            && (forall i | 0 <= i < |s.offers| :: s.offers[i].queued <= cap)
  {
    RunKeepsHistory(Init(ops), steps, cap);
    var s := Run(Init(ops), steps, cap).value;
    assert ChanHistory(s, id, cap);
    forall i | 0 <= i < |s.offers|
      ensures s.offers[i].queued <= cap && (s.offers[i].sub == id ==> s.offers[i].event.topic == s.chans[id].topic)
    {
      assert GoodOffer(s, s.offers[i], cap);
    }
    AcceptedHaveTopic(s.offers, id, cap, s.chans[id].topic);
  }

  /**
   In every run: a publisher that has come to the end of its loop has offered its event exactly once to each
   subscription of the topic that exists at that moment, and to nothing else.
   */
  lemma {:induction false} PublishOffersToEverySubscriber(ops: map<Tid, Op>, steps: seq<Step>, cap: nat, t: Tid,
                                                          sub: SubId)
    requires Run(Init(ops), steps, cap).Some?
    requires var s := Run(Init(ops), steps, cap).value;
             t in s.threads && s.threads[t].op.Publish? && s.threads[t].pc == Sending({})
    ensures var s := Run(Init(ops), steps, cap).value;
            Times(s.offers, t, sub) == if sub in TopicSubs(s, s.threads[t].op.event.topic) then 1 else 0
  {
    RunKeepsHistory(Init(ops), steps, cap);
    var s := Run(Init(ops), steps, cap).value;
    assert OfferedOnce(s, t) && Current(s, t);
  }
}
