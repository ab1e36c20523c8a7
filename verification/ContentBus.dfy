/**
 The content bus (go/pkg/contentbus/controller.go) as a machine of steps: any number of threads run
 Subscribe, Publish (or handleMessage, which delivers in the same way) and Close under the two
 read-write locks mu and subsMu, and subscribers receive from their channels at any time.
 */
module ContentBus {
  import opened Bytes

  type Tid = nat
  type SubId = nat

  datatype Event = Event(topic: string, payload: seq<Byte>)

  datatype Op = Subscribe(topic: string) | Publish(event: Event) | Close

  /** A Go RWMutex: a writer that has called Lock blocks later readers while it waits. */
  datatype RWLock = RWLock(writer: Option<Tid>, readers: set<Tid>, waiting: set<Tid>)

  datatype Pc =
    | Start
    | OnceWon    // Close: inside closeOnce.Do
    | WantMu     // Close: has called mu.Lock
    | MuHeld
    | WantSubs   // past the closed check; Subscribe and Close have called subsMu.Lock
    | SubsHeld   // Subscribe, Close: inside subsMu.Lock
    | Sending(pending: set<SubId>)  // Publish: inside subsMu.RLock, these channels still to offer to
    | SubsDone   // about to release subsMu
    | Leaving    // about to release mu
    | Finished

  /** matched: the subscriptions that deliver's loop ranges over, once it has the read lock. */
  datatype Thread = Thread(op: Op, pc: Pc, matched: set<SubId>)

  /** The channel that a call of Subscribe made: what is queued in it, what was taken out, whether it is closed. */
  datatype Chan = Chan(owner: Tid, topic: string, queue: seq<Event>, received: seq<Event>, closed: bool)

  datatype Once = NotRun | Running(tid: Tid) | Done

  /** One non-blocking send by deliver: queued is the length of the queue it met. */
  datatype Offer = Offer(sender: Tid, sub: SubId, event: Event, queued: nat)

  datatype State = State(
    mu: RWLock,
    subsMu: RWLock,
    once: Once,
    closed: bool,
    nextSubID: nat,
    live: set<SubId>,
    chans: map<SubId, Chan>,
    threads: map<Tid, Thread>,
    offers: seq<Offer>,
    panicked: bool)

  datatype Step =
    | RejectTopic(tid: Tid)
    | RLockMu(tid: Tid)
    | CheckOpen(tid: Tid)
    | LockSubs(tid: Tid)
    | Insert(tid: Tid)
    | RLockSubs(tid: Tid)
    | Send(tid: Tid, sub: SubId)
    | EndSend(tid: Tid)
    | WinOnce(tid: Tid)
    | SkipOnce(tid: Tid)
    | AnnounceMu(tid: Tid)
    | LockMu(tid: Tid)
    | SetClosed(tid: Tid)
    | CloseOne(tid: Tid, sub: SubId)
    | EndClose(tid: Tid)
    | UnlockSubs(tid: Tid)
    | UnlockMu(tid: Tid)
    | Consume(sub: SubId)

  function Topic(op: Op): string
    requires !op.Close?
  {
    if op.Subscribe? then op.topic else op.event.topic
  }

  predicate CanRead(l: RWLock) { l.writer.None? && l.waiting == {} }
  predicate CanWrite(l: RWLock) { l.writer.None? && l.readers == {} }

  function TopicSubs(s: State, topic: string): set<SubId>
  {
    set id | id in s.live && id in s.chans && s.chans[id].topic == topic
  }

  predicate Enabled(s: State, step: Step)
  {
    if step.Consume? then step.sub in s.chans && s.chans[step.sub].queue != []
    else
      && step.tid in s.threads
      && var Thread(op, pc, _) := s.threads[step.tid];
      match step
      case RejectTopic(_) => pc.Start? && !op.Close? && Topic(op) == ""
      case RLockMu(_) => pc.Start? && !op.Close? && Topic(op) != "" && CanRead(s.mu)
      case CheckOpen(_) => pc.MuHeld? && !op.Close?
      case LockSubs(_) => pc.WantSubs? && !op.Publish? && CanWrite(s.subsMu)
      case Insert(_) => pc.SubsHeld? && op.Subscribe?
      case RLockSubs(_) => pc.WantSubs? && op.Publish? && CanRead(s.subsMu)
      case Send(_, sub) => pc.Sending? && op.Publish? && sub in pc.pending && sub in s.chans
      case EndSend(_) => pc.Sending? && pc.pending == {}
      case WinOnce(_) => pc.Start? && op.Close? && s.once.NotRun?
      case SkipOnce(_) => pc.Start? && op.Close? && s.once.Done?
      case AnnounceMu(_) => pc.OnceWon?
      case LockMu(_) => pc.WantMu? && CanWrite(s.mu)
      case SetClosed(_) => pc.MuHeld? && op.Close?
      case CloseOne(_, sub) => pc.SubsHeld? && op.Close? && sub in s.live && sub in s.chans
      case EndClose(_) => pc.SubsHeld? && op.Close? && s.live == {}
      case UnlockSubs(_) => pc.SubsDone?
      case UnlockMu(_) => pc.Leaving?
  }

  function At(s: State, t: Tid, pc: Pc): map<Tid, Thread>
    requires t in s.threads
  {
    s.threads[t := s.threads[t].(pc := pc)]
  }

  /** A send on a closed channel, or closing one twice, panics. */
  function Apply(s: State, step: Step, cap: nat): State
    requires Enabled(s, step)
  {
    if step.Consume? then
      var ch := s.chans[step.sub];
      s.(chans := s.chans[step.sub := ch.(queue := ch.queue[1..], received := ch.received + [ch.queue[0]])])
    else
      var t := step.tid;
      var op := s.threads[t].op;
      match step
      case RejectTopic(_) => s.(threads := At(s, t, Finished))
      case RLockMu(_) => s.(mu := s.mu.(readers := s.mu.readers + {t}), threads := At(s, t, MuHeld))
      case CheckOpen(_) =>
        if s.closed then s.(threads := At(s, t, Leaving))
        else if op.Publish? then s.(threads := At(s, t, WantSubs))
        else s.(subsMu := s.subsMu.(waiting := s.subsMu.waiting + {t}), threads := At(s, t, WantSubs))
      case LockSubs(_) =>
        s.(subsMu := RWLock(Some(t), s.subsMu.readers, s.subsMu.waiting - {t}), threads := At(s, t, SubsHeld))
      case Insert(_) =>
        s.(nextSubID := s.nextSubID + 1, live := s.live + {s.nextSubID},
           chans := s.chans[s.nextSubID := Chan(t, op.topic, [], [], false)], threads := At(s, t, SubsDone))
      case RLockSubs(_) =>
        var subs := TopicSubs(s, op.event.topic);
        s.(subsMu := s.subsMu.(readers := s.subsMu.readers + {t}),
           threads := s.threads[t := Thread(op, Sending(subs), subs)])
      case Send(_, sub) =>
        var ch := s.chans[sub];
        s.(threads := At(s, t, Sending(s.threads[t].pc.pending - {sub})),
           offers := s.offers + [Offer(t, sub, op.event, |ch.queue|)],
           panicked := s.panicked || ch.closed,
           chans := if |ch.queue| < cap then s.chans[sub := ch.(queue := ch.queue + [op.event])] else s.chans)
      case EndSend(_) => s.(threads := At(s, t, SubsDone))
      case WinOnce(_) => s.(once := Running(t), threads := At(s, t, OnceWon))
      case SkipOnce(_) => s.(threads := At(s, t, Finished))
      case AnnounceMu(_) => s.(mu := s.mu.(waiting := s.mu.waiting + {t}), threads := At(s, t, WantMu))
      case LockMu(_) => s.(mu := RWLock(Some(t), s.mu.readers, s.mu.waiting - {t}), threads := At(s, t, MuHeld))
      case SetClosed(_) =>
        s.(closed := true, subsMu := s.subsMu.(waiting := s.subsMu.waiting + {t}), threads := At(s, t, WantSubs))
      case CloseOne(_, sub) =>
        s.(live := s.live - {sub}, panicked := s.panicked || s.chans[sub].closed,
           chans := s.chans[sub := s.chans[sub].(closed := true)])
      case EndClose(_) => s.(threads := At(s, t, SubsDone))
      case UnlockSubs(_) =>
        s.(subsMu := if op.Publish? then s.subsMu.(readers := s.subsMu.readers - {t}) else s.subsMu.(writer := None),
           threads := At(s, t, Leaving))
      case UnlockMu(_) =>
        if op.Close? then s.(mu := s.mu.(writer := None), once := Done, threads := At(s, t, Finished))
        else s.(mu := s.mu.(readers := s.mu.readers - {t}), threads := At(s, t, Finished))
  }

  function Run(s: State, steps: seq<Step>, cap: nat): Option<State>
    decreases |steps|
  {
    if steps == [] then Some(s)
    else if Enabled(s, steps[0]) then Run(Apply(s, steps[0], cap), steps[1..], cap)
    else None
  }

  lemma {:induction false} RunCons(s: State, step: Step, rest: seq<Step>, cap: nat)
    requires Enabled(s, step)
    ensures Run(s, [step] + rest, cap) == Run(Apply(s, step, cap), rest, cap)
  {
    assert ([step] + rest)[1..] == rest;
  }

  lemma {:induction false} RunConcat(s: State, a: seq<Step>, b: seq<Step>, cap: nat)
    requires Run(s, a, cap).Some?
    ensures Run(s, a + b, cap) == Run(Run(s, a, cap).value, b, cap)
    decreases |a|
  {
    if a == [] {
      assert a + b == b;
    } else {
      RunConcat(Apply(s, a[0], cap), a[1..], b, cap);
      assert a + b == [a[0]] + (a[1..] + b);
      RunCons(s, a[0], a[1..] + b, cap);
    }
  }

  function Init(ops: map<Tid, Op>): State
  {
    State(RWLock(None, {}, {}), RWLock(None, {}, {}), NotRun, false, 0, {}, map[],
          map t | t in ops :: Thread(ops[t], Start, {}), [], false)
  }

  // ---------- the locks protect what they should ----------

  predicate PastMu(pc: Pc)
  {
    pc.MuHeld? || pc.WantSubs? || pc.SubsHeld? || pc.Sending? || pc.SubsDone? || pc.Leaving?
  }

  /** A thread appears in the locks, and in closeOnce, exactly where its program counter says. */
  ghost predicate ThreadHolds(s: State, t: Tid)
    requires t in s.threads
  {
    var Thread(op, pc, _) := s.threads[t];
    && (t in s.mu.readers <==> !op.Close? && PastMu(pc))
    && (s.mu.writer == Some(t) <==> op.Close? && PastMu(pc))
    && (t in s.mu.waiting <==> op.Close? && pc.WantMu?)
    && (t in s.subsMu.readers <==> op.Publish? && (pc.Sending? || pc.SubsDone?))
    && (s.subsMu.writer == Some(t) <==> !op.Publish? && (pc.SubsHeld? || pc.SubsDone?))
    && (t in s.subsMu.waiting <==> !op.Publish? && pc.WantSubs?)
    && (s.once == Running(t) <==> op.Close? && !pc.Start? && !pc.Finished?)
    && (pc.OnceWon? || pc.WantMu? ==> op.Close?)
    && (pc.Sending? ==> op.Publish?)
    && (pc.SubsHeld? ==> !op.Publish?)
  }

  ghost predicate Known(s: State, l: RWLock)
  {
    && (l.writer.Some? ==> l.writer.value in s.threads && l.readers == {})
    && l.readers <= s.threads.Keys && l.waiting <= s.threads.Keys
  }

  /** The locks and closeOnce name only known threads, and a writer excludes readers. */
  ghost predicate KnownHolders(s: State)
  {
    Known(s, s.mu) && Known(s, s.subsMu) && (s.once.Running? ==> s.once.tid in s.threads)
  }

  ghost predicate Locks(s: State)
  {
    && KnownHolders(s)
    && forall t | t in s.threads :: ThreadHolds(s, t)
  }

  /** closed is set by the one closer, at its SetClosed step, and never cleared. */
  ghost predicate ClosedByCloser(s: State)
  {
    match s.once
    case NotRun => !s.closed
    case Running(t) =>
      && t in s.threads
      && var pc := s.threads[t].pc;
      (s.closed <==> pc.WantSubs? || pc.SubsHeld? || pc.SubsDone? || pc.Leaving?)
    case Done => s.closed
  }

  /** The closer has set closed and may still have channels to close. */
  ghost predicate Sweeping(s: State)
  {
    && s.once.Running? && s.once.tid in s.threads
    && (s.threads[s.once.tid].pc.WantSubs? || s.threads[s.once.tid].pc.SubsHeld?)
  }

  /** The channels of live subscriptions are open, all others closed; once the closer is done none is live. */
  ghost predicate Channels(s: State)
  {
    && ClosedByCloser(s)
    && s.live <= s.chans.Keys
    && (forall id | id in s.chans :: id < s.nextSubID && (s.chans[id].closed <==> id !in s.live))
    && (s.closed ==> s.live == {} || Sweeping(s))
    && !s.panicked
  }

  /** While a thread is past the closed check the bus is open, and while it sends no subscription comes or goes. */
  ghost predicate Current(s: State, t: Tid)
    requires t in s.threads
  {
    var Thread(op, pc, matched) := s.threads[t];
    && (!op.Close? && (pc.WantSubs? || pc.SubsHeld? || pc.Sending?) ==> !s.closed)
    && (pc.Sending? && op.Publish? ==> matched == TopicSubs(s, op.event.topic) && pc.pending <= matched)
  }

  ghost predicate Inv(s: State)
  {
    Locks(s) && Channels(s) && forall t | t in s.threads :: Current(s, t)
  }

  /** The steps that touch mu and closeOnce only. */
  predicate OnMu(step: Step)
  {
    || step.RejectTopic? || step.RLockMu? || step.WinOnce? || step.SkipOnce?
    || step.AnnounceMu? || step.LockMu? || step.UnlockMu?
  }

  lemma MuStepMovesItsThread(s: State, step: Step, cap: nat)
    requires Locks(s) && Enabled(s, step) && OnMu(step)
    ensures ThreadHolds(Apply(s, step, cap), step.tid)
  {
    assert ThreadHolds(s, step.tid);
  }

  lemma SubsStepMovesItsThread(s: State, step: Step, cap: nat)
    requires Locks(s) && Enabled(s, step) && !OnMu(step) && !step.Consume?
    ensures ThreadHolds(Apply(s, step, cap), step.tid)
  {
    assert ThreadHolds(s, step.tid);
  }

  lemma MuStepKeepsOtherThreads(s: State, step: Step, cap: nat, t: Tid)
    requires Locks(s) && Enabled(s, step) && OnMu(step) && t in s.threads && t != step.tid
    ensures ThreadHolds(Apply(s, step, cap), t)
  {
    assert ThreadHolds(s, t) && ThreadHolds(s, step.tid);
  }

  lemma SubsStepKeepsOtherThreads(s: State, step: Step, cap: nat, t: Tid)
    requires Locks(s) && Enabled(s, step) && !OnMu(step) && t in s.threads && (step.Consume? || t != step.tid)
    ensures ThreadHolds(Apply(s, step, cap), t)
  {
    assert ThreadHolds(s, t);
    if !step.Consume? {
      assert ThreadHolds(s, step.tid);
    }
  }

  lemma StepKeepsThread(s: State, step: Step, cap: nat, t: Tid)
    requires Locks(s) && Enabled(s, step) && t in s.threads
    ensures t in Apply(s, step, cap).threads && ThreadHolds(Apply(s, step, cap), t)
  {
    if OnMu(step) {
      if t == step.tid {
        MuStepMovesItsThread(s, step, cap);
      } else {
        MuStepKeepsOtherThreads(s, step, cap, t);
      }
    } else if !step.Consume? && t == step.tid {
      SubsStepMovesItsThread(s, step, cap);
    } else {
      SubsStepKeepsOtherThreads(s, step, cap, t);
    }
  }

  lemma MuStepKeepsHolders(s: State, step: Step, cap: nat)
    requires KnownHolders(s) && Enabled(s, step) && OnMu(step)
    ensures KnownHolders(Apply(s, step, cap)) && Apply(s, step, cap).threads.Keys == s.threads.Keys
  {
  }

  lemma SubsStepKeepsHolders(s: State, step: Step, cap: nat)
    requires KnownHolders(s) && Enabled(s, step) && !OnMu(step)
    ensures KnownHolders(Apply(s, step, cap)) && Apply(s, step, cap).threads.Keys == s.threads.Keys
  {
  }

  lemma StepKeepsLocks(s: State, step: Step, cap: nat)
    requires Locks(s) && Enabled(s, step)
    ensures Locks(Apply(s, step, cap))
  {
    hide Apply, Enabled, ThreadHolds;
    if OnMu(step) {
      MuStepKeepsHolders(s, step, cap);
    } else {
      SubsStepKeepsHolders(s, step, cap);
    }
    forall t | t in s.threads ensures ThreadHolds(Apply(s, step, cap), t) {
      StepKeepsThread(s, step, cap, t);
    }
  }

  /** The steps that change neither a channel nor the closed flag. */
  predicate LockOnly(step: Step)
  {
    !step.Consume? && !step.Insert? && !step.Send? && !step.CloseOne? && !step.SetClosed?
  }

  lemma LockStepKeepsChannels(s: State, step: Step, cap: nat)
    requires Inv(s) && Enabled(s, step) && LockOnly(step)
    ensures Channels(Apply(s, step, cap))
  {
    assert ThreadHolds(s, step.tid);
    if s.once.Running? {
      assert ThreadHolds(s, s.once.tid);
    }
  }

  lemma DataStepKeepsChannels(s: State, step: Step, cap: nat)
    requires Inv(s) && Enabled(s, step) && !LockOnly(step)
    ensures Channels(Apply(s, step, cap))
  {
    if !step.Consume? {
      assert ThreadHolds(s, step.tid) && Current(s, step.tid);
      if s.once.Running? {
        assert ThreadHolds(s, s.once.tid);
      }
    }
  }

  lemma StepKeepsChannels(s: State, step: Step, cap: nat)
    requires Inv(s) && Enabled(s, step)
    ensures Channels(Apply(s, step, cap))
  {
    if LockOnly(step) {
      LockStepKeepsChannels(s, step, cap);
    } else {
      DataStepKeepsChannels(s, step, cap);
    }
  }

  ghost predicate SameSubs(s: State, s': State)
  {
    && s'.live == s.live && s'.chans.Keys == s.chans.Keys
    && forall id | id in s.chans :: s'.chans[id].topic == s.chans[id].topic
  }

  /** Nobody adds or removes a subscription while a publisher holds the read lock. */
  lemma SendersFreezeSubs(s: State, step: Step, cap: nat, t: Tid)
    requires Inv(s) && Enabled(s, step) && t in s.threads && t in s.subsMu.readers
    ensures SameSubs(s, Apply(s, step, cap))
  {
    if !step.Consume? {
      assert ThreadHolds(s, step.tid);
    }
  }

  lemma SameTopicSubs(s: State, s': State, topic: string)
    requires SameSubs(s, s')
    ensures TopicSubs(s', topic) == TopicSubs(s, topic)
  {
  }

  lemma ClosedChanges(s: State, step: Step, cap: nat)
    requires Enabled(s, step) && !step.SetClosed?
    ensures Apply(s, step, cap).closed == s.closed
  {
  }

  /** closed changes only when no other thread is past mu. */
  lemma OpenWhileInside(s: State, step: Step, cap: nat, t: Tid)
    requires Inv(s) && Enabled(s, step) && t in s.threads
    ensures var s' := Apply(s, step, cap);
            var Thread(op, pc, _) := s'.threads[t];
            !op.Close? && (pc.WantSubs? || pc.SubsHeld? || pc.Sending?) ==> !s'.closed
  {
    assert ThreadHolds(s, t) && Current(s, t);
    if step.SetClosed? {
      assert ThreadHolds(s, step.tid);
    } else {
      ClosedChanges(s, step, cap);
    }
  }

  lemma StepKeepsCurrent(s: State, step: Step, cap: nat, t: Tid)
    requires Inv(s) && Enabled(s, step) && t in s.threads
    ensures Current(Apply(s, step, cap), t)
  {
    OpenWhileInside(s, step, cap, t);
    assert ThreadHolds(s, t) && Current(s, t);
    var s' := Apply(s, step, cap);
    var Thread(op, pc, _) := s'.threads[t];
    if pc.Sending? && op.Publish? {
      if s.threads[t].pc.Sending? {
        SendersFreezeSubs(s, step, cap, t);
      }
      SameTopicSubs(s, s', op.event.topic);
    }
  }

  lemma StepKeepsInv(s: State, step: Step, cap: nat)
    requires Inv(s) && Enabled(s, step)
    ensures Inv(Apply(s, step, cap))
  {
    StepKeepsLocks(s, step, cap);
    StepKeepsChannels(s, step, cap);
    forall t | t in Apply(s, step, cap).threads ensures Current(Apply(s, step, cap), t) {
      StepKeepsCurrent(s, step, cap, t);
    }
  }

  lemma {:induction false} RunKeepsInv(s: State, steps: seq<Step>, cap: nat)
    requires Inv(s) && Run(s, steps, cap).Some?
    ensures Inv(Run(s, steps, cap).value)
    decreases |steps|
  {
    if steps != [] {
      StepKeepsInv(s, steps[0], cap);
      RunKeepsInv(Apply(s, steps[0], cap), steps[1..], cap);
    }
  }

  // ---------- main results on safety and progress ----------

  lemma {:induction false} RunInv(ops: map<Tid, Op>, steps: seq<Step>, cap: nat)
    requires Run(Init(ops), steps, cap).Some?
    ensures Inv(Run(Init(ops), steps, cap).value)
  {
    RunKeepsInv(Init(ops), steps, cap);
  }

  /**
   In every interleaving: nothing is sent on a closed channel and no channel is closed twice (either would
   panic); a channel is closed exactly when its subscription is gone; after Close no subscription remains.
   */
  lemma {:induction false} BusIsSafe(ops: map<Tid, Op>, steps: seq<Step>, cap: nat)
    requires Run(Init(ops), steps, cap).Some?
    ensures var s := Run(Init(ops), steps, cap).value;
            && !s.panicked
            && (forall id | id in s.chans :: s.chans[id].closed <==> id !in s.live)
            && (s.once.Done? ==> s.closed && s.live == {} && forall id | id in s.chans :: s.chans[id].closed)
  {
    RunInv(ops, steps, cap);
  }

  /** Some holder or waiter of subsMu can step. */
  lemma SubsMuMoves(s: State) returns (step: Step)
    requires Inv(s) && (s.subsMu.writer.Some? || s.subsMu.readers != {} || s.subsMu.waiting != {})
    ensures !step.Consume? && Enabled(s, step)
  {
    if s.subsMu.writer.Some? {
      var t := s.subsMu.writer.value;
      assert ThreadHolds(s, t);
      if s.threads[t].pc.SubsDone? {
        step := UnlockSubs(t);
      } else if s.threads[t].op.Subscribe? {
        step := Insert(t);
      } else if s.live == {} {
        step := EndClose(t);
      } else {
        var sub :| sub in s.live;
        step := CloseOne(t, sub);
      }
    } else if s.subsMu.readers != {} {
      var t :| t in s.subsMu.readers;
      assert ThreadHolds(s, t) && Current(s, t);
      if s.threads[t].pc.SubsDone? {
        step := UnlockSubs(t);
      } else if s.threads[t].pc.pending == {} {
        step := EndSend(t);
      } else {
        var sub :| sub in s.threads[t].pc.pending;
        step := Send(t, sub);
      }
    } else {
      var t :| t in s.subsMu.waiting;
      assert ThreadHolds(s, t);
      step := LockSubs(t);
    }
  }

  /** Otherwise some holder or waiter of mu can. */
  lemma MuMoves(s: State) returns (step: Step)
    requires Inv(s) && s.subsMu == RWLock(None, {}, {})
    requires s.mu.writer.Some? || s.mu.readers != {} || s.mu.waiting != {}
    ensures !step.Consume? && Enabled(s, step)
  {
    if s.mu.writer.Some? {
      var t := s.mu.writer.value;
      assert ThreadHolds(s, t);
      step := if s.threads[t].pc.MuHeld? then SetClosed(t) else UnlockMu(t);
    } else if s.mu.readers != {} {
      var t :| t in s.mu.readers;
      assert ThreadHolds(s, t);
      var pc := s.threads[t].pc;
      step := if pc.MuHeld? then CheckOpen(t) else if pc.WantSubs? then RLockSubs(t) else UnlockMu(t);
    } else {
      var t :| t in s.mu.waiting;
      assert ThreadHolds(s, t);
      step := LockMu(t);
    }
  }

  /** The locks are taken in the order mu, subsMu, so as long as a thread is unfinished some thread can step. */
  lemma BusNeverDeadlocks(ops: map<Tid, Op>, steps: seq<Step>, cap: nat, t: Tid) returns (step: Step)
    requires Run(Init(ops), steps, cap).Some?
    requires t in Run(Init(ops), steps, cap).value.threads && !Run(Init(ops), steps, cap).value.threads[t].pc.Finished?
    ensures !step.Consume? && Enabled(Run(Init(ops), steps, cap).value, step)
  {
    RunInv(ops, steps, cap);
    step := SomeThreadMoves(Run(Init(ops), steps, cap).value, t);
  }

  lemma SomeThreadMoves(s: State, t: Tid) returns (step: Step)
    requires Inv(s) && t in s.threads && !s.threads[t].pc.Finished?
    ensures !step.Consume? && Enabled(s, step)
  {
    if s.subsMu != RWLock(None, {}, {}) {
      step := SubsMuMoves(s);
    } else if s.mu != RWLock(None, {}, {}) {
      step := MuMoves(s);
    } else if s.once.Running? {
      assert ThreadHolds(s, s.once.tid);
      step := AnnounceMu(s.once.tid);
    } else {
      assert ThreadHolds(s, t);
      var op := s.threads[t].op;
      step := if op.Close? then (if s.once.NotRun? then WinOnce(t) else SkipOnce(t))
              else if Topic(op) == "" then RejectTopic(t) else RLockMu(t);
    }
  }
}
