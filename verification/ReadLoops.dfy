/**
 The read loops of all connections (go/node/transport.go): each has its own rate limiter, they share one
 deduplicator, and IsDuplicate, Mark and the handler call are apart.  A run is any interleaving of the
 steps below, with the cleanup ticker and the passing of time.
 */
module ReadLoops {
  import opened Bytes
  import opened RateLimiter
  import opened Dedup

  type LoopId = nat

  /** Waiting for a message; past the limiter and decryption; found not to be a duplicate; marked at a time. */
  datatype Pc = Ready | Received(id: ID) | Checked(id: ID) | Marked(id: ID, at: int)

  datatype Loop = Loop(bucket: Bucket, pc: Pc)

  /** One call of Mark, and one call of the handler for the message marked at the given time. */
  datatype Marking = Marking(loop: LoopId, id: ID, at: int)
  datatype Call = Call(loop: LoopId, id: ID, marked: int, at: int)

  datatype State = State(now: int, seen: Seen, loops: map<LoopId, Loop>, marks: seq<Marking>, calls: seq<Call>)

  datatype Config = Config(limit: RateLimiter.Config, ttl: int)

  /** A received message is None when it does not decrypt; a message is dropped when no handler is installed. */
  datatype Step =
    | Tick(dt: nat)
    | Cleanup
    | Receive(loop: LoopId, msg: Option<ID>)
    | AskDuplicate(loop: LoopId)
    | MarkSeen(loop: LoopId)
    | Handle(loop: LoopId, installed: bool)

  predicate Enabled(s: State, step: Step)
  {
    match step
    case Tick(_) => true
    case Cleanup => true
    case Receive(l, _) => l in s.loops && s.loops[l].pc.Ready?
    case AskDuplicate(l) => l in s.loops && s.loops[l].pc.Received?
    case MarkSeen(l) => l in s.loops && s.loops[l].pc.Checked?
    case Handle(l, _) => l in s.loops && s.loops[l].pc.Marked?
  }

  function At(s: State, l: LoopId, pc: Pc): map<LoopId, Loop>
    requires l in s.loops
  {
    s.loops[l := s.loops[l].(pc := pc)]
  }

  function Apply(c: Config, s: State, step: Step): State
    requires Enabled(s, step)
  {
    match step
    case Tick(dt) => s.(now := s.now + dt)
    case Cleanup => s.(seen := AfterSweep(s.seen, c.ttl, s.now))
    case Receive(l, msg) =>
      var (b, ok) := Take(c.limit, s.loops[l].bucket, s.now);
      s.(loops := s.loops[l := Loop(b, if ok && msg.Some? then Received(msg.value) else Ready)])
    case AskDuplicate(l) =>
      var id := s.loops[l].pc.id;
      s.(seen := AfterAsk(s.seen, c.ttl, id, s.now),
         loops := At(s, l, if Answer(s.seen, c.ttl, id, s.now) then Ready else Checked(id)))
    case MarkSeen(l) =>
      var id := s.loops[l].pc.id;
      s.(seen := AfterMark(s.seen, id, s.now), loops := At(s, l, Marked(id, s.now)),
         marks := s.marks + [Marking(l, id, s.now)])
    case Handle(l, installed) =>
      var Marked(id, at) := s.loops[l].pc;
      s.(loops := At(s, l, Ready), calls := if installed then s.calls + [Call(l, id, at, s.now)] else s.calls)
  }

  function Run(c: Config, s: State, steps: seq<Step>): Option<State>
    decreases |steps|
  {
    if steps == [] then Some(s)
    else if Enabled(s, steps[0]) then Run(c, Apply(c, s, steps[0]), steps[1..])
    else None
  }

  function Start(c: Config, loops: set<LoopId>, now: int): State
  {
    State(now, map[], map l | l in loops :: Loop(NewBucket(c.limit, now), Ready), [], [])
  }

  lemma {:induction false} RunCons(c: Config, s: State, step: Step, rest: seq<Step>)
    requires Enabled(s, step)
    ensures Run(c, s, [step] + rest) == Run(c, Apply(c, s, step), rest)
  {
    assert ([step] + rest)[1..] == rest;
  }

  lemma {:induction false} RunConcat(c: Config, s: State, a: seq<Step>, b: seq<Step>)
    requires Run(c, s, a).Some?
    ensures Run(c, s, a + b) == Run(c, Run(c, s, a).value, b)
    decreases |a|
  {
    if a == [] {
      assert a + b == b;
    } else {
      RunConcat(c, Apply(c, s, a[0]), a[1..], b);
      assert a + b == [a[0]] + (a[1..] + b);
      RunCons(c, s, a[0], a[1..] + b);
    }
  }

  // ---------- one loop marks a message ID at most once per ttl ----------

  /** A mark younger than the ttl is remembered, and no loop that made it is about to repeat it. */
  ghost predicate Remembered(c: Config, s: State, m: Marking)
  {
    && m.at <= s.now
    && (s.now - m.at <= c.ttl ==> m.id in s.seen && m.at <= s.seen[m.id])
    && (m.loop in s.loops && s.loops[m.loop].pc == Checked(m.id) ==> s.now - m.at > c.ttl)
  }

  ghost predicate AllRemembered(c: Config, s: State)
  {
    && (forall id | id in s.seen :: s.seen[id] <= s.now)
    && (forall i | 0 <= i < |s.marks| :: Remembered(c, s, s.marks[i]))
  }

  /** Two marks of one ID by one loop are more than the ttl apart. */
  ghost predicate Spaced(c: Config, ms: seq<Marking>)
  {
    forall i, j | 0 <= i < j < |ms| && ms[i].loop == ms[j].loop && ms[i].id == ms[j].id :: ms[j].at - ms[i].at > c.ttl
  }

  lemma StepRemembers(c: Config, s: State, step: Step, m: Marking)
    requires c.ttl > 0 && Enabled(s, step) && Remembered(c, s, m) && (m.id in s.seen ==> s.seen[m.id] <= s.now)
    ensures Remembered(c, Apply(c, s, step), m)
  {
  }

  lemma StepSpaces(c: Config, s: State, step: Step)
    requires c.ttl > 0 && Enabled(s, step) && AllRemembered(c, s) && Spaced(c, s.marks)
    ensures AllRemembered(c, Apply(c, s, step)) && Spaced(c, Apply(c, s, step).marks)
  {
    var s' := Apply(c, s, step);
    forall i | 0 <= i < |s'.marks| ensures Remembered(c, s', s'.marks[i]) {
      if i < |s.marks| {
        StepRemembers(c, s, step, s.marks[i]);
      }
    }
    forall i, j | 0 <= i < j < |s'.marks| && s'.marks[i].loop == s'.marks[j].loop && s'.marks[i].id == s'.marks[j].id
      ensures s'.marks[j].at - s'.marks[i].at > c.ttl
    {
      if j == |s.marks| {
        assert Remembered(c, s, s.marks[i]);
      }
    }
  }

  // ---------- and the handler calls follow their marks ----------

  /** A call comes at or after a Mark by the same loop. */
  ghost predicate FollowsMark(s: State, k: Call)
  {
    Marking(k.loop, k.id, k.marked) in s.marks && k.marked <= k.at <= s.now
  }

  /** A message marked and not yet handled: every earlier call for its ID by this loop was marked over a ttl before. */
  ghost predicate FreshMark(c: Config, s: State, l: LoopId)
    requires l in s.loops
  {
    s.loops[l].pc.Marked? ==>
      var Marked(id, at) := s.loops[l].pc;
      && Marking(l, id, at) in s.marks && at <= s.now
      && forall i | 0 <= i < |s.calls| && s.calls[i].loop == l && s.calls[i].id == id :: at - s.calls[i].marked > c.ttl
  }

  /** Two calls for one ID by one loop were marked more than the ttl apart. */
  ghost predicate CallsSpaced(c: Config, ks: seq<Call>)
  {
    forall i, j | 0 <= i < j < |ks| && ks[i].loop == ks[j].loop && ks[i].id == ks[j].id ::
      ks[j].marked - ks[i].marked > c.ttl
  }

  ghost predicate CallsInOrder(c: Config, s: State)
  {
    && (forall i | 0 <= i < |s.calls| :: FollowsMark(s, s.calls[i]))
    && (forall l | l in s.loops :: FreshMark(c, s, l))
    && CallsSpaced(c, s.calls)
  }

  lemma StepFollows(c: Config, s: State, step: Step, k: Call)
    requires Enabled(s, step) && FollowsMark(s, k)
    ensures FollowsMark(Apply(c, s, step), k)
  {
  }

  lemma StepKeepsFresh(c: Config, s: State, step: Step, l: LoopId)
    requires Enabled(s, step) && AllRemembered(c, s) && CallsInOrder(c, s) && l in s.loops
    ensures FreshMark(c, Apply(c, s, step), l)
  {
    assert FreshMark(c, s, l);
    if step == MarkSeen(l) {
      var id := s.loops[l].pc.id;
      forall i | 0 <= i < |s.calls| && s.calls[i].loop == l && s.calls[i].id == id
        ensures s.now - s.calls[i].marked > c.ttl
      {
        assert FollowsMark(s, s.calls[i]);
        var j :| 0 <= j < |s.marks| && s.marks[j] == Marking(l, id, s.calls[i].marked);
        assert Remembered(c, s, s.marks[j]);
      }
    }
  }

  lemma HandleSpaces(c: Config, s: State, step: Step)
    requires Enabled(s, step) && CallsInOrder(c, s)
    ensures CallsSpaced(c, Apply(c, s, step).calls)
  {
    if step.Handle? {
      assert FreshMark(c, s, step.loop);
    }
  }

  lemma StepKeepsCalls(c: Config, s: State, step: Step)
    requires Enabled(s, step) && AllRemembered(c, s) && CallsInOrder(c, s)
    ensures CallsInOrder(c, Apply(c, s, step))
  {
    var s' := Apply(c, s, step);
    forall i | 0 <= i < |s'.calls| ensures FollowsMark(s', s'.calls[i]) {
      if i < |s.calls| {
        StepFollows(c, s, step, s.calls[i]);
      } else {
        assert FreshMark(c, s, step.loop);
      }
    }
    forall l | l in s'.loops ensures FreshMark(c, s', l) {
      StepKeepsFresh(c, s, step, l);
    }
    HandleSpaces(c, s, step);
  }

  lemma {:induction false} RunSpaces(c: Config, s: State, steps: seq<Step>)
    requires c.ttl > 0 && AllRemembered(c, s) && Spaced(c, s.marks) && CallsInOrder(c, s) && Run(c, s, steps).Some?
    ensures Spaced(c, Run(c, s, steps).value.marks) && CallsInOrder(c, Run(c, s, steps).value)
    decreases |steps|
  {
    if steps != [] {
      StepSpaces(c, s, steps[0]);
      StepKeepsCalls(c, s, steps[0]);
      RunSpaces(c, Apply(c, s, steps[0]), steps[1..]);
    }
  }

  /**
   In every interleaving of any number of read loops, whatever the others do to the shared map: two marks of one ID
   by one loop are more than the ttl apart, and a later handler call for it comes more than the ttl after the Mark of
   an earlier one.  So two calls are at least ttl + 1 apart, less the delay between the earlier call and its Mark.
   */
  lemma {:induction false} AtMostOncePerLoop(c: Config, loops: set<LoopId>, start: int, steps: seq<Step>)
    requires c.ttl > 0 && Run(c, Start(c, loops, start), steps).Some?
    ensures var s := Run(c, Start(c, loops, start), steps).value;
            && Spaced(c, s.marks)
            && (forall i | 0 <= i < |s.calls| :: FollowsMark(s, s.calls[i]))
            && (forall i, j | 0 <= i < j < |s.calls| && s.calls[i].loop == s.calls[j].loop
                              && s.calls[i].id == s.calls[j].id :: s.calls[j].at - s.calls[i].marked > c.ttl)
  {
    RunSpaces(c, Start(c, loops, start), steps);
    var s := Run(c, Start(c, loops, start), steps).value;
    forall i | 0 <= i < |s.calls| ensures FollowsMark(s, s.calls[i]) {
    }
  }

  // ---------- that bound is attained ----------

  /** A message that loop 0 takes from the connection to the handler, which it reaches d after the Mark. */
  function Passage(id: ID, d: nat): seq<Step>
  {
    [Receive(0, Some(id))] + ([AskDuplicate(0)] + ([MarkSeen(0)] + ([Tick(d)] + ([Handle(0, true)] + []))))
  }

  lemma {:induction false} PassageRuns(c: Config, s: State, id: ID, d: nat)
    requires s.loops.Keys == {0} && s.loops[0].pc.Ready? && Take(c.limit, s.loops[0].bucket, s.now).1
    requires !Answer(s.seen, c.ttl, id, s.now)
    ensures var r := Run(c, s, Passage(id, d));
            && r.Some? && r.value.now == s.now + d && r.value.calls == s.calls + [Call(0, id, s.now, s.now + d)]
            && r.value.loops == map[0 := Loop(Take(c.limit, s.loops[0].bucket, s.now).0, Ready)]
            && id in r.value.seen && r.value.seen[id] == s.now
  {
    var s1 := Apply(c, s, Receive(0, Some(id)));
    var s2 := Apply(c, s1, AskDuplicate(0));
    var s3 := Apply(c, s2, MarkSeen(0));
    var s4 := Apply(c, s3, Tick(d));
    RunCons(c, s4, Handle(0, true), []);
    RunCons(c, s3, Tick(d), [Handle(0, true)] + []);
    RunCons(c, s2, MarkSeen(0), [Tick(d)] + ([Handle(0, true)] + []));
    RunCons(c, s1, AskDuplicate(0), [MarkSeen(0)] + ([Tick(d)] + ([Handle(0, true)] + [])));
    RunCons(c, s, Receive(0, Some(id)), [AskDuplicate(0)] + ([MarkSeen(0)] + ([Tick(d)] + ([Handle(0, true)] + []))));
  }

  /** Handler calls may come closer than the ttl: for every delay d, two calls ttl + 1 - d apart. */
  lemma {:induction false} CallsMayBeClose(c: Config, id: ID, d: nat)
    requires c.ttl > 0 && c.limit.maxTokens >= 2 && d <= c.ttl + 1
    ensures var steps := Passage(id, d) + ([Tick(c.ttl + 1 - d)] + Passage(id, 0));
            var r := Run(c, Start(c, {0}, 0), steps);
            && r.Some? && |r.value.calls| == 2
            && r.value.calls[0] == Call(0, id, 0, d) && r.value.calls[1] == Call(0, id, c.ttl + 1, c.ttl + 1)
  {
    var s0 := Start(c, {0}, 0);
    PassageRuns(c, s0, id, d);
    var s1 := Run(c, s0, Passage(id, d)).value;
    RunConcat(c, s0, Passage(id, d), [Tick(c.ttl + 1 - d)] + Passage(id, 0));
    RunCons(c, s1, Tick(c.ttl + 1 - d), Passage(id, 0));
    PassageRuns(c, Apply(c, s1, Tick(c.ttl + 1 - d)), id, 0);
  }

  // ---------- no more is handled than the limiter grants ----------

  function HandledBy(ks: seq<Call>, l: LoopId): nat
  {
    if ks == [] then 0
    else HandledBy(ks[..|ks| - 1], l) + if ks[|ks| - 1].loop == l then 1 else 0
  }

  /** Messages that took a token: handled, or on their way. */
  function Taken(s: State, l: LoopId): nat
    requires l in s.loops
  {
    HandledBy(s.calls, l) + if s.loops[l].pc.Ready? then 0 else 1
  }

  /** Messages handled or on their way, plus tokens held or still to arrive by end, fit the initial budget. */
  ghost predicate Budgeted(c: Config, s: State, l: LoopId, start: int, end: int)
  {
    && l in s.loops
    && var lp := s.loops[l];
    && InRange(c.limit, lp.bucket) && start <= lp.bucket.lastRefill <= s.now
    && Taken(s, l) + Held(lp.bucket) + Inflow(c.limit) * WholeSeconds(end - lp.bucket.lastRefill)
       <= Burst(c.limit) + Inflow(c.limit) * WholeSeconds(end - start)
  }

  /** A message that arrives takes a token. */
  lemma ReceiveBudgeted(c: Config, s: State, step: Step, l: LoopId, start: int, end: int)
    requires Budgeted(c, s, l, start, end) && Enabled(s, step) && s.now <= end && step.Receive?
    ensures Budgeted(c, Apply(c, s, step), l, start, end)
  {
    if step.loop == l {
      StepSpends(c.limit, s.loops[l].bucket, s.now, end);
    }
  }

  lemma HandleTakesNone(c: Config, s: State, step: Step, l: LoopId)
    requires Enabled(s, step) && !step.Receive? && l in s.loops
    ensures var s' := Apply(c, s, step);
            l in s'.loops && s'.loops[l].bucket == s.loops[l].bucket && s'.now >= s.now && Taken(s', l) <= Taken(s, l)
  {
    var s' := Apply(c, s, step);
    if step.Handle? && step.installed {
      assert s'.calls[..|s'.calls| - 1] == s.calls;
    }
  }

  /** Handling a message or dropping a duplicate touches no token. */
  lemma HandleBudgeted(c: Config, s: State, step: Step, l: LoopId, start: int, end: int)
    requires Budgeted(c, s, l, start, end) && Enabled(s, step) && !step.Receive?
    ensures Budgeted(c, Apply(c, s, step), l, start, end)
  {
    HandleTakesNone(c, s, step, l);
  }

  lemma StepBudgeted(c: Config, s: State, step: Step, l: LoopId, start: int, end: int)
    requires Budgeted(c, s, l, start, end) && Enabled(s, step) && s.now <= end
    ensures Budgeted(c, Apply(c, s, step), l, start, end)
  {
    if step.Receive? {
      ReceiveBudgeted(c, s, step, l, start, end);
    } else {
      HandleBudgeted(c, s, step, l, start, end);
    }
  }

  lemma {:induction false} RunBudgeted(c: Config, s: State, steps: seq<Step>, l: LoopId, start: int, end: int)
    requires Budgeted(c, s, l, start, end) && Run(c, s, steps).Some? && Run(c, s, steps).value.now <= end
    ensures s.now <= end && Budgeted(c, Run(c, s, steps).value, l, start, end)
    decreases |steps|
  {
    if steps != [] {
      TimeNeverFalls(c, s, steps);
      StepBudgeted(c, s, steps[0], l, start, end);
      RunBudgeted(c, Apply(c, s, steps[0]), steps[1..], l, start, end);
    }
  }

  lemma {:induction false} TimeNeverFalls(c: Config, s: State, steps: seq<Step>)
    requires Run(c, s, steps).Some?
    ensures s.now <= Run(c, s, steps).value.now
    decreases |steps|
  {
    if steps != [] {
      TimeNeverFalls(c, Apply(c, s, steps[0]), steps[1..]);
    }
  }

  /** What one connection gets handled, in any run, is bounded by its burst and its refill rate. */
  lemma {:induction false} HandledIsRateLimited(c: Config, loops: set<LoopId>, start: int, steps: seq<Step>, l: LoopId)
    requires l in loops && Run(c, Start(c, loops, start), steps).Some?
    ensures var s := Run(c, Start(c, loops, start), steps).value;
            HandledBy(s.calls, l) <= Burst(c.limit) + Inflow(c.limit) * WholeSeconds(s.now - start)
  {
    var s0 := Start(c, loops, start);
    var s := Run(c, s0, steps).value;
    RunBudgeted(c, s0, steps, l, start, s.now);
    assert Inflow(c.limit) * WholeSeconds(s.now - s.loops[l].bucket.lastRefill) >= 0;
  }
}
