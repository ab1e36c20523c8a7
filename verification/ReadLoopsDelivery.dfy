/** Which messages the read loops of go/node/transport.go drop, and that the others reach the handler. */
module ReadLoopsDelivery {
  import Dedup
  import RateLimiter
  import opened ReadLoops

  // ---------- dropped as duplicates: those marked within the ttl ----------

  ghost predicate WasMarked(ms: seq<Marking>, id: Dedup.ID, at: int)
  {
    exists i :: 0 <= i < |ms| && ms[i].id == id && ms[i].at == at
  }

  /** Every entry of the shared map is a mark that some loop made. */
  ghost predicate SeenIsMarked(s: State)
  {
    forall id | id in s.seen :: WasMarked(s.marks, id, s.seen[id])
  }

  ghost predicate RecentlyMarked(s: State, id: Dedup.ID, ttl: int)
  {
    exists i :: 0 <= i < |s.marks| && s.marks[i].id == id && s.now - s.marks[i].at <= ttl
  }

  lemma StepKeepsSeen(c: Config, s: State, step: Step)
    requires Enabled(s, step) && SeenIsMarked(s)
    ensures SeenIsMarked(Apply(c, s, step))
  {
    var s' := Apply(c, s, step);
    forall id | id in s'.seen ensures WasMarked(s'.marks, id, s'.seen[id]) {
      if step.MarkSeen? && id == s.loops[step.loop].pc.id {
        assert s'.marks[|s.marks|] == Marking(step.loop, id, s.now);
      } else {
        assert WasMarked(s.marks, id, s.seen[id]);
        var i :| 0 <= i < |s.marks| && s.marks[i].id == id && s.marks[i].at == s.seen[id];
        assert s'.marks[i] == s.marks[i];
      }
    }
  }

  lemma {:induction false} RunKeepsSeen(c: Config, s: State, steps: seq<Step>)
    requires c.ttl > 0 && AllRemembered(c, s) && Spaced(c, s.marks) && SeenIsMarked(s) && Run(c, s, steps).Some?
    ensures AllRemembered(c, Run(c, s, steps).value) && SeenIsMarked(Run(c, s, steps).value)
    decreases |steps|
  {
    if steps != [] {
      StepSpaces(c, s, steps[0]);
      StepKeepsSeen(c, s, steps[0]);
      RunKeepsSeen(c, Apply(c, s, steps[0]), steps[1..]);
    }
  }

  lemma AnswerIsByMarks(c: Config, s: State, id: Dedup.ID)
    requires c.ttl > 0 && AllRemembered(c, s) && SeenIsMarked(s)
    ensures Dedup.Answer(s.seen, c.ttl, id, s.now) <==> RecentlyMarked(s, id, c.ttl)
  {
    if Dedup.Answer(s.seen, c.ttl, id, s.now) {
      assert WasMarked(s.marks, id, s.seen[id]);
    }
    if i :| 0 <= i < |s.marks| && s.marks[i].id == id && s.now - s.marks[i].at <= c.ttl {
      assert Remembered(c, s, s.marks[i]);
    }
  }

  /** In every run a loop drops a message as a duplicate if and only if some loop marked its ID within the last ttl. */
  lemma {:induction false} DropsExactlyDuplicates(c: Config, loops: set<LoopId>, start: int, steps: seq<Step>,
                                                  l: LoopId)
    requires c.ttl > 0 && Run(c, Start(c, loops, start), steps).Some?
    requires Enabled(Run(c, Start(c, loops, start), steps).value, AskDuplicate(l))
    ensures var s := Run(c, Start(c, loops, start), steps).value;
            var id := s.loops[l].pc.id;
            Apply(c, s, AskDuplicate(l)).loops[l].pc == if RecentlyMarked(s, id, c.ttl) then Ready else Checked(id)
  {
    RunKeepsSeen(c, Start(c, loops, start), steps);
    var s := Run(c, Start(c, loops, start), steps).value;
    AnswerIsByMarks(c, s, s.loops[l].pc.id);
  }

  // ---------- and all others are handled ----------

  /** A message that a loop marked, and when. */
  datatype Passed = Passed(id: Dedup.ID, marked: int)

  function MarkedBy(ms: seq<Marking>, l: LoopId): seq<Passed>
  {
    if ms == [] then []
    else
      var m := ms[|ms| - 1];
      MarkedBy(ms[..|ms| - 1], l) + if m.loop == l then [Passed(m.id, m.at)] else []
  }

  function CalledBy(ks: seq<Call>, l: LoopId): seq<Passed>
  {
    if ks == [] then []
    else
      var k := ks[|ks| - 1];
      CalledBy(ks[..|ks| - 1], l) + if k.loop == l then [Passed(k.id, k.marked)] else []
  }

  function InHand(pc: Pc): seq<Passed>
  {
    if pc.Marked? then [Passed(pc.id, pc.at)] else []
  }

  /** A loop has handled what it marked, in that order, but for the message in hand. */
  ghost predicate HandledInOrder(s: State, l: LoopId)
    requires l in s.loops
  {
    MarkedBy(s.marks, l) == CalledBy(s.calls, l) + InHand(s.loops[l].pc)
  }

  predicate Installed(step: Step)
  {
    step.Handle? ==> step.installed
  }

  lemma StepHandlesInOrder(c: Config, s: State, step: Step, l: LoopId)
    requires Enabled(s, step) && Installed(step) && l in s.loops && HandledInOrder(s, l)
    ensures l in Apply(c, s, step).loops && HandledInOrder(Apply(c, s, step), l)
  {
    if step.MarkSeen? {
      MarkHandlesInOrder(c, s, step, l);
    } else if step.Handle? {
      HandleHandlesInOrder(c, s, step, l);
    } else {
      OthersPassNothing(c, s, step, l);
      hide Apply;
    }
  }

  lemma MarkHandlesInOrder(c: Config, s: State, step: Step, l: LoopId)
    requires Enabled(s, step) && step.MarkSeen? && l in s.loops && HandledInOrder(s, l)
    ensures HandledInOrder(Apply(c, s, step), l)
  {
    hide MarkedBy, CalledBy;
    MarkedBySnoc(s.marks, Marking(step.loop, s.loops[step.loop].pc.id, s.now), l);
    assert CalledBy(s.calls, l) + [] == CalledBy(s.calls, l);
  }

  lemma HandleHandlesInOrder(c: Config, s: State, step: Step, l: LoopId)
    requires Enabled(s, step) && step.Handle? && step.installed && l in s.loops && HandledInOrder(s, l)
    ensures HandledInOrder(Apply(c, s, step), l)
  {
    hide MarkedBy, CalledBy;
    var Marked(id, at) := s.loops[step.loop].pc;
    var k := Call(step.loop, id, at, s.now);
    CalledBySnoc(s.calls, k, l);
    assert CalledBy(s.calls + [k], l) + [] == CalledBy(s.calls + [k], l);
  }

  lemma OthersPassNothing(c: Config, s: State, step: Step, l: LoopId)
    requires Enabled(s, step) && !step.MarkSeen? && !step.Handle? && l in s.loops
    ensures var s' := Apply(c, s, step);
            && s'.marks == s.marks && s'.calls == s.calls
            && l in s'.loops && InHand(s'.loops[l].pc) == InHand(s.loops[l].pc)
  {
    hide RateLimiter.Take, Dedup.AfterSweep, Dedup.AfterAsk;
  }

  lemma {:induction false} MarkedBySnoc(ms: seq<Marking>, m: Marking, l: LoopId)
    ensures MarkedBy(ms + [m], l) == if m.loop == l then MarkedBy(ms, l) + [Passed(m.id, m.at)] else MarkedBy(ms, l)
  {
    assert (ms + [m])[..|ms + [m]| - 1] == ms;
    assert MarkedBy(ms, l) + [] == MarkedBy(ms, l);
  }

  lemma {:induction false} CalledBySnoc(ks: seq<Call>, k: Call, l: LoopId)
    ensures CalledBy(ks + [k], l) == if k.loop == l then CalledBy(ks, l) + [Passed(k.id, k.marked)] else CalledBy(ks, l)
  {
    assert (ks + [k])[..|ks + [k]| - 1] == ks;
    assert CalledBy(ks, l) + [] == CalledBy(ks, l);
  }

  lemma {:induction false} RunHandlesInOrder(c: Config, s: State, steps: seq<Step>, l: LoopId)
    requires (forall i | 0 <= i < |steps| :: Installed(steps[i])) && Run(c, s, steps).Some?
    requires l in s.loops && HandledInOrder(s, l)
    ensures l in Run(c, s, steps).value.loops && HandledInOrder(Run(c, s, steps).value, l)
    decreases |steps|
  {
    if steps != [] {
      StepHandlesInOrder(c, s, steps[0], l);
      RunHandlesInOrder(c, Apply(c, s, steps[0]), steps[1..], l);
    }
  }

  /** In every run with a handler installed, each loop calls it for exactly the messages it marked, in that order. */
  lemma {:induction false} MarkedIsHandled(c: Config, loops: set<LoopId>, start: int, steps: seq<Step>, l: LoopId)
    requires (forall i | 0 <= i < |steps| :: Installed(steps[i])) && Run(c, Start(c, loops, start), steps).Some?
    requires l in loops
    ensures var s := Run(c, Start(c, loops, start), steps).value;
            l in s.loops && MarkedBy(s.marks, l) == CalledBy(s.calls, l) + InHand(s.loops[l].pc)
  {
    RunHandlesInOrder(c, Start(c, loops, start), steps, l);
  }
}
