/**
 The read loops taken together: one message ID on several connections.  IsDuplicate and Mark are separate critical
 sections, so the spacing of marks across loops depends on what happens between them.
 */
module ReadLoopsTogether {
  import opened Bytes
  import Dedup
  import opened ReadLoops

  /** Any two marks of one ID, by whichever loops, are more than the ttl apart. */
  ghost predicate SpacedAcross(c: Config, ms: seq<Marking>)
  {
    forall i, j | 0 <= i < j < |ms| && ms[i].id == ms[j].id :: ms[j].at - ms[i].at > c.ttl
  }

  /** Asked again now, the deduplicator would still call the message new. */
  predicate StillNew(c: Config, s: State, step: Step)
    requires Enabled(s, step) && step.MarkSeen?
  {
    !Dedup.Answer(s.seen, c.ttl, s.loops[step.loop].pc.id, s.now)
  }

  /** Every Mark of the run is taken where the message is still new. */
  predicate MarksStillNew(c: Config, s: State, steps: seq<Step>)
    decreases |steps|
  {
    steps == [] || !Enabled(s, steps[0])
    || ((steps[0].MarkSeen? ==> StillNew(c, s, steps[0])) && MarksStillNew(c, Apply(c, s, steps[0]), steps[1..]))
  }

  /** The map holds times of marks only, and at least the latest one of each ID for a ttl. */
  ghost predicate SeenIsMarks(c: Config, s: State)
  {
    && (forall id | id in s.seen :: IsMark(s, id, s.seen[id]))
    && (forall i | 0 <= i < |s.marks| :: Known(c, s, s.marks[i]))
  }

  ghost predicate IsMark(s: State, id: Dedup.ID, at: int)
  {
    at <= s.now && exists i :: 0 <= i < |s.marks| && s.marks[i].id == id && s.marks[i].at == at
  }

  ghost predicate Known(c: Config, s: State, m: Marking)
  {
    m.at <= s.now && (s.now - m.at <= c.ttl ==> m.id in s.seen && m.at <= s.seen[m.id])
  }

  lemma StepKeepsMark(c: Config, s: State, step: Step, id: Dedup.ID, at: int)
    requires Enabled(s, step) && IsMark(s, id, at)
    ensures IsMark(Apply(c, s, step), id, at)
  {
    var i :| 0 <= i < |s.marks| && s.marks[i].id == id && s.marks[i].at == at;
    assert Apply(c, s, step).marks[i] == s.marks[i];
  }

  lemma NewMark(c: Config, s: State, step: Step)
    requires Enabled(s, step) && step.MarkSeen?
    ensures IsMark(Apply(c, s, step), s.loops[step.loop].pc.id, s.now)
  {
    assert Apply(c, s, step).marks[|s.marks|].at == s.now;
  }

  lemma StepKnows(c: Config, s: State, step: Step, m: Marking)
    requires c.ttl > 0 && Enabled(s, step) && Known(c, s, m) && (m.id in s.seen ==> s.seen[m.id] <= s.now)
    ensures Known(c, Apply(c, s, step), m)
  {
  }

  lemma StepKeepsSeen(c: Config, s: State, step: Step)
    requires c.ttl > 0 && Enabled(s, step) && SeenIsMarks(c, s)
    ensures SeenIsMarks(c, Apply(c, s, step))
  {
    var s' := Apply(c, s, step);
    forall id | id in s'.seen ensures IsMark(s', id, s'.seen[id]) {
      if step.MarkSeen? && id == s.loops[step.loop].pc.id {
        NewMark(c, s, step);
      } else {
        StepKeepsMark(c, s, step, id, s.seen[id]);
      }
    }
    forall i | 0 <= i < |s'.marks| ensures Known(c, s', s'.marks[i]) {
      if i < |s.marks| {
        assert s.marks[i].id in s.seen ==> IsMark(s, s.marks[i].id, s.seen[s.marks[i].id]);
        StepKnows(c, s, step, s.marks[i]);
      }
    }
  }

  /** A mark keeps the spacing exactly when the message is still new. */
  lemma MarkSpacesExactly(c: Config, s: State, step: Step)
    requires c.ttl > 0 && SeenIsMarks(c, s) && Enabled(s, step) && step.MarkSeen? && SpacedAcross(c, s.marks)
    ensures SpacedAcross(c, Apply(c, s, step).marks) <==> StillNew(c, s, step)
  {
    var id, ms := s.loops[step.loop].pc.id, Apply(c, s, step).marks;
    if StillNew(c, s, step) {
      forall i, j | 0 <= i < j < |ms| && ms[i].id == ms[j].id ensures ms[j].at - ms[i].at > c.ttl {
        assert Known(c, s, s.marks[i]);
      }
    } else {
      assert IsMark(s, id, s.seen[id]);
      var i :| 0 <= i < |s.marks| && s.marks[i].id == id && s.marks[i].at == s.seen[id];
      assert ms[i] == s.marks[i] && ms[|s.marks|] == Marking(step.loop, id, s.now);
    }
  }

  /** A mark once made stays, so two that came too close stay too close. */
  lemma {:induction false} TooCloseStays(c: Config, s: State, steps: seq<Step>)
    requires Run(c, s, steps).Some? && SpacedAcross(c, Run(c, s, steps).value.marks)
    ensures SpacedAcross(c, s.marks)
    decreases |steps|
  {
    if steps != [] {
      var s' := Apply(c, s, steps[0]);
      TooCloseStays(c, s', steps[1..]);
      assert forall i | 0 <= i < |s.marks| :: s'.marks[i] == s.marks[i];
    }
  }

  lemma {:induction false} RunSpacesExactly(c: Config, s: State, steps: seq<Step>)
    requires c.ttl > 0 && SeenIsMarks(c, s) && SpacedAcross(c, s.marks) && Run(c, s, steps).Some?
    ensures SpacedAcross(c, Run(c, s, steps).value.marks) <==> MarksStillNew(c, s, steps)
    decreases |steps|
  {
    if steps != [] {
      var s' := Apply(c, s, steps[0]);
      StepKeepsSeen(c, s, steps[0]);
      if steps[0].MarkSeen? {
        MarkSpacesExactly(c, s, steps[0]);
      }
      if SpacedAcross(c, s'.marks) {
        RunSpacesExactly(c, s', steps[1..]);
      } else if SpacedAcross(c, Run(c, s, steps).value.marks) {
        TooCloseStays(c, s', steps[1..]);
      }
    }
  }

  /**
   In every run of any number of read loops with a positive ttl: all marks of one ID, by whichever loops, are more
   than the ttl apart if and only if every Mark is taken where IsDuplicate, asked again, would still say no.
   */
  lemma {:induction false} SpacedAcrossLoopsExactly(c: Config, loops: set<LoopId>, start: int, steps: seq<Step>)
    requires c.ttl > 0 && Run(c, Start(c, loops, start), steps).Some?
    ensures SpacedAcross(c, Run(c, Start(c, loops, start), steps).value.marks)
       <==> MarksStillNew(c, Start(c, loops, start), steps)
  {
    RunSpacesExactly(c, Start(c, loops, start), steps);
  }

  /** It fails, for every ttl, when two loops ask before either marks: both handle the message. */
  lemma {:induction false} TwoLoopsMayRepeat(c: Config, id: Dedup.ID)
    requires c.limit.maxTokens > 0
    ensures var steps := [Receive(0, Some(id))] + ([Receive(1, Some(id))] + ([AskDuplicate(0)] + ([AskDuplicate(1)]
                         + ([MarkSeen(0)] + ([MarkSeen(1)] + ([Handle(0, true)] + ([Handle(1, true)] + [])))))));
            var r := Run(c, Start(c, {0, 1}, 0), steps);
            r.Some? && r.value.calls == [Call(0, id, 0, 0), Call(1, id, 0, 0)]
  {
    var s0 := Start(c, {0, 1}, 0);
    var s1 := Apply(c, s0, Receive(0, Some(id)));
    var s2 := Apply(c, s1, Receive(1, Some(id)));
    BothAsk(c, s2, id);
    RunCons(c, s1, Receive(1, Some(id)), BOTH_ASK);
    RunCons(c, s0, Receive(0, Some(id)), [Receive(1, Some(id))] + BOTH_ASK);
  }

  const BOTH_ASK: seq<Step> := [AskDuplicate(0)] + ([AskDuplicate(1)]
                               + ([MarkSeen(0)] + ([MarkSeen(1)] + ([Handle(0, true)] + ([Handle(1, true)] + [])))))

  lemma {:induction false} BothAsk(c: Config, s: State, id: Dedup.ID)
    requires s.loops.Keys == {0, 1} && s.loops[0].pc == Received(id) && s.loops[1].pc == Received(id) && id !in s.seen
    ensures var r := Run(c, s, BOTH_ASK);
            r.Some? && r.value.calls == s.calls + [Call(0, id, s.now, s.now), Call(1, id, s.now, s.now)]
  {
    var s1 := Apply(c, s, AskDuplicate(0));
    var s2 := Apply(c, s1, AskDuplicate(1));
    var s3 := Apply(c, s2, MarkSeen(0));
    var s4 := Apply(c, s3, MarkSeen(1));
    var s5 := Apply(c, s4, Handle(0, true));
    RunCons(c, s5, Handle(1, true), []);
    RunCons(c, s4, Handle(0, true), [Handle(1, true)] + []);
    RunCons(c, s3, MarkSeen(1), [Handle(0, true)] + ([Handle(1, true)] + []));
    RunCons(c, s2, MarkSeen(0), [MarkSeen(1)] + ([Handle(0, true)] + ([Handle(1, true)] + [])));
    RunCons(c, s1, AskDuplicate(1), [MarkSeen(0)] + ([MarkSeen(1)] + ([Handle(0, true)] + ([Handle(1, true)] + []))));
    RunCons(c, s, AskDuplicate(0),
            [AskDuplicate(1)] + ([MarkSeen(0)] + ([MarkSeen(1)] + ([Handle(0, true)] + ([Handle(1, true)] + [])))));
  }
}
