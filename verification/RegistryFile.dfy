/**
 The file of the peer registry (go/node/peer.go) while saves do not overlap: it is always a whole saved map, and
 Close leaves one that is no older than the moment it began, whatever the callers do.
 */
module RegistryFile {
  import opened Bytes
  import opened Peers
  import opened RegistryPersistence
  import opened RegistryClose

  // ---------- runs in which saves do not overlap ----------

  /** At work on the temporary file. */
  predicate Inside(s: State, i: SaverId)
  {
    InSave(s, i) || AtDelete(s, i)
  }

  ghost predicate Apart(s: State)
  {
    forall i, j | Inside(s, i) && Inside(s, j) :: i == j
  }

  /** At every moment of the run at most one saver is at work on the temporary file. */
  ghost predicate ApartRun(s: State, steps: seq<Step>)
  {
    forall k | 0 <= k <= |steps| && Run(s, steps[..k]).Some? :: Apart(Run(s, steps[..k]).value)
  }

  /** The file is whole, and a saver at work has the temporary file to itself. */
  ghost predicate Lone(s: State)
  {
    && File(s).Whole?
    && (forall i | InSave(s, i) :: s.disk.tmp == Some(s.savers[i].fd))
    && (forall i | InSave(s, i) && s.savers[i].Filled? :: Read(s.disk, s.savers[i].fd) == Whole(SavedMap(s.mem)))
  }

  /** The step leaves the file alone, or puts the memory of that moment in it. */
  predicate FileStepped(s: State, s': State)
  {
    File(s') == File(s) || Current(s')
  }

  lemma MemoryAfter(s: State, step: Step)
    requires Enabled(s, step) && !step.Change?
    ensures Apply(s, step).mem == s.mem
  {
    hide Saving, SavedMap, Holds;
  }

  lemma OtherStepKeepsLone(s: State, step: Step)
    requires Inv(s) && Lone(s) && Enabled(s, step) && !FileStep(step)
    ensures Lone(Apply(s, step)) && FileStepped(s, Apply(s, step))
  {
    OtherStepKeepsSaves(s, step);
    if !step.Change? {
      MemoryAfter(s, step);
    } else {
      assert MutatorHolds(s, step.tid);
      forall i ensures !InSave(s, i) {
        assert i !in s.muReaders;
      }
    }
    hide Apply, Enabled, SavedMap, Holds, Inv;
    var s' := Apply(s, step);
    assert forall i | InSave(s', i) :: InSave(s, i);
  }

  lemma FileStepKeepsLone(s: State, step: Step)
    requires Inv(s) && Lone(s) && Apart(s) && Enabled(s, step) && FileStep(step) && Apart(Apply(s, step))
    ensures Lone(Apply(s, step)) && FileStepped(s, Apply(s, step))
  {
    OthersOutside(s, step);
    if step.Open? {
      OpenKeepsLone(s, step);
    } else {
      WriteKeepsLone(s, step);
    }
  }

  lemma OpenKeepsLone(s: State, step: Step)
    requires Numbers(s) && Lone(s) && Enabled(s, step) && step.Open?
    requires forall j | InSave(Apply(s, step), j) :: j == step.sid || (!step.ok && InSave(s, j))
    ensures Lone(Apply(s, step)) && FileStepped(s, Apply(s, step))
  {
    hide SavedMap;
    var s', i := Apply(s, step), step.sid;
    assert File(s') == File(s);
    if !step.ok {
      assert !InSave(s', i);
      forall j | InSave(s', j) ensures s'.savers[j] == s.savers[j] {
      }
    }
  }

  lemma WriteKeepsLone(s: State, step: Step)
    requires Readers(s) && Numbers(s) && Lone(s) && Enabled(s, step) && FileStep(step) && !step.Open?
    requires forall j | InSave(Apply(s, step), j) :: j == step.sid
    ensures Lone(Apply(s, step)) && FileStepped(s, Apply(s, step))
  {
    hide SavedMap;
    assert step.Fill? ==> HasCopy(s.savers[step.sid]) && InSave(s, step.sid);
    assert step.Rename? ==> InSave(s, step.sid);
  }

  /** Nobody else is at work on the temporary file, unless the step only fails to open it. */
  lemma OthersOutside(s: State, step: Step)
    requires Apart(s) && Enabled(s, step) && FileStep(step) && Apart(Apply(s, step))
    ensures forall j | InSave(Apply(s, step), j) :: j == step.sid || (step.Open? && !step.ok && InSave(s, j))
  {
    FileStepOthersStay(s, step);
    hide SavedMap;
    var s', i := Apply(s, step), step.sid;
    assert step.Open? || Inside(s, i);
    assert step.Open? && step.ok ==> Inside(s', i);
    forall j | InSave(s', j) ensures j == i || (step.Open? && !step.ok && InSave(s, j)) {
      assert Inside(s', j);
      assert j != i ==> Inside(s, j);
    }
  }

  lemma StepKeepsLone(s: State, step: Step)
    requires Inv(s) && Lone(s) && Apart(s) && Enabled(s, step) && Apart(Apply(s, step))
    ensures Lone(Apply(s, step)) && FileStepped(s, Apply(s, step))
  {
    if FileStep(step) {
      FileStepKeepsLone(s, step);
    } else {
      OtherStepKeepsLone(s, step);
    }
  }

  // ---------- the file holds the memory of some moment of the run ----------

  /** m was the memory at some moment of the run, its start and its end included. */
  ghost predicate MemoryDuring(s: State, steps: seq<Step>, m: PeerMap)
  {
    exists k :: 0 <= k <= |steps| && Run(s, steps[..k]).Some? && Run(s, steps[..k]).value.mem == m
  }

  ghost predicate FileSince(s: State, steps: seq<Step>)
    requires Run(s, steps).Some?
  {
    exists m :: MemoryDuring(s, steps, m) && Holds(File(Run(s, steps).value), m)
  }

  lemma {:induction false} MemoryAtEnd(s: State, steps: seq<Step>)
    requires Run(s, steps).Some?
    ensures MemoryDuring(s, steps, Run(s, steps).value.mem)
  {
    assert steps[..|steps|] == steps;
  }

  lemma MemoryStays(s: State, steps: seq<Step>, step: Step, m: PeerMap)
    requires MemoryDuring(s, steps, m)
    ensures MemoryDuring(s, steps + [step], m)
  {
    var k :| 0 <= k <= |steps| && Run(s, steps[..k]).Some? && Run(s, steps[..k]).value.mem == m;
    assert (steps + [step])[..k] == steps[..k];
  }

  lemma {:induction false} PrefixRuns(s: State, a: seq<Step>, b: seq<Step>)
    requires Run(s, a + b).Some?
    ensures Run(s, a).Some?
    decreases |a|
  {
    if a != [] {
      assert (a + b)[0] == a[0] && (a + b)[1..] == a[1..] + b;
      PrefixRuns(Apply(s, a[0]), a[1..], b);
    }
  }

  /** A run and its last step. */
  lemma {:induction false} LastStep(s: State, before: seq<Step>, step: Step)
    requires Run(s, before + [step]).Some?
    ensures Run(s, before).Some? && Enabled(Run(s, before).value, step)
    ensures Run(s, before + [step]).value == Apply(Run(s, before).value, step)
  {
    PrefixRuns(s, before, [step]);
    RunBoth(s, before, [step]);
  }

  lemma {:induction false} ApartBefore(s: State, before: seq<Step>, step: Step)
    requires Run(s, before + [step]).Some? && ApartRun(s, before + [step])
    ensures Run(s, before).Some? && ApartRun(s, before)
    ensures Apart(Run(s, before).value) && Apart(Run(s, before + [step]).value)
  {
    LastStep(s, before, step);
    var steps := before + [step];
    forall k | 0 <= k <= |before| && Run(s, before[..k]).Some? ensures Apart(Run(s, before[..k]).value) {
      assert steps[..k] == before[..k];
    }
    assert before[..|before|] == before && steps[..|steps|] == steps;
  }

  lemma {:induction false} ApartRunIsLone(s: State, steps: seq<Step>)
    requires Inv(s) && Lone(s) && Run(s, steps).Some? && ApartRun(s, steps)
    ensures Inv(Run(s, steps).value) && Lone(Run(s, steps).value)
    decreases |steps|
  {
    if steps != [] {
      var before, step := steps[..|steps| - 1], steps[|steps| - 1];
      assert steps == before + [step];
      LastStep(s, before, step);
      ApartBefore(s, before, step);
      ApartRunIsLone(s, before);
      StepKeepsInv(Run(s, before).value, step);
      StepKeepsLone(Run(s, before).value, step);
    }
  }

  /** One more step keeps the file among the memories of the run. */
  lemma {:induction false} StepKeepsFileSince(s: State, before: seq<Step>, step: Step)
    requires Inv(s) && Lone(s) && Run(s, before + [step]).Some? && ApartRun(s, before + [step])
    requires Run(s, before).Some? && FileSince(s, before)
    ensures FileSince(s, before + [step])
  {
    ApartBefore(s, before, step);
    LastStep(s, before, step);
    ApartRunIsLone(s, before);
    StepKeepsLone(Run(s, before).value, step);
    var m :| MemoryDuring(s, before, m) && Holds(File(Run(s, before).value), m);
    MemoryStays(s, before, step, m);
    MemoryAtEnd(s, before + [step]);
  }

  lemma {:induction false} FileStaysSince(s: State, steps: seq<Step>)
    requires Inv(s) && Lone(s) && Current(s) && Run(s, steps).Some? && ApartRun(s, steps)
    ensures FileSince(s, steps)
    decreases |steps|
  {
    if steps == [] {
      MemoryAtEnd(s, steps);
    } else {
      var before, step := steps[..|steps| - 1], steps[|steps| - 1];
      assert steps == before + [step];
      ApartBefore(s, before, step);
      FileStaysSince(s, before);
      StepKeepsFileSince(s, before, step);
    }
  }

  /** In every run in which saves do not overlap, the file is at every moment whole, and a memory of the run. */
  lemma {:induction false} FileIsWhole(loaded: PeerMap, programs: map<Tid, seq<Mutation>>, closers: set<nat>,
                                       steps: seq<Step>)
    requires Run(Init(loaded, programs, closers), steps).Some? && ApartRun(Init(loaded, programs, closers), steps)
    ensures FileSince(Init(loaded, programs, closers), steps)
    ensures Lone(Run(Init(loaded, programs, closers), steps).value)
  {
    FileStaysSince(Init(loaded, programs, closers), steps);
    ApartRunIsLone(Init(loaded, programs, closers), steps);
  }

  // ---------- Close while callers are at work ----------

  /** Close has not saved: it is on its way, or it failed. */
  predicate NotSaved(s: State, c: SaverId)
  {
    || SaverOwes(s, c)
    || (c in s.savers && (s.savers[c] in {Deleting, Unlocking(false), Ended(false)}))
  }

  lemma CloserStep(s: State, step: Step, c: SaverId)
    requires Inv(s) && Lone(s) && NotSaved(s, c) && Enabled(s, step)
    ensures NotSaved(Apply(s, step), c) || Current(Apply(s, step))
  {
    if FileStep(step) {
      SaveStepFrame(s, step);
      if step.sid == c {
        CloserFileStep(s, step, c);
      }
    } else {
      CloserOtherStep(s, step, c);
    }
  }

  lemma CloserFileStep(s: State, step: Step, c: SaverId)
    requires Lone(s) && NotSaved(s, c) && Enabled(s, step) && FileStep(step) && step.sid == c
    ensures NotSaved(Apply(s, step), c) || Current(Apply(s, step))
  {
    hide SavedMap;
    assert step.Rename? ==> InSave(s, c);
  }

  lemma CloserOtherStep(s: State, step: Step, c: SaverId)
    requires Timers(s) && NotSaved(s, c) && Enabled(s, step) && !FileStep(step)
    ensures NotSaved(Apply(s, step), c)
  {
    hide SavedMap, Mutate, Saves, Saving;
    var s' := Apply(s, step);
    assert c in s'.savers;
    assert s'.savers[c] == s.savers[c] || step.RLock? || step.Marshal? || step.RUnlock?;
  }

  lemma {:induction false} CloserSince(s: State, steps: seq<Step>, c: SaverId)
    requires Inv(s) && Lone(s) && (NotSaved(s, c) || Current(s)) && Run(s, steps).Some? && ApartRun(s, steps)
    ensures NotSaved(Run(s, steps).value, c) || FileSince(s, steps)
    decreases |steps|
  {
    if steps == [] {
      MemoryAtEnd(s, steps);
    } else {
      var before, step := steps[..|steps| - 1], steps[|steps| - 1];
      assert steps == before + [step];
      ApartBefore(s, before, step);
      LastStep(s, before, step);
      CloserSince(s, before, c);
      if FileSince(s, before) {
        StepKeepsFileSince(s, before, step);
      } else {
        ApartRunIsLone(s, before);
        CloserStep(Run(s, before).value, step, c);
        MemoryAtEnd(s, steps);
      }
    }
  }

  /** The promise with callers at work, as long as saves do not overlap. */
  ghost predicate CloseFlushesSince(s: State, c: SaverId)
    requires Enabled(s, Flush(c))
  {
    var s' := Apply(s, Flush(c));
    forall steps | Run(s', steps).Some? && ApartRun(s', steps) && Returned(Run(s', steps).value, c) ::
      FileSince(s', steps)
  }

  lemma FlushKeepsLone(s: State, c: SaverId)
    requires Inv(s) && Lone(s) && Apart(s) && Enabled(s, Flush(c))
    ensures var s' := Apply(s, Flush(c));
            && Inv(s') && Lone(s') && Apart(s') && Current(s') == Current(s) && File(s') == File(s) && s'.mem == s.mem
            && (if s.dirty then NotSaved(s', c) else Returned(s', c))
  {
    StepKeepsInv(s, Flush(c));
    OtherStepKeepsSaves(s, Flush(c));
    OtherStepKeepsLone(s, Flush(c));
    hide SavedMap, Lone, Inv;
    assert forall i :: Inside(Apply(s, Flush(c)), i) <==> Inside(s, i);
  }

  /**
   In every schedule in which saves do not overlap, mutators included: once Close has returned OK the file holds the
   memory of some moment since Close took saveMu, if and only if Close found the registry dirty or the file up to date.
   */
  lemma CloseFlushesSinceExactly(s: State, c: SaverId)
    requires Inv(s) && Lone(s) && Apart(s) && Enabled(s, Flush(c))
    ensures CloseFlushesSince(s, c) <==> s.dirty || Current(s)
  {
    var s' := Apply(s, Flush(c));
    FlushKeepsLone(s, c);
    hide Apply, Lone, SavedMap;
    if s.dirty || Current(s) {
      forall steps | Run(s', steps).Some? && ApartRun(s', steps)
        ensures NotSaved(Run(s', steps).value, c) || FileSince(s', steps)
      {
        CloserSince(s', steps, c);
      }
    } else {
      var none: seq<Step> := [];
      assert none[..0] == none && Run(s', none) == Some(s') && ApartRun(s', none);
      assert !FileSince(s', none);
    }
  }
}
