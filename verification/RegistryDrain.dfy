/**
 Once no further call is made, the registry comes to rest in a bounded number of steps, whatever the schedule,
 and then the file agrees with memory.
 */
module RegistryDrain {
  import opened Peers
  import opened RegistryPersistence
  import opened Sums

  // ---------- the steps still to come ----------

  function MutatorSteps(m: Mutator): nat
  {
    match m.pc
    case Idle => 0
    case Locked => 12
    case NeedsUnlock(_) => 11
    case NeedsSave => 10
  }

  function SaverSteps(pc: SaverPc): nat
  {
    match pc
    case Waiting => 8
    case WantRead => 7
    case Reading => 6
    case HasData(_) => 5
    case Opened(_, _) => 4
    case Filled(_) => 3
    case Deleting => 2
    case Unlocking(_) => 1
    case Ended(_) => 0
  }

  ghost function MutatorLoad(s: State): nat
  {
    Sum(map t | t in s.mutators :: MutatorSteps(s.mutators[t]))
  }

  ghost function SaverLoad(s: State): nat
  {
    Sum(map i | i in s.savers :: SaverSteps(s.savers[i]))
  }

  /** A bound on the steps that the calls under way and the timers can still take. */
  ghost function Load(s: State): nat
  {
    MutatorLoad(s) + 9 * |s.armed| + SaverLoad(s)
  }

  lemma MutatorLoadAt(s: State, s': State, t: Tid)
    requires t in s.mutators && t in s'.mutators && s'.mutators == s.mutators[t := s'.mutators[t]]
    ensures MutatorLoad(s') + MutatorSteps(s.mutators[t]) == MutatorLoad(s) + MutatorSteps(s'.mutators[t])
  {
    var w := map u | u in s.mutators :: MutatorSteps(s.mutators[u]);
    SumWithout(w, t);
    SumUpdate(w, t, MutatorSteps(s'.mutators[t]));
    assert (map u | u in s'.mutators :: MutatorSteps(s'.mutators[u])) == w[t := MutatorSteps(s'.mutators[t])];
  }

  lemma SaverLoadAt(s: State, s': State, i: SaverId)
    requires i in s.savers && i in s'.savers && s'.savers == s.savers[i := s'.savers[i]]
    ensures SaverLoad(s') + SaverSteps(s.savers[i]) == SaverLoad(s) + SaverSteps(s'.savers[i])
  {
    var w := map j | j in s.savers :: SaverSteps(s.savers[j]);
    SumWithout(w, i);
    SumUpdate(w, i, SaverSteps(s'.savers[i]));
    assert (map j | j in s'.savers :: SaverSteps(s'.savers[j])) == w[i := SaverSteps(s'.savers[i])];
  }

  lemma MutatorStepMoves(s: State, step: Step)
    requires Enabled(s, step) && MutatorStep(step) && !step.Lock?
    ensures var s', t := Apply(s, step), step.tid;
            && s'.savers == s.savers
            && t in s.mutators && t in s'.mutators && s'.mutators == s.mutators[t := s'.mutators[t]]
            && MutatorSteps(s'.mutators[t]) + 9 * |s'.armed| < MutatorSteps(s.mutators[t]) + 9 * |s.armed|
  {
    hide Mutate, Saves;
    if step.Schedule? {
      assert |Apply(s, step).armed| <= |s.armed| + 1;
    }
  }

  lemma MutatorStepSpends(s: State, step: Step)
    requires Enabled(s, step) && MutatorStep(step) && !step.Lock?
    ensures Load(Apply(s, step)) < Load(s)
  {
    MutatorStepMoves(s, step);
    MutatorLoadAt(s, Apply(s, step), step.tid);
  }

  lemma FireSpends(s: State, step: Step)
    requires Timers(s) && Enabled(s, step) && step.Fire?
    ensures Load(Apply(s, step)) < Load(s)
  {
    var s', i := Apply(s, step), Timer(step.n);
    var w := map j | j in s.savers :: SaverSteps(s.savers[j]);
    SumUpdate(w, i, 8);
    assert w - {i} == w;
    assert (map j | j in s'.savers :: SaverSteps(s'.savers[j])) == w[i := 8];
    assert |s'.armed| == |s.armed| - 1;
  }

  lemma SaverStepMoves(s: State, step: Step)
    requires Enabled(s, step) && !MutatorStep(step) && !step.Fire?
    ensures var s', i := Apply(s, step), step.sid;
            && s'.mutators == s.mutators && s'.armed <= s.armed
            && i in s.savers && i in s'.savers && s'.savers == s.savers[i := s'.savers[i]]
            && SaverSteps(s'.savers[i]) < SaverSteps(s.savers[i])
  {
  }

  lemma SaverStepSpends(s: State, step: Step)
    requires Enabled(s, step) && !MutatorStep(step) && !step.Fire?
    ensures Load(Apply(s, step)) < Load(s)
  {
    SaverStepMoves(s, step);
    SaverLoadAt(s, Apply(s, step), step.sid);
    SubsetSize(Apply(s, step).armed, s.armed);
  }

  /** Every step but the start of a new call uses up some of the load. */
  lemma StepSpends(s: State, step: Step)
    requires Timers(s) && Enabled(s, step) && !step.Lock?
    ensures Load(Apply(s, step)) < Load(s)
  {
    if MutatorStep(step) {
      MutatorStepSpends(s, step);
    } else if step.Fire? {
      FireSpends(s, step);
    } else {
      SaverStepSpends(s, step);
    }
  }

  // ---------- coming to rest ----------

  predicate NoNewCalls(steps: seq<Step>)
  {
    forall step | step in steps :: !step.Lock?
  }

  lemma {:induction false} DrainIsBounded(s: State, steps: seq<Step>)
    requires Inv(s) && NoNewCalls(steps) && Run(s, steps).Some?
    ensures |steps| + Load(Run(s, steps).value) <= Load(s)
    decreases |steps|
  {
    if steps != [] {
      assert steps[0] in steps;
      StepKeepsInv(s, steps[0]);
      StepSpends(s, steps[0]);
      assert NoNewCalls(steps[1..]);
      DrainIsBounded(Apply(s, steps[0]), steps[1..]);
    }
  }

  /** Nothing but a new call can happen any more. */
  ghost predicate AtRest(s: State)
  {
    forall step | Enabled(s, step) :: step.Lock?
  }

  /**
   From every reachable state, if no new call starts: every schedule ends after at most Load steps, and where it
   ends the file agrees with memory, unless a save failed and none since has left the memory of its moment in it.
   */
  lemma {:induction false} EveryScheduleSaves(loaded: PeerMap, programs: map<Tid, seq<Mutation>>, closers: set<nat>,
                           before: seq<Step>, steps: seq<Step>)
    requires Run(Init(loaded, programs, closers), before).Some?
    requires NoNewCalls(steps) && Run(Run(Init(loaded, programs, closers), before).value, steps).Some?
    ensures var s := Run(Init(loaded, programs, closers), before).value;
            |steps| <= Load(s)
    ensures var end := Run(Run(Init(loaded, programs, closers), before).value, steps).value;
            AtRest(end) && !end.failed ==> Current(end)
  {
    RunKeepsInv(Init(loaded, programs, closers), before);
    var s := Run(Init(loaded, programs, closers), before).value;
    DrainIsBounded(s, steps);
    RunKeepsInv(s, steps);
    var end := Run(s, steps).value;
    if AtRest(end) && !Quiet(end) {
      SaveNeverStuck(end);
    }
  }
}
