/** The memory of the peer registry is what its callers have done, each call at the moment it held mu. */
module RegistryCalls {
  import opened Bytes
  import opened Peers
  import opened RegistryPersistence

  /** One call that has taken effect. */
  datatype Call = Call(tid: Tid, mutation: Mutation)

  /** The call that a step carries out. */
  function Effect(s: State, step: Step): seq<Call>
    requires Enabled(s, step)
  {
    if step.Change? then [Call(step.tid, s.mutators[step.tid].todo[0])] else []
  }

  /** The calls that a run carries out, in order. */
  function Effects(s: State, steps: seq<Step>): seq<Call>
    requires Run(s, steps).Some?
    decreases |steps|
  {
    if steps == [] then [] else Effect(s, steps[0]) + Effects(Apply(s, steps[0]), steps[1..])
  }

  /** The peers after some calls, one after the other. */
  function Replay(ps: PeerMap, calls: seq<Call>): PeerMap
    decreases |calls|
  {
    if calls == [] then ps else Replay(Mutate(ps, calls[0].mutation), calls[1..])
  }

  /** The calls of one thread. */
  function By(calls: seq<Call>, t: Tid): seq<Mutation>
  {
    if calls == [] then [] else (if calls[0].tid == t then [calls[0].mutation] else []) + By(calls[1..], t)
  }

  lemma StepIsItsCall(s: State, step: Step)
    requires Enabled(s, step)
    ensures Apply(s, step).mem == Replay(s.mem, Effect(s, step))
  {
    hide Mutate, Saves, SavedMap, Holds;
    if step.Change? {
      var e := Effect(s, step);
      assert Replay(s.mem, e) == Replay(Mutate(s.mem, e[0].mutation), e[1..]);
    }
  }

  lemma TodoAfter(s: State, step: Step, t: Tid)
    requires Enabled(s, step) && t in s.mutators
    ensures t in Apply(s, step).mutators
    ensures Apply(s, step).mutators[t].todo == if step == Change(t) then s.mutators[t].todo[1..] else s.mutators[t].todo
  {
    hide Mutate, Saves, SavedMap, Holds, Saving;
  }

  lemma {:induction false} StepTakesItsCall(s: State, step: Step, t: Tid)
    requires Enabled(s, step) && t in s.mutators
    ensures t in Apply(s, step).mutators
    ensures s.mutators[t].todo == By(Effect(s, step), t) + Apply(s, step).mutators[t].todo
  {
    TodoAfter(s, step, t);
    var todo, e := s.mutators[t].todo, Effect(s, step);
    if step == Change(t) {
      assert e == [Call(t, todo[0])] && e[1..] == [];
      hide Apply;
      assert By(e, t) == [todo[0]] + [] == [todo[0]];
      assert todo == [todo[0]] + todo[1..];
    } else {
      hide Apply;
      assert By(e, t) == [] by {
        assert e != [] ==> e[0].tid != t && e[1..] == [];
      }
      assert [] + todo == todo;
    }
  }

  lemma {:induction false} ReplayConcat(ps: PeerMap, a: seq<Call>, b: seq<Call>)
    ensures Replay(ps, a + b) == Replay(Replay(ps, a), b)
    decreases |a|
  {
    if a == [] {
      assert a + b == b;
    } else {
      ReplayConcat(Mutate(ps, a[0].mutation), a[1..], b);
      assert (a + b)[1..] == a[1..] + b;
    }
  }

  lemma {:induction false} ByConcat(a: seq<Call>, b: seq<Call>, t: Tid)
    ensures By(a + b, t) == By(a, t) + By(b, t)
  {
    if a == [] {
      assert a + b == b;
    } else {
      ByConcat(a[1..], b, t);
      assert (a + b)[1..] == a[1..] + b;
      Assoc(if a[0].tid == t then [a[0].mutation] else [], By(a[1..], t), By(b, t));
    }
  }

  lemma {:induction false} RunReplays(s: State, steps: seq<Step>)
    requires Run(s, steps).Some?
    ensures Run(s, steps).value.mem == Replay(s.mem, Effects(s, steps))
    decreases |steps|
  {
    hide Apply, Enabled, Effect;
    if steps != [] {
      var s1 := Apply(s, steps[0]);
      RunReplays(s1, steps[1..]);
      StepIsItsCall(s, steps[0]);
      ReplayConcat(s.mem, Effect(s, steps[0]), Effects(s1, steps[1..]));
    }
  }

  lemma {:induction false} RunTakesCalls(s: State, steps: seq<Step>, t: Tid)
    requires Run(s, steps).Some? && t in s.mutators
    ensures t in Run(s, steps).value.mutators
    ensures s.mutators[t].todo == By(Effects(s, steps), t) + Run(s, steps).value.mutators[t].todo
    decreases |steps|
  {
    hide Apply, Enabled, Effect;
    if steps == [] {
      assert [] + s.mutators[t].todo == s.mutators[t].todo;
    } else {
      var s1, first := Apply(s, steps[0]), Effect(s, steps[0]);
      StepTakesItsCall(s, steps[0], t);
      RunTakesCalls(s1, steps[1..], t);
      ByConcat(first, Effects(s1, steps[1..]), t);
      Assoc(By(first, t), By(Effects(s1, steps[1..]), t), Run(s, steps).value.mutators[t].todo);
    }
  }

  /**
   In every interleaving: the memory is the loaded map after the calls carried out so far, one at a time in the order
   they held mu; and the calls of each thread are carried out in its order, none twice and none skipped.
   */
  lemma {:induction false} MemoryIsCallsInOrder(loaded: PeerMap, programs: map<Tid, seq<Mutation>>, closers: set<nat>,
                                                steps: seq<Step>)
    requires Run(Init(loaded, programs, closers), steps).Some?
    ensures var s, calls := Run(Init(loaded, programs, closers), steps).value,
                            Effects(Init(loaded, programs, closers), steps);
            && s.mem == Replay(loaded, calls)
            && forall t | t in programs :: t in s.mutators && By(calls, t) + s.mutators[t].todo == programs[t]
  {
    var s0 := Init(loaded, programs, closers);
    RunReplays(s0, steps);
    forall t | t in programs
      ensures t in Run(s0, steps).value.mutators
      ensures By(Effects(s0, steps), t) + Run(s0, steps).value.mutators[t].todo == programs[t]
    {
      RunTakesCalls(s0, steps, t);
    }
  }

  /** Nobody has a call left to make, and nothing is on its way to the file. */
  ghost predicate AllSaved(s: State)
  {
    Quiet(s) && forall t | t in s.mutators :: s.mutators[t].todo == []
  }

  /**
   So where everything has come to rest without a failed save, the file holds the loaded peers after all the calls of
   all the programs, in some order that keeps each program's own.
   */
  lemma {:induction false} FileHoldsAllCalls(loaded: PeerMap, programs: map<Tid, seq<Mutation>>, closers: set<nat>,
                                             steps: seq<Step>)
    requires Run(Init(loaded, programs, closers), steps).Some?
    requires var s := Run(Init(loaded, programs, closers), steps).value; AllSaved(s) && !s.failed
    ensures var s, calls := Run(Init(loaded, programs, closers), steps).value,
                            Effects(Init(loaded, programs, closers), steps);
            && Holds(File(s), Replay(loaded, calls))
            && forall t | t in programs :: By(calls, t) == programs[t]
  {
    MemoryIsCallsInOrder(loaded, programs, closers, steps);
    NoLostUpdate(loaded, programs, closers, steps);
    var s, calls := Run(Init(loaded, programs, closers), steps).value, Effects(Init(loaded, programs, closers), steps);
    forall t | t in programs ensures By(calls, t) == programs[t] {
      assert By(calls, t) + [] == By(calls, t);
    }
  }
}
