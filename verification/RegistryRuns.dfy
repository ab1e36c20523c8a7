/** Two runs of the peer registry (go/node/peer.go) in which Close returns OK and the file is not what it promises. */
module RegistryRuns {
  import opened Bytes
  import opened Peers
  import opened RegistryPersistence
  import opened RegistryClose

  const CALL: seq<Step> := [Lock(0), Change(0), Unlock(0), Schedule(0)]

  /** One thread with these calls to make, one Close. */
  function Start(loaded: PeerMap, calls: seq<Mutation>): State
  {
    Init(loaded, map[0 := calls], {0})
  }

  /** Between calls: nobody holds a lock and no timer is set. */
  predicate BetweenCalls(s: State, calls: seq<Mutation>)
  {
    && s.muWriter.None? && s.muReaders == {} && s.mutators == map[0 := Mutator(calls, Idle)]
    && s.saveTimer.None? && s.armed == {}
  }

  lemma {:induction false} CallLocks(s: State, m: Mutation, rest: seq<Mutation>)
    requires BetweenCalls(s, [m] + rest) && Saves(s.mem, m)
    ensures var s2 := Run(s, [Lock(0), Change(0)]);
            && s2.Some?
            && s2.value == s.(muWriter := Some(0), mem := Mutate(s.mem, m),
                              mutators := map[0 := Mutator(rest, NeedsUnlock(true))])
  {
    hide Mutate, Saves;
    assert ([m] + rest)[0] == m && ([m] + rest)[1..] == rest;
    var s1 := Apply(s, Lock(0));
    assert s1.mutators == map[0 := Mutator([m] + rest, Locked)];
    var s2 := Apply(s1, Change(0));
    assert s2.mutators == map[0 := Mutator(rest, NeedsUnlock(true))];
    RunOne(s1, Change(0), []);
    RunOne(s, Lock(0), [Change(0)]);
  }

  lemma {:induction false} CallSchedules(s: State, rest: seq<Mutation>)
    requires s.mutators == map[0 := Mutator(rest, NeedsUnlock(true))] && s.saveTimer.None? && s.armed == {}
    ensures var s' := Run(s, [Unlock(0), Schedule(0)]);
            && s'.Some?
            && s'.value == s.(muWriter := None, mutators := map[0 := Mutator(rest, Idle)], dirty := true,
                              saveTimer := Some(s.nextTimer), armed := {s.nextTimer}, nextTimer := s.nextTimer + 1)
  {
    var s1 := Apply(s, Unlock(0));
    assert s1.mutators == map[0 := Mutator(rest, NeedsSave)];
    var s2 := Apply(s1, Schedule(0));
    assert s2.mutators == map[0 := Mutator(rest, Idle)] && {} + {s.nextTimer} == {s.nextTimer};
    RunOne(s1, Schedule(0), []);
    RunOne(s, Unlock(0), [Schedule(0)]);
  }

  /** One whole call of a mutator that saves, up to its return. */
  lemma {:induction false} CallRuns(s: State, m: Mutation, rest: seq<Mutation>)
    requires BetweenCalls(s, [m] + rest) && Saves(s.mem, m)
    ensures var s' := Run(s, CALL);
            && s'.Some?
            && s'.value == s.(mem := Mutate(s.mem, m), mutators := map[0 := Mutator(rest, Idle)], dirty := true,
                              saveTimer := Some(s.nextTimer), armed := {s.nextTimer}, nextTimer := s.nextTimer + 1)
  {
    CallLocks(s, m, rest);
    var s2 := Run(s, [Lock(0), Change(0)]).value;
    CallSchedules(s2, rest);
    hide Mutate, Saves, Run;
    RunBoth(s, [Lock(0), Change(0)], [Unlock(0), Schedule(0)]);
    assert CALL == [Lock(0), Change(0)] + [Unlock(0), Schedule(0)];
  }

  /** The timer's callback has taken the flag and not yet read the map. */
  lemma {:induction false} CallbackTakesFlag(s: State, n: nat)
    requires s.armed == {n} && s.dirty && Timer(n) !in s.savers
    ensures var s' := Run(s, [Fire(n), Flush(Timer(n))]);
            && s'.Some?
            && s'.value == s.(armed := {}, dirty := false, saveTimer := None, savers := s.savers[Timer(n) := WantRead])
  {
    var s1 := Apply(s, Fire(n));
    assert s1.savers[Timer(n) := WantRead] == s.savers[Timer(n) := WantRead];
    RunOne(s1, Flush(Timer(n)), []);
    RunOne(s, Fire(n), [Flush(Timer(n))]);
  }

  /** A call, and the callback of its timer up to the point where it wants to read. */
  lemma CallAndCallback(loaded: PeerMap, m: Mutation, rest: seq<Mutation>)
    requires Saves(loaded, m)
    ensures var s := Run(Start(loaded, [m] + rest), CALL + [Fire(0), Flush(Timer(0))]);
            && s.Some? && BetweenCalls(s.value, rest) && s.value.mem == Mutate(loaded, m) && !s.value.dirty
            && s.value.disk == Start(loaded, []).disk && !s.value.failed && s.value.nextTimer == 1
            && s.value.savers == map[Closer(0) := Waiting, Timer(0) := WantRead]
  {
    hide Mutate, Saves, SavedMap;
    var s0 := Start(loaded, [m] + rest);
    assert s0.savers == map[Closer(0) := Waiting];
    CallRuns(s0, m, rest);
    var s1 := Run(s0, CALL).value;
    CallbackTakesFlag(s1, 0);
    RunBoth(s0, CALL, [Fire(0), Flush(Timer(0))]);
  }

  /**
   The doc comment of Close promises a flush unconditionally.  A timer callback that has cleared the flag and not yet
   written breaks it: Close finds nothing to do and returns while the added peer is not on disk.
   */
  lemma CloseMayReturnEarly(loaded: PeerMap, p: Peer, now: int)
    requires Applies(loaded, AddPeer(p, now))
    ensures var steps := CALL + [Fire(0), Flush(Timer(0))] + [Flush(Closer(0))];
            var end := Run(Start(loaded, [AddPeer(p, now)]), steps);
            end.Some? && Returned(end.value, Closer(0)) && !end.value.failed && !Current(end.value)
  {
    var m := AddPeer(p, now);
    assert [m] + [] == [m];
    CallAndCallback(loaded, m, []);
    var s := Run(Start(loaded, [m]), CALL + [Fire(0), Flush(Timer(0))]).value;
    RunOne(s, Flush(Closer(0)), []);
    RunBoth(Start(loaded, [m]), CALL + [Fire(0), Flush(Timer(0))], [Flush(Closer(0))]);
    assert p.id in SavedMap(Mutate(loaded, m)) && p.id !in SavedMap(loaded);
  }

  lemma {:induction false} SecondCall(s: State, m: Mutation)
    requires BetweenCalls(s, [m]) && Saves(s.mem, m) && s.savers == map[Closer(0) := Waiting, Timer(0) := WantRead]
    ensures var s' := Run(s, CALL);
            && s'.Some? && s'.value.dirty && s'.value.muWriter.None? && Enabled(s'.value, Flush(Closer(0)))
            && Coming(s'.value, Timer(0))
  {
    assert [m] == [m] + [];
    CallRuns(s, m, []);
    hide Mutate, Saves, SavedMap, Run, BetweenCalls;
  }

  /** A second call is made while that callback is on its way; then Close finds the registry dirty. */
  lemma CallbackAndDirty(loaded: PeerMap, m1: Mutation, m2: Mutation)
    requires Saves(loaded, m1) && Saves(Mutate(loaded, m1), m2)
    ensures var s := Run(Start(loaded, [m1, m2]), CALL + [Fire(0), Flush(Timer(0))] + CALL);
            && s.Some? && s.value.dirty && s.value.muWriter.None? && Enabled(s.value, Flush(Closer(0)))
            && Coming(s.value, Timer(0))
  {
    assert [m1, m2] == [m1] + [m2];
    CallAndCallback(loaded, m1, [m2]);
    hide Mutate, Saves, SavedMap, Run, Start, BetweenCalls, Enabled, Coming;
    var before := CALL + [Fire(0), Flush(Timer(0))];
    var s := Run(Start(loaded, [m1, m2]), before).value;
    SecondCall(s, m2);
    RunBoth(Start(loaded, [m1, m2]), before, CALL);
  }

  /**
   Two saves that overlap in the temporary file: for any two calls that save, the run of CallbackAndDirty goes on so
   that Close writes, the callback reopens the temporary file, Close renames it and returns OK, and peers.json is not
   a whole map.
   */
  lemma CloseMayLeavePartialFile(loaded: PeerMap, m1: Mutation, m2: Mutation) returns (steps: seq<Step>)
    requires Saves(loaded, m1) && Saves(Mutate(loaded, m1), m2)
    ensures var end := Run(Start(loaded, [m1, m2]), CALL + [Fire(0), Flush(Timer(0))] + CALL + steps);
            && OnlySavers(steps) && (forall step | step in steps :: Errorless(step))
            && end.Some? && Returned(end.value, Closer(0)) && File(end.value) == Partial
  {
    CallbackAndDirty(loaded, m1, m2);
    hide Mutate, Saves;
    var before := CALL + [Fire(0), Flush(Timer(0))] + CALL;
    var s := Run(Start(loaded, [m1, m2]), before).value;
    var s' := Apply(s, Flush(Closer(0)));
    assert Coming(s', Timer(0)) && Coming(s', Closer(0));
    OpenSpoils(s', Closer(0), Timer(0));
    var rest :| PartialBy(s', Closer(0), rest) && forall step | step in rest :: Errorless(step);
    steps := [Flush(Closer(0))] + rest;
    RunOne(s, Flush(Closer(0)), rest);
    RunBoth(Start(loaded, [m1, m2]), before, steps);
  }
}
