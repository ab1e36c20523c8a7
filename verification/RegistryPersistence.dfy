/**
 How the peer registry reaches the disk (go/node/peer.go): mutators change the map under mu and then schedule a
 debounced save; a timer callback or Close clears the dirty flag under saveMu and then saves the map under mu.RLock,
 through one temporary file that all savers share.  A run is any interleaving of the steps below; the saveMu
 sections are short and are one step each.
 */
module RegistryPersistence {
  import opened Bytes
  import opened Peers

  type Tid = nat

  /** Who writes: the callback of timer n, or the n-th call of Close. */
  datatype SaverId = Timer(n: nat) | Closer(n: nat)

  datatype MutatorPc = Idle | Locked | NeedsUnlock(saves: bool) | NeedsSave

  datatype Mutator = Mutator(todo: seq<Mutation>, pc: MutatorPc)

  /** The end of a saver carries what it returns. */
  datatype SaverPc =
    | Waiting                         // for saveMu: a fired timer, or a Close not yet begun
    | WantRead                        // found dirty, cleared it
    | Reading                         // holds mu.RLock
    | HasData(data: PeerMap)          // has marshalled the map
    | Opened(data: PeerMap, fd: nat)  // has created or truncated the temporary file
    | Filled(fd: nat)                 // has written it
    | Deleting                        // the rename failed
    | Unlocking(ok: bool)
    | Ended(ok: bool)

  /** What a file holds: a whole saved map, or only part of one. */
  datatype Content = Partial | Whole(peers: PeerMap)

  /** The files by number, and which of them have the names peers.json and peers.json.tmp. */
  datatype Disk = Disk(files: map<nat, Content>, file: nat, tmp: Option<nat>, next: nat)

  function Read(d: Disk, n: nat): Content
  {
    if n in d.files then d.files[n] else Partial
  }

  function Put(d: Disk, n: nat, c: Content): Disk
  {
    d.(files := d.files[n := c])
  }

  /** Opening the temporary file truncates it or makes a new one. */
  function Created(d: Disk): (r: Disk)
    ensures r.tmp.Some?
  {
    if d.tmp.Some? then Put(d, d.tmp.value, Partial)
    else Put(d, d.next, Partial).(tmp := Some(d.next), next := d.next + 1)
  }

  /** Whoever has the file open still has it open when its name changes. */
  function Moved(d: Disk): Disk
    requires d.tmp.Some?
  {
    d.(file := d.tmp.value, tmp := None)
  }

  datatype State = State(
    mem: PeerMap,
    disk: Disk,
    dirty: bool,
    saveTimer: Option<nat>,
    nextTimer: nat,
    armed: set<nat>,
    muWriter: Option<Tid>,
    muReaders: set<SaverId>,
    mutators: map<Tid, Mutator>,
    savers: map<SaverId, SaverPc>,
    failed: bool)  // a save failed, and none since has left the memory of its moment in the file

  /** The file is peers.json. */
  function File(s: State): Content
  {
    Read(s.disk, s.disk.file)
  }

  /** The file is whole and has these peers, in every field but the connection state. */
  predicate Holds(c: Content, ps: PeerMap): (r: bool)
    ensures r <==> c == Whole(SavedMap(ps))
  {
    if c.Whole? then WrittenIsSaved(c.peers, ps); Written(c.peers, ps) else false
  }

  predicate Current(s: State)
  {
    Holds(File(s), s.mem)
  }

  datatype Step =
    | Lock(tid: Tid)
    | Change(tid: Tid)
    | Unlock(tid: Tid)
    | Schedule(tid: Tid)
    | Fire(n: nat)
    | Flush(sid: SaverId)
    | RLock(sid: SaverId)
    | Marshal(sid: SaverId)
    | Open(sid: SaverId, ok: bool)
    | Fill(sid: SaverId, ok: bool)
    | Rename(sid: SaverId, ok: bool)
    | Delete(sid: SaverId)
    | RUnlock(sid: SaverId)

  predicate Enabled(s: State, step: Step)
  {
    match step
    case Lock(t) =>
      && t in s.mutators && s.mutators[t].pc.Idle? && s.mutators[t].todo != []
      && s.muWriter.None? && s.muReaders == {}
    case Change(t) => t in s.mutators && s.mutators[t].pc.Locked? && s.mutators[t].todo != []
    case Unlock(t) => t in s.mutators && s.mutators[t].pc.NeedsUnlock?
    case Schedule(t) => t in s.mutators && s.mutators[t].pc.NeedsSave?
    case Fire(n) => n in s.armed
    case Flush(i) => i in s.savers && s.savers[i].Waiting?
    case RLock(i) => i in s.savers && s.savers[i].WantRead? && s.muWriter.None?
    case Marshal(i) => i in s.savers && s.savers[i].Reading?
    case Open(i, _) => i in s.savers && s.savers[i].HasData?
    case Fill(i, _) => i in s.savers && s.savers[i].Opened?
    case Rename(i, _) => i in s.savers && s.savers[i].Filled?
    case Delete(i) => i in s.savers && s.savers[i].Deleting?
    case RUnlock(i) => i in s.savers && s.savers[i].Unlocking?
  }

  predicate MutatorStep(step: Step)
  {
    step.Lock? || step.Change? || step.Unlock? || step.Schedule?
  }

  function Apply(s: State, step: Step): State
    requires Enabled(s, step)
  {
    match step
    case Lock(t) => s.(muWriter := Some(t), mutators := s.mutators[t := s.mutators[t].(pc := Locked)])
    case Change(t) =>
      var m := s.mutators[t].todo[0];
      s.(mem := Mutate(s.mem, m),
         mutators := s.mutators[t := Mutator(s.mutators[t].todo[1..], NeedsUnlock(Saves(s.mem, m)))])
    case Unlock(t) =>
      s.(muWriter := None,
         mutators := s.mutators[t := s.mutators[t].(pc := if s.mutators[t].pc.saves then NeedsSave else Idle)])
    case Schedule(t) =>
      var s1 := s.(dirty := true, mutators := s.mutators[t := s.mutators[t].(pc := Idle)]);
      if s.saveTimer.Some? then s1
      else s1.(saveTimer := Some(s.nextTimer), armed := s.armed + {s.nextTimer}, nextTimer := s.nextTimer + 1)
    case Fire(n) => s.(armed := s.armed - {n}, savers := s.savers[Timer(n) := Waiting])
    case Flush(i) =>
      var stopped := if i.Closer? && s.saveTimer.Some? then {s.saveTimer.value} else {};
      s.(saveTimer := None, dirty := false, armed := s.armed - stopped,
         savers := s.savers[i := if s.dirty then WantRead else Ended(true)])
    case RLock(i) => s.(muReaders := s.muReaders + {i}, savers := s.savers[i := Reading])
    case Marshal(i) => s.(savers := s.savers[i := HasData(SavedMap(s.mem))])
    case RUnlock(i) => s.(muReaders := s.muReaders - {i}, savers := s.savers[i := Ended(s.savers[i].ok)])
    case _ =>
      var e := Saving(s, step);
      s.(disk := e.disk, failed := e.failed, savers := s.savers[step.sid := e.pc])
  }

  /** The disk, the failure flag and the saver after one step of saveNow. */
  datatype Effect = Effect(disk: Disk, failed: bool, pc: SaverPc)

  predicate FileStep(step: Step)
  {
    step.Open? || step.Fill? || step.Rename? || step.Delete?
  }

  function Saving(s: State, step: Step): Effect
    requires Enabled(s, step) && FileStep(step)
  {
    var d, pc := s.disk, s.savers[step.sid];
    match step
    case Open(_, ok) =>
      if ok then Effect(Created(d), s.failed, Opened(pc.data, Created(d).tmp.value))
      else Effect(d, true, Unlocking(false))
    case Fill(_, ok) =>
      if ok then Effect(Put(d, pc.fd, Whole(pc.data)), s.failed, Filled(pc.fd))
      else Effect(Put(d, pc.fd, Partial), true, Unlocking(false))
    case Rename(_, ok) =>
      if d.tmp.None? then Effect(d, s.failed, Deleting)
      else if !ok then Effect(d, true, Deleting)
      else Effect(Moved(d), s.failed && Read(d, d.tmp.value) != Whole(SavedMap(s.mem)), Unlocking(true))
    case Delete(_) => Effect(d.(tmp := None), s.failed, Unlocking(false))
  }

  function Run(s: State, steps: seq<Step>): Option<State>
    decreases |steps|
  {
    if steps == [] then Some(s)
    else if Enabled(s, steps[0]) then Run(Apply(s, steps[0]), steps[1..])
    else None
  }

  lemma {:induction false} RunOne(s: State, step: Step, rest: seq<Step>)
    requires Enabled(s, step)
    ensures Run(s, [step] + rest) == Run(Apply(s, step), rest)
  {
    assert ([step] + rest)[1..] == rest;
  }

  lemma {:induction false} RunBoth(s: State, a: seq<Step>, b: seq<Step>)
    requires Run(s, a).Some?
    ensures Run(s, a + b) == Run(Run(s, a).value, b)
    decreases |a|
  {
    if a == [] {
      assert a + b == b;
    } else {
      RunBoth(Apply(s, a[0]), a[1..], b);
      assert a + b == [a[0]] + (a[1..] + b);
      RunOne(s, a[0], a[1..] + b);
    }
  }

  /** A registry just loaded from its file, with these callers to come. */
  function Init(loaded: PeerMap, programs: map<Tid, seq<Mutation>>, closers: set<nat>): State
  {
    State(loaded, Disk(map[0 := Whole(SavedMap(loaded))], 0, None, 1), false, None, 0, {}, None, {},
          map t | t in programs :: Mutator(programs[t], Idle), map n | n in closers :: Closer(n) := Waiting, false)
  }

  // ---------- invariant ----------

  /** Nobody writes the map while it is being written to disk. */
  ghost predicate Locks(s: State)
  {
    && (s.muWriter.Some? ==> s.muReaders == {} && s.muWriter.value in s.mutators)
    && (forall t | t in s.mutators :: MutatorHolds(s, t))
  }

  /** A mutator holds mu exactly inside its critical section, which it enters for a call. */
  ghost predicate MutatorHolds(s: State, t: Tid)
    requires t in s.mutators
  {
    && (s.muWriter == Some(t) <==> s.mutators[t].pc.Locked? || s.mutators[t].pc.NeedsUnlock?)
    && (s.mutators[t].pc.Locked? ==> s.mutators[t].todo != [])
  }

  predicate HoldsRead(pc: SaverPc)
  {
    pc.Reading? || pc.HasData? || pc.Opened? || pc.Filled? || pc.Deleting? || pc.Unlocking?
  }

  predicate HasCopy(pc: SaverPc)
  {
    pc.HasData? || pc.Opened?
  }

  ghost predicate Readers(s: State)
  {
    && (forall i :: i in s.muReaders <==> i in s.savers && HoldsRead(s.savers[i]))
    && (forall i | i in s.savers && HasCopy(s.savers[i]) :: s.savers[i].data == SavedMap(s.mem))
  }

  predicate Outstanding(s: State, n: nat)
  {
    n in s.armed || (Timer(n) in s.savers && s.savers[Timer(n)].Waiting?)
  }

  /** The dirty flag always has a timer that will look at it. */
  ghost predicate Timers(s: State)
  {
    && (forall n | n in s.armed :: n < s.nextTimer && Timer(n) !in s.savers)
    && (forall i | i in s.savers && i.Timer? :: i.n < s.nextTimer)
    && (s.saveTimer.Some? ==> Outstanding(s, s.saveTimer.value))
    && (s.dirty ==> exists n :: Outstanding(s, n))
  }

  predicate MutatorOwes(s: State, t: Tid)
  {
    t in s.mutators && (s.mutators[t].pc.NeedsSave? || s.mutators[t].pc == NeedsUnlock(true))
  }

  /** Has cleared the dirty flag and not yet opened the temporary file. */
  predicate Coming(s: State, i: SaverId)
  {
    i in s.savers && (s.savers[i].WantRead? || s.savers[i].Reading? || s.savers[i].HasData?)
  }

  /** Between opening the temporary file and renaming it. */
  predicate InSave(s: State, i: SaverId)
  {
    i in s.savers && (s.savers[i].Opened? || s.savers[i].Filled?)
  }

  predicate Filling(s: State, i: SaverId, n: nat)
  {
    i in s.savers && s.savers[i].Opened? && s.savers[i].fd == n
  }

  predicate AtDelete(s: State, i: SaverId)
  {
    i in s.savers && s.savers[i].Deleting?
  }

  predicate SaverOwes(s: State, i: SaverId)
  {
    Coming(s, i) || InSave(s, i)
  }

  /** The file holds the memory of now, or somebody is about to write that to it, or a save failed. */
  ghost predicate Good(s: State, n: nat)
  {
    Read(s.disk, n) == Whole(SavedMap(s.mem)) || (exists i :: Filling(s, i, n)) || s.failed
  }

  /** File numbers are used once. */
  ghost predicate Numbers(s: State)
  {
    && s.disk.file < s.disk.next
    && (s.disk.tmp.Some? ==> s.disk.tmp.value < s.disk.next && s.disk.tmp.value != s.disk.file)
    && (forall i | InSave(s, i) :: s.savers[i].fd < s.disk.next)
  }

  /** What the savers have made of the two names, however they overlap. */
  ghost predicate SavesOk(s: State)
  {
    && (s.disk.tmp.Some? ==> Good(s, s.disk.tmp.value))
    && ((exists i :: InSave(s, i)) ==> s.disk.tmp.Some? || Good(s, s.disk.file))
    && ((exists i :: AtDelete(s, i)) ==> Good(s, s.disk.file))
    && (s.disk.tmp.Some? && !s.failed ==> exists i :: InSave(s, i))
  }

  /** A change that is not in the file is known to somebody who will act on it, unless a save failed. */
  ghost predicate Covered(s: State)
  {
    || Current(s)
    || s.dirty
    || (exists t :: MutatorOwes(s, t))
    || (exists i :: SaverOwes(s, i))
    || s.failed
  }

  ghost predicate Inv(s: State)
  {
    Locks(s) && Readers(s) && Timers(s) && Numbers(s) && SavesOk(s) && Covered(s)
  }

  /** The steps of a saver that has found the registry dirty. */
  predicate SaverStep(step: Step)
  {
    !MutatorStep(step) && !step.Fire? && !step.Flush?
  }

  /** Such a step concerns its saver, the disk and the readers of mu. */
  ghost predicate OnlyItsSaver(s: State, s': State, i: SaverId)
  {
    && s'.mem == s.mem && s'.mutators == s.mutators && s'.muWriter == s.muWriter
    && s'.dirty == s.dirty && s'.saveTimer == s.saveTimer && s'.nextTimer == s.nextTimer && s'.armed == s.armed
    && i in s.savers && i in s'.savers && s'.savers == s.savers[i := s'.savers[i]]
    && !s.savers[i].Waiting? && !s'.savers[i].Waiting?
  }

  lemma SavingKeepsLock(s: State, step: Step)
    requires Enabled(s, step) && FileStep(step)
    ensures var pc, pc' := s.savers[step.sid], Saving(s, step).pc;
            && HoldsRead(pc) && HoldsRead(pc') && (HasCopy(pc') ==> HasCopy(pc) && pc'.data == pc.data)
  {
  }

  lemma SaveStepFrame(s: State, step: Step)
    requires Enabled(s, step) && FileStep(step)
    ensures OnlyItsSaver(s, Apply(s, step), step.sid) && Apply(s, step).muReaders == s.muReaders
    ensures var pc, pc' := s.savers[step.sid], Apply(s, step).savers[step.sid];
            && HoldsRead(pc) && HoldsRead(pc') && (HasCopy(pc') ==> HasCopy(pc) && pc'.data == pc.data)
  {
    SavingKeepsLock(s, step);
    hide Saving, SavedMap;
  }

  lemma ReadStepFrame(s: State, step: Step)
    requires Readers(s) && Enabled(s, step) && SaverStep(step) && !FileStep(step)
    ensures OnlyItsSaver(s, Apply(s, step), step.sid)
    ensures forall i | i != step.sid :: i in Apply(s, step).muReaders <==> i in s.muReaders
    ensures step.sid in Apply(s, step).muReaders <==> HoldsRead(Apply(s, step).savers[step.sid])
    ensures s.muWriter.Some? ==> Apply(s, step).muReaders <= s.muReaders
    ensures HasCopy(Apply(s, step).savers[step.sid]) ==> Apply(s, step).savers[step.sid].data == SavedMap(s.mem)
  {
    hide SavedMap;
    assert step.sid in s.muReaders <==> HoldsRead(s.savers[step.sid]);
  }

  lemma CallKeepsMutator(s: State, step: Step, t: Tid)
    requires Locks(s) && Enabled(s, step) && MutatorStep(step) && t in s.mutators
    ensures t in Apply(s, step).mutators && MutatorHolds(Apply(s, step), t)
  {
    hide Mutate, Saves;
    assert MutatorHolds(s, t) && MutatorHolds(s, step.tid);
  }

  lemma CallKeepsLocks(s: State, step: Step)
    requires Locks(s) && Enabled(s, step) && MutatorStep(step)
    ensures Locks(Apply(s, step))
  {
    hide Mutate, Saves, MutatorHolds;
    var s' := Apply(s, step);
    assert s'.mutators.Keys == s.mutators.Keys;
    forall t | t in s'.mutators ensures MutatorHolds(s', t) {
      CallKeepsMutator(s, step, t);
    }
  }

  lemma SaverStepKeepsLocks(s: State, step: Step)
    requires Locks(s) && Readers(s) && Enabled(s, step) && !MutatorStep(step)
    ensures Locks(Apply(s, step))
  {
    if FileStep(step) {
      SaveStepFrame(s, step);
      hide Apply, Enabled;
      SameMutators(s, Apply(s, step));
    } else if SaverStep(step) {
      ReadStepFrame(s, step);
      SameMutators(s, Apply(s, step));
    } else {
      SameMutators(s, Apply(s, step));
    }
  }

  lemma SameMutators(s: State, s': State)
    requires Locks(s) && s'.mutators == s.mutators && s'.muWriter == s.muWriter
    requires s.muWriter.Some? ==> s'.muReaders == {}
    ensures Locks(s')
  {
    forall t | t in s'.mutators ensures MutatorHolds(s', t) {
      assert MutatorHolds(s, t);
    }
  }

  lemma MutatorStepKeepsReaders(s: State, step: Step)
    requires Locks(s) && Readers(s) && Enabled(s, step) && MutatorStep(step)
    ensures Readers(Apply(s, step))
  {
  }

  /** Fire and Flush concern savers that hold no lock. */
  lemma TimerStepKeepsReaders(s: State, step: Step)
    requires Readers(s) && Timers(s) && Enabled(s, step) && (step.Fire? || step.Flush?)
    ensures Readers(Apply(s, step))
  {
  }

  lemma WriterStepKeepsReaders(s: State, step: Step)
    requires Readers(s) && Enabled(s, step) && SaverStep(step)
    ensures Readers(Apply(s, step))
  {
    if FileStep(step) {
      SaveStepFrame(s, step);
    } else {
      ReadStepFrame(s, step);
    }
    hide Apply, Enabled, HoldsRead, HasCopy;
  }

  lemma SaverStepKeepsTimers(s: State, step: Step)
    requires Readers(s) && Timers(s) && Enabled(s, step) && SaverStep(step)
    ensures Timers(Apply(s, step))
  {
    if FileStep(step) {
      SaveStepFrame(s, step);
    } else {
      ReadStepFrame(s, step);
    }
    hide Apply, Enabled;
    if s.dirty {
      var n :| Outstanding(s, n);
      assert Outstanding(Apply(s, step), n);
    }
  }

  lemma CallKeepsTimers(s: State, step: Step)
    requires Timers(s) && Enabled(s, step) && !SaverStep(step)
    ensures Timers(Apply(s, step))
  {
    hide Mutate, Saves, SavedMap;
    var s' := Apply(s, step);
    if step.Schedule? {
      if s.saveTimer.None? {
        assert Outstanding(s', s.nextTimer);
      } else {
        assert Outstanding(s', s.saveTimer.value);
      }
    } else if s'.dirty {
      var n :| Outstanding(s, n);
      assert Outstanding(s', n);
    }
  }

  /** Nobody enters or leaves saveNow, and the disk stays. */
  ghost predicate SameSaves(s: State, s': State)
  {
    && s'.disk == s.disk && s'.failed == s.failed
    && (forall i :: InSave(s', i) <==> InSave(s, i))
    && (forall i | InSave(s, i) :: s'.savers[i] == s.savers[i])
    && (forall i :: AtDelete(s', i) <==> AtDelete(s, i))
    && (forall i, n :: Filling(s', i, n) <==> Filling(s, i, n))
  }

  lemma OtherStepKeepsSaves(s: State, step: Step)
    requires Timers(s) && Enabled(s, step) && !FileStep(step)
    ensures SameSaves(s, Apply(s, step))
  {
    hide Mutate, SavedMap, Saves;
    var s' := Apply(s, step);
    if MutatorStep(step) {
      assert s'.savers == s.savers;
    } else {
      var i := if step.Fire? then Timer(step.n) else step.sid;
      assert s'.savers == s.savers[i := s'.savers[i]];
      assert !InSave(s, i) && !InSave(s', i) && !AtDelete(s, i) && !AtDelete(s', i);
    }
  }

  lemma FileStepKeepsNumbers(s: State, step: Step)
    requires Numbers(s) && Enabled(s, step) && FileStep(step)
    ensures Numbers(Apply(s, step))
  {
    hide SavedMap;
    var s' := Apply(s, step);
    forall i | InSave(s', i) ensures s'.savers[i].fd < s'.disk.next {
      if i == step.sid {
        assert InSave(s, i) || step == Open(i, true);
      } else {
        assert InSave(s, i);
      }
    }
  }

  lemma StepKeepsNumbers(s: State, step: Step)
    requires Numbers(s) && Timers(s) && Enabled(s, step)
    ensures Numbers(Apply(s, step))
  {
    if FileStep(step) {
      FileStepKeepsNumbers(s, step);
    } else {
      OtherStepKeepsSaves(s, step);
      hide Apply, Enabled;
      forall i | InSave(Apply(s, step), i) ensures Apply(s, step).savers[i].fd < s.disk.next {
        assert InSave(s, i);
      }
    }
  }

  lemma SameSavesOk(s: State, s': State)
    requires SavesOk(s) && SameSaves(s, s') && SavedMap(s'.mem) == SavedMap(s.mem)
    ensures SavesOk(s')
  {
    forall n ensures Good(s', n) <==> Good(s, n) {
      if i :| Filling(s, i, n) {
        assert Filling(s', i, n);
      }
    }
    if i :| InSave(s, i) {
      assert InSave(s', i);
    }
  }

  /** The map changes only while nobody is in saveNow; a temporary file that is left over then is one of a failure. */
  lemma ChangeKeepsSavesOk(s: State, step: Step)
    requires Locks(s) && Readers(s) && SavesOk(s) && Timers(s) && Enabled(s, step) && step.Change?
    ensures SavesOk(Apply(s, step))
  {
    OtherStepKeepsSaves(s, step);
    assert MutatorHolds(s, step.tid);
    hide Apply, Mutate, SavedMap;
    assert forall i :: i !in s.muReaders;
    forall i ensures !InSave(s, i) && !AtDelete(s, i) {
      assert i !in s.muReaders;
    }
  }

  lemma OpenKeepsSavesOk(s: State, step: Step)
    requires SavesOk(s) && Numbers(s) && Enabled(s, step) && step.Open?
    ensures SavesOk(Apply(s, step))
  {
    hide SavedMap;
    var s', i := Apply(s, step), step.sid;
    if step.ok {
      assert Filling(s', i, s'.disk.tmp.value) && InSave(s', i);
      if k :| AtDelete(s', k) {
        assert AtDelete(s, k);
        GoodStays(s, s', i, s.disk.file);
      }
    }
  }

  /** A file that the step does not write stays good, when its saver was not to fill it. */
  lemma GoodStays(s: State, s': State, i: SaverId, n: nat)
    requires Good(s, n) && !Filling(s, i, n) && s'.mem == s.mem && (s.failed ==> s'.failed)
    requires Read(s'.disk, n) == Read(s.disk, n)
    requires forall j | j != i && j in s.savers :: j in s'.savers && s'.savers[j] == s.savers[j]
    ensures Good(s', n)
  {
    if j :| Filling(s, j, n) {
      assert Filling(s', j, n);
    }
  }

  lemma FillKeepsSavesOk(s: State, step: Step)
    requires Readers(s) && SavesOk(s) && Enabled(s, step) && step.Fill?
    ensures SavesOk(Apply(s, step))
  {
    hide SavedMap;
    var s', i := Apply(s, step), step.sid;
    if step.ok {
      assert InSave(s', i) && InSave(s, i);
      forall n | Good(s, n) ensures Good(s', n) {
        if n == s.savers[i].fd {
          assert HasCopy(s.savers[i]) && Read(s'.disk, n) == Whole(SavedMap(s.mem));
        } else {
          GoodStays(s, s', i, n);
        }
      }
      if k :| AtDelete(s', k) {
        assert AtDelete(s, k);
      }
    }
  }

  lemma RenameKeepsSavesOk(s: State, step: Step)
    requires SavesOk(s) && Enabled(s, step) && step.Rename?
    ensures SavesOk(Apply(s, step))
  {
    hide SavedMap;
    var s', i := Apply(s, step), step.sid;
    assert InSave(s, i);
    if s.disk.tmp.None? {
      GoodStays(s, s', i, s.disk.file);
    } else if step.ok {
      var n := s.disk.tmp.value;
      if j :| Filling(s, j, n) {
        assert Filling(s', j, n);
      }
    }
  }

  lemma DeleteKeepsSavesOk(s: State, step: Step)
    requires SavesOk(s) && Enabled(s, step) && step.Delete?
    ensures SavesOk(Apply(s, step))
  {
    hide SavedMap;
    assert AtDelete(s, step.sid);
    GoodStays(s, Apply(s, step), step.sid, s.disk.file);
  }

  lemma StepKeepsSavesOk(s: State, step: Step)
    requires Locks(s) && Readers(s) && Timers(s) && Numbers(s) && SavesOk(s) && Enabled(s, step)
    ensures SavesOk(Apply(s, step))
  {
    if step.Change? {
      ChangeKeepsSavesOk(s, step);
    } else if step.Open? {
      OpenKeepsSavesOk(s, step);
    } else if step.Fill? {
      FillKeepsSavesOk(s, step);
    } else if step.Rename? {
      RenameKeepsSavesOk(s, step);
    } else if step.Delete? {
      DeleteKeepsSavesOk(s, step);
    } else {
      OtherStepKeepsSaves(s, step);
      assert Apply(s, step).mem == s.mem;
      SameSavesOk(s, Apply(s, step));
    }
  }

  /** Outside Schedule and saveNow nobody who owes a save forgets it. */
  lemma StillOwed(s: State, step: Step)
    requires Timers(s) && Covered(s) && Enabled(s, step) && !step.Schedule? && !FileStep(step)
    requires step.Flush? ==> !s.dirty
    requires SavedMap(Apply(s, step).mem) == SavedMap(s.mem)
    ensures Covered(Apply(s, step))
  {
    hide SavedMap, Mutate;
    var s' := Apply(s, step);
    assert s'.disk == s.disk;
    if t :| MutatorOwes(s, t) {
      assert MutatorOwes(s', t);
    } else if i :| SaverOwes(s, i) {
      assert SaverOwes(s', i);
    }
  }

  /** A saver leaves saveNow with the file current, with another saver in it, or with a failure. */
  lemma RenameKeepsCovered(s: State, step: Step)
    requires SavesOk(s) && Enabled(s, step) && step.Rename?
    ensures Covered(Apply(s, step))
  {
    hide SavedMap;
    var s', i := Apply(s, step), step.sid;
    assert InSave(s, i);
    var n := if s.disk.tmp.None? then s.disk.file else s.disk.tmp.value;
    if j :| Filling(s, j, n) {
      assert SaverOwes(s', j);
    }
  }

  lemma SaveKeepsCovered(s: State, step: Step)
    requires Covered(s) && Enabled(s, step) && FileStep(step) && !step.Rename?
    ensures Covered(Apply(s, step))
  {
    hide SavedMap;
    var s', i := Apply(s, step), step.sid;
    if step.Delete? {
      assert File(s') == File(s);
      if t :| MutatorOwes(s, t) {
        assert MutatorOwes(s', t);
      } else if j :| SaverOwes(s, j) {
        assert SaverOwes(s', j);
      }
    } else if step.ok {
      assert SaverOwes(s', i);
    }
  }

  lemma StepKeepsCovered(s: State, step: Step)
    requires Timers(s) && SavesOk(s) && Covered(s) && Enabled(s, step)
    ensures Covered(Apply(s, step))
  {
    var s' := Apply(s, step);
    if step.Change? && Saves(s.mem, s.mutators[step.tid].todo[0]) {
      assert MutatorOwes(s', step.tid);
    } else if step.Flush? && s.dirty {
      assert SaverOwes(s', step.sid);
    } else if step.Rename? {
      RenameKeepsCovered(s, step);
    } else if FileStep(step) {
      SaveKeepsCovered(s, step);
    } else if !step.Schedule? {
      if step.Change? {
        UnsavedMutationKeepsFile(s.mem, s.mutators[step.tid].todo[0]);
      }
      StillOwed(s, step);
    }
  }

  /** Every step of every thread keeps the invariant. */
  lemma StepKeepsInv(s: State, step: Step)
    requires Inv(s) && Enabled(s, step)
    ensures Inv(Apply(s, step))
  {
    if MutatorStep(step) {
      CallKeepsLocks(s, step);
      MutatorStepKeepsReaders(s, step);
    } else {
      SaverStepKeepsLocks(s, step);
      if step.Fire? || step.Flush? {
        TimerStepKeepsReaders(s, step);
      } else {
        WriterStepKeepsReaders(s, step);
      }
    }
    if SaverStep(step) {
      SaverStepKeepsTimers(s, step);
    } else {
      CallKeepsTimers(s, step);
    }
    StepKeepsNumbers(s, step);
    StepKeepsSavesOk(s, step);
    StepKeepsCovered(s, step);
  }

  lemma {:induction false} RunKeepsInv(s: State, steps: seq<Step>)
    requires Inv(s) && Run(s, steps).Some?
    ensures Inv(Run(s, steps).value)
    decreases |steps|
  {
    if steps != [] {
      StepKeepsInv(s, steps[0]);
      RunKeepsInv(Apply(s, steps[0]), steps[1..]);
    }
  }

  // ---------- no lost update ----------

  /** Every caller has done its part and no timer or writer is on its way. */
  ghost predicate Quiet(s: State)
  {
    (forall n :: !Outstanding(s, n)) && (forall t :: !MutatorOwes(s, t)) && (forall i :: !SaverOwes(s, i))
  }

  /**
   At every moment of every run, however savers overlap in the temporary file, a change that is not in the file has
   somebody who will write it, unless a save failed and none since has left the memory of its moment in the file.
   */
  lemma {:induction false} NoLostUpdate(loaded: PeerMap, programs: map<Tid, seq<Mutation>>, closers: set<nat>,
                                        steps: seq<Step>)
    requires Run(Init(loaded, programs, closers), steps).Some?
    ensures var s := Run(Init(loaded, programs, closers), steps).value;
            !Current(s) && !s.failed ==>
              || (exists n :: Outstanding(s, n) && s.dirty)
              || (exists t :: MutatorOwes(s, t))
              || (exists i :: SaverOwes(s, i))
    ensures var s := Run(Init(loaded, programs, closers), steps).value;
            Quiet(s) && !s.failed ==> File(s).Whole? && Written(File(s).peers, s.mem)
  {
    RunKeepsInv(Init(loaded, programs, closers), steps);
  }

  /** Whoever owes a save can always get on: some step is possible that starts no new call. */
  lemma SaveNeverStuck(s: State)
    requires Inv(s) && !Quiet(s)
    ensures exists step :: Enabled(s, step) && !step.Lock? && !(step.Flush? && step.sid.Closer?)
  {
    if n :| Outstanding(s, n) {
      if n in s.armed {
        assert Enabled(s, Fire(n));
      } else {
        assert Enabled(s, Flush(Timer(n)));
      }
    } else if t :| MutatorOwes(s, t) {
      assert Enabled(s, if s.mutators[t].pc.NeedsSave? then Schedule(t) else Unlock(t));
    } else {
      var i :| SaverOwes(s, i);
      SaverMoves(s, i);
    }
  }

  lemma SaverMoves(s: State, i: SaverId)
    requires Locks(s) && SaverOwes(s, i)
    ensures exists step :: Enabled(s, step) && !step.Lock? && !(step.Flush? && step.sid.Closer?)
  {
    if s.savers[i].Filled? {
      assert Enabled(s, Rename(i, true));
    } else if s.savers[i].Opened? {
      assert Enabled(s, Fill(i, true));
    } else if s.savers[i].HasData? {
      assert Enabled(s, Open(i, true));
    } else if s.savers[i].Reading? {
      assert Enabled(s, Marshal(i));
    } else if s.muWriter.None? {
      assert Enabled(s, RLock(i));
    } else {
      var t := s.muWriter.value;
      assert Enabled(s, if s.mutators[t].pc.Locked? then Change(t) else Unlock(t));
    }
  }
}
