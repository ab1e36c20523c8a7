/** What Close of the peer registry (go/node/peer.go) promises, and exactly when it keeps it. */
module RegistryClose {
  import opened Bytes
  import opened Peers
  import opened RegistryPersistence

  /** No mutator runs. */
  predicate OnlySavers(steps: seq<Step>)
  {
    forall step | step in steps :: !MutatorStep(step)
  }

  /** The call of Close has returned without an error. */
  predicate Returned(s: State, c: SaverId)
  {
    c in s.savers && s.savers[c] == Ended(true)
  }

  /** The promise of Close, from the moment it takes saveMu: once it has returned OK, the file is up to date. */
  ghost predicate CloseFlushes(s: State, c: SaverId)
    requires Enabled(s, Flush(c))
  {
    !Breaks(Apply(s, Flush(c)), c)
  }

  ghost predicate Breaks(s: State, c: SaverId)
  {
    exists steps :: BrokenBy(s, c, steps)
  }

  /** A schedule of savers after which Close has returned OK and the file is not up to date. */
  predicate BrokenBy(s: State, c: SaverId, steps: seq<Step>)
  {
    && OnlySavers(steps) && Run(s, steps).Some?
    && Returned(Run(s, steps).value, c) && !Current(Run(s, steps).value)
  }

  // ---------- when other savers cannot spoil a file that is up to date ----------

  /** At most one saver is still to open the temporary file, and then none is at work on it. */
  ghost predicate OneComing(s: State)
  {
    && (forall i, j | Coming(s, i) && Coming(s, j) :: i == j)
    && (forall i :: !InSave(s, i))
  }

  /** The file that a rename would move is up to date with nobody writing it, or its only saver is still to write it. */
  ghost predicate TmpCalm(s: State, n: nat)
  {
    || (forall i :: !InSave(s, i))
    || (Read(s.disk, n) == Whole(SavedMap(s.mem)) && forall i :: !Filling(s, i, n))
    || (exists i :: Filling(s, i, n) && forall j | InSave(s, j) :: j == i)
  }

  ghost predicate Calm(s: State)
  {
    if exists i :: Coming(s, i) then OneComing(s)
    else (forall i :: !Filling(s, i, s.disk.file)) && (s.disk.tmp.Some? ==> TmpCalm(s, s.disk.tmp.value))
  }

  ghost predicate Still(s: State)
  {
    !s.dirty && Current(s) && Calm(s)
  }

  ghost predicate SameComing(s: State, s': State)
  {
    forall i :: Coming(s', i) <==> Coming(s, i)
  }

  lemma OtherStepKeepsComing(s: State, step: Step)
    requires Timers(s) && Enabled(s, step) && !MutatorStep(step) && !FileStep(step) && !s.dirty
    ensures SameComing(s, Apply(s, step)) && Apply(s, step).mem == s.mem && !Apply(s, step).dirty
  {
    hide SavedMap;
    var s' := Apply(s, step);
    var i := if step.Fire? then Timer(step.n) else step.sid;
    assert s'.savers == s.savers[i := s'.savers[i]];
  }

  lemma OtherStepKeepsStill(s: State, step: Step)
    requires Timers(s) && Still(s) && Enabled(s, step) && !MutatorStep(step) && !FileStep(step)
    ensures Still(Apply(s, step))
  {
    OtherStepKeepsComing(s, step);
    OtherStepKeepsSaves(s, step);
    hide Apply, Enabled;
    SameStill(s, Apply(s, step));
  }

  lemma SameStill(s: State, s': State)
    requires Still(s) && SameComing(s, s') && SameSaves(s, s') && s'.mem == s.mem && !s'.dirty
    ensures Still(s')
  {
    if i :| Coming(s, i) {
      assert Coming(s', i);
    } else if s.disk.tmp.Some? {
      var n := s.disk.tmp.value;
      if i :| Filling(s, i, n) && forall j | InSave(s, j) :: j == i {
        assert Filling(s', i, n);
      }
    }
  }

  /** A step of a saver in saveNow leaves the other savers where they were. */
  ghost predicate OthersStay(s: State, s': State, i: SaverId)
  {
    && (forall j | j != i :: Coming(s', j) <==> Coming(s, j))
    && (forall j | j != i :: InSave(s', j) <==> InSave(s, j))
    && (forall j, n | j != i :: Filling(s', j, n) <==> Filling(s, j, n))
  }

  lemma FileStepOthersStay(s: State, step: Step)
    requires Enabled(s, step) && FileStep(step)
    ensures OthersStay(s, Apply(s, step), step.sid)
    ensures Apply(s, step).mem == s.mem && Apply(s, step).dirty == s.dirty
  {
    hide Saving;
  }

  lemma OpenKeepsStill(s: State, step: Step)
    requires Numbers(s) && Still(s) && Enabled(s, step) && step.Open?
    ensures Still(Apply(s, step))
  {
    FileStepOthersStay(s, step);
    hide SavedMap;
    var s', i := Apply(s, step), step.sid;
    assert Coming(s, i) && !Coming(s', i) && (InSave(s', i) ==> step.ok);
    assert forall j :: !InSave(s, j);
    if step.ok {
      assert Filling(s', i, s'.disk.tmp.value);
    }
    assert File(s') == File(s);
    forall j ensures !Filling(s', j, s'.disk.file) {
      assert j != i && Filling(s', j, s'.disk.file) ==> InSave(s, j);
    }
    assert s'.disk.tmp.Some? ==> TmpCalm(s', s'.disk.tmp.value);
  }

  /** Somebody in saveNow means that nobody is coming. */
  lemma NobodyComing(s: State, i: SaverId)
    requires Calm(s) && InSave(s, i)
    ensures forall j :: !Coming(s, j)
    ensures forall j :: !Filling(s, j, s.disk.file)
    ensures s.disk.tmp.Some? ==> TmpCalm(s, s.disk.tmp.value)
  {
  }

  lemma FillKeepsTmpCalm(s: State, step: Step, n: nat)
    requires Readers(s) && TmpCalm(s, n) && Enabled(s, step) && step.Fill?
    ensures TmpCalm(Apply(s, step), n)
  {
    FileStepOthersStay(s, step);
    hide SavedMap;
    var s', i := Apply(s, step), step.sid;
    var fd := s.savers[i].fd;
    assert InSave(s, i) && Filling(s, i, fd) && HasCopy(s.savers[i]);
    if Read(s.disk, n) == Whole(SavedMap(s.mem)) && forall j :: !Filling(s, j, n) {
      assert fd != n && forall j :: !Filling(s', j, n);
    } else {
      assert forall j | InSave(s, j) :: j == i;
      assert fd == n;
      forall j ensures !Filling(s', j, n) && (InSave(s', j) ==> j == i) {
        assert j != i && Filling(s, j, n) ==> InSave(s, j);
      }
    }
  }

  lemma FillKeepsStill(s: State, step: Step)
    requires Readers(s) && Still(s) && Enabled(s, step) && step.Fill?
    ensures Still(Apply(s, step))
  {
    FileStepOthersStay(s, step);
    var s', i := Apply(s, step), step.sid;
    assert InSave(s, i) && Filling(s, i, s.savers[i].fd);
    NobodyComing(s, i);
    assert s'.disk.tmp == s.disk.tmp && File(s') == File(s) && !Coming(s', i);
    if s.disk.tmp.Some? {
      FillKeepsTmpCalm(s, step, s.disk.tmp.value);
    }
    hide TmpCalm, Apply, SavedMap;
    assert forall j :: !Filling(s', j, s'.disk.file);
  }

  lemma RenameKeepsStill(s: State, step: Step)
    requires Still(s) && Enabled(s, step) && step.Rename?
    ensures Still(Apply(s, step))
  {
    FileStepOthersStay(s, step);
    hide SavedMap;
    var s', i := Apply(s, step), step.sid;
    assert InSave(s, i) && !Coming(s', i) && !InSave(s', i);
    NobodyComing(s, i);
    if s.disk.tmp.Some? {
      var n := s.disk.tmp.value;
      assert forall j :: Filling(s, j, n) ==> j != i && InSave(s, j);
      assert Read(s.disk, n) == Whole(SavedMap(s.mem)) && forall j :: !Filling(s, j, n);
      assert forall j :: !Filling(s', j, n);
      assert s'.disk.tmp.Some? ==> TmpCalm(s', n);
    }
    assert forall j :: !Filling(s', j, s'.disk.file);
  }

  lemma DeleteKeepsStill(s: State, step: Step)
    requires Still(s) && Enabled(s, step) && step.Delete?
    ensures Still(Apply(s, step))
  {
    FileStepOthersStay(s, step);
    hide SavedMap;
    var s', i := Apply(s, step), step.sid;
    assert File(s') == File(s) && !Coming(s', i) && !Coming(s, i) && !InSave(s', i);
    if j :| Coming(s, j) {
      assert Coming(s', j) && OneComing(s');
    } else {
      assert forall j :: !Filling(s', j, s'.disk.file);
    }
  }

  lemma StepKeepsStill(s: State, step: Step)
    requires Inv(s) && Still(s) && Enabled(s, step) && !MutatorStep(step)
    ensures Still(Apply(s, step))
  {
    if step.Open? {
      OpenKeepsStill(s, step);
    } else if step.Fill? {
      FillKeepsStill(s, step);
    } else if step.Rename? {
      RenameKeepsStill(s, step);
    } else if step.Delete? {
      DeleteKeepsStill(s, step);
    } else {
      OtherStepKeepsStill(s, step);
    }
  }

  // ---------- and when they can ----------

  lemma BreaksNow(s: State, c: SaverId)
    requires Returned(s, c) && !Current(s)
    ensures Breaks(s, c)
  {
    assert BrokenBy(s, c, []);
  }

  lemma BreaksAfter(s: State, step: Step, c: SaverId)
    requires Enabled(s, step) && !MutatorStep(step) && Breaks(Apply(s, step), c)
    ensures Breaks(s, c)
  {
    var steps :| BrokenBy(Apply(s, step), c, steps);
    RunOne(s, step, steps);
    assert BrokenBy(s, c, [step] + steps);
  }

  lemma ReturnedStays(s: State, step: Step, c: SaverId)
    requires Enabled(s, step) && (FileStep(step) || step.RLock? || step.Marshal?) && Returned(s, c)
    ensures Returned(Apply(s, step), c)
  {
    hide Saving;
  }

  /** A saver that has written renames whatever the temporary file is by now. */
  lemma BreakByRename(s: State, c: SaverId, y: SaverId, n: nat)
    requires Returned(s, c) && y in s.savers && s.savers[y].Filled? && s.disk.tmp == Some(n)
    requires Read(s.disk, n) != Whole(SavedMap(s.mem))
    ensures Breaks(s, c)
  {
    var step := Rename(y, true);
    ReturnedStays(s, step, c);
    BreaksNow(Apply(s, step), c);
    BreaksAfter(s, step, c);
  }

  /** A write that fails spoils what it was to write. */
  lemma BreakByFailure(s: State, c: SaverId, x: SaverId)
    requires Returned(s, c) && Filling(s, x, s.disk.file)
    ensures Breaks(s, c)
  {
    var step := Fill(x, false);
    ReturnedStays(s, step, c);
    BreaksNow(Apply(s, step), c);
    BreaksAfter(s, step, c);
  }

  lemma BreakFilled(s: State, c: SaverId, x: SaverId, y: SaverId, n: nat)
    requires Returned(s, c) && y in s.savers && s.savers[y].Filled? && s.disk.tmp == Some(n) && Filling(s, x, n)
    ensures Breaks(s, c)
  {
    var step := Fill(x, false);
    ReturnedStays(s, step, c);
    BreakByRename(Apply(s, step), c, y, n);
    BreaksAfter(s, step, c);
  }

  /** y writes its file and renames n, which is not up to date or which x is still to spoil. */
  lemma BreakOpened(s: State, c: SaverId, x: SaverId, y: SaverId, n: nat)
    requires Returned(s, c) && y in s.savers && s.savers[y].Opened? && s.disk.tmp == Some(n)
    requires (x != y && Filling(s, x, n)) || (s.savers[y].fd != n && Read(s.disk, n) != Whole(SavedMap(s.mem)))
    ensures Breaks(s, c)
  {
    var step := Fill(y, true);
    var s' := Apply(s, step);
    ReturnedStays(s, step, c);
    if x != y && Filling(s, x, n) {
      assert Filling(s', x, n);
      BreakFilled(s', c, x, y, n);
    } else {
      assert Read(s'.disk, n) == Read(s.disk, n);
      BreakByRename(s', c, y, n);
    }
    BreaksAfter(s, step, c);
  }

  lemma BreakTmp(s: State, c: SaverId, n: nat)
    requires Returned(s, c) && s.disk.tmp == Some(n) && !TmpCalm(s, n)
    ensures Breaks(s, c)
  {
    if y :| InSave(s, y) && s.savers[y].Filled? {
      if x :| Filling(s, x, n) {
        BreakFilled(s, c, x, y, n);
      } else {
        BreakByRename(s, c, y, n);
      }
    } else if x :| Filling(s, x, n) {
      assert InSave(s, x);
      var y :| InSave(s, y) && y != x;
      BreakOpened(s, c, x, y, n);
    } else {
      var y :| InSave(s, y);
      assert !Filling(s, y, n);
      BreakOpened(s, c, y, y, n);
    }
  }

  /** How far a saver is from having written. */
  function ToWrite(pc: SaverPc): nat
  {
    match pc
    case WantRead => 5
    case Reading => 4
    case HasData(_) => 3
    case Opened(_, _) => 2
    case _ => 1
  }

  function NextStep(s: State, i: SaverId): Step
    requires i in s.savers
  {
    match s.savers[i]
    case WantRead => RLock(i)
    case Reading => Marshal(i)
    case HasData(_) => Open(i, true)
    case _ => Fill(i, true)
  }

  lemma SaverAdvances(s: State, i: SaverId, j: SaverId)
    requires s.muWriter.None? && i in s.savers && 2 <= ToWrite(s.savers[i]) && i != j
    requires Coming(s, i) || InSave(s, i)
    ensures var step := NextStep(s, i);
            && Enabled(s, step) && !MutatorStep(step) && (FileStep(step) || step.RLock? || step.Marshal?)
            && var s' := Apply(s, step);
            && s'.muWriter.None? && i in s'.savers && ToWrite(s'.savers[i]) == ToWrite(s.savers[i]) - 1
            && (Coming(s', i) || InSave(s', i))
            && (j in s.savers ==> j in s'.savers && s'.savers[j] == s.savers[j])
            && (s.savers[i].WantRead? || s.savers[i].Reading? ==> Coming(s', i) && s'.disk == s.disk && s'.mem == s.mem)
  {
    hide SavedMap;
  }

  /** q gets through, or to the point of renaming; p opens the temporary file in between. */
  lemma {:induction false} BreakComing(s: State, c: SaverId, p: SaverId, q: SaverId)
    requires s.muWriter.None? && Returned(s, c) && p != q && Coming(s, p) && (Coming(s, q) || InSave(s, q))
    ensures Breaks(s, c)
    decreases ToWrite(s.savers[p]) + ToWrite(s.savers[q])
  {
    if !s.savers[p].HasData? {
      SaverAdvances(s, p, q);
      var step := NextStep(s, p);
      ReturnedStays(s, step, c);
      BreakComing(Apply(s, step), c, p, q);
      BreaksAfter(s, step, c);
    } else if !s.savers[q].Filled? {
      SaverAdvances(s, q, p);
      var step := NextStep(s, q);
      ReturnedStays(s, step, c);
      BreakComing(Apply(s, step), c, p, q);
      BreaksAfter(s, step, c);
    } else {
      var step := Open(p, true);
      var s' := Apply(s, step);
      ReturnedStays(s, step, c);
      BreakByRename(s', c, q, s'.disk.tmp.value);
      BreaksAfter(s, step, c);
    }
  }

  /** Other savers can spoil the file after Close has returned, whenever they are not calm. */
  lemma NotCalmBreaks(s: State, c: SaverId)
    requires s.muWriter.None? && Returned(s, c) && !Calm(s)
    ensures Breaks(s, c)
  {
    if p :| Coming(s, p) {
      assert !InSave(s, p);
      var q :| q != p && (Coming(s, q) || InSave(s, q));
      BreakComing(s, c, p, q);
    } else if x :| Filling(s, x, s.disk.file) {
      BreakByFailure(s, c, x);
    } else {
      BreakTmp(s, c, s.disk.tmp.value);
    }
  }

  // ---------- a Close that found the registry dirty ----------

  /** Nobody else opens the temporary file or is still to write the one that c works on. */
  ghost predicate OwnTmp(s: State, c: SaverId, n: nat)
  {
    (s.disk.tmp.None? || s.disk.tmp == Some(n)) && forall i | i != c :: !Filling(s, i, n)
  }

  /** No other saver can come between c and its rename; once c has succeeded the file is up to date and stays so. */
  ghost predicate Undisturbed(s: State, c: SaverId)
    requires c in s.savers
  {
    match s.savers[c]
    case Waiting => false
    case Opened(_, n) => OwnTmp(s, c, n)
    case Filled(n) => OwnTmp(s, c, n) && (s.disk.tmp.Some? ==> Read(s.disk, n) == Whole(SavedMap(s.mem)))
    case Deleting => true
    case Unlocking(ok) => ok ==> Still(s)
    case Ended(ok) => ok ==> Still(s)
    case _ => s.disk.tmp.Some? ==> forall i | i != c :: !Filling(s, i, s.disk.tmp.value)
  }

  ghost predicate Closing(s: State, c: SaverId)
  {
    && !s.dirty && c in s.savers && (forall i | i != c :: !Coming(s, i))
    && Undisturbed(s, c)
  }

  lemma OwnOpenKeepsClosing(s: State, step: Step, c: SaverId)
    requires Numbers(s) && Closing(s, c) && Enabled(s, step) && step.Open? && step.sid == c
    ensures Closing(Apply(s, step), c)
  {
    FileStepOthersStay(s, step);
    hide SavedMap, Still;
    var s' := Apply(s, step);
    if step.ok {
      var n := s'.disk.tmp.value;
      forall i | i != c ensures !Filling(s', i, n) {
        assert Filling(s, i, n) ==> InSave(s, i);
      }
    }
  }

  lemma OwnFillKeepsClosing(s: State, step: Step, c: SaverId)
    requires Readers(s) && Closing(s, c) && Enabled(s, step) && step.Fill? && step.sid == c
    ensures Closing(Apply(s, step), c)
  {
    FileStepOthersStay(s, step);
    hide SavedMap, Still;
    assert HasCopy(s.savers[c]);
  }

  lemma OwnRenameKeepsClosing(s: State, step: Step, c: SaverId)
    requires Closing(s, c) && Enabled(s, step) && (step.Rename? || step.Delete?) && step.sid == c
    ensures Closing(Apply(s, step), c)
  {
    FileStepOthersStay(s, step);
    hide SavedMap;
    var s' := Apply(s, step);
    if step.Rename? && s.disk.tmp.Some? && step.ok {
      assert Current(s') && !Coming(s', c);
      assert forall i :: !Filling(s', i, s'.disk.file);
    }
  }

  lemma OthersFillKeepsClosing(s: State, step: Step, c: SaverId)
    requires Closing(s, c) && Enabled(s, step) && step.Fill? && step.sid != c
    requires !s.savers[c].Unlocking? && !s.savers[c].Ended?
    ensures Closing(Apply(s, step), c)
  {
    FileStepOthersStay(s, step);
    hide SavedMap, Still;
    var s', i := Apply(s, step), step.sid;
    assert !Coming(s', i) && Filling(s, i, s.savers[i].fd);
    assert s'.savers[c] == s.savers[c] && s'.disk.tmp == s.disk.tmp && forall n :: !Filling(s', i, n);
  }

  lemma OthersRenameKeepsClosing(s: State, step: Step, c: SaverId)
    requires Closing(s, c) && Enabled(s, step) && (step.Rename? || step.Delete?) && step.sid != c
    requires !s.savers[c].Unlocking? && !s.savers[c].Ended?
    ensures Closing(Apply(s, step), c)
  {
    FileStepOthersStay(s, step);
    hide SavedMap, Still;
    var s', i := Apply(s, step), step.sid;
    assert !Coming(s', i) && (forall n :: !Filling(s', i, n)) && s'.savers[c] == s.savers[c];
    assert s'.disk.files == s.disk.files && (s'.disk.tmp == s.disk.tmp || s'.disk.tmp.None?);
  }

  lemma FileStepKeepsClosing(s: State, step: Step, c: SaverId)
    requires Inv(s) && Closing(s, c) && Enabled(s, step) && FileStep(step)
    requires !s.savers[c].Unlocking? && !s.savers[c].Ended?
    ensures Closing(Apply(s, step), c)
  {
    assert step.Open? ==> Coming(s, step.sid);
    if step.Open? {
      OwnOpenKeepsClosing(s, step, c);
    } else if step.Fill? {
      if step.sid == c {
        OwnFillKeepsClosing(s, step, c);
      } else {
        OthersFillKeepsClosing(s, step, c);
      }
    } else if step.sid == c {
      OwnRenameKeepsClosing(s, step, c);
    } else {
      OthersRenameKeepsClosing(s, step, c);
    }
  }

  lemma QuietStepKeepsClosing(s: State, step: Step, c: SaverId)
    requires Inv(s) && Closing(s, c) && Enabled(s, step) && !MutatorStep(step) && !FileStep(step)
    requires !s.savers[c].Unlocking? && !s.savers[c].Ended?
    ensures Closing(Apply(s, step), c)
  {
    OtherStepKeepsComing(s, step);
    OtherStepKeepsSaves(s, step);
    hide SavedMap;
    var s' := Apply(s, step);
    assert c in s'.savers;
    if InSave(s, c) {
      assert s'.savers[c] == s.savers[c];
    } else if Coming(s, c) {
      assert Coming(s', c);
    } else {
      assert AtDelete(s, c) && AtDelete(s', c);
    }
  }

  lemma DoneFileStep(s: State, step: Step, c: SaverId)
    requires Enabled(s, step) && FileStep(step) && c in s.savers && (s.savers[c].Unlocking? || s.savers[c].Ended?)
    requires forall i | i != c :: !Coming(s, i)
    ensures var s' := Apply(s, step);
            && c in s'.savers && s'.savers[c] == s.savers[c] && s'.dirty == s.dirty
            && (forall i | i != c :: !Coming(s', i))
  {
    FileStepOthersStay(s, step);
    assert step.sid != c && !Coming(Apply(s, step), step.sid);
  }

  lemma DoneQuietStep(s: State, step: Step, c: SaverId)
    requires Timers(s) && Enabled(s, step) && !MutatorStep(step) && !FileStep(step) && !s.dirty
    requires c in s.savers && (s.savers[c].Unlocking? || s.savers[c].Ended?) && forall i | i != c :: !Coming(s, i)
    ensures var s' := Apply(s, step);
            && c in s'.savers && (s'.savers[c] == s.savers[c] || s'.savers[c] == Ended(s.savers[c].ok)) && !s'.dirty
            && (forall i | i != c :: !Coming(s', i))
  {
    OtherStepKeepsComing(s, step);
  }

  lemma DoneStaysDone(s: State, step: Step, c: SaverId)
    requires Inv(s) && Closing(s, c) && Enabled(s, step) && !MutatorStep(step)
    requires s.savers[c].Unlocking? || s.savers[c].Ended?
    ensures Closing(Apply(s, step), c)
  {
    if s.savers[c].ok {
      StepKeepsStill(s, step);
    }
    if FileStep(step) {
      DoneFileStep(s, step, c);
    } else {
      DoneQuietStep(s, step, c);
    }
    hide Apply, Enabled, Still;
  }

  lemma StepKeepsClosing(s: State, step: Step, c: SaverId)
    requires Inv(s) && Closing(s, c) && Enabled(s, step) && !MutatorStep(step)
    ensures Closing(Apply(s, step), c)
  {
    if s.savers[c].Unlocking? || s.savers[c].Ended? {
      DoneStaysDone(s, step, c);
    } else if FileStep(step) {
      FileStepKeepsClosing(s, step, c);
    } else {
      QuietStepKeepsClosing(s, step, c);
    }
  }

  lemma {:induction false} ClosingHolds(s: State, steps: seq<Step>, c: SaverId)
    requires Inv(s) && Closing(s, c) && OnlySavers(steps) && Run(s, steps).Some?
    ensures Closing(Run(s, steps).value, c)
    decreases |steps|
  {
    if steps != [] {
      assert steps[0] in steps;
      StepKeepsInv(s, steps[0]);
      StepKeepsClosing(s, steps[0], c);
      assert OnlySavers(steps[1..]);
      ClosingHolds(Apply(s, steps[0]), steps[1..], c);
    }
  }

  /** A schedule of savers after which Close has returned OK and the file is not even whole. */
  predicate PartialBy(s: State, c: SaverId, steps: seq<Step>)
  {
    && OnlySavers(steps) && Run(s, steps).Some?
    && Returned(Run(s, steps).value, c) && File(Run(s, steps).value) == Partial
  }

  predicate Errorless(step: Step)
  {
    step.Open? || step.Fill? || step.Rename? ==> step.ok
  }

  /** Such a schedule exists; with errorless, one in which no file operation reports an I/O error. */
  ghost predicate LeavesPartial(s: State, c: SaverId, errorless: bool)
  {
    exists steps :: PartialBy(s, c, steps) && (errorless ==> forall step | step in steps :: Errorless(step))
  }

  lemma PartialAfter(s: State, step: Step, c: SaverId, errorless: bool)
    requires Enabled(s, step) && !MutatorStep(step) && LeavesPartial(Apply(s, step), c, errorless)
    requires errorless ==> Errorless(step)
    ensures LeavesPartial(s, c, errorless)
  {
    var steps :| PartialBy(Apply(s, step), c, steps) && (errorless ==> forall step | step in steps :: Errorless(step));
    RunOne(s, step, steps);
    assert PartialBy(s, c, [step] + steps);
  }

  lemma PartialBreaks(s: State, c: SaverId, errorless: bool)
    requires LeavesPartial(s, c, errorless)
    ensures Breaks(s, c)
  {
    var steps :| PartialBy(s, c, steps);
    assert BrokenBy(s, c, steps);
  }

  /** c renames and returns over a temporary file that another saver has spoilt in between. */
  lemma PartialAtRename(s: State, c: SaverId, n: nat, errorless: bool)
    requires c in s.savers && s.savers[c].Filled? && s.disk.tmp == Some(n) && Read(s.disk, n) == Partial
    ensures LeavesPartial(s, c, errorless)
  {
    var s1 := Apply(s, Rename(c, true));
    var s2 := Apply(s1, RUnlock(c));
    assert PartialBy(s2, c, []);
    PartialAfter(s1, RUnlock(c), c, errorless);
    PartialAfter(s, Rename(c, true), c, errorless);
  }

  /** c opens and writes; o opens, which truncates; c renames. */
  lemma {:induction false} OpenSpoils(s: State, c: SaverId, o: SaverId)
    requires s.muWriter.None? && c != o && (Coming(s, c) || InSave(s, c)) && Coming(s, o)
    requires InSave(s, c) ==> s.savers[o].HasData? && s.disk.tmp == Some(s.savers[c].fd)
    ensures LeavesPartial(s, c, true)
    decreases ToWrite(s.savers[c]) + ToWrite(s.savers[o])
  {
    if !s.savers[o].HasData? {
      SaverAdvances(s, o, c);
      OpenSpoils(Apply(s, NextStep(s, o)), c, o);
      PartialAfter(s, NextStep(s, o), c, true);
    } else if !s.savers[c].Filled? {
      SaverAdvances(s, c, o);
      OpenSpoils(Apply(s, NextStep(s, c)), c, o);
      PartialAfter(s, NextStep(s, c), c, true);
    } else {
      var s' := Apply(s, Open(o, true));
      PartialAtRename(s', c, s'.disk.tmp.value, true);
      PartialAfter(s, Open(o, true), c, true);
    }
  }

  /** c opens and writes the file that o still has open; the write of o fails; c renames. */
  lemma {:induction false} FailureSpoils(s: State, c: SaverId, o: SaverId, n: nat)
    requires s.muWriter.None? && c != o && (Coming(s, c) || InSave(s, c)) && Filling(s, o, n) && s.disk.tmp == Some(n)
    ensures LeavesPartial(s, c, false)
    decreases ToWrite(s.savers[c])
  {
    if !s.savers[c].Filled? {
      SaverAdvances(s, c, o);
      FailureSpoils(Apply(s, NextStep(s, c)), c, o, n);
      PartialAfter(s, NextStep(s, c), c, false);
    } else {
      var s' := Apply(s, Fill(o, false));
      PartialAtRename(s', c, n, false);
      PartialAfter(s, Fill(o, false), c, false);
    }
  }

  // ---------- exactly when Close flushes ----------

  /** With a mutator holding mu no saver gets anywhere. */
  ghost predicate Held(s: State, c: SaverId)
  {
    s.muWriter.Some? && c in s.savers && (s.savers[c].WantRead? || (!s.dirty && Current(s)))
  }

  lemma StepKeepsHeld(s: State, step: Step, c: SaverId)
    requires Inv(s) && Held(s, c) && Enabled(s, step) && !MutatorStep(step)
    ensures Held(Apply(s, step), c)
  {
    hide SavedMap;
    if FileStep(step) || step.Marshal? || step.RUnlock? {
      assert false;
    }
    var s' := Apply(s, step);
    assert s'.disk == s.disk && s'.mem == s.mem && s'.muWriter == s.muWriter && c in s'.savers;
  }

  lemma {:induction false} HeldHolds(s: State, steps: seq<Step>, c: SaverId)
    requires Inv(s) && Held(s, c) && OnlySavers(steps) && Run(s, steps).Some?
    ensures Held(Run(s, steps).value, c)
    decreases |steps|
  {
    if steps != [] {
      assert steps[0] in steps;
      StepKeepsInv(s, steps[0]);
      StepKeepsHeld(s, steps[0], c);
      assert OnlySavers(steps[1..]);
      HeldHolds(Apply(s, steps[0]), steps[1..], c);
    }
  }

  /**
   What Close must find when it takes saveMu.  Dirty: no other saver is still to open the temporary file, or to write
   the one there is.  Not dirty: the file is up to date and the other savers are calm.  A mutator that holds mu for
   good keeps every saver, Close included, from the file.
   */
  ghost predicate CanFlush(s: State, c: SaverId)
  {
    if s.muWriter.Some? then s.dirty || Current(s)
    else if s.dirty then
      forall i | i != c :: !Coming(s, i) && (s.disk.tmp.Some? ==> !Filling(s, i, s.disk.tmp.value))
    else Current(s) && Calm(s)
  }

  lemma FlushReadies(s: State, c: SaverId)
    requires Inv(s) && Enabled(s, Flush(c)) && CanFlush(s, c)
    ensures var s' := Apply(s, Flush(c));
            if s.muWriter.Some? then Held(s', c) else if s.dirty then Closing(s', c) else Still(s')
  {
    hide SavedMap;
    var s' := Apply(s, Flush(c));
    OtherStepKeepsSaves(s, Flush(c));
    assert forall i | i != c :: Coming(s', i) <==> Coming(s, i);
    if s.muWriter.None? && !s.dirty {
      assert !Coming(s, c) && SameComing(s, s');
      SameStill(s, s');
    }
  }

  lemma CanFlushHolds(s: State, c: SaverId)
    requires Inv(s) && Enabled(s, Flush(c)) && CanFlush(s, c)
    ensures CloseFlushes(s, c)
  {
    var s' := Apply(s, Flush(c));
    StepKeepsInv(s, Flush(c));
    FlushReadies(s, c);
    hide Apply, Enabled, Inv, Held, Still, Calm, Undisturbed;
    forall steps | OnlySavers(steps) && Run(s', steps).Some? && Returned(Run(s', steps).value, c)
      ensures Current(Run(s', steps).value)
    {
      if s.muWriter.Some? {
        HeldHolds(s', steps, c);
      } else if s.dirty {
        ClosingHolds(s', steps, c);
      } else {
        StillHolds(s', steps);
      }
    }
  }

  lemma {:induction false} StillHolds(s: State, steps: seq<Step>)
    requires Inv(s) && Still(s) && OnlySavers(steps) && Run(s, steps).Some?
    ensures Still(Run(s, steps).value)
    decreases |steps|
  {
    if steps != [] {
      assert steps[0] in steps;
      StepKeepsInv(s, steps[0]);
      StepKeepsStill(s, steps[0]);
      assert OnlySavers(steps[1..]);
      StillHolds(Apply(s, steps[0]), steps[1..]);
    }
  }

  lemma CannotFlushBreaks(s: State, c: SaverId)
    requires Inv(s) && Enabled(s, Flush(c)) && !CanFlush(s, c)
    ensures !CloseFlushes(s, c)
  {
    var s' := Apply(s, Flush(c));
    OtherStepKeepsSaves(s, Flush(c));
    assert forall i | i != c :: Coming(s', i) <==> Coming(s, i);
    if !s.dirty {
      if !Current(s) {
        BreaksNow(s', c);
      } else {
        assert !Coming(s, c) && SameComing(s, s');
        if Calm(s') {
          SameStill(s', s);
        }
        NotCalmBreaks(s', c);
      }
    } else {
      var o :| o != c && (Coming(s, o) || (s.disk.tmp.Some? && Filling(s, o, s.disk.tmp.value)));
      if Coming(s, o) {
        OpenSpoils(s', c, o);
        PartialBreaks(s', c, true);
      } else {
        FailureSpoils(s', c, o, s.disk.tmp.value);
        PartialBreaks(s', c, false);
      }
    }
  }

  /** In every schedule without mutators: Close that returns OK leaves the file up to date if and only if it can. */
  lemma CloseFlushesExactly(s: State, c: SaverId)
    requires Inv(s) && Enabled(s, Flush(c))
    ensures CloseFlushes(s, c) <==> CanFlush(s, c)
  {
    if CanFlush(s, c) {
      CanFlushHolds(s, c);
    } else {
      CannotFlushBreaks(s, c);
    }
  }

  /** So it does whenever no other saver and no caller is between a change and its save. */
  lemma CloseFlushesWhenAlone(s: State, c: SaverId)
    requires Inv(s) && Enabled(s, Flush(c)) && !s.failed
    requires (forall t :: !MutatorOwes(s, t)) && (forall i :: !SaverOwes(s, i))
    ensures CloseFlushes(s, c)
  {
    forall i ensures !Coming(s, i) && !InSave(s, i) {
      assert !SaverOwes(s, i);
    }
    assert forall i, n :: Filling(s, i, n) ==> InSave(s, i);
    CanFlushHolds(s, c);
  }

  // ---------- the timer that Close stops ----------

  /** Timer n is used up and has no callback. */
  predicate Stopped(s: State, n: nat)
  {
    n !in s.armed && n < s.nextTimer && Timer(n) !in s.savers
  }

  lemma StepKeepsStopped(s: State, step: Step, n: nat)
    requires Enabled(s, step) && Stopped(s, n)
    ensures Stopped(Apply(s, step), n)
  {
    hide Mutate, Saves, SavedMap, Saving, Holds;
  }

  lemma {:induction false} StaysStopped(s: State, steps: seq<Step>, n: nat)
    requires Run(s, steps).Some? && Stopped(s, n)
    ensures Stopped(Run(s, steps).value, n)
    decreases |steps|
  {
    if steps != [] {
      StepKeepsStopped(s, steps[0], n);
      StaysStopped(Apply(s, steps[0]), steps[1..], n);
    }
  }

  /** A timer that Close finds pending never runs its callback, whatever happens afterwards. */
  lemma {:induction false} StoppedTimerNeverFires(s: State, n: nat, m: nat, steps: seq<Step>)
    requires Inv(s) && Enabled(s, Flush(Closer(n))) && s.saveTimer == Some(m) && m in s.armed
    requires Run(Apply(s, Flush(Closer(n))), steps).Some?
    ensures Timer(m) !in Run(Apply(s, Flush(Closer(n))), steps).value.savers
  {
    StaysStopped(Apply(s, Flush(Closer(n))), steps, m);
  }
}
