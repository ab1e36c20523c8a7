/** Every schedule of requests and responses is finite, and where it ends every call has returned. */
module CorrelatorDrain {
  import opened Correlator
  import opened Sums

  function RequesterSteps(r: Requester): nat
  {
    match r.pc
    case Fresh => 5
    case Registered => 4
    case Waiting => 3
    case Returning(_) => 2
    case Unregistered(_) => 1
    case Returned(_) => 0
  }

  function HandlerSteps(h: Handler): nat
  {
    match h.pc
    case Arrived => 2
    case Found(_) => 1
    case Handled => 0
  }

  ghost function RequesterLoad(s: State): nat
  {
    Sum(map t | t in s.requesters :: RequesterSteps(s.requesters[t]))
  }

  ghost function HandlerLoad(s: State): nat
  {
    Sum(map h | h in s.handlers :: HandlerSteps(s.handlers[h]))
  }

  ghost function Load(s: State): nat
  {
    RequesterLoad(s) + HandlerLoad(s)
  }

  lemma RequesterLoadAt(s: State, s': State, t: Tid)
    requires t in s.requesters && t in s'.requesters && s'.requesters == s.requesters[t := s'.requesters[t]]
    ensures RequesterLoad(s') + RequesterSteps(s.requesters[t]) == RequesterLoad(s) + RequesterSteps(s'.requesters[t])
  {
    var w := map u | u in s.requesters :: RequesterSteps(s.requesters[u]);
    SumWithout(w, t);
    SumUpdate(w, t, RequesterSteps(s'.requesters[t]));
    assert (map u | u in s'.requesters :: RequesterSteps(s'.requesters[u])) == w[t := RequesterSteps(s'.requesters[t])];
  }

  lemma HandlerLoadAt(s: State, s': State, h: Tid)
    requires h in s.handlers && h in s'.handlers && s'.handlers == s.handlers[h := s'.handlers[h]]
    ensures HandlerLoad(s') + HandlerSteps(s.handlers[h]) == HandlerLoad(s) + HandlerSteps(s'.handlers[h])
  {
    var w := map u | u in s.handlers :: HandlerSteps(s.handlers[u]);
    SumWithout(w, h);
    SumUpdate(w, h, HandlerSteps(s'.handlers[h]));
    assert (map u | u in s'.handlers :: HandlerSteps(s'.handlers[u])) == w[h := HandlerSteps(s'.handlers[h])];
  }

  lemma RequesterStepMoves(s: State, step: Step)
    requires Enabled(s, step) && !ByHandler(step)
    ensures var s', t := Apply(s, step), step.tid;
            && s'.handlers == s.handlers
            && t in s.requesters && t in s'.requesters && s'.requesters == s.requesters[t := s'.requesters[t]]
            && RequesterSteps(s'.requesters[t]) < RequesterSteps(s.requesters[t])
  {
  }

  lemma HandlerStepMoves(s: State, step: Step)
    requires Enabled(s, step) && ByHandler(step)
    ensures var s', h := Apply(s, step), step.tid;
            && s'.requesters == s.requesters
            && h in s.handlers && h in s'.handlers && s'.handlers == s.handlers[h := s'.handlers[h]]
            && HandlerSteps(s'.handlers[h]) < HandlerSteps(s.handlers[h])
  {
  }

  /** Every step uses up part of the load. */
  lemma StepSpends(s: State, step: Step)
    requires Enabled(s, step)
    ensures Load(Apply(s, step)) < Load(s)
  {
    if ByHandler(step) {
      HandlerStepMoves(s, step);
      HandlerLoadAt(s, Apply(s, step), step.tid);
    } else {
      RequesterStepMoves(s, step);
      RequesterLoadAt(s, Apply(s, step), step.tid);
    }
  }

  lemma {:induction false} RunIsBounded(s: State, steps: seq<Step>)
    requires Run(s, steps).Some?
    ensures |steps| + Load(Run(s, steps).value) <= Load(s)
    decreases |steps|
  {
    if steps != [] {
      StepSpends(s, steps[0]);
      RunIsBounded(Apply(s, steps[0]), steps[1..]);
    }
  }

  lemma RequesterMoves(s: State, t: Tid)
    requires Inv(s) && t in s.requesters && !s.requesters[t].pc.Returned?
    ensures exists step :: Enabled(s, step)
  {
    assert GoodRequester(s, t);
    var step := match s.requesters[t].pc
      case Fresh => Register(t)
      case Registered => SendOk(t)
      case Waiting => Timeout(t)
      case Returning(_) => Unregister(t)
      case _ => CloseChan(t);
    assert Enabled(s, step);
  }

  lemma HandlerMoves(s: State, h: Tid)
    requires Inv(s) && h in s.handlers && !s.handlers[h].pc.Handled?
    ensures exists step :: Enabled(s, step)
  {
    assert GoodHandler(s, h);
    assert Enabled(s, if s.handlers[h].pc.Arrived? then Lookup(h) else Deliver(h));
  }

  /**
   From the start every schedule ends after at most Load steps, and where no step is possible every request has
   returned, with a response or without, and every response has been dealt with.
   */
  lemma {:induction false} EveryScheduleReturns(ids: map<Tid, MsgID>, msgs: map<Tid, Message>, steps: seq<Step>)
    requires UniqueIDs(ids) && Run(Init(ids, msgs), steps).Some?
    ensures |steps| <= Load(Init(ids, msgs))
    ensures var end := Run(Init(ids, msgs), steps).value;
            (forall step :: !Enabled(end, step)) ==>
              && (forall t | t in end.requesters :: end.requesters[t].pc.Returned?)
              && (forall h | h in end.handlers :: end.handlers[h].pc.Handled?)
              && end.pending == map[]
  {
    RunIsBounded(Init(ids, msgs), steps);
    RunKeepsInv(Init(ids, msgs), steps);
    var end := Run(Init(ids, msgs), steps).value;
    if forall step :: !Enabled(end, step) {
      RestIsDone(end);
    }
  }

  lemma EntryInFlight(s: State, id: MsgID)
    requires Inv(s) && id in s.pending
    ensures s.pending[id] in s.requesters && !s.requesters[s.pending[id]].pc.Returned?
  {
    assert GoodEntry(s, id);
  }

  lemma RestIsDone(s: State)
    requires Inv(s) && forall step :: !Enabled(s, step)
    ensures forall t | t in s.requesters :: s.requesters[t].pc.Returned?
    ensures forall h | h in s.handlers :: s.handlers[h].pc.Handled?
    ensures s.pending == map[]
  {
    hide Enabled, GoodEntry, GoodHandler, GoodRequester;
    forall t | t in s.requesters ensures s.requesters[t].pc.Returned? {
      if !s.requesters[t].pc.Returned? {
        RequesterMoves(s, t);
      }
    }
    forall h | h in s.handlers ensures s.handlers[h].pc.Handled? {
      if !s.handlers[h].pc.Handled? {
        HandlerMoves(s, h);
      }
    }
    forall id ensures id !in s.pending {
      if id in s.pending {
        EntryInFlight(s, id);
      }
    }
  }
}
