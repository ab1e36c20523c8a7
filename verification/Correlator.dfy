/**
 Matching responses to requests (go/node/controller.go) as a machine of steps: requesters run sendRequest,
 incoming messages run handleResponse, and the pending map is touched only under the controller's mutex.
 */
module Correlator {
  import opened Bytes

  type Tid = nat
  type MsgID = string

  datatype Message = Message(replyTo: MsgID, body: seq<Byte>)

  /** A result is None when sendRequest fails: no connection, a failed send, or a timeout. */
  datatype Pc =
    | Fresh
    | Registered
    | Waiting
    | Returning(result: Option<Message>)     // about to run the deferred clean-up
    | Unregistered(result: Option<Message>)  // entry deleted, channel not yet closed
    | Returned(result: Option<Message>)

  datatype Requester = Requester(id: MsgID, pc: Pc)

  /** Found(t): has taken requester t's channel out of pending, under the lock, and will send to it after unlocking. */
  datatype HandlerPc = Arrived | Found(to: Tid) | Handled

  datatype Handler = Handler(msg: Message, pc: HandlerPc)

  /** A response channel of capacity 1; sends counts the messages ever put in it. */
  datatype Chan = Chan(queue: seq<Message>, closed: bool, sends: nat)

  datatype State = State(
    pending: map<MsgID, Tid>,
    chans: map<Tid, Chan>,
    requesters: map<Tid, Requester>,
    handlers: map<Tid, Handler>,
    dropped: bool,
    panicked: bool)

  datatype Step =
    | FailEarly(tid: Tid)
    | Register(tid: Tid)
    | SendOk(tid: Tid)
    | SendFails(tid: Tid)
    | TakeResponse(tid: Tid)
    | Timeout(tid: Tid)
    | Unregister(tid: Tid)
    | CloseChan(tid: Tid)
    | Lookup(tid: Tid)
    | Deliver(tid: Tid)

  predicate Enabled(s: State, step: Step)
  {
    if step.Lookup? then step.tid in s.handlers && s.handlers[step.tid].pc.Arrived?
    else if step.Deliver? then
      step.tid in s.handlers && s.handlers[step.tid].pc.Found? && s.handlers[step.tid].pc.to in s.chans
    else
      && step.tid in s.requesters
      && var pc := s.requesters[step.tid].pc;
      match step
      case FailEarly(_) => pc.Fresh?
      case Register(_) => pc.Fresh?
      case SendOk(_) => pc.Registered?
      case SendFails(_) => pc.Registered?
      case TakeResponse(t) => pc.Waiting? && t in s.chans && s.chans[t].queue != []
      case Timeout(_) => pc.Waiting?
      case Unregister(_) => pc.Returning?
      case CloseChan(t) => pc.Unregistered? && t in s.chans
  }

  function At(s: State, t: Tid, pc: Pc): map<Tid, Requester>
    requires t in s.requesters
  {
    s.requesters[t := s.requesters[t].(pc := pc)]
  }

  function HandlerAt(s: State, h: Tid, pc: HandlerPc): map<Tid, Handler>
    requires h in s.handlers
  {
    s.handlers[h := s.handlers[h].(pc := pc)]
  }

  function Apply(s: State, step: Step): State
    requires Enabled(s, step)
  {
    var t := step.tid;
    match step
    case FailEarly(_) => s.(requesters := At(s, t, Returned(None)))
    case Register(_) =>
      s.(pending := s.pending[s.requesters[t].id := t], chans := s.chans[t := Chan([], false, 0)],
         requesters := At(s, t, Registered))
    case SendOk(_) => s.(requesters := At(s, t, Waiting))
    case SendFails(_) => s.(requesters := At(s, t, Returning(None)))
    case TakeResponse(_) =>
      var ch := s.chans[t];
      s.(chans := s.chans[t := ch.(queue := ch.queue[1..])], requesters := At(s, t, Returning(Some(ch.queue[0]))))
    case Timeout(_) => s.(requesters := At(s, t, Returning(None)))
    case Unregister(_) =>
      s.(pending := s.pending - {s.requesters[t].id}, requesters := At(s, t, Unregistered(s.requesters[t].pc.result)))
    case CloseChan(_) =>
      s.(chans := s.chans[t := s.chans[t].(closed := true)],
         requesters := At(s, t, Returned(s.requesters[t].pc.result)))
    case Lookup(_) =>
      var id := s.handlers[t].msg.replyTo;
      if id != "" && id in s.pending then
        s.(pending := s.pending - {id}, handlers := HandlerAt(s, t, Found(s.pending[id])))
      else s.(handlers := HandlerAt(s, t, Handled))
    case Deliver(_) =>
      var to, msg := s.handlers[t].pc.to, s.handlers[t].msg;
      var ch := s.chans[to];
      if ch.closed then s.(panicked := true, handlers := HandlerAt(s, t, Handled))
      else if |ch.queue| < 1 then
        s.(chans := s.chans[to := Chan(ch.queue + [msg], false, ch.sends + 1)], handlers := HandlerAt(s, t, Handled))
      else s.(dropped := true, handlers := HandlerAt(s, t, Handled))
  }

  function Run(s: State, steps: seq<Step>): Option<State>
    decreases |steps|
  {
    if steps == [] then Some(s)
    else if Enabled(s, steps[0]) then Run(Apply(s, steps[0]), steps[1..])
    else None
  }

  function Init(ids: map<Tid, MsgID>, msgs: map<Tid, Message>): State
  {
    State(map[], map[], map t | t in ids :: Requester(ids[t], Fresh), map h | h in msgs :: Handler(msgs[h], Arrived),
          false, false)
  }

  /** Message IDs are unique. */
  ghost predicate Unique(requesters: map<Tid, Requester>)
  {
    forall t, u | t in requesters && u in requesters && requesters[t].id == requesters[u].id :: t == u
  }

  predicate InFlight(pc: Pc) { pc.Registered? || pc.Waiting? || pc.Returning? }

  /** A pending entry belongs to the request with that ID, which is in flight and unanswered. */
  ghost predicate GoodEntry(s: State, id: MsgID)
    requires id in s.pending
  {
    var t := s.pending[id];
    && t in s.requesters && t in s.chans
    && s.requesters[t].id == id && InFlight(s.requesters[t].pc)
    && s.chans[t].sends == 0
  }

  /** The entry of a request that is in flight. */
  ghost predicate BelongsInFlight(s: State, id: MsgID)
    requires id in s.pending
  {
    var t := s.pending[id];
    t in s.requesters && s.requesters[t].id == id && InFlight(s.requesters[t].pc)
  }

  /** A handler that took a channel holds the one response for it: the entry is gone and nothing has been sent. */
  ghost predicate GoodHandler(s: State, h: Tid)
    requires h in s.handlers
  {
    s.handlers[h].pc.Found? ==>
      var t := s.handlers[h].pc.to;
      && t in s.requesters && t in s.chans
      && s.handlers[h].msg.replyTo == s.requesters[t].id
      && s.requesters[t].id !in s.pending
      && s.chans[t].sends == 0
      && forall h2 | h2 in s.handlers && h2 != h :: s.handlers[h2].pc != Found(t)
  }

  /** Any message returned replies to this ID. */
  predicate Answers(r: Option<Message>, id: MsgID)
  {
    r.Some? ==> r.value.replyTo == id
  }

  /** What a request holds: only its own response, at most once; its channel is open until it has returned. */
  ghost predicate GoodRequester(s: State, t: Tid)
    requires t in s.requesters
  {
    var Requester(id, pc) := s.requesters[t];
    && (pc.Fresh? ==> t !in s.chans)
    && (!pc.Fresh? && !pc.Returned? ==> t in s.chans)
    && (pc.Returning? || pc.Unregistered? || pc.Returned? ==> Answers(pc.result, id))
    && (pc.Unregistered? || pc.Returned? || pc.Fresh? ==> id !in s.pending)
    && (t in s.chans ==>
          && s.chans[t].sends <= 1 && |s.chans[t].queue| <= s.chans[t].sends
          && (forall m | m in s.chans[t].queue :: m.replyTo == id)
          && (s.chans[t].closed <==> pc.Returned?))
  }

  ghost predicate Inv(s: State)
  {
    && Unique(s.requesters)
    && (forall id | id in s.pending :: GoodEntry(s, id))
    && (forall h | h in s.handlers :: GoodHandler(s, h))
    && (forall t | t in s.requesters :: GoodRequester(s, t))
    && !s.dropped
  }

  predicate ByHandler(step: Step) { step.Lookup? || step.Deliver? }

  lemma RequesterStepKeepsEntry(s: State, step: Step, id: MsgID)
    requires Inv(s) && Enabled(s, step) && !ByHandler(step) && id in Apply(s, step).pending
    ensures GoodEntry(Apply(s, step), id)
  {
    assert GoodRequester(s, step.tid);
    if id in s.pending {
      assert GoodEntry(s, id);
    }
  }

  lemma HandlerStepKeepsEntry(s: State, step: Step, id: MsgID)
    requires Inv(s) && Enabled(s, step) && ByHandler(step) && id in Apply(s, step).pending
    ensures GoodEntry(Apply(s, step), id)
  {
    hide GoodRequester;
    assert GoodEntry(s, id) && GoodHandler(s, step.tid);
  }

  lemma RequesterStepKeepsHandler(s: State, step: Step, h: Tid)
    requires Inv(s) && Enabled(s, step) && !ByHandler(step) && h in s.handlers
    ensures GoodHandler(Apply(s, step), h)
  {
    assert GoodHandler(s, h) && GoodRequester(s, step.tid);
  }

  lemma HandlerStepKeepsHandler(s: State, step: Step, h: Tid)
    requires Inv(s) && Enabled(s, step) && ByHandler(step) && h in s.handlers
    ensures GoodHandler(Apply(s, step), h)
  {
    hide GoodRequester;
    assert GoodHandler(s, h) && GoodHandler(s, step.tid);
    var id := s.handlers[step.tid].msg.replyTo;
    if id in s.pending {
      assert GoodEntry(s, id);
    }
  }

  lemma OwnStepKeepsRequester(s: State, step: Step)
    requires Inv(s) && Enabled(s, step) && !ByHandler(step)
    ensures GoodRequester(Apply(s, step), step.tid)
  {
    assert GoodRequester(s, step.tid);
  }

  lemma OtherStepKeepsRequester(s: State, step: Step, t: Tid)
    requires Inv(s) && Enabled(s, step) && !ByHandler(step) && t in s.requesters && t != step.tid
    ensures GoodRequester(Apply(s, step), t)
  {
    assert GoodRequester(s, t);
  }

  lemma HandlerStepKeepsRequester(s: State, step: Step, t: Tid)
    requires Inv(s) && Enabled(s, step) && ByHandler(step) && t in s.requesters
    ensures GoodRequester(Apply(s, step), t)
  {
    assert GoodRequester(s, t) && GoodHandler(s, step.tid);
  }

  /** The channel a handler sends to is empty: the full-channel branch is never taken. */
  lemma NeverDrops(s: State, step: Step)
    requires Inv(s) && Enabled(s, step)
    ensures !Apply(s, step).dropped
  {
    if step.Deliver? {
      assert GoodHandler(s, step.tid);
      assert GoodRequester(s, s.handlers[step.tid].pc.to);
    }
  }

  /** Steps change neither who takes part nor the IDs. */
  ghost predicate SameParties(s: State, s': State)
  {
    && s'.requesters.Keys == s.requesters.Keys && s'.handlers.Keys == s.handlers.Keys
    && forall t | t in s.requesters :: s'.requesters[t].id == s.requesters[t].id
  }

  lemma StepKeepsParties(s: State, step: Step)
    requires Enabled(s, step)
    ensures SameParties(s, Apply(s, step))
  {
  }

  lemma PartiesStayUnique(s: State, s': State)
    requires Unique(s.requesters) && SameParties(s, s')
    ensures Unique(s'.requesters)
  {
  }

  lemma StepKeepsInv(s: State, step: Step)
    requires Inv(s) && Enabled(s, step)
    ensures Inv(Apply(s, step))
  {
    hide Apply, Enabled, Unique, GoodEntry, GoodHandler, GoodRequester;
    StepKeepsParties(s, step);
    PartiesStayUnique(s, Apply(s, step));
    var s' := Apply(s, step);
    forall id | id in s'.pending ensures GoodEntry(s', id) {
      if ByHandler(step) {
        HandlerStepKeepsEntry(s, step, id);
      } else {
        RequesterStepKeepsEntry(s, step, id);
      }
    }
    forall h | h in s'.handlers ensures GoodHandler(s', h) {
      if ByHandler(step) {
        HandlerStepKeepsHandler(s, step, h);
      } else {
        RequesterStepKeepsHandler(s, step, h);
      }
    }
    forall t | t in s'.requesters ensures GoodRequester(s', t) {
      if ByHandler(step) {
        HandlerStepKeepsRequester(s, step, t);
      } else if t == step.tid {
        OwnStepKeepsRequester(s, step);
      } else {
        OtherStepKeepsRequester(s, step, t);
      }
    }
    NeverDrops(s, step);
  }

  lemma {:induction false} RunKeepsInv(s: State, steps: seq<Step>)
    requires Inv(s) && Run(s, steps).Some?
    ensures Inv(Run(s, steps).value)
    decreases |steps|
  {
    if steps != [] {
      StepKeepsInv(s, steps[0]);
      RunKeepsInv(Apply(s, steps[0]), steps[1..]);
    }
  }

  // ---------- what is returned is what came in ----------

  ghost predicate Came(msgs: map<Tid, Message>, m: Message)
  {
    exists h :: h in msgs && msgs[h] == m
  }

  /** What the request returns, or is about to. */
  function Result(pc: Pc): Option<Message>
  {
    if pc.Returning? || pc.Unregistered? || pc.Returned? then pc.result else None
  }

  ghost predicate GenuineHandlers(s: State, msgs: map<Tid, Message>)
  {
    forall h | h in s.handlers :: h in msgs && s.handlers[h].msg == msgs[h]
  }

  ghost predicate GenuineChans(s: State, msgs: map<Tid, Message>)
  {
    forall t, m | t in s.chans && m in s.chans[t].queue :: Came(msgs, m)
  }

  ghost predicate GenuineResults(s: State, msgs: map<Tid, Message>)
  {
    forall t | t in s.requesters && Result(s.requesters[t].pc).Some? :: Came(msgs, Result(s.requesters[t].pc).value)
  }

  /** Handlers, channels and results hold messages that came in, unaltered. */
  ghost predicate Genuine(s: State, msgs: map<Tid, Message>)
  {
    GenuineHandlers(s, msgs) && GenuineChans(s, msgs) && GenuineResults(s, msgs)
  }

  lemma StepKeepsGenuineHandlers(s: State, step: Step, msgs: map<Tid, Message>)
    requires Enabled(s, step) && GenuineHandlers(s, msgs)
    ensures GenuineHandlers(Apply(s, step), msgs)
  {
  }

  /** A channel gains a message only from a handler, and then at its end. */
  lemma QueueAfter(s: State, step: Step, t: Tid, m: Message)
    requires Enabled(s, step) && t in Apply(s, step).chans && m in Apply(s, step).chans[t].queue
    ensures (t in s.chans && m in s.chans[t].queue) || (step.Deliver? && m == s.handlers[step.tid].msg)
  {
  }

  lemma StepKeepsGenuineChans(s: State, step: Step, msgs: map<Tid, Message>)
    requires Enabled(s, step) && Genuine(s, msgs)
    ensures GenuineChans(Apply(s, step), msgs)
  {
    var s' := Apply(s, step);
    forall t, m | t in s'.chans && m in s'.chans[t].queue ensures Came(msgs, m) {
      QueueAfter(s, step, t, m);
    }
  }

  /** A request gains a result only from its channel. */
  lemma ResultAfter(s: State, step: Step, t: Tid)
    requires Enabled(s, step) && t in Apply(s, step).requesters && Result(Apply(s, step).requesters[t].pc).Some?
    ensures var r := Result(Apply(s, step).requesters[t].pc);
            || (t in s.requesters && Result(s.requesters[t].pc) == r)
            || (t in s.chans && r.value in s.chans[t].queue)
  {
  }

  lemma StepKeepsGenuine(s: State, step: Step, msgs: map<Tid, Message>)
    requires Enabled(s, step) && Genuine(s, msgs)
    ensures Genuine(Apply(s, step), msgs)
  {
    StepKeepsGenuineHandlers(s, step, msgs);
    StepKeepsGenuineChans(s, step, msgs);
    hide Apply, Enabled;
    var s' := Apply(s, step);
    forall t | t in s'.requesters && Result(s'.requesters[t].pc).Some?
      ensures Came(msgs, Result(s'.requesters[t].pc).value)
    {
      ResultAfter(s, step, t);
    }
  }

  lemma {:induction false} RunKeepsGenuine(s: State, steps: seq<Step>, msgs: map<Tid, Message>)
    requires Genuine(s, msgs) && Run(s, steps).Some?
    ensures Genuine(Run(s, steps).value, msgs)
    decreases |steps|
  {
    if steps != [] {
      StepKeepsGenuine(s, steps[0], msgs);
      RunKeepsGenuine(Apply(s, steps[0]), steps[1..], msgs);
    }
  }

  ghost predicate UniqueIDs(ids: map<Tid, MsgID>)
  {
    forall t, u | t in ids && u in ids && ids[t] == ids[u] :: t == u
  }

  /**
   In every interleaving with unique message IDs: a request that returns a message returns one that came in, unaltered,
   and that replies to its own ID; at most one response is ever put in a channel and none is dropped for want of room;
   every pending entry belongs to a request in flight, so none outlives its request.
   */
  lemma {:induction false} ResponsesAreCorrelated(ids: map<Tid, MsgID>, msgs: map<Tid, Message>, steps: seq<Step>)
    requires UniqueIDs(ids) && Run(Init(ids, msgs), steps).Some?
    ensures var s := Run(Init(ids, msgs), steps).value;
            && (forall t | t in s.requesters && s.requesters[t].pc.Returned? ::
                  && s.requesters[t].id !in s.pending && Answers(s.requesters[t].pc.result, s.requesters[t].id)
                  && (s.requesters[t].pc.result.Some? ==> Came(msgs, s.requesters[t].pc.result.value)))
            && (forall t | t in s.requesters && t in s.chans :: s.chans[t].sends <= 1)
            && (forall id | id in s.pending :: BelongsInFlight(s, id))
            && !s.dropped
  {
    RunKeepsInv(Init(ids, msgs), steps);
    RunKeepsGenuine(Init(ids, msgs), steps, msgs);
    var s := Run(Init(ids, msgs), steps).value;
    forall id | id in s.pending
      ensures BelongsInFlight(s, id)
    {
      assert GoodEntry(s, id);
    }
    forall t | t in s.requesters
      ensures GoodRequester(s, t)
      ensures s.requesters[t].pc.Returned? && s.requesters[t].pc.result.Some? ==>
                Came(msgs, s.requesters[t].pc.result.value)
    {
      assert Result(s.requesters[t].pc).Some? ==> Came(msgs, Result(s.requesters[t].pc).value);
    }
  }

  // ---------- and a request fails only by failing or timing out ----------

  /** The steps by which request t fails. */
  predicate Fails(step: Step, t: Tid)
  {
    step == FailEarly(t) || step == SendFails(t) || step == Timeout(t)
  }

  predicate HasFailed(s: State, t: Tid)
  {
    && t in s.requesters
    && var pc := s.requesters[t].pc;
    (pc.Returning? || pc.Unregistered? || pc.Returned?) && pc.result.None?
  }

  lemma StepFailsExactly(s: State, step: Step, t: Tid)
    requires Enabled(s, step)
    ensures HasFailed(Apply(s, step), t) <==> HasFailed(s, t) || Fails(step, t)
  {
  }

  lemma {:induction false} RunFailsExactly(s: State, steps: seq<Step>, t: Tid)
    requires Run(s, steps).Some?
    ensures HasFailed(Run(s, steps).value, t) <==> HasFailed(s, t) || exists i :: 0 <= i < |steps| && Fails(steps[i], t)
    decreases |steps|
  {
    if steps != [] {
      StepFailsExactly(s, steps[0], t);
      RunFailsExactly(Apply(s, steps[0]), steps[1..], t);
      assert steps == [steps[0]] + steps[1..];
    }
  }

  /** In every run a request that has returned has no message if and only if it could not send or timed out. */
  lemma {:induction false} FailsExactly(ids: map<Tid, MsgID>, msgs: map<Tid, Message>, steps: seq<Step>, t: Tid)
    requires Run(Init(ids, msgs), steps).Some? && t in Run(Init(ids, msgs), steps).value.requesters
    requires Run(Init(ids, msgs), steps).value.requesters[t].pc.Returned?
    ensures Run(Init(ids, msgs), steps).value.requesters[t].pc.result == None
       <==> exists i :: 0 <= i < |steps| && Fails(steps[i], t)
  {
    RunFailsExactly(Init(ids, msgs), steps, t);
  }

  // ---------- and no response to a live request is ignored ----------

  predicate FoundFor(s: State, h: Tid, t: Tid)
  {
    h in s.handlers && s.handlers[h].pc == Found(t)
  }

  /** Its response would be looked up, or is on its way to its channel, or has been put there. */
  ghost predicate Heard(s: State, t: Tid)
    requires t in s.requesters
  {
    || (s.requesters[t].id in s.pending && s.pending[s.requesters[t].id] == t)
    || (exists h :: FoundFor(s, h, t))
    || (t in s.chans && s.chans[t].sends == 1)
  }

  ghost predicate AllHeard(s: State)
  {
    forall t | t in s.requesters && InFlight(s.requesters[t].pc) :: Heard(s, t)
  }

  lemma RequesterStepKeepsHeard(s: State, step: Step, t: Tid)
    requires Inv(s) && Enabled(s, step) && !ByHandler(step) && t in s.requesters
    requires InFlight(s.requesters[t].pc) ==> Heard(s, t)
    ensures InFlight(Apply(s, step).requesters[t].pc) ==> Heard(Apply(s, step), t)
  {
    var s' := Apply(s, step);
    if t == step.tid && step.Register? {
      assert s'.pending[s'.requesters[t].id] == t;
    } else if InFlight(s'.requesters[t].pc) {
      assert GoodRequester(s, t);
      if h :| FoundFor(s, h, t) {
        assert FoundFor(s', h, t);
      }
    }
  }

  lemma HandlerStepKeepsHeard(s: State, step: Step, t: Tid)
    requires Inv(s) && Enabled(s, step) && ByHandler(step) && t in s.requesters
    requires InFlight(s.requesters[t].pc) && Heard(s, t)
    ensures Heard(Apply(s, step), t)
  {
    var s', h := Apply(s, step), step.tid;
    assert GoodRequester(s, t);
    if step.Deliver? && s.handlers[h].pc.to == t {
      assert GoodHandler(s, h);
      assert s'.chans[t].sends == 1;
    } else if step.Lookup? && s.handlers[h].msg.replyTo == s.requesters[t].id
           && s.requesters[t].id in s.pending && s.pending[s.requesters[t].id] == t && s.requesters[t].id != "" {
      assert FoundFor(s', h, t);
    } else if k :| FoundFor(s, k, t) {
      assert FoundFor(s', k, t);
    }
  }

  lemma StepKeepsHeard(s: State, step: Step)
    requires Inv(s) && AllHeard(s) && Enabled(s, step)
    ensures AllHeard(Apply(s, step))
  {
    var s' := Apply(s, step);
    forall t | t in s'.requesters && InFlight(s'.requesters[t].pc) ensures Heard(s', t) {
      if ByHandler(step) {
        HandlerStepKeepsHeard(s, step, t);
      } else {
        RequesterStepKeepsHeard(s, step, t);
      }
    }
  }

  lemma {:induction false} RunKeepsHeard(s: State, steps: seq<Step>)
    requires Inv(s) && AllHeard(s) && Run(s, steps).Some?
    ensures AllHeard(Run(s, steps).value)
    decreases |steps|
  {
    if steps != [] {
      StepKeepsInv(s, steps[0]);
      StepKeepsHeard(s, steps[0]);
      RunKeepsHeard(Apply(s, steps[0]), steps[1..]);
    }
  }

  /**
   In every interleaving with unique message IDs: as long as a request is in flight its entry is pending, or a handler
   has taken it out to send to its channel, or its one response has been sent there; so the first response to a request
   with an ID is never ignored.
   */
  lemma {:induction false} NoResponseIsIgnored(ids: map<Tid, MsgID>, msgs: map<Tid, Message>, steps: seq<Step>)
    requires UniqueIDs(ids) && Run(Init(ids, msgs), steps).Some?
    ensures AllHeard(Run(Init(ids, msgs), steps).value)
  {
    RunKeepsHeard(Init(ids, msgs), steps);
  }

  // ---------- nor lost on the way ----------

  /** What was sent to a request is in its channel, or is its result. */
  ghost predicate Accounted(s: State, t: Tid)
    requires t in s.requesters
  {
    t in s.chans ==> s.chans[t].sends == |s.chans[t].queue| + if Result(s.requesters[t].pc).Some? then 1 else 0
  }

  ghost predicate AllAccounted(s: State)
  {
    forall t | t in s.requesters :: Accounted(s, t)
  }

  lemma StepKeepsAccounted(s: State, step: Step, t: Tid)
    requires Enabled(s, step) && t in s.requesters && Accounted(s, t)
    ensures t in Apply(s, step).requesters && Accounted(Apply(s, step), t)
  {
    hide Apply, Enabled;
    if ByHandler(step) {
      HandlerStepKeepsAccounted(s, step, t);
    } else {
      RequesterStepKeepsAccounted(s, step, t);
    }
  }

  lemma RequesterStepKeepsAccounted(s: State, step: Step, t: Tid)
    requires Enabled(s, step) && !ByHandler(step) && t in s.requesters && Accounted(s, t)
    ensures t in Apply(s, step).requesters && Accounted(Apply(s, step), t)
  {
  }

  lemma HandlerStepKeepsAccounted(s: State, step: Step, t: Tid)
    requires Enabled(s, step) && ByHandler(step) && t in s.requesters && Accounted(s, t)
    ensures t in Apply(s, step).requesters && Accounted(Apply(s, step), t)
  {
  }

  lemma {:induction false} RunKeepsAccounted(s: State, steps: seq<Step>)
    requires AllAccounted(s) && Run(s, steps).Some?
    ensures AllAccounted(Run(s, steps).value)
    decreases |steps|
  {
    if steps != [] {
      forall t | t in Apply(s, steps[0]).requesters ensures Accounted(Apply(s, steps[0]), t) {
        StepKeepsParties(s, steps[0]);
        StepKeepsAccounted(s, steps[0], t);
      }
      RunKeepsAccounted(Apply(s, steps[0]), steps[1..]);
    }
  }

  /** In every run a request that waits when its response has been sent can take it and return it. */
  lemma {:induction false} SentResponseCanBeTaken(ids: map<Tid, MsgID>, msgs: map<Tid, Message>, steps: seq<Step>,
                                                  t: Tid)
    requires Run(Init(ids, msgs), steps).Some?
    requires var s := Run(Init(ids, msgs), steps).value;
             t in s.requesters && s.requesters[t].pc.Waiting? && t in s.chans && s.chans[t].sends > 0
    ensures var s := Run(Init(ids, msgs), steps).value;
            && Enabled(s, TakeResponse(t))
            && Apply(s, TakeResponse(t)).requesters[t].pc == Returning(Some(s.chans[t].queue[0]))
  {
    RunKeepsAccounted(Init(ids, msgs), steps);
    assert Accounted(Run(Init(ids, msgs), steps).value, t);
  }

  // ---------- the send after unlocking ----------

  /** The send after unlocking meets a closed channel, and panics, exactly when its requester has already returned. */
  lemma {:induction false} SendMeetsClosedChannelExactly(ids: map<Tid, MsgID>, msgs: map<Tid, Message>,
                                                         steps: seq<Step>, h: Tid)
    requires UniqueIDs(ids) && Run(Init(ids, msgs), steps).Some?
    requires Enabled(Run(Init(ids, msgs), steps).value, Deliver(h)) && !Run(Init(ids, msgs), steps).value.panicked
    ensures var s := Run(Init(ids, msgs), steps).value;
            && s.handlers[h].pc.to in s.requesters
            && (Apply(s, Deliver(h)).panicked <==> s.requesters[s.handlers[h].pc.to].pc.Returned?)
  {
    RunKeepsInv(Init(ids, msgs), steps);
    var s := Run(Init(ids, msgs), steps).value;
    assert GoodHandler(s, h);
    assert GoodRequester(s, s.handlers[h].pc.to);
  }

  lemma {:induction false} RunCons(s: State, step: Step, rest: seq<Step>)
    requires Enabled(s, step)
    ensures Run(s, [step] + rest) == Run(Apply(s, step), rest)
  {
    assert ([step] + rest)[1..] == rest;
  }

  /** The state just after a handler has found request 0 and while the request still waits. */
  function LookedUp(id: MsgID, body: seq<Byte>): State
  {
    State(map[], map[0 := Chan([], false, 0)], map[0 := Requester(id, Waiting)],
          map[1 := Handler(Message(id, body), Found(0))], false, false)
  }

  lemma {:induction false} ReachLookedUp(id: MsgID, body: seq<Byte>, rest: seq<Step>)
    requires id != ""
    ensures Run(Init(map[0 := id], map[1 := Message(id, body)]), [Register(0)] + ([SendOk(0)] + ([Lookup(1)] + rest)))
         == Run(LookedUp(id, body), rest)
  {
    hide Run;
    var s0 := Init(map[0 := id], map[1 := Message(id, body)]);
    RunCons(s0, Register(0), [SendOk(0)] + ([Lookup(1)] + rest));
    var s1 := Apply(s0, Register(0));
    RunCons(s1, SendOk(0), [Lookup(1)] + rest);
    var s2 := Apply(s1, SendOk(0));
    assert s2.requesters == map[0 := Requester(id, Waiting)];
    assert s2.pending == map[id := 0] && s2.pending - {id} == map[];
    RunCons(s2, Lookup(1), rest);
    assert Apply(s2, Lookup(1)) == LookedUp(id, body);
  }

  const LATE: seq<Step> := [Timeout(0)] + ([Unregister(0)] + ([CloseChan(0)] + ([Deliver(1)] + [])))

  lemma LateDeliveryPanics(id: MsgID, body: seq<Byte>)
    ensures var r := Run(LookedUp(id, body), LATE); r.Some? && r.value.panicked
  {
    var s3 := LookedUp(id, body);
    RunCons(s3, Timeout(0), [Unregister(0)] + ([CloseChan(0)] + ([Deliver(1)] + [])));
    var s4 := Apply(s3, Timeout(0));
    RunCons(s4, Unregister(0), [CloseChan(0)] + ([Deliver(1)] + []));
    var s5 := Apply(s4, Unregister(0));
    RunCons(s5, CloseChan(0), [Deliver(1)] + []);
    var s6 := Apply(s5, CloseChan(0));
    assert s6.chans == map[0 := Chan([], true, 0)];
    RunCons(s6, Deliver(1), []);
  }

  /** That can happen: a response looked up just before its request times out. */
  lemma LateResponsePanics(id: MsgID, body: seq<Byte>)
    requires id != ""
    ensures var steps := [Register(0)] + ([SendOk(0)] + ([Lookup(1)] + LATE));
            var r := Run(Init(map[0 := id], map[1 := Message(id, body)]), steps);
            r.Some? && r.value.panicked
  {
    ReachLookedUp(id, body, LATE);
    LateDeliveryPanics(id, body);
  }
}
