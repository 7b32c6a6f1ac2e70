/**
  The blocking interaction port: service threads wait for a decision, another thread submits it.

  `BlockingInteractionPort` has one method per section under the lock; `Step` interleaves any number
  of waiting, closing and interrupting threads with responders, a request broker and the clock.
*/
module InteractionPort {
  import opened Options

  type RequestId = nat
  type Ref = nat // a _Pending object; references stay valid after the object is forgotten

  datatype Kind = Approval | Question | Continue | DefinitionChange | Recovery

  datatype Request = Request(id: RequestId, kind: Kind)

  datatype Decision = Decision(id: RequestId, kind: Kind, choice: int)

  // `answers` counts the responses that were accepted for this object.
  datatype Pending = Pending(
    request: Request, deadline: nat, changed: bool, decision: Option<Decision>, interrupted: bool,
    answers: nat)

  datatype Port = Port(
    objects: seq<Pending>, pending: map<RequestId, Ref>, completed: set<RequestId>, closed: bool,
    queue: seq<Ref>)

  const Empty := Port([], map[], {}, false, [])

  predicate DecisionMatches(request: Request, decision: Decision) {
    request.kind == decision.kind
  }

  ghost predicate RefsKnown(p: Port) {
    && (forall id :: id in p.pending ==> p.pending[id] < |p.objects|)
    && (forall i :: 0 <= i < |p.queue| ==> p.queue[i] < |p.objects|)
  }

  // ---------------------------------------------------------------------------------------------
  // The sections under the lock

  function Register(p: Port, request: Request, deadline: nat): (Port, Option<Ref>) {
    if p.closed || request.id in p.pending then (p, None)
    else
      var o := |p.objects|;
      (p.(objects := p.objects + [Pending(request, deadline, false, None, false, 0)],
          pending := p.pending[request.id := o],
          queue := p.queue + [o]),
       Some(o))
  }

  ghost function Respond(p: Port, now: nat, decision: Decision): (Port, bool)
    requires RefsKnown(p)
  {
    if p.closed || decision.id in p.completed || decision.id !in p.pending then (p, false)
    else
      var o := p.pending[decision.id];
      var item := p.objects[o];
      if item.interrupted || now >= item.deadline || !DecisionMatches(item.request, decision)
      then (p, false)
      else
        (p.(objects := p.objects[o := item.(decision := Some(decision), changed := true,
                                            answers := item.answers + 1)],
            completed := p.completed + {decision.id}),
         true)
  }

  datatype Verdict = Reject | Answer(decision: Decision) | Again

  function Look(p: Port, o: Ref): Verdict
    requires o < |p.objects|
  {
    if p.closed || p.objects[o].interrupted then Reject
    else if p.objects[o].decision.Some? then Answer(p.objects[o].decision.value)
    else Again
  }

  function Leave(p: Port, o: Ref): Port
    requires o < |p.objects|
  {
    var id := p.objects[o].request.id;
    p.(pending := p.pending - {id}, completed := p.completed - {id})
  }

  function Close(p: Port): (Port, set<Ref>) {
    if p.closed then (p, {}) else (p.(closed := true), p.pending.Values)
  }

  ghost function Interrupt(p: Port): (Port, set<Ref>) {
    (p.(objects := seq(|p.objects|, i requires 0 <= i < |p.objects| =>
                         if i in p.pending.Values then p.objects[i].(interrupted := true)
                         else p.objects[i])),
     p.pending.Values)
  }

  // Takes the head of the queue and says whether it is still worth publishing.
  ghost function NextRequest(p: Port, now: nat): (Port, bool)
    requires RefsKnown(p) && p.queue != []
  {
    var id := p.objects[p.queue[0]].request.id;
    (p.(queue := p.queue[1..]),
     && id in p.pending
     && !p.objects[p.pending[id]].interrupted
     && now < p.objects[p.pending[id]].deadline
     && id !in p.completed)
  }

  class BlockingInteractionPort {
    var objects: seq<Pending>
    var pending: map<RequestId, Ref>
    var completed: set<RequestId>
    var closed: bool
    var queue: seq<Ref>

    ghost function Now(): Port
      reads this
    {
      Port(objects, pending, completed, closed, queue)
    }

    constructor ()
      ensures Now() == Empty
    {
      objects, pending, completed, closed, queue := [], map[], {}, false, [];
    }

    method RegisterRequest(request: Request, deadline: nat) returns (o: Option<Ref>)
      modifies this
      ensures (Now(), o) == Register(old(Now()), request, deadline)
    {
      if closed || request.id in pending {
        return None;
      }
      o := Some(|objects|);
      objects := objects + [Pending(request, deadline, false, None, false, 0)];
      pending := pending[request.id := o.value];
      queue := queue + [o.value];
    }

    method SubmitDecision(decision: Decision, now: nat) returns (accepted: bool)
      requires RefsKnown(Now())
      modifies this
      ensures (Now(), accepted) == Respond(old(Now()), now, decision)
    {
      if closed || decision.id in completed || decision.id !in pending {
        return false;
      }
      var o := pending[decision.id];
      var item := objects[o];
      if item.interrupted || now >= item.deadline || !DecisionMatches(item.request, decision) {
        return false;
      }
      objects := objects[o := item.(decision := Some(decision), changed := true,
                                    answers := item.answers + 1)];
      completed := completed + {decision.id};
      return true;
    }

    method CheckPending(o: Ref) returns (verdict: Verdict)
      requires o < |objects|
      ensures verdict == Look(Now(), o)
    {
      if closed || objects[o].interrupted {
        return Reject;
      }
      if objects[o].decision.Some? {
        return Answer(objects[o].decision.value);
      }
      return Again;
    }

    method Forget(o: Ref)
      requires o < |objects|
      modifies this
      ensures Now() == Leave(old(Now()), o)
    {
      pending := pending - {objects[o].request.id};
      completed := completed - {objects[o].request.id};
    }

    method ClosePort() returns (waiting: set<Ref>)
      modifies this
      ensures (Now(), waiting) == Close(old(Now()))
    {
      if closed {
        return {};
      }
      closed := true;
      return pending.Values;
    }

    method InterruptPending() returns (waiting: set<Ref>)
      requires RefsKnown(Now())
      modifies this
      ensures (Now(), waiting) == Interrupt(old(Now()))
    {
      waiting := pending.Values;
      var todo := waiting;
      while todo != {}
        invariant todo <= waiting == pending.Values
        invariant Now() == old(Now()).(objects := objects) && |objects| == |old(objects)|
        invariant forall i :: 0 <= i < |objects| ==>
                    objects[i] == if i in waiting - todo then old(objects)[i].(interrupted := true)
                                  else old(objects)[i]
      {
        var o :| o in todo;
        todo := todo - {o};
        objects := objects[o := objects[o].(interrupted := true)];
      }
      assert waiting - {} == waiting;
      assert objects == Interrupt(old(Now())).0.objects;
    }

    method TakeRequest(now: nat) returns (o: Ref, publish: bool)
      requires RefsKnown(Now()) && queue != []
      modifies this
      ensures (Now(), publish) == NextRequest(old(Now()), now) && o == old(queue[0])
    {
      o := queue[0];
      queue := queue[1..];
      var id := objects[o].request.id;
      publish := false;
      if id in pending {
        var item := objects[pending[id]];
        publish := !item.interrupted && now < item.deadline && id !in completed;
      }
    }
  }

  // ---------------------------------------------------------------------------------------------
  // Threads

  datatype Pc =
    | Idle
    | Registering(request: Request, deadline: nat)
    | Looping(o: Ref)             // about to read the clock
    | Waiting(o: Ref)             // blocked on the event
    | Woken(o: Ref)
    | Clearing(o: Ref)            // about to clear the event and retry
    | Leaving(o: Ref, outcome: Option<Decision>)
    | Returned(o: Ref, outcome: Option<Decision>)
    | Setting(refs: set<Ref>)     // close() or interrupt_pending() waking the waiters one by one

  datatype Action =
    | StartWait(request: Request, timeout: nat) | DoRegister | ReadClock | Wake | TimeOut | DoLook
    | DoClear | DoLeave | Reuse
    | DoClose | DoInterrupt | SetOne(ref: Ref)
    | DoRespond(decision: Decision) | DoNextRequest | Tick

  datatype State = State(port: Port, now: nat, pcs: seq<Pc>)

  ghost function Init(threads: nat): State {
    State(Empty, 0, seq(threads, _ => Idle))
  }

  function At(s: State, t: nat, port: Port, pc: Pc): State
    requires t < |s.pcs|
  {
    s.(port := port, pcs := s.pcs[t := pc])
  }

  function SetChanged(p: Port, o: Ref, value: bool): Port
    requires o < |p.objects|
  {
    p.(objects := p.objects[o := p.objects[o].(changed := value)])
  }

  function Active(pc: Pc): Option<Ref> {
    match pc
    case Looping(o) => Some(o)
    case Waiting(o) => Some(o)
    case Woken(o) => Some(o)
    case Clearing(o) => Some(o)
    case Leaving(o, _) => Some(o)
    case _ => None
  }

  ghost predicate Sound(s: State) {
    && RefsKnown(s.port)
    && (forall t :: 0 <= t < |s.pcs| && Active(s.pcs[t]).Some? ==>
          Active(s.pcs[t]).value < |s.port.objects|)
    && (forall t :: 0 <= t < |s.pcs| && s.pcs[t].Setting? ==>
          forall o :: o in s.pcs[t].refs ==> o < |s.port.objects|)
  }

  // Responses, the broker and the clock belong to no waiting thread.
  ghost function Step(s: State, t: nat, action: Action): (s': State)
    requires t < |s.pcs| && Sound(s)
    ensures |s'.pcs| == |s.pcs|
  {
    match action
    case DoRespond(decision) => s.(port := Respond(s.port, s.now, decision).0)
    case DoNextRequest =>
      if s.port.queue == [] then s else s.(port := NextRequest(s.port, s.now).0)
    case Tick => s.(now := s.now + 1)
    case _ => ThreadStep(s, t, s.pcs[t], action)
  }

  // What thread `t` does next; an action that does not fit where the thread is changes nothing.
  ghost function ThreadStep(s: State, t: nat, pc: Pc, action: Action): (s': State)
    requires t < |s.pcs| && Sound(s) && pc == s.pcs[t]
    ensures |s'.pcs| == |s.pcs|
  {
    var p := s.port;
    match pc
    case Idle =>
      if action.StartWait? then At(s, t, p, Registering(action.request, s.now + action.timeout))
      else if action.DoClose? then At(s, t, Close(p).0, Setting(Close(p).1))
      else if action.DoInterrupt? then At(s, t, Interrupt(p).0, Setting(Interrupt(p).1))
      else s
    case Registering(request, deadline) =>
      var (p', o) := Register(p, request, deadline);
      if action.DoRegister? then At(s, t, p', if o.Some? then Looping(o.value) else Idle) else s
    case Looping(o) =>
      if action.ReadClock?
      then At(s, t, p, if s.now >= p.objects[o].deadline then Leaving(o, None) else Waiting(o))
      else s
    case Waiting(o) =>
      if action.Wake? && p.objects[o].changed then At(s, t, p, Woken(o))
      else if action.TimeOut? && s.now >= p.objects[o].deadline then At(s, t, p, Leaving(o, None))
      else s
    case Woken(o) =>
      if action.DoLook?
      then At(s, t, p, match Look(p, o)
                       case Reject => Leaving(o, None)
                       case Answer(decision) => Leaving(o, Some(decision))
                       case Again => Clearing(o))
      else s
    case Clearing(o) =>
      if action.DoClear? then At(s, t, SetChanged(p, o, false), Looping(o)) else s
    case Leaving(o, outcome) =>
      if action.DoLeave? then At(s, t, Leave(p, o), Returned(o, outcome)) else s
    case Returned(_, _) => if action.Reuse? then At(s, t, p, Idle) else s
    case Setting(refs) =>
      if refs == {} then At(s, t, p, Idle)
      else if action.SetOne? && action.ref in refs
      then At(s, t, SetChanged(p, action.ref, true), Setting(refs - {action.ref}))
      else s
  }

  datatype Move = Move(thread: nat, action: Action)

  // ---------------------------------------------------------------------------------------------
  // The invariant

  // Every waiting thread owns the object registered under its id.
  ghost predicate Owned(s: State) {
    && Sound(s)
    && (forall t :: 0 <= t < |s.pcs| && Active(s.pcs[t]).Some? ==>
          var o := Active(s.pcs[t]).value;
          var id := s.port.objects[o].request.id;
          id in s.port.pending && s.port.pending[id] == o)
    && (forall t, u :: 0 <= t < |s.pcs| && 0 <= u < |s.pcs| && t != u
                       && Active(s.pcs[t]).Some? && Active(s.pcs[u]).Some? ==>
          Active(s.pcs[t]) != Active(s.pcs[u]))
    && (forall id :: id in s.port.pending ==> s.port.objects[s.port.pending[id]].request.id == id)
    && s.port.completed <= s.port.pending.Keys
  }

  predicate Settled(p: Port, o: Ref)
    requires o < |p.objects|
  {
    p.closed || p.objects[o].interrupted || p.objects[o].decision.Some?
  }

  predicate ObjectOk(p: Port, o: Ref)
    requires o < |p.objects|
  {
    var item := p.objects[o];
    && item.answers == (if item.decision.Some? then 1 else 0)
    && (item.decision.Some? ==>
          && item.decision.value.id == item.request.id
          && DecisionMatches(item.request, item.decision.value)
          && item.changed)
    && (item.changed ==> Settled(p, o))
  }

  ghost predicate Objects(s: State) {
    && Sound(s)
    && (forall o :: 0 <= o < |s.port.objects| ==> ObjectOk(s.port, o))
    && (forall id :: id in s.port.pending ==>
          (id in s.port.completed <==> s.port.objects[s.port.pending[id]].decision.Some?))
  }

  predicate ThreadOk(s: State, t: nat)
    requires t < |s.pcs|
  {
    var p := s.port;
    match s.pcs[t]
    case Woken(o) => o < |p.objects| && Settled(p, o)
    case Clearing(_) => false
    case Leaving(o, outcome) => o < |p.objects| && OutcomeOk(s, o, outcome)
    case Returned(o, outcome) => o < |p.objects| && OutcomeOk(s, o, outcome)
    case Setting(refs) =>
      forall o :: o in refs ==> o < |p.objects| && (p.closed || p.objects[o].interrupted)
    case _ => true
  }

  // A decision is the accepted answer; no decision means closed, interrupted or too late.
  predicate OutcomeOk(s: State, o: Ref, outcome: Option<Decision>)
    requires o < |s.port.objects|
  {
    match outcome
    case Some(decision) => s.port.objects[o].decision == Some(decision)
    case None =>
      s.port.closed || s.port.objects[o].interrupted || s.now >= s.port.objects[o].deadline
  }

  ghost predicate BeingSet(s: State, o: Ref) {
    exists t :: 0 <= t < |s.pcs| && s.pcs[t].Setting? && o in s.pcs[t].refs
  }

  ghost predicate NotifiedAt(s: State, o: Ref)
    requires o < |s.port.objects|
  {
    s.port.closed || s.port.objects[o].interrupted ==> s.port.objects[o].changed || BeingSet(s, o)
  }

  // Whoever still waits on a closed or interrupted request has been woken, or is about to be.
  ghost predicate Notified(s: State) {
    && RefsKnown(s.port)
    && forall id :: id in s.port.pending ==> NotifiedAt(s, s.port.pending[id])
  }

  ghost predicate Inv(s: State) {
    && Owned(s)
    && Objects(s)
    && (forall t :: 0 <= t < |s.pcs| ==> ThreadOk(s, t))
    && Notified(s)
  }

  // Objects are only ever added to, marked and answered.
  ghost predicate Grows(p: Port, p': Port) {
    && |p.objects| <= |p'.objects|
    && (p.closed ==> p'.closed)
    && forall o :: 0 <= o < |p.objects| ==>
         var item, item' := p.objects[o], p'.objects[o];
         && item'.request == item.request
         && item'.deadline == item.deadline
         && (item.interrupted ==> item'.interrupted)
         && (item.changed ==> item'.changed)
         && (item.decision.Some? ==> item'.decision == item.decision)
  }

  lemma StepGrows(s: State, t: nat, action: Action)
    requires t < |s.pcs| && Inv(s)
    ensures Grows(s.port, Step(s, t, action).port) && s.now <= Step(s, t, action).now
  {
    assert ThreadOk(s, t);
  }

  lemma InvIsSound(s: State)
    requires Inv(s)
    ensures Sound(s) && RefsKnown(s.port)
  {
  }

  lemma RegisterStep(s: State, t: nat)
    requires t < |s.pcs| && Sound(s) && s.pcs[t].Registering?
    ensures var (port, o) := Register(s.port, s.pcs[t].request, s.pcs[t].deadline);
      Step(s, t, DoRegister) == At(s, t, port, if o.Some? then Looping(o.value) else Idle)
  {
    hide Register, Sound;
  }

  // Nothing but a registration makes a request pending, or adds an object.
  lemma PendingStays(s: State, t: nat, action: Action, id: RequestId)
    requires t < |s.pcs| && Inv(s) && !(s.pcs[t].Registering? && action.DoRegister?)
    requires id in Step(s, t, action).port.pending
    ensures id in s.port.pending && Step(s, t, action).port.pending[id] == s.port.pending[id]
    ensures |Step(s, t, action).port.objects| == |s.port.objects|
  {
    hide Inv, Sound, ThreadStep, Respond, NextRequest;
    InvIsSound(s);
    if action.DoRespond? {
      RespondKeepsPending(s.port, s.now, action.decision);
    } else if action.DoNextRequest? {
      if s.port.queue != [] {
        PublishingKeepsPending(s.port, s.now);
      }
    } else if !action.Tick? {
      ThreadStepKeepsPending(s, t, action, id);
    }
  }

  lemma RespondKeepsPending(p: Port, now: nat, decision: Decision)
    requires RefsKnown(p)
    ensures var p' := Respond(p, now, decision).0;
      p'.pending == p.pending && |p'.objects| == |p.objects| && p.completed <= p'.completed
      && p'.completed <= p.completed + p.pending.Keys
  {
  }

  lemma PublishingKeepsPending(p: Port, now: nat)
    requires RefsKnown(p) && p.queue != []
    ensures NextRequest(p, now).0 == p.(queue := p.queue[1..])
  {
  }

  lemma ThreadStepKeepsPending(s: State, t: nat, action: Action, id: RequestId)
    requires t < |s.pcs| && Sound(s) && !(s.pcs[t].Registering? && action.DoRegister?)
    requires id in ThreadStep(s, t, s.pcs[t], action).port.pending
    ensures var p' := ThreadStep(s, t, s.pcs[t], action).port;
      id in s.port.pending && p'.pending[id] == s.port.pending[id] && |p'.objects| == |s.port.objects|
  {
    hide Register, Look;
  }

  lemma OwnedWithoutRegistration(s: State, s': State, t: nat)
    requires t < |s.pcs| && Owned(s) && Sound(s')
    requires |s'.pcs| == |s.pcs| && s'.pcs == s.pcs[t := s'.pcs[t]]
    requires Active(s'.pcs[t]) in {None, Active(s.pcs[t])}
    requires s'.port.pending == s.port.pending && s'.port.completed <= s.port.pending.Keys
    requires Grows(s.port, s'.port)
    ensures Owned(s')
  {
  }

  lemma RegisterKeepsOwned(s: State, t: nat)
    requires t < |s.pcs| && Owned(s) && s.pcs[t].Registering?
    ensures Owned(ThreadStep(s, t, s.pcs[t], DoRegister))
  {
  }

  lemma LeaveKeepsOwned(s: State, t: nat)
    requires t < |s.pcs| && Owned(s) && s.pcs[t].Leaving?
    ensures Owned(ThreadStep(s, t, s.pcs[t], DoLeave))
  {
  }

  lemma StepMovesOneThread(s: State, t: nat, action: Action)
    requires t < |s.pcs| && Sound(s)
    ensures var s' := Step(s, t, action);
      |s'.pcs| == |s.pcs| && s'.pcs == s.pcs[t := s'.pcs[t]]
  {
  }

  lemma StepKeepsRefsKnown(s: State, t: nat, action: Action)
    requires t < |s.pcs| && Sound(s)
    ensures RefsKnown(Step(s, t, action).port)
  {
  }

  lemma StepKeepsActive(s: State, t: nat, action: Action)
    requires t < |s.pcs| && Inv(s)
    ensures var s' := Step(s, t, action);
      Active(s'.pcs[t]).Some? ==> Active(s'.pcs[t]).value < |s'.port.objects|
  {
    hide Notified, NotifiedAt, ObjectOk, ThreadOk, Settled, Objects, ThreadStep, Respond, NextRequest;
    if action.DoRespond? {
      RespondKeepsPending(s.port, s.now, action.decision);
    } else if action.DoNextRequest? {
      if s.port.queue != [] {
        PublishingKeepsPending(s.port, s.now);
      }
    } else if !action.Tick? {
      ThreadStepKeepsActive(s, t, action);
    }
  }

  lemma ThreadStepKeepsActive(s: State, t: nat, action: Action)
    requires t < |s.pcs| && Sound(s)
    ensures var s' := ThreadStep(s, t, s.pcs[t], action);
      Active(s'.pcs[t]).Some? ==> Active(s'.pcs[t]).value < |s'.port.objects|
  {
    hide Look, Leave, Close;
  }

  lemma StepKeepsSetting(s: State, t: nat, action: Action)
    requires t < |s.pcs| && Inv(s)
    ensures var s' := Step(s, t, action);
      s'.pcs[t].Setting? ==> forall o :: o in s'.pcs[t].refs ==> o < |s'.port.objects|
  {
    hide Notified, NotifiedAt, ObjectOk, ThreadOk;
  }

  lemma StepKeepsSound(s: State, t: nat, action: Action)
    requires t < |s.pcs| && Inv(s)
    ensures Sound(Step(s, t, action))
  {
    hide Notified, NotifiedAt, ObjectOk, ThreadOk, Step;
    StepGrows(s, t, action);
    StepMovesOneThread(s, t, action);
    StepKeepsRefsKnown(s, t, action);
    StepKeepsActive(s, t, action);
    StepKeepsSetting(s, t, action);
  }

  lemma OtherStepsKeepRegistration(s: State, t: nat, action: Action)
    requires t < |s.pcs| && Inv(s)
    requires !(s.pcs[t].Registering? && action.DoRegister?)
    requires !(s.pcs[t].Leaving? && action.DoLeave?)
    ensures var s' := Step(s, t, action);
      && s'.port.pending == s.port.pending && s'.port.completed <= s.port.pending.Keys
      && Active(s'.pcs[t]) in {None, Active(s.pcs[t])}
  {
    hide Notified, NotifiedAt, ObjectOk, ThreadOk, Settled, Register, Leave, Objects, ThreadStep, Respond, NextRequest;
    if action.DoRespond? {
      RespondKeepsPending(s.port, s.now, action.decision);
    } else if action.DoNextRequest? {
      if s.port.queue != [] {
        PublishingKeepsPending(s.port, s.now);
      }
    } else if !action.Tick? {
      ThreadStepKeepsRegistration(s, t, action);
    }
  }

  lemma ThreadStepKeepsRegistration(s: State, t: nat, action: Action)
    requires t < |s.pcs| && Sound(s) && !(s.pcs[t].Registering? && action.DoRegister?)
    requires !(s.pcs[t].Leaving? && action.DoLeave?)
    ensures var s' := ThreadStep(s, t, s.pcs[t], action);
      && s'.port.pending == s.port.pending && s'.port.completed == s.port.completed
      && Active(s'.pcs[t]) in {None, Active(s.pcs[t])}
  {
    hide Register, Leave, Look;
  }

  lemma StepKeepsOwned(s: State, t: nat, action: Action)
    requires t < |s.pcs| && Inv(s)
    ensures Owned(Step(s, t, action))
  {
    if s.pcs[t].Registering? && action.DoRegister? {
      RegisterKeepsOwned(s, t);
    } else if s.pcs[t].Leaving? && action.DoLeave? {
      LeaveKeepsOwned(s, t);
    } else {
      StepGrows(s, t, action);
      StepMovesOneThread(s, t, action);
      StepKeepsSound(s, t, action);
      OtherStepsKeepRegistration(s, t, action);
      OwnedWithoutRegistration(s, Step(s, t, action), t);
    }
  }

  // Exactly the answered ones among the pending ids are completed.
  ghost predicate CompletedAreAnswered(p: Port) {
    forall id :: id in p.pending ==>
      p.pending[id] < |p.objects| && (id in p.completed <==> p.objects[p.pending[id]].decision.Some?)
  }

  lemma SameObjects(p: Port, p': Port, o: Ref)
    requires o < |p.objects| && p'.objects == p.objects && p'.closed == p.closed && ObjectOk(p, o)
    ensures ObjectOk(p', o)
  {
  }

  lemma RespondKeepsObject(s: State, decision: Decision, o: Ref)
    requires Owned(s) && CompletedAreAnswered(s.port) && o < |Respond(s.port, s.now, decision).0.objects|
    requires o < |s.port.objects| ==> ObjectOk(s.port, o)
    ensures ObjectOk(Respond(s.port, s.now, decision).0, o)
  {
  }

  lemma ThreadStepKeepsObject(s: State, t: nat, action: Action, o: Ref)
    requires t < |s.pcs| && Inv(s) && o < |ThreadStep(s, t, s.pcs[t], action).port.objects|
    ensures ObjectOk(ThreadStep(s, t, s.pcs[t], action).port, o)
  {
    hide Notified, NotifiedAt, Owned;
    assert ThreadOk(s, t);
    if o < |s.port.objects| {
      assert ObjectOk(s.port, o);
    }
  }

  lemma StepKeepsObject(s: State, t: nat, action: Action, o: Ref)
    requires t < |s.pcs| && Inv(s) && o < |Step(s, t, action).port.objects|
    ensures ObjectOk(Step(s, t, action).port, o)
  {
    hide Notified, NotifiedAt, ObjectOk, ThreadOk, ThreadStep, Respond;
    if action.DoRespond? {
      RespondKeepsObject(s, action.decision, o);
    } else if !action.DoNextRequest? && !action.Tick? {
      ThreadStepKeepsObject(s, t, action, o);
    } else {
      assert ObjectOk(s.port, o);
      SameObjects(s.port, Step(s, t, action).port, o);
    }
  }

  lemma RespondKeepsCompleted(s: State, decision: Decision)
    requires Owned(s) && CompletedAreAnswered(s.port)
    ensures CompletedAreAnswered(Respond(s.port, s.now, decision).0)
  {
  }

  lemma RegisterKeepsCompleted(p: Port, request: Request, deadline: nat)
    requires RefsKnown(p) && p.completed <= p.pending.Keys && CompletedAreAnswered(p)
    ensures CompletedAreAnswered(Register(p, request, deadline).0)
  {
  }

  lemma LeaveKeepsCompleted(p: Port, o: Ref)
    requires o < |p.objects| && CompletedAreAnswered(p)
    ensures CompletedAreAnswered(Leave(p, o))
  {
  }

  lemma InterruptKeepsCompleted(p: Port)
    requires CompletedAreAnswered(p)
    ensures CompletedAreAnswered(Interrupt(p).0)
  {
  }

  lemma SetChangedKeepsCompleted(p: Port, o: Ref, value: bool)
    requires o < |p.objects| && CompletedAreAnswered(p)
    ensures CompletedAreAnswered(SetChanged(p, o, value))
  {
  }

  lemma ThreadStepKeepsCompleted(s: State, t: nat, action: Action)
    requires t < |s.pcs| && Owned(s) && CompletedAreAnswered(s.port)
    ensures CompletedAreAnswered(ThreadStep(s, t, s.pcs[t], action).port)
  {
    hide Register, Leave, Interrupt, SetChanged;
    match s.pcs[t]
    case Idle => InterruptKeepsCompleted(s.port);
    case Setting(refs) =>
      if action.SetOne? && action.ref in refs {
        SetChangedKeepsCompleted(s.port, action.ref, true);
      }
    case Clearing(o) =>
      assert Active(s.pcs[t]) == Some(o);
      SetChangedKeepsCompleted(s.port, o, false);
    case Registering(request, deadline) => RegisterKeepsCompleted(s.port, request, deadline);
    case Leaving(o, _) =>
      assert Active(s.pcs[t]) == Some(o);
      LeaveKeepsCompleted(s.port, o);
    case _ =>
  }

  lemma StepKeepsCompleted(s: State, t: nat, action: Action)
    requires t < |s.pcs| && Inv(s)
    ensures CompletedAreAnswered(Step(s, t, action).port)
  {
    hide Notified, NotifiedAt, ObjectOk, ThreadOk, ThreadStep, Respond;
    if action.DoRespond? {
      RespondKeepsCompleted(s, action.decision);
    } else {
      ThreadStepKeepsCompleted(s, t, action);
    }
  }

  lemma StepKeepsObjects(s: State, t: nat, action: Action)
    requires t < |s.pcs| && Inv(s)
    ensures Objects(Step(s, t, action))
  {
    hide Step, ObjectOk, Notified, NotifiedAt, ThreadOk;
    StepKeepsSound(s, t, action);
    StepKeepsCompleted(s, t, action);
    forall o | 0 <= o < |Step(s, t, action).port.objects| ensures ObjectOk(Step(s, t, action).port, o) {
      StepKeepsObject(s, t, action, o);
    }
  }

  lemma OtherThreadsStayOk(s: State, s': State, u: nat)
    requires u < |s.pcs| == |s'.pcs| && s'.pcs[u] == s.pcs[u] && ThreadOk(s, u)
    requires Grows(s.port, s'.port) && s.now <= s'.now
    ensures ThreadOk(s', u)
  {
  }

  lemma OwnThreadStaysOk(s: State, t: nat, action: Action)
    requires t < |s.pcs| && Inv(s)
    ensures ThreadOk(Step(s, t, action), t)
  {
    hide Notified, NotifiedAt, Owned;
    assert ThreadOk(s, t);
    if s.pcs[t].Waiting? {
      assert ObjectOk(s.port, s.pcs[t].o);
    }
  }

  lemma StepKeepsThreads(s: State, t: nat, action: Action)
    requires t < |s.pcs| && Inv(s)
    ensures forall u :: 0 <= u < |s.pcs| ==> ThreadOk(Step(s, t, action), u)
  {
    var s' := Step(s, t, action);
    StepGrows(s, t, action);
    StepMovesOneThread(s, t, action);
    OwnThreadStaysOk(s, t, action);
    forall u | 0 <= u < |s.pcs| ensures ThreadOk(s', u) {
      if u != t {
        OtherThreadsStayOk(s, s', u);
      }
    }
  }

  // Whoever was about to be woken has been, or still is about to be.
  lemma WakingGoesOn(s: State, t: nat, action: Action, o: Ref)
    requires t < |s.pcs| && Inv(s) && BeingSet(s, o)
    ensures var s' := Step(s, t, action);
      BeingSet(s', o) || (o < |s'.port.objects| && s'.port.objects[o].changed)
  {
    var s' := Step(s, t, action);
    StepMovesOneThread(s, t, action);
    var u :| 0 <= u < |s.pcs| && s.pcs[u].Setting? && o in s.pcs[u].refs;
    if u != t || s'.pcs[t] == s.pcs[t] {
      assert s'.pcs[u] == s.pcs[u];
    }
  }

  // Whatever a step newly closes or interrupts, it undertakes to wake.
  lemma NewlyRejectedIsBeingSet(s: State, t: nat, action: Action, id: RequestId)
    requires t < |s.pcs| && Inv(s) && id in s.port.pending
    requires var s', o := Step(s, t, action), s.port.pending[id];
      && (s'.port.closed || s'.port.objects[o].interrupted)
      && !(s.port.closed || s.port.objects[o].interrupted)
    ensures BeingSet(Step(s, t, action), s.port.pending[id])
  {
    var s', o := Step(s, t, action), s.port.pending[id];
    StepMovesOneThread(s, t, action);
    assert s'.pcs[t].Setting? && o in s'.pcs[t].refs;
  }

  lemma NewlyRegisteredIsOpen(s: State, t: nat, action: Action, id: RequestId)
    requires t < |s.pcs| && Inv(s) && id in Step(s, t, action).port.pending
    requires id in s.port.pending ==> Step(s, t, action).port.pending[id] != s.port.pending[id]
    ensures var p := Step(s, t, action).port;
      && p.pending[id] < |p.objects| && !p.closed && !p.objects[p.pending[id]].interrupted
  {
    hide Inv, Sound, Step;
    InvIsSound(s);
    if s.pcs[t].Registering? && action.DoRegister? {
      RegisterStep(s, t);
    } else {
      PendingStays(s, t, action, id);
    }
  }

  lemma StaysNotified(s: State, s': State, o: Ref)
    requires o < |s.port.objects| && Grows(s.port, s'.port) && NotifiedAt(s, o)
    requires BeingSet(s, o) ==> BeingSet(s', o) || s'.port.objects[o].changed
    requires (s'.port.closed || s'.port.objects[o].interrupted) ==>
               (s.port.closed || s.port.objects[o].interrupted) || BeingSet(s', o)
    ensures NotifiedAt(s', o)
  {
  }

  lemma StepKeepsNotifiedAt(s: State, t: nat, action: Action, id: RequestId)
    requires t < |s.pcs| && Inv(s) && id in s.port.pending
    ensures var s', o := Step(s, t, action), s.port.pending[id];
      o < |s'.port.objects| && NotifiedAt(s', o)
  {
    var o := s.port.pending[id];
    StepGrows(s, t, action);
    if BeingSet(s, o) {
      WakingGoesOn(s, t, action, o);
    }
    if (Step(s, t, action).port.closed || Step(s, t, action).port.objects[o].interrupted)
       && !(s.port.closed || s.port.objects[o].interrupted) {
      NewlyRejectedIsBeingSet(s, t, action, id);
    }
    StaysNotified(s, Step(s, t, action), o);
  }

  lemma StepKeepsNotified(s: State, t: nat, action: Action)
    requires t < |s.pcs| && Inv(s)
    ensures Notified(Step(s, t, action))
  {
    var s' := Step(s, t, action);
    StepKeepsRefsKnown(s, t, action);
    forall id | id in s'.port.pending ensures NotifiedAt(s', s'.port.pending[id]) {
      if id in s.port.pending && s'.port.pending[id] == s.port.pending[id] {
        StepKeepsNotifiedAt(s, t, action, id);
      } else {
        NewlyRegisteredIsOpen(s, t, action, id);
      }
    }
  }

  lemma StepKeepsInv(s: State, t: nat, action: Action)
    requires t < |s.pcs| && Inv(s)
    ensures Inv(Step(s, t, action)) && |Step(s, t, action).pcs| == |s.pcs|
  {
    hide Step, Notified, NotifiedAt, ThreadOk, ObjectOk;
    StepMovesOneThread(s, t, action);
    StepKeepsOwned(s, t, action);
    StepKeepsObjects(s, t, action);
    StepKeepsThreads(s, t, action);
    StepKeepsNotified(s, t, action);
  }

  // ---------------------------------------------------------------------------------------------
  // Runs

  ghost function Run(threads: nat, schedule: seq<Move>): (s: State)
    ensures Inv(s) && |s.pcs| == threads
    decreases |schedule|
  {
    if schedule == [] then Init(threads)
    else
      var s1 := Run(threads, schedule[..|schedule| - 1]);
      var m := schedule[|schedule| - 1];
      if m.thread < threads then
        StepKeepsInv(s1, m.thread, m.action);
        Step(s1, m.thread, m.action)
      else s1
  }

  ghost predicate Safe(s: State) {
    && s.port.completed <= s.port.pending.Keys
    && (forall o :: 0 <= o < |s.port.objects| ==> s.port.objects[o].answers <= 1)
    && (forall t :: 0 <= t < |s.pcs| ==> !s.pcs[t].Clearing?)
    && (forall t :: 0 <= t < |s.pcs| && s.pcs[t].Returned? ==> RightOutcome(s, s.pcs[t].o, s.pcs[t].outcome))
  }

  // A decision is the one accepted answer to this very request; without one, the port was closed,
  // the request interrupted, or its deadline had passed.
  predicate RightOutcome(s: State, o: Ref, outcome: Option<Decision>) {
    && o < |s.port.objects|
    && var item := s.port.objects[o];
       match outcome
       case Some(decision) =>
         && item.answers == 1
         && item.decision == Some(decision)
         && decision.id == item.request.id
         && decision.kind == item.request.kind
       case None => s.port.closed || item.interrupted || s.now >= item.deadline
  }

  lemma InvIsSafe(s: State)
    requires Inv(s)
    ensures Safe(s)
  {
    forall o | 0 <= o < |s.port.objects| ensures s.port.objects[o].answers <= 1 {
      assert ObjectOk(s.port, o);
    }
    forall t | 0 <= t < |s.pcs|
      ensures !s.pcs[t].Clearing?
      ensures s.pcs[t].Returned? ==> RightOutcome(s, s.pcs[t].o, s.pcs[t].outcome)
    {
      assert ThreadOk(s, t);
      if s.pcs[t].Returned? {
        assert ObjectOk(s.port, s.pcs[t].o);
      }
    }
  }

  /** In every interleaving: a request is answered at most once, answered ids are still pending, no
      waiter ever finds itself woken for nothing, and what a waiter returns is its own answer. */
  lemma WaitersGetTheirOwnAnswer(threads: nat, schedule: seq<Move>)
    ensures Safe(Run(threads, schedule))
  {
    InvIsSafe(Run(threads, schedule));
  }

  /** No wake-up is lost: a thread that waits on an answered, interrupted or closed request can wake
      up, at the latest once the closing or interrupting thread has gone through its list. */
  lemma NoWakeUpIsLost(threads: nat, schedule: seq<Move>, t: nat)
    requires t < threads
    ensures var s := Run(threads, schedule);
      s.pcs[t].Waiting? && Settled(s.port, s.pcs[t].o) && (forall u :: 0 <= u < threads ==> !s.pcs[u].Setting?) ==>
        Step(s, t, Wake).pcs[t] == Woken(s.pcs[t].o)
  {
    var s := Run(threads, schedule);
    if s.pcs[t].Waiting? {
      var o := s.pcs[t].o;
      assert Active(s.pcs[t]) == Some(o);
      assert ObjectOk(s.port, o);
      assert NotifiedAt(s, s.port.pending[s.port.objects[o].request.id]);
    }
  }

  /** A wait that ends forgets its own id, and no other. */
  lemma LeavingForgetsOnlyItself(threads: nat, schedule: seq<Move>, t: nat)
    requires t < threads
    ensures var s := Run(threads, schedule);
      s.pcs[t].Leaving? ==> ForgetsOnly(s.port, Step(s, t, DoLeave).port, s.pcs[t].o)
  {
    var s := Run(threads, schedule);
    if s.pcs[t].Leaving? {
      var p, p', mine := s.port, Step(s, t, DoLeave).port, s.pcs[t].o;
      assert Active(s.pcs[t]) == Some(mine);
      forall o | o in p.pending.Values && o != mine ensures o in p'.pending.Values {
        var id :| id in p.pending && p.pending[id] == o;
        assert id in p'.pending && p'.pending[id] == o;
      }
    }
  }

  // The object was pending, its id is neither pending nor completed any more, all others still are.
  ghost predicate ForgetsOnly(p: Port, p': Port, mine: Ref) {
    && mine < |p.objects|
    && var id := p.objects[mine].request.id;
      && id in p.pending && p.pending[id] == mine
      && p'.pending == p.pending - {id} && p'.completed == p.completed - {id}
      && forall o :: o in p.pending.Values && o != mine ==> o in p'.pending.Values
  }

  // ---------------------------------------------------------------------------------------------
  // What the broker publishes

  // Whatever is pending is the latest object with its id, and some thread is busy with it.
  ghost predicate Current(s: State) {
    && RefsKnown(s.port)
    && (forall id :: id in s.port.pending ==> IsLatest(s.port, id, s.port.pending[id]))
    && (forall id :: id in s.port.pending ==> Attended(s, s.port.pending[id]))
  }

  ghost predicate IsLatest(p: Port, id: RequestId, o: Ref) {
    forall j :: o < j < |p.objects| ==> p.objects[j].request.id != id
  }

  ghost predicate Attended(s: State, o: Ref) {
    exists t :: 0 <= t < |s.pcs| && Active(s.pcs[t]) == Some(o)
  }

  lemma StepKeepsLatest(s: State, t: nat, action: Action, id: RequestId)
    requires t < |s.pcs| && Inv(s) && Current(s) && id in Step(s, t, action).port.pending
    ensures IsLatest(Step(s, t, action).port, id, Step(s, t, action).port.pending[id])
  {
    hide Inv, Sound, Step, ThreadStep, Register;
    InvIsSound(s);
    if s.pcs[t].Registering? && action.DoRegister? {
      RegisterStep(s, t);
      RegisterKeepsLatest(s.port, s.pcs[t].request, s.pcs[t].deadline, id);
    } else {
      PendingStays(s, t, action, id);
      StepGrows(s, t, action);
      assert IsLatest(s.port, id, s.port.pending[id]);
    }
  }

  lemma RegisterKeepsLatest(p: Port, request: Request, deadline: nat, id: RequestId)
    requires RefsKnown(p) && id in Register(p, request, deadline).0.pending
    requires id in p.pending ==> IsLatest(p, id, p.pending[id])
    ensures var p' := Register(p, request, deadline).0; IsLatest(p', id, p'.pending[id])
  {
  }

  lemma StepKeepsAttended(s: State, t: nat, action: Action, id: RequestId)
    requires t < |s.pcs| && Inv(s) && Current(s) && id in Step(s, t, action).port.pending
    ensures Attended(Step(s, t, action), Step(s, t, action).port.pending[id])
  {
    hide Inv, Sound, Step, ThreadStep, Register, IsLatest;
    InvIsSound(s);
    var s' := Step(s, t, action);
    if s.pcs[t].Registering? && action.DoRegister? {
      RegisterStep(s, t);
      RegisterAttends(s, t, id);
    } else {
      PendingStays(s, t, action, id);
      StepMovesOneThread(s, t, action);
      var u :| 0 <= u < |s.pcs| && Active(s.pcs[u]) == Some(s.port.pending[id]);
      if u == t {
        StaysActive(s, t, action, id);
      }
      assert Active(s'.pcs[u]) == Some(s'.port.pending[id]);
    }
  }

  lemma RegisterAttends(s: State, t: nat, id: RequestId)
    requires t < |s.pcs| && Inv(s) && s.pcs[t].Registering? && id in Step(s, t, DoRegister).port.pending
    requires id in s.port.pending ==> Attended(s, s.port.pending[id])
    ensures Attended(Step(s, t, DoRegister), Step(s, t, DoRegister).port.pending[id])
  {
    hide Inv, Sound, Step;
    InvIsSound(s);
    RegisterStep(s, t);
    var s' := Step(s, t, DoRegister);
    if id in s.port.pending {
      var u :| 0 <= u < |s.pcs| && Active(s.pcs[u]) == Some(s.port.pending[id]);
      assert Active(s'.pcs[u]) == Some(s'.port.pending[id]);
    } else {
      assert Active(s'.pcs[t]) == Some(s'.port.pending[id]);
    }
  }

  // A thread is busy with its request until it forgets it.
  lemma StaysActive(s: State, t: nat, action: Action, id: RequestId)
    requires t < |s.pcs| && Inv(s) && id in s.port.pending && id in Step(s, t, action).port.pending
    requires Active(s.pcs[t]) == Some(s.port.pending[id])
    ensures Active(Step(s, t, action).pcs[t]) == Active(s.pcs[t])
  {
    hide Notified, NotifiedAt, ObjectOk, Settled;
    assert s.port.objects[s.port.pending[id]].request.id == id;
  }

  lemma {:induction false} RunKeepsCurrent(threads: nat, schedule: seq<Move>)
    ensures Current(Run(threads, schedule))
    decreases |schedule|
  {
    hide Step, Inv, Sound, IsLatest, Attended;
    if schedule != [] {
      var s1, m := Run(threads, schedule[..|schedule| - 1]), schedule[|schedule| - 1];
      InvIsSound(s1);
      RunKeepsCurrent(threads, schedule[..|schedule| - 1]);
      if m.thread < threads {
        StepKeepsRefsKnown(s1, m.thread, m.action);
        var s' := Step(s1, m.thread, m.action);
        forall id | id in s'.port.pending
          ensures IsLatest(s'.port, id, s'.port.pending[id]) && Attended(s', s'.port.pending[id])
        {
          StepKeepsLatest(s1, m.thread, m.action, id);
          StepKeepsAttended(s1, m.thread, m.action, id);
        }
      }
    }
  }

  /** What the broker publishes has the id of a request somebody is waiting on, unanswered and in time;
      it is this very request exactly if no later one has its id. */
  lemma PublishedRequestIsWaitingExactlyIf(threads: nat, schedule: seq<Move>)
    requires var s := Run(threads, schedule); s.port.queue != [] && NextRequest(s.port, s.now).1
    ensures var s := Run(threads, schedule);
      var p, head := s.port, s.port.queue[0];
      var id := p.objects[head].request.id;
      && id in p.pending && p.objects[p.pending[id]].request.id == id && Attended(s, p.pending[id])
      && p.objects[p.pending[id]].decision == None && !p.objects[p.pending[id]].interrupted
      && s.now < p.objects[p.pending[id]].deadline
      && (head == p.pending[id] <==> IsLatest(p, id, head))
  {
    RunKeepsCurrent(threads, schedule);
    var s := Run(threads, schedule);
    var p, head := s.port, s.port.queue[0];
    var id := p.objects[head].request.id;
    assert IsLatest(p, id, p.pending[id]);
    assert p.objects[p.pending[id]].request.id == id;
  }

  // ---------------------------------------------------------------------------------------------
  // When a request is taken, published and answered

  // A thread is busy with this object, which has the id and is neither answered nor interrupted nor late.
  predicate AwaitsAnswer(s: State, t: nat, o: Ref, id: RequestId)
    requires t < |s.pcs|
  {
    && o < |s.port.objects| && Active(s.pcs[t]) == Some(o) && s.port.objects[o].request.id == id
    && s.port.objects[o].decision == None && !s.port.objects[o].interrupted && s.now < s.port.objects[o].deadline
  }

  // What is pending under an id is what some thread is busy with.
  lemma PendingIsAttended(threads: nat, schedule: seq<Move>, id: RequestId)
    ensures var s := Run(threads, schedule);
      && (forall t: nat, o: Ref ::
            t < threads && Active(s.pcs[t]) == Some(o) && o < |s.port.objects| && s.port.objects[o].request.id == id ==>
            id in s.port.pending && s.port.pending[id] == o)
      && (id in s.port.pending ==>
            && s.port.pending[id] < |s.port.objects| && s.port.objects[s.port.pending[id]].request.id == id
            && Attended(s, s.port.pending[id])
            && (id in s.port.completed <==> s.port.objects[s.port.pending[id]].decision.Some?))
      && (id in s.port.completed ==> id in s.port.pending)
  {
    hide Notified, NotifiedAt, ObjectOk, ThreadOk, Attended, IsLatest;
    RunKeepsCurrent(threads, schedule);
  }

  /** In every interleaving: a response is accepted exactly if the port is open and some thread is busy with
      a request of this id and type that is neither answered nor interrupted nor late; it then is the
      answer to it, and nothing else changes.  A refused response changes nothing. */
  lemma AnswerIsAcceptedExactlyIf(threads: nat, schedule: seq<Move>, decision: Decision)
    ensures var s := Run(threads, schedule); var (p', accepted) := Respond(s.port, s.now, decision);
      && (accepted <==> !s.port.closed
                        && exists t: nat, o: Ref :: t < threads && AwaitsAnswer(s, t, o, decision.id)
                                                    && s.port.objects[o].request.kind == decision.kind)
      && (accepted <==> exists o: nat :: o < |s.port.objects| == |p'.objects| && s.port.objects[o].decision == None
                                        && p'.objects[o].decision == Some(decision))
      && (!accepted ==> p' == s.port)
      && (accepted ==> p'.pending == s.port.pending && p'.queue == s.port.queue && !p'.closed
                       && p'.completed == s.port.completed + {decision.id})
  {
    hide Inv, Attended, Sound;
    var s := Run(threads, schedule);
    InvIsSound(s);
    PendingIsAttended(threads, schedule, decision.id);
    var (p', accepted) := Respond(s.port, s.now, decision);
    if accepted {
      var o := s.port.pending[decision.id];
      var t := AttendedBy(s, o);
      assert AwaitsAnswer(s, t, o, decision.id);
      assert p'.objects[o].decision == Some(decision);
    }
  }

  lemma AttendedBy(s: State, o: Ref) returns (t: nat)
    requires Attended(s, o)
    ensures t < |s.pcs| && Active(s.pcs[t]) == Some(o)
  {
    t :| 0 <= t < |s.pcs| && Active(s.pcs[t]) == Some(o);
  }

  /** A request is taken exactly if the port is open and no thread is busy with one of its id; it then waits
      with its deadline and is queued for the broker. */
  lemma RequestIsTakenExactlyIf(threads: nat, schedule: seq<Move>, request: Request, deadline: nat)
    ensures var s := Run(threads, schedule); var (p', o) := Register(s.port, request, deadline);
      && (o.Some? <==> !s.port.closed
                       && forall t: nat, o: Ref ::
                            t < threads && Active(s.pcs[t]) == Some(o) && o < |s.port.objects| ==>
                            s.port.objects[o].request.id != request.id)
      && (o == None ==> p' == s.port)
      && (o.Some? ==>
            && o.value == |s.port.objects|
            && p'.objects == s.port.objects + [Pending(request, deadline, false, None, false, 0)]
            && p'.pending == s.port.pending[request.id := o.value] && p'.queue == s.port.queue + [o.value])
  {
    hide Inv, Attended, Sound;
    var s := Run(threads, schedule);
    PendingIsAttended(threads, schedule, request.id);
    if request.id in s.port.pending {
      var t := AttendedBy(s, s.port.pending[request.id]);
    }
  }

  /** The head of the queue is published exactly if some thread still awaits an answer under its id. */
  lemma HeadIsPublishedExactlyIf(threads: nat, schedule: seq<Move>)
    requires Run(threads, schedule).port.queue != []
    ensures var s := Run(threads, schedule); var (p', publish) := NextRequest(s.port, s.now);
      && RefsKnown(s.port) && p' == s.port.(queue := s.port.queue[1..])
      && (publish <==> exists t: nat, o: Ref :: t < threads
                         && AwaitsAnswer(s, t, o, s.port.objects[s.port.queue[0]].request.id))
  {
    hide Inv, Attended, Sound;
    var s := Run(threads, schedule);
    InvIsSound(s);
    var id := s.port.objects[s.port.queue[0]].request.id;
    PendingIsAttended(threads, schedule, id);
    if NextRequest(s.port, s.now).1 {
      var t := AttendedBy(s, s.port.pending[id]);
      assert AwaitsAnswer(s, t, s.port.pending[id], id);
    }
  }

  /** An interrupt reaches every request some thread is busy with, and no other; a close shuts the port; and
      both undertake to wake exactly these threads' objects. */
  lemma InterruptAndCloseReachAll(threads: nat, schedule: seq<Move>, o: Ref)
    requires o < |Run(threads, schedule).port.objects|
    ensures var s := Run(threads, schedule); var (p', waking) := Interrupt(s.port);
      && |p'.objects| == |s.port.objects| && p' == s.port.(objects := p'.objects)
      && (o in waking <==> exists t: nat :: t < threads && Active(s.pcs[t]) == Some(o))
      && p'.objects[o] == if o in waking then s.port.objects[o].(interrupted := true) else s.port.objects[o]
    ensures var s := Run(threads, schedule); var (p', waking) := Close(s.port);
      && p' == s.port.(closed := true)
      && (!s.port.closed ==>
            (o in waking <==> exists t: nat :: t < threads && Active(s.pcs[t]) == Some(o)))
  {
    hide Inv, Attended, Sound;
    var s := Run(threads, schedule);
    InvIsSound(s);
    PendingIsAttended(threads, schedule, s.port.objects[o].request.id);
    if o in s.port.pending.Values {
      var id :| id in s.port.pending && s.port.pending[id] == o;
      PendingIsAttended(threads, schedule, id);
      var t := AttendedBy(s, o);
    }
    if t: nat :| t < threads && Active(s.pcs[t]) == Some(o) {
      assert s.port.pending[s.port.objects[o].request.id] == o;
    }
  }

  /** A request that was given up is published again when a later one has its id. */
  lemma StaleRequestCanBePublished(request: Request) returns (schedule: seq<Move>)
    ensures var s := Run(1, schedule);
      s.port.queue != [] && NextRequest(s.port, s.now).1 && s.port.queue[0] !in s.port.pending.Values
  {
    hide Inv;
    var old0, new0 := Pending(request, 1, false, None, false, 0), Pending(request, 2, false, None, false, 0);
    var given := Port([old0], map[], {}, false, [0]);
    schedule := GivenUp(request);
    schedule := Extend(schedule, StartWait(request, 1), State(given, 1, [Registering(request, 2)]));
    schedule := Extend(schedule, DoRegister,
                       State(Port([old0, new0], map[request.id := 1], {}, false, [0, 1]), 1, [Looping(1)]));
  }

  lemma GivenUp(request: Request) returns (schedule: seq<Move>)
    ensures Run(1, schedule)
            == State(Port([Pending(request, 1, false, None, false, 0)], map[], {}, false, [0]), 1, [Idle])
  {
    hide Inv;
    var waiting := Port([Pending(request, 1, false, None, false, 0)], map[request.id := 0], {}, false, [0]);
    schedule := TooLate(request);
    schedule := Extend(schedule, DoLeave, State(waiting.(pending := map[]), 1, [Returned(0, None)]));
    schedule := Extend(schedule, Reuse, State(waiting.(pending := map[]), 1, [Idle]));
  }

  lemma TooLate(request: Request) returns (schedule: seq<Move>)
    ensures Run(1, schedule)
            == State(Port([Pending(request, 1, false, None, false, 0)], map[request.id := 0], {}, false, [0]), 1,
                     [Leaving(0, None)])
  {
    hide Inv;
    var waiting := Port([Pending(request, 1, false, None, false, 0)], map[request.id := 0], {}, false, [0]);
    schedule := Extend([], StartWait(request, 1), State(Empty, 0, [Registering(request, 1)]));
    schedule := Extend(schedule, DoRegister, State(waiting, 0, [Looping(0)]));
    schedule := Extend(schedule, Tick, State(waiting, 1, [Looping(0)]));
    schedule := Extend(schedule, ReadClock, State(waiting, 1, [Leaving(0, None)]));
  }

  // ---------------------------------------------------------------------------------------------
  // What becomes of an accepted answer

  ghost function After(s: State, moves: seq<Move>): (s': State)
    requires Inv(s)
    ensures Inv(s') && |s'.pcs| == |s.pcs|
    decreases |moves|
  {
    if moves == [] then s
    else if moves[0].thread < |s.pcs| then
      StepKeepsInv(s, moves[0].thread, moves[0].action);
      After(Step(s, moves[0].thread, moves[0].action), moves[1..])
    else After(s, moves[1..])
  }

  // What a waiting thread does by itself until it returns.
  predicate IsOwn(action: Action) {
    action in {ReadClock, Wake, TimeOut, DoLook, DoLeave}
  }

  predicate Own(moves: seq<Move>, t: nat) {
    forall m :: m in moves ==> m.thread == t && IsOwn(m.action)
  }

  // The thread can return this outcome, whatever the others do or do not do meanwhile.
  ghost predicate CanEnd(s: State, t: nat, o: Ref, outcome: Option<Decision>)
    requires Inv(s) && t < |s.pcs|
  {
    exists moves :: After(s, moves).pcs[t] == Returned(o, outcome)
  }

  // The same by steps of its own alone.
  ghost predicate CanEndAlone(s: State, t: nat, o: Ref, outcome: Option<Decision>)
    requires Inv(s) && t < |s.pcs|
  {
    exists moves :: Own(moves, t) && After(s, moves).pcs[t] == Returned(o, outcome)
  }

  predicate IsWaiting(s: State, t: nat, o: Ref)
    requires t < |s.pcs|
  {
    s.pcs[t] in {Looping(o), Waiting(o), Woken(o)}
  }

  // Too late to return the answer: what has come will not go away.
  predicate Missed(s: State, t: nat, o: Ref)
    requires t < |s.pcs| && o < |s.port.objects|
  {
    || s.port.closed || s.port.objects[o].interrupted
    || (s.pcs[t] == Looping(o) && s.now >= s.port.objects[o].deadline)
  }

  lemma OwnStepEnds(s: State, t: nat, action: Action, o: Ref, outcome: Option<Decision>)
    requires Inv(s) && t < |s.pcs| && IsOwn(action) && Inv(Step(s, t, action)) && |Step(s, t, action).pcs| == |s.pcs|
    requires CanEndAlone(Step(s, t, action), t, o, outcome)
    ensures CanEndAlone(s, t, o, outcome)
  {
    hide Inv, Sound, Step;
    InvIsSound(s);
    var rest :| Own(rest, t) && After(Step(s, t, action), rest).pcs[t] == Returned(o, outcome);
    var moves := [Move(t, action)] + rest;
    assert moves[1..] == rest;
    assert Own(moves, t) && After(s, moves).pcs[t] == Returned(o, outcome);
  }

  lemma LeavingEnds(s: State, t: nat, o: Ref, outcome: Option<Decision>)
    requires Inv(s) && t < |s.pcs| && s.pcs[t] == Leaving(o, outcome)
    ensures CanEndAlone(s, t, o, outcome)
  {
    StepKeepsInv(s, t, DoLeave);
    var s' := Step(s, t, DoLeave);
    assert s'.pcs[t] == Returned(o, outcome);
    assert Own([], t) && After(s', []).pcs[t] == Returned(o, outcome);
    OwnStepEnds(s, t, DoLeave, o, outcome);
  }

  lemma WokenEnds(s: State, t: nat, o: Ref)
    requires Inv(s) && t < |s.pcs| && s.pcs[t] == Woken(o) && s.port.objects[o].decision.Some?
    ensures CanEndAlone(s, t, o, if Missed(s, t, o) then None else s.port.objects[o].decision)
  {
    StepKeepsInv(s, t, DoLook);
    LeavingEnds(Step(s, t, DoLook), t, o, if Missed(s, t, o) then None else s.port.objects[o].decision);
    OwnStepEnds(s, t, DoLook, o, if Missed(s, t, o) then None else s.port.objects[o].decision);
  }

  lemma WaitingEnds(s: State, t: nat, o: Ref)
    requires Inv(s) && t < |s.pcs| && s.pcs[t] == Waiting(o) && s.port.objects[o].decision.Some?
    ensures CanEndAlone(s, t, o, if Missed(s, t, o) then None else s.port.objects[o].decision)
  {
    hide CanEndAlone, Notified, NotifiedAt, ThreadOk, Owned;
    assert ObjectOk(s.port, o);
    StepKeepsInv(s, t, Wake);
    WokenEnds(Step(s, t, Wake), t, o);
    OwnStepEnds(s, t, Wake, o, if Missed(s, t, o) then None else s.port.objects[o].decision);
  }

  lemma TimeOutEnds(s: State, t: nat, o: Ref)
    requires Inv(s) && t < |s.pcs| && s.pcs[t] == Waiting(o) && s.now >= s.port.objects[o].deadline
    ensures CanEndAlone(s, t, o, None)
  {
    hide CanEndAlone, Notified, NotifiedAt, ThreadOk, Objects;
    StepKeepsInv(s, t, TimeOut);
    LeavingEnds(Step(s, t, TimeOut), t, o, None);
    OwnStepEnds(s, t, TimeOut, o, None);
  }

  lemma LoopingEnds(s: State, t: nat, o: Ref)
    requires Inv(s) && t < |s.pcs| && s.pcs[t] == Looping(o) && s.port.objects[o].decision.Some?
    ensures CanEndAlone(s, t, o, if Missed(s, t, o) then None else s.port.objects[o].decision)
  {
    StepKeepsInv(s, t, ReadClock);
    if s.now >= s.port.objects[o].deadline {
      LeavingEnds(Step(s, t, ReadClock), t, o, None);
    } else {
      WaitingEnds(Step(s, t, ReadClock), t, o);
    }
    OwnStepEnds(s, t, ReadClock, o, if Missed(s, t, o) then None else s.port.objects[o].decision);
  }

  // The thread has not returned an answer to this request and cannot do so any more.
  predicate NoAnswerAnyMore(s: State, t: nat, o: Ref)
    requires t < |s.pcs|
  {
    && o < |s.port.objects|
    && match s.pcs[t]
       case Looping(mine) => mine == o ==> Missed(s, t, o)
       case Waiting(mine) => mine == o ==> Missed(s, t, o)
       case Woken(mine) => mine == o ==> Missed(s, t, o)
       case Clearing(mine) => mine != o
       case Leaving(mine, outcome) => mine == o ==> outcome == None
       case Returned(mine, outcome) => mine == o ==> outcome == None
       case _ => true
  }

  lemma StepGivesNoAnswer(s: State, t: nat, action: Action, u: nat, o: Ref)
    requires t < |s.pcs| && u < |s.pcs| && Inv(s) && NoAnswerAnyMore(s, u, o)
    ensures NoAnswerAnyMore(Step(s, t, action), u, o)
  {
    hide Notified, NotifiedAt, Owned;
    StepGrows(s, t, action);
    StepMovesOneThread(s, t, action);
    assert ThreadOk(s, t);
  }

  lemma {:induction false} NothingGivesAnAnswer(s: State, moves: seq<Move>, t: nat, o: Ref)
    requires Inv(s) && t < |s.pcs| && NoAnswerAnyMore(s, t, o)
    ensures NoAnswerAnyMore(After(s, moves), t, o)
    decreases |moves|
  {
    hide Inv, Sound, Step, NoAnswerAnyMore;
    InvIsSound(s);
    if moves != [] {
      var m := moves[0];
      if m.thread < |s.pcs| {
        StepGivesNoAnswer(s, m.thread, m.action, t, o);
        StepKeepsInv(s, m.thread, m.action);
        NothingGivesAnAnswer(Step(s, m.thread, m.action), moves[1..], t, o);
      } else {
        NothingGivesAnAnswer(s, moves[1..], t, o);
      }
    }
  }

  // By itself the thread can only return the answer.
  predicate OnlyAnswer(s: State, t: nat, o: Ref)
    requires t < |s.pcs|
  {
    && o < |s.port.objects| && !s.port.closed && !s.port.objects[o].interrupted
    && match s.pcs[t]
       case Looping(mine) => mine == o && s.now < s.port.objects[o].deadline
       case Waiting(mine) => mine == o && s.now < s.port.objects[o].deadline
       case Woken(mine) => mine == o && s.port.objects[o].decision.Some?
       case Leaving(mine, outcome) => mine == o && outcome.Some?
       case Returned(mine, outcome) => mine == o && outcome.Some?
       case _ => false
  }

  lemma OwnStepKeepsAnswer(s: State, t: nat, action: Action, o: Ref)
    requires t < |s.pcs| && Inv(s) && OnlyAnswer(s, t, o) && IsOwn(action)
    requires o < |s.port.objects| && s.port.objects[o].decision.Some?
    ensures OnlyAnswer(Step(s, t, action), t, o)
    ensures o < |Step(s, t, action).port.objects| && Step(s, t, action).port.objects[o].decision.Some?
  {
    hide Notified, NotifiedAt, Owned;
    StepGrows(s, t, action);
  }

  lemma {:induction false} OwnMovesKeepAnswer(s: State, moves: seq<Move>, t: nat, o: Ref)
    requires Inv(s) && t < |s.pcs| && OnlyAnswer(s, t, o) && Own(moves, t)
    requires o < |s.port.objects| && s.port.objects[o].decision.Some?
    ensures OnlyAnswer(After(s, moves), t, o)
    decreases |moves|
  {
    hide Inv, Sound, Step, OnlyAnswer;
    InvIsSound(s);
    if moves != [] {
      assert moves[0] in moves;
      OwnStepKeepsAnswer(s, t, moves[0].action, o);
      StepKeepsInv(s, t, moves[0].action);
      OwnMovesKeepAnswer(Step(s, t, moves[0].action), moves[1..], t, o);
    }
  }

  lemma AloneIsEnough(s: State, t: nat, o: Ref, outcome: Option<Decision>)
    requires Inv(s) && t < |s.pcs| && CanEndAlone(s, t, o, outcome)
    ensures CanEnd(s, t, o, outcome)
  {
    hide Inv;
    var moves :| Own(moves, t) && After(s, moves).pcs[t] == Returned(o, outcome);
  }

  lemma MissedEndsWithout(s: State, t: nat, o: Ref, decision: Decision)
    requires Inv(s) && t < |s.pcs| && IsWaiting(s, t, o) && o < |s.port.objects| && Missed(s, t, o)
    ensures !CanEnd(s, t, o, Some(decision))
  {
    hide Inv;
    forall moves ensures After(s, moves).pcs[t] != Returned(o, Some(decision)) {
      NothingGivesAnAnswer(s, moves, t, o);
    }
  }

  lemma EndsWithoutOnlyIf(s: State, t: nat, o: Ref)
    requires Inv(s) && t < |s.pcs| && IsWaiting(s, t, o) && o < |s.port.objects| && !Missed(s, t, o)
    requires s.port.objects[o].decision.Some? && CanEndAlone(s, t, o, None)
    ensures s.now >= s.port.objects[o].deadline && s.pcs[t] != Woken(o)
  {
    hide Inv;
    var moves :| Own(moves, t) && After(s, moves).pcs[t] == Returned(o, None);
    if OnlyAnswer(s, t, o) {
      OwnMovesKeepAnswer(s, moves, t, o);
      assert false;
    }
  }

  /** An accepted answer can still be returned exactly if the port is open, the request uninterrupted,
      and the deadline not past when the clock is yet to be read; left to itself, the thread can return
      without it exactly if one of these has happened, or the deadline is past and it has not woken up. */
  lemma AcceptedAnswerIsReturnedExactlyIf(s: State, t: nat, o: Ref, decision: Decision)
    requires Inv(s) && t < |s.pcs| && IsWaiting(s, t, o)
    requires o < |s.port.objects| && s.port.objects[o].decision == Some(decision)
    ensures CanEnd(s, t, o, Some(decision)) <==> !Missed(s, t, o)
    ensures CanEndAlone(s, t, o, Some(decision)) <==> !Missed(s, t, o)
    ensures CanEndAlone(s, t, o, None)
            <==> Missed(s, t, o) || (s.now >= s.port.objects[o].deadline && s.pcs[t] != Woken(o))
  {
    hide Inv, Step, CanEndAlone, Sound;
    match s.pcs[t] {
      case Looping(_) => LoopingEnds(s, t, o);
      case Waiting(_) =>
        WaitingEnds(s, t, o);
        if s.now >= s.port.objects[o].deadline {
          TimeOutEnds(s, t, o);
        }
      case Woken(_) => WokenEnds(s, t, o);
    }
    if CanEndAlone(s, t, o, Some(decision)) {
      AloneIsEnough(s, t, o, Some(decision));
    }
    if Missed(s, t, o) && CanEnd(s, t, o, Some(decision)) {
      MissedEndsWithout(s, t, o, decision);
    }
    if CanEndAlone(s, t, o, None) && !Missed(s, t, o) {
      EndsWithoutOnlyIf(s, t, o);
    }
  }

  /** `respond` returning true does not mean the waiter gets the decision: when the deadline passes
      before the waiter first reads the clock, it leaves empty-handed. */
  lemma AcceptedAnswerCanBeLost(decision: Decision) returns (schedule: seq<Move>)
    ensures var s := Run(1, schedule);
      && s.pcs[0] == Returned(0, None)
      && |s.port.objects| == 1 && s.port.objects[0].answers == 1
      && s.port.objects[0].decision == Some(decision)
      && !s.port.closed && !s.port.objects[0].interrupted
  {
    schedule := AnsweredBeforeTheClockIsRead(decision);
    var s := Run(1, schedule);
    schedule := Extend(schedule, Tick, s.(now := 1));
    schedule := LateWaiterLeaves(schedule);
  }

  lemma LateWaiterLeaves(schedule: seq<Move>) returns (longer: seq<Move>)
    requires Run(1, schedule).pcs == [Looping(0)] && 0 < |Run(1, schedule).port.objects|
    requires Run(1, schedule).now >= Run(1, schedule).port.objects[0].deadline
    ensures var s := Run(1, schedule);
      Run(1, longer) == s.(port := Leave(s.port, 0), pcs := [Returned(0, None)])
  {
    var s := Run(1, schedule);
    LateStep(s);
    longer := Extend(schedule, ReadClock, s.(pcs := [Leaving(0, None)]));
    LeaveStep(s.(pcs := [Leaving(0, None)]));
    longer := Extend(longer, DoLeave, s.(port := Leave(s.port, 0), pcs := [Returned(0, None)]));
  }

  lemma LateStep(s: State)
    requires Sound(s) && s.pcs == [Looping(0)]
    requires 0 < |s.port.objects| && s.now >= s.port.objects[0].deadline
    ensures Step(s, 0, ReadClock) == s.(pcs := [Leaving(0, None)])
  {
  }

  lemma LeaveStep(s: State)
    requires Sound(s) && s.pcs == [Leaving(0, None)] && 0 < |s.port.objects|
    ensures Step(s, 0, DoLeave) == s.(port := Leave(s.port, 0), pcs := [Returned(0, None)])
  {
  }

  lemma AnsweredBeforeTheClockIsRead(decision: Decision) returns (schedule: seq<Move>)
    ensures Run(1, schedule) ==
            State(Port([Pending(Request(decision.id, decision.kind), 1, true, Some(decision), false, 1)],
                       map[decision.id := 0], {decision.id}, false, [0]),
                  0, [Looping(0)])
  {
    hide Inv;
    var request := Request(decision.id, decision.kind);
    var item := Pending(request, 1, false, None, false, 0);
    var registered := Port([item], map[decision.id := 0], {}, false, [0]);
    schedule := Extend([], StartWait(request, 1), State(Empty, 0, [Registering(request, 1)]));
    schedule := Extend(schedule, DoRegister, State(registered, 0, [Looping(0)]));
    var answered := item.(decision := Some(decision), changed := true, answers := 1);
    schedule := Extend(schedule, DoRespond(decision),
                       State(registered.(objects := [answered], completed := {decision.id}), 0, [Looping(0)]));
  }

  lemma Extend(schedule: seq<Move>, action: Action, s': State) returns (longer: seq<Move>)
    requires s' == Step(Run(1, schedule), 0, action)
    ensures Run(1, longer) == s'
  {
    longer := schedule + [Move(0, action)];
    assert longer[..|schedule|] == schedule;
  }
}
