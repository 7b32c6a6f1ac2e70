/**
  The event stream wrapper that closes its source and runs a completion callback exactly once.

  `ExecutionEvents` has one method per section that holds the lock.  `Step` lets any number of
  threads run `next` and `close` through these sections, with the calls into the source, the cancel
  request and the callback in between, each free to return or to raise.
*/
module ExecutionEvents {

  datatype Flags = Flags(
    started: bool, iterating: bool, closeRequested: bool, closing: bool, finished: bool)

  const Initial := Flags(false, false, false, false, false)

  datatype Admission = Admitted | Stopped | Busy

  // ---------------------------------------------------------------------------------------------
  // The sections under the lock

  function EnterNext(f: Flags): (Flags, Admission) {
    if f.finished || f.closeRequested then (f, Stopped)
    else if f.iterating then (f, Busy)
    else (f.(started := true, iterating := true), Admitted)
  }

  function ClaimClose(f: Flags): (Flags, bool) {
    if f.finished || !f.closeRequested || f.iterating || f.closing then (f, false)
    else (f.(closing := true), true)
  }

  // After the source raised.
  function AbortedNext(f: Flags): Flags {
    f.(iterating := false)
  }

  function RequestedClose(f: Flags): (Flags, bool) {
    ClaimClose(f.(closeRequested := true))
  }

  function EndedNext(f: Flags): (Flags, bool) {
    ClaimClose(f.(iterating := false))
  }

  // After closing the source raised.
  function ReleasedClose(f: Flags): Flags {
    f.(closing := false)
  }

  // Whether the callback is still to be run.
  function Finished(f: Flags): (Flags, bool) {
    (f.(finished := true), !f.finished)
  }

  class ExecutionEvents {
    var started: bool
    var iterating: bool
    var closeRequested: bool
    var closing: bool
    var finished: bool

    function Now(): Flags
      reads this
    {
      Flags(started, iterating, closeRequested, closing, finished)
    }

    constructor ()
      ensures Now() == Initial
    {
      started, iterating, closeRequested, closing, finished := false, false, false, false, false;
    }

    method BeginNext() returns (admission: Admission)
      modifies this
      ensures (Now(), admission) == EnterNext(old(Now()))
    {
      if finished || closeRequested {
        return Stopped;
      }
      if iterating {
        return Busy;
      }
      started := true;
      iterating := true;
      return Admitted;
    }

    method ClaimCloseLocked() returns (claimed: bool)
      modifies this
      ensures (Now(), claimed) == ClaimClose(old(Now()))
    {
      if finished || !closeRequested || iterating || closing {
        return false;
      }
      closing := true;
      return true;
    }

    // After the source returned an item.
    method EndNext() returns (shouldClose: bool)
      modifies this
      ensures (Now(), shouldClose) == EndedNext(old(Now()))
    {
      iterating := false;
      shouldClose := ClaimCloseLocked();
    }

    method AbortNext()
      modifies this
      ensures Now() == AbortedNext(old(Now()))
    {
      iterating := false;
    }

    method RequestClose() returns (shouldClose: bool)
      modifies this
      ensures (Now(), shouldClose) == RequestedClose(old(Now()))
    {
      closeRequested := true;
      shouldClose := ClaimCloseLocked();
    }

    method ReleaseClose()
      modifies this
      ensures Now() == ReleasedClose(old(Now()))
    {
      closing := false;
    }

    method Finish() returns (first: bool, wasStarted: bool)
      modifies this
      ensures (Now(), first) == Finished(old(Now())) && wasStarted == old(started)
    {
      first, wasStarted := !finished, started;
      finished := true;
    }
  }

  // ---------------------------------------------------------------------------------------------
  // Threads

  datatype Pc =
    | Idle
    | InSourceNext
    | NextReturned
    | NextRaised
    | Cancelling           // close() has asked for cancellation, not yet for the close
    | InSourceClose
    | CloseRaised
    | Finishing            // about to take the lock in _finish
    | InOnClose

  datatype Action =
    | CallNext | SourceReturns | SourceRaises | AfterNext
    | CallClose | CancelReturns | CancelRaises
    | CloseReturns | CloseRaises | AfterCloseRaised
    | Finish | OnCloseDone

  // `admitted`, `raised`, `failedCloses` and `callbacks` record what happened so far.
  datatype State = State(
    flags: Flags, pcs: seq<Pc>, admitted: nat, raised: nat, failedCloses: nat, callbacks: seq<bool>)

  function Init(threads: nat): State {
    State(Initial, seq(threads, _ => Idle), 0, 0, 0, [])
  }

  function At(s: State, t: nat, flags: Flags, pc: Pc): State
    requires t < |s.pcs|
  {
    s.(flags := flags, pcs := s.pcs[t := pc])
  }

  // What thread `t` does next; an action that does not fit where the thread is changes nothing.
  function Step(s: State, t: nat, action: Action): State
    requires t < |s.pcs|
  {
    var f := s.flags;
    match (s.pcs[t], action)
    case (Idle, CallNext) =>
      var (f', admission) := EnterNext(f);
      if admission == Admitted then At(s, t, f', InSourceNext).(admitted := s.admitted + 1) else s
    case (InSourceNext, SourceReturns) => At(s, t, f, NextReturned)
    case (InSourceNext, SourceRaises) => At(s, t, f, NextRaised).(raised := s.raised + 1)
    case (NextReturned, AfterNext) =>
      var (f', claimed) := EndedNext(f);
      At(s, t, f', if claimed then InSourceClose else Idle)
    case (NextRaised, AfterNext) => At(s, t, AbortedNext(f), Finishing)
    case (Idle, CallClose) => if f.finished then s else At(s, t, f, Cancelling)
    case (Cancelling, CancelRaises) => At(s, t, f, Idle)
    case (Cancelling, CancelReturns) =>
      var (f', claimed) := RequestedClose(f);
      At(s, t, f', if claimed then InSourceClose else Idle)
    case (InSourceClose, CloseReturns) => At(s, t, f, Finishing)
    case (InSourceClose, CloseRaises) =>
      At(s, t, f, CloseRaised).(failedCloses := s.failedCloses + 1)
    case (CloseRaised, AfterCloseRaised) => At(s, t, ReleasedClose(f), Idle)
    case (Finishing, Finish) =>
      var (f', first) := Finished(f);
      if first then At(s, t, f', InOnClose).(callbacks := s.callbacks + [f.started]) else At(s, t, f', Idle)
    case (InOnClose, OnCloseDone) => At(s, t, f, Idle)
    case _ => s
  }

  datatype Move = Move(thread: nat, action: Action)

  function Run(s: State, schedule: seq<Move>): (s': State)
    ensures |s'.pcs| == |s.pcs|
    decreases |schedule|
  {
    if schedule == [] then s
    else
      var s1 := Run(s, schedule[..|schedule| - 1]);
      var m := schedule[|schedule| - 1];
      if m.thread < |s1.pcs| then Step(s1, m.thread, m.action) else s1
  }

  // ---------------------------------------------------------------------------------------------
  // The invariant

  predicate Nexting(pc: Pc) {
    pc in {InSourceNext, NextReturned, NextRaised}
  }

  predicate Closing(pc: Pc) {
    pc in {InSourceClose, CloseRaised}
  }

  predicate Anyone(s: State, where: set<Pc>) {
    exists t :: 0 <= t < |s.pcs| && s.pcs[t] in where
  }

  // The flags say whether a thread is inside the source.
  ghost predicate Flagged(s: State) {
    && (forall t :: 0 <= t < |s.pcs| && Nexting(s.pcs[t]) ==> s.flags.iterating)
    && (forall t :: 0 <= t < |s.pcs| && Closing(s.pcs[t]) ==> s.flags.closing)
    && (s.flags.closing ==> s.flags.closeRequested && !s.flags.iterating)
  }

  ghost predicate Apart(s: State, inside: Pc -> bool) {
    forall t, u :: 0 <= t < |s.pcs| && 0 <= u < |s.pcs| && t != u ==> !(inside(s.pcs[t]) && inside(s.pcs[u]))
  }

  ghost predicate Exclusive(s: State) {
    Flagged(s) && Apart(s, Nexting) && Apart(s, Closing)
  }

  // Somebody is still there to finish what the flags announce.
  ghost predicate Attended(s: State) {
    var f := s.flags;
    && (f.iterating ==> Anyone(s, {InSourceNext, NextReturned, NextRaised}))
    && (f.closing && !f.finished ==> Anyone(s, {InSourceClose, CloseRaised, Finishing}))
    && (f.closeRequested && !f.finished && s.failedCloses == 0 ==>
          Anyone(s, {InSourceNext, NextReturned, NextRaised, InSourceClose, Finishing}))
  }

  predicate Counted(s: State) {
    && (s.flags.started <==> s.admitted > 0)
    && s.callbacks == (if s.flags.finished then [s.flags.started] else [])
  }

  predicate PlacesKnown(s: State) {
    && (Anyone(s, {CloseRaised}) ==> s.failedCloses > 0)
    && (Anyone(s, {InOnClose}) ==> s.flags.finished)
    && (s.raised == 0 ==> !Anyone(s, {NextRaised}))
  }

  // Without a raise only a close ends the stream, when no `next` is in progress.
  predicate EndsQuietly(s: State) {
    s.raised == 0 && (s.flags.finished || Anyone(s, {Finishing})) ==> s.flags.closeRequested && !s.flags.iterating
  }

  predicate Recorded(s: State) {
    Counted(s) && PlacesKnown(s) && EndsQuietly(s)
  }

  ghost predicate Inv(s: State) {
    Exclusive(s) && Attended(s) && Recorded(s)
  }

  // The threads other than `t` are where they were.
  lemma OthersStay(s: State, s': State, t: nat, where: set<Pc>)
    requires t < |s.pcs| == |s'.pcs| && s'.pcs == s.pcs[t := s'.pcs[t]]
    ensures s'.pcs[t] in where ==> Anyone(s', where)
    ensures Anyone(s, where) && s.pcs[t] !in where ==> Anyone(s', where)
    ensures Anyone(s', where) && s'.pcs[t] !in where ==> Anyone(s, where)
  {
    if Anyone(s, where) && s.pcs[t] !in where {
      var u :| 0 <= u < |s.pcs| && s.pcs[u] in where;
      assert s'.pcs[u] in where;
    }
    if Anyone(s', where) && s'.pcs[t] !in where {
      var u :| 0 <= u < |s'.pcs| && s'.pcs[u] in where;
      assert s.pcs[u] in where;
    }
  }

  lemma StepKeepsFlagged(s: State, t: nat, action: Action)
    requires t < |s.pcs| && Exclusive(s)
    ensures Flagged(Step(s, t, action))
  {
  }

  lemma StepKeepsApart(s: State, t: nat, action: Action, inside: Pc -> bool)
    requires t < |s.pcs| && Apart(s, inside)
    requires var s' := Step(s, t, action);
      inside(s'.pcs[t]) && !inside(s.pcs[t]) ==> forall u :: 0 <= u < |s.pcs| ==> !inside(s.pcs[u])
    ensures Apart(Step(s, t, action), inside)
  {
    StepMovesOne(s, t, action);
    hide Step;
  }

  lemma StepMovesOne(s: State, t: nat, action: Action)
    requires t < |s.pcs|
    ensures var s' := Step(s, t, action); |s'.pcs| == |s.pcs| && s'.pcs == s.pcs[t := s'.pcs[t]]
  {
  }

  lemma StepKeepsExclusive(s: State, t: nat, action: Action)
    requires t < |s.pcs| && Exclusive(s)
    ensures Exclusive(Step(s, t, action))
  {
    StepKeepsFlagged(s, t, action);
    StepKeepsApart(s, t, action, Nexting);
    StepKeepsApart(s, t, action, Closing);
  }

  lemma StepKeepsAttended(s: State, t: nat, action: Action)
    requires t < |s.pcs| && Inv(s)
    ensures Attended(Step(s, t, action))
  {
    var s' := Step(s, t, action);
    if s' != s {
      OthersStay(s, s', t, {InSourceNext, NextReturned, NextRaised});
      OthersStay(s, s', t, {InSourceClose, CloseRaised, Finishing});
      OthersStay(s, s', t, {InSourceNext, NextReturned, NextRaised, InSourceClose, Finishing});
    }
  }

  lemma StepKeepsCounted(s: State, t: nat, action: Action)
    requires t < |s.pcs| && Counted(s)
    ensures Counted(Step(s, t, action))
  {
  }

  lemma StepKeepsPlaces(s: State, t: nat, action: Action)
    requires t < |s.pcs| && PlacesKnown(s)
    ensures PlacesKnown(Step(s, t, action))
  {
    hide Anyone;
    var s' := Step(s, t, action);
    if s' != s {
      OthersStay(s, s', t, {CloseRaised});
      OthersStay(s, s', t, {InOnClose});
      OthersStay(s, s', t, {NextRaised});
    }
  }

  lemma StepKeepsQuietEnd(s: State, t: nat, action: Action)
    requires t < |s.pcs| && Exclusive(s) && PlacesKnown(s) && EndsQuietly(s)
    ensures EndsQuietly(Step(s, t, action))
  {
    var s' := Step(s, t, action);
    assert Closing(s.pcs[t]) ==> s.flags.closing;
    assert s.pcs[t] == NextRaised ==> Anyone(s, {NextRaised});
    assert s.pcs[t] == Finishing ==> Anyone(s, {Finishing});
    hide Anyone, Exclusive;
    if s' != s {
      OthersStay(s, s', t, {Finishing});
    }
  }

  lemma StepKeepsRecorded(s: State, t: nat, action: Action)
    requires t < |s.pcs| && Inv(s)
    ensures Recorded(Step(s, t, action))
  {
    hide Step, Counted, PlacesKnown, EndsQuietly;
    StepKeepsCounted(s, t, action);
    StepKeepsPlaces(s, t, action);
    StepKeepsQuietEnd(s, t, action);
  }

  lemma StepKeepsInv(s: State, t: nat, action: Action)
    requires t < |s.pcs| && Inv(s)
    ensures Inv(Step(s, t, action))
  {
    StepKeepsExclusive(s, t, action);
    StepKeepsAttended(s, t, action);
    StepKeepsRecorded(s, t, action);
  }

  lemma {:induction false} RunKeepsInv(threads: nat, schedule: seq<Move>)
    ensures Inv(Run(Init(threads), schedule))
    decreases |schedule|
  {
    if schedule != [] {
      RunKeepsInv(threads, schedule[..|schedule| - 1]);
      var s1 := Run(Init(threads), schedule[..|schedule| - 1]);
      var m := schedule[|schedule| - 1];
      if m.thread < |s1.pcs| {
        StepKeepsInv(s1, m.thread, m.action);
      }
    }
  }

  // ---------------------------------------------------------------------------------------------
  // Safety

  /** In every state any number of threads can reach: closing the source overlaps neither another
      close nor a `next`, no two `next` overlap, and the callback has run at most once, told
      "not started" only when no `next` was ever admitted. */
  lemma SourceCallsNeverOverlap(threads: nat, schedule: seq<Move>)
    ensures var s := Run(Init(threads), schedule);
      && (forall t, u :: 0 <= t < threads && 0 <= u < threads && t != u && s.pcs[t] == InSourceClose ==>
            s.pcs[u] != InSourceClose && s.pcs[u] != InSourceNext)
      && (forall t, u :: 0 <= t < threads && 0 <= u < threads && t != u && s.pcs[t] == InSourceNext ==>
            s.pcs[u] != InSourceNext)
      && |s.callbacks| <= 1
      && (|s.callbacks| == 1 ==> s.callbacks == [s.admitted > 0])
  {
    RunKeepsInv(threads, schedule);
    var s := Run(Init(threads), schedule);
    assert forall t :: 0 <= t < threads && s.pcs[t] == InSourceClose ==> Closing(s.pcs[t]);
    assert forall t :: 0 <= t < threads && s.pcs[t] == InSourceNext ==> Nexting(s.pcs[t]);
  }

  lemma StepAfterClose(s: State, t: nat, action: Action)
    requires t < |s.pcs| && (s.flags.closeRequested || s.flags.finished)
    ensures var s' := Step(s, t, action);
      && (s.flags.closeRequested ==> s'.flags.closeRequested)
      && (s.flags.finished ==> s'.flags.finished && s'.callbacks == s.callbacks)
      && s'.admitted == s.admitted
  {
  }

  /** Once a close is requested, or the stream has finished, no further `next` is ever admitted and
      the callback is not run again. */
  lemma {:induction false} NoNextAfterClose(s: State, schedule: seq<Move>)
    requires Inv(s) && (s.flags.closeRequested || s.flags.finished)
    ensures var s' := Run(s, schedule);
      && Inv(s')
      && (s.flags.closeRequested ==> s'.flags.closeRequested)
      && (s.flags.finished ==> s'.flags.finished && s'.callbacks == s.callbacks)
      && s'.admitted == s.admitted
    decreases |schedule|
  {
    hide Step, Inv;
    if schedule != [] {
      NoNextAfterClose(s, schedule[..|schedule| - 1]);
      var s1 := Run(s, schedule[..|schedule| - 1]);
      var m := schedule[|schedule| - 1];
      if m.thread < |s1.pcs| {
        StepKeepsInv(s1, m.thread, m.action);
        StepAfterClose(s1, m.thread, m.action);
      }
    }
  }

  /** When no call is in progress, a requested close has run the callback exactly once, unless
      closing the source raised; and even then the next `close` will claim the source again. */
  lemma RequestedCloseIsDone(threads: nat, schedule: seq<Move>)
    requires forall t :: 0 <= t < threads ==> Run(Init(threads), schedule).pcs[t] == Idle
    ensures var s := Run(Init(threads), schedule);
      && (s.flags.closeRequested && s.failedCloses == 0 ==>
            s.flags.finished && s.callbacks == [s.admitted > 0])
      && (!s.flags.finished ==> ClaimClose(s.flags.(closeRequested := true)).1)
  {
    RunKeepsInv(threads, schedule);
  }

  // ---------------------------------------------------------------------------------------------
  // When the stream goes on

  // The k-th move finds its thread here and takes this action.
  predicate Reached(threads: nat, schedule: seq<Move>, k: nat, pc: Pc, action: Action) {
    && k < |schedule| && schedule[k].action == action && schedule[k].thread < threads
    && Run(Init(threads), schedule[..k]).pcs[schedule[k].thread] == pc
  }

  predicate EverReached(threads: nat, schedule: seq<Move>, pc: Pc, action: Action) {
    exists k :: 0 <= k < |schedule| && Reached(threads, schedule, k, pc, action)
  }

  lemma ReachedInPrefix(threads: nat, schedule: seq<Move>, n: nat, k: nat, pc: Pc, action: Action)
    requires k < n <= |schedule|
    ensures Reached(threads, schedule[..n], k, pc, action) <==> Reached(threads, schedule, k, pc, action)
  {
    assert schedule[..n][..k] == schedule[..k];
  }

  lemma ReachedInFront(threads: nat, schedule: seq<Move>, pc: Pc, action: Action)
    requires schedule != []
    ensures var n := |schedule| - 1;
      EverReached(threads, schedule, pc, action)
      <==> EverReached(threads, schedule[..n], pc, action) || Reached(threads, schedule, n, pc, action)
  {
    hide Reached;
    var front := schedule[..|schedule| - 1];
    forall k | 0 <= k < |front|
      ensures Reached(threads, front, k, pc, action) <==> Reached(threads, schedule, k, pc, action)
    {
      ReachedInPrefix(threads, schedule, |front|, k, pc, action);
    }
    if EverReached(threads, front, pc, action) {
      var k :| 0 <= k < |front| && Reached(threads, front, k, pc, action);
      assert Reached(threads, schedule, k, pc, action);
    }
    if EverReached(threads, schedule, pc, action) {
      var k :| 0 <= k < |schedule| && Reached(threads, schedule, k, pc, action);
      assert k < |front| ==> Reached(threads, front, k, pc, action);
    }
  }

  lemma FlagsStep(s: State, t: nat, action: Action)
    requires t < |s.pcs|
    ensures var s', pc := Step(s, t, action), s.pcs[t];
      && (s'.flags.closeRequested <==> s.flags.closeRequested || (pc == Cancelling && action == CancelReturns))
      && (s'.flags.finished <==> s.flags.finished || (pc == Finishing && action == Finish))
      && (s'.raised > 0 <==> s.raised > 0 || (pc == InSourceNext && action == SourceRaises))
  {
  }

  /** What the flags say has happened in the schedule: a close is requested exactly if some close was not
      cancelled half-way, and the stream has finished exactly if some thread has finished it. */
  lemma {:induction false} FlagsTellTheSchedule(threads: nat, schedule: seq<Move>)
    ensures var s := Run(Init(threads), schedule);
      && (s.flags.closeRequested <==> EverReached(threads, schedule, Cancelling, CancelReturns))
      && (s.flags.finished <==> EverReached(threads, schedule, Finishing, Finish))
      && (s.raised > 0 <==> EverReached(threads, schedule, InSourceNext, SourceRaises))
    decreases |schedule|
  {
    hide Step, EverReached;
    if schedule == [] {
      NothingReached(threads);
    } else {
      var n := |schedule| - 1;
      FlagsTellTheSchedule(threads, schedule[..n]);
      ReachedInFront(threads, schedule, Cancelling, CancelReturns);
      ReachedInFront(threads, schedule, Finishing, Finish);
      ReachedInFront(threads, schedule, InSourceNext, SourceRaises);
      if schedule[n].thread < threads {
        FlagsStep(Run(Init(threads), schedule[..n]), schedule[n].thread, schedule[n].action);
      }
    }
  }

  lemma NothingReached(threads: nat)
    ensures forall pc, action :: !EverReached(threads, [], pc, action)
  {
  }

  /** A thread that asks for cancellation has called close before. */
  lemma {:induction false} CancellingBegan(threads: nat, schedule: seq<Move>, t: nat) returns (j: nat)
    requires t < threads && Run(Init(threads), schedule).pcs[t] == Cancelling
    ensures j < |schedule| && schedule[j].thread == t && Reached(threads, schedule, j, Idle, CallClose)
    decreases |schedule|
  {
    var n := |schedule| - 1;
    var s, m := Run(Init(threads), schedule[..n]), schedule[n];
    if m.thread == t && s.pcs[t] == Idle && m.action == CallClose {
      j := n;
    } else {
      j := CancellingBegan(threads, schedule[..n], t);
      assert schedule[..n][..j] == schedule[..j];
    }
  }

  /** Nothing but a close ends the stream, unless a `next` raises: a requested close was called by some
      thread, which then got past its cancellation; and without one the stream is not finished, is not
      being closed, and the callback has not run. */
  lemma StreamGoesOnUnlessClosed(threads: nat, schedule: seq<Move>)
    ensures var s := Run(Init(threads), schedule);
      && (s.flags.closeRequested ==>
            exists j, k :: 0 <= j < k < |schedule| && schedule[j].thread == schedule[k].thread
                           && Reached(threads, schedule, j, Idle, CallClose)
                           && Reached(threads, schedule, k, Cancelling, CancelReturns))
      && (!EverReached(threads, schedule, Cancelling, CancelReturns)
          && !EverReached(threads, schedule, InSourceNext, SourceRaises) ==>
            !s.flags.closeRequested && !s.flags.closing && !s.flags.finished && s.callbacks == [])
  {
    hide Step;
    FlagsTellTheSchedule(threads, schedule);
    RunKeepsInv(threads, schedule);
    var s := Run(Init(threads), schedule);
    if s.flags.closeRequested {
      var k :| 0 <= k < |schedule| && Reached(threads, schedule, k, Cancelling, CancelReturns);
      var j := CancellingBegan(threads, schedule[..k], schedule[k].thread);
      assert schedule[..k][..j] == schedule[..j] && Reached(threads, schedule, j, Idle, CallClose);
    }
  }

  /** An idle thread's `next` is admitted exactly if no close has got past its cancellation, no thread has
      finished the stream, and no other `next` is in progress. */
  lemma NextIsAdmittedExactlyIf(threads: nat, schedule: seq<Move>, t: nat)
    requires t < threads && Run(Init(threads), schedule).pcs[t] == Idle
    ensures var s := Run(Init(threads), schedule);
      Step(s, t, CallNext).pcs[t] == InSourceNext <==>
        && !EverReached(threads, schedule, Cancelling, CancelReturns)
        && !EverReached(threads, schedule, Finishing, Finish)
        && forall u :: 0 <= u < threads ==> !Nexting(s.pcs[u])
  {
    FlagsTellTheSchedule(threads, schedule);
    RunKeepsInv(threads, schedule);
  }

  // The callback runs while another thread is inside the source.
  ghost predicate CallbackBesideNext(s: State) {
    exists t, u :: 0 <= t < |s.pcs| && 0 <= u < |s.pcs| && s.pcs[t] == InOnClose && s.pcs[u] == InSourceNext
  }

  // The threads that ask for items.
  function Consumers(schedule: seq<Move>): set<nat> {
    set m | m in schedule && m.action == CallNext :: m.thread
  }

  // Only this thread consumes; so only it can end the stream by a raise, and then it has left the source.
  ghost predicate ConsumedBy(s: State, consumer: nat) {
    && (forall t :: 0 <= t < |s.pcs| && t != consumer ==> !Nexting(s.pcs[t]))
    && (s.flags.finished ==> !s.flags.iterating)
    && (forall t :: 0 <= t < |s.pcs| && t != consumer && s.pcs[t] == Finishing ==>
          s.flags.closeRequested && !s.flags.iterating)
  }

  lemma StepKeepsConsumer(s: State, t: nat, action: Action, consumer: nat)
    requires t < |s.pcs| && Inv(s) && ConsumedBy(s, consumer) && (action == CallNext ==> t == consumer)
    ensures ConsumedBy(Step(s, t, action), consumer)
  {
    hide Recorded;
    assert Closing(s.pcs[t]) ==> s.flags.closing;
    if s.flags.iterating {
      assert Nexting(s.pcs[consumer]);
    }
  }

  lemma {:induction false} RunKeepsConsumer(threads: nat, schedule: seq<Move>, consumer: nat)
    requires Consumers(schedule) <= {consumer}
    ensures ConsumedBy(Run(Init(threads), schedule), consumer)
    decreases |schedule|
  {
    if schedule != [] {
      var n := |schedule| - 1;
      assert Consumers(schedule[..n]) <= Consumers(schedule);
      RunKeepsConsumer(threads, schedule[..n], consumer);
      RunKeepsInv(threads, schedule[..n]);
      var s, m := Run(Init(threads), schedule[..n]), schedule[n];
      assert m in schedule && (m.action == CallNext ==> m.thread in Consumers(schedule));
      if m.thread < |s.pcs| {
        StepKeepsConsumer(s, m.thread, m.action, consumer);
      }
    }
  }

  /** The callback can only run beside a `next` after a `next` has raised, as it also does at the end of
      the stream, and only if at least two threads consume. */
  lemma OverlapNeedsRaiseAndSecondConsumer(threads: nat, schedule: seq<Move>)
    ensures CallbackBesideNext(Run(Init(threads), schedule)) ==>
              Run(Init(threads), schedule).raised > 0 && |Consumers(schedule)| > 1
  {
    RunKeepsInv(threads, schedule);
    var s := Run(Init(threads), schedule);
    if t, u :| 0 <= t < |s.pcs| && 0 <= u < |s.pcs| && s.pcs[t] == InOnClose && s.pcs[u] == InSourceNext {
      assert Nexting(s.pcs[u]) && Anyone(s, {InOnClose});
      if |Consumers(schedule)| <= 1 {
        var consumer := Only(Consumers(schedule));
        RunKeepsConsumer(threads, schedule, consumer);
      }
    }
  }

  lemma Only(s: set<nat>) returns (x: nat)
    requires |s| <= 1
    ensures s <= {x}
  {
    if s == {} {
      x := 0;
    } else {
      x :| x in s;
      assert |s - {x}| == 0;
      assert s == {x};
    }
  }

  /** Two consumers are enough: one slips in between the raise of the other and its finish. */
  lemma CallbackCanOverlapNextAfterRaise(threads: nat, a: nat, b: nat) returns (schedule: seq<Move>)
    requires a < threads && b < threads && a != b
    ensures Consumers(schedule) == {a, b}
    ensures var s := Run(Init(threads), schedule);
      s.pcs[a] == InOnClose && s.pcs[b] == InSourceNext && s.callbacks == [true]
  {
    hide Run;
    RunNothing(threads);
    schedule := Extend(threads, [], a, CallNext);
    schedule := Extend(threads, schedule, a, SourceRaises);
    schedule := Extend(threads, schedule, a, AfterNext);
    schedule := Extend(threads, schedule, b, CallNext);
    schedule := Extend(threads, schedule, a, Finish);
  }

  lemma RunNothing(threads: nat)
    ensures Run(Init(threads), []) == Init(threads) && Consumers([]) == {}
  {
  }

  lemma Extend(threads: nat, schedule: seq<Move>, t: nat, action: Action) returns (longer: seq<Move>)
    requires t < threads
    ensures Run(Init(threads), longer) == Step(Run(Init(threads), schedule), t, action)
    ensures Consumers(longer) == Consumers(schedule) + if action == CallNext then {t} else {}
  {
    longer := schedule + [Move(t, action)];
    assert longer[..|schedule|] == schedule;
    assert Move(t, action) in longer;
    forall m | m in schedule ensures m in longer {
    }
  }

  /** Whichever threads may close: the callback can run beside a `next` exactly if more than one thread
      may consume. */
  lemma OverlapPossibleExactlyIf(threads: nat, consumers: set<nat>)
    requires forall t :: t in consumers ==> t < threads
    ensures (exists schedule :: Consumers(schedule) <= consumers && CallbackBesideNext(Run(Init(threads), schedule)))
            <==> |consumers| > 1
  {
    if |consumers| > 1 {
      var a :| a in consumers;
      assert |consumers - {a}| > 0;
      var b :| b in consumers - {a};
      var schedule := CallbackCanOverlapNextAfterRaise(threads, a, b);
      assert CallbackBesideNext(Run(Init(threads), schedule));
    }
    forall schedule | Consumers(schedule) <= consumers && CallbackBesideNext(Run(Init(threads), schedule))
      ensures |consumers| > 1
    {
      OverlapNeedsRaiseAndSecondConsumer(threads, schedule);
      assert |consumers| == |Consumers(schedule)| + |consumers - Consumers(schedule)|;
    }
  }
}
