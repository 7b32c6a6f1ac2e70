/**
  Tool calls of one Run across crashes: permission, budget, durable "started", effect, durable
  "completed", and the recovery of calls whose outcome is unknown.

  A `World` is the durable checkpoint, the memory of the process that works on the Run (if one is
  alive), and counters of what really happened.  `Apply` performs one step; each step writes at most
  one checkpoint, so a crash may fall between any two checkpoints and around every effect.
*/
module ToolProtocol {
  import opened Options
  import opened ToolBudgets

  datatype Status = Planned | AwaitingApproval | Started | Completed | Failed | Skipped

  datatype Policy = SafeReadonly | SafeIdempotent | RequiresDecision

  predicate Safe(policy: Policy) {
    policy != RequiresDecision
  }

  // `unknown` marks a result that only says that the outcome is not known.
  datatype Result =
    Result(output: string, isError: bool, executed: bool, exhausted: Option<Reason>, unknown: bool)

  datatype Call = Call(status: Status, policy: Policy, result: Option<Result>)

  const Fresh := Call(Planned, RequiresDecision, None)

  // All calls the Run ever made, batch after batch; `first` is where the current batch begins.
  datatype Doc = Doc(calls: seq<Call>, first: nat, budget: Budget)

  datatype Phase =
    | Down                                      // no process, or one that has paused
    | Recovering(i: nat)                        // going through the calls left "started"
    | AtCall(i: nat)                            // between two calls of the batch
    | Requested(i: nat, policy: Policy)         // validated, permission not decided
    | Allowed(i: nat, policy: Policy)
    | Charged(i: nat, policy: Policy)           // one call unit consumed, in memory only
    | Running(i: nat, policy: Policy)           // "started" is durable
    | Ran(i: nat, policy: Policy, result: Result) // the effect happened, nothing is saved yet
    | Cancelling(i: nat)

  // What happened, in order, to the call with this number.
  datatype Event = Granted(i: nat) | Consumed(i: nat) | MarkedStarted(i: nat) | Effect(i: nat)

  // `effects`, `decided` and `automatic` count, per call, the runs of its tool, the explicit retry
  // decisions and the automatic retries; `everSafe` tells whether a checkpoint ever recorded the
  // call as safe to replay.
  datatype World = World(
    disk: Doc, mem: Doc, phase: Phase,
    effects: seq<nat>, decided: seq<nat>, automatic: seq<nat>, everSafe: seq<bool>, log: seq<Event>)

  datatype Action =
    | Crash
    | Resume
    | Recover(choice: Choice)                   // handle the next uncertain call
    | NextBatch(size: nat)
    | ExtendCalls(cap: nat) | ExtendChars(cap: nat)
    | SkipSaved                                 // the call already has a result
    | Refuse(output: string, isError: bool, maxOutputChars: int) // rejected before or by the permission check
    | Ask(policy: Policy)                       // validated, permissions known
    | Prompt                                    // approval checkpoint before asking
    | Allow
    | Charge
    | MarkStarted
    | RunTool(result: Result, maxOutputChars: int)
    | Complete
    | Cancel | CancelOne | Pause

  datatype Choice = Retry | Skip | Abort

  const CANCELLED := Result("[cancelled] 任务已强制取消，工具未执行", true, false, None, false)
  const RECOVERY_SKIPPED :=
    Result("[recovery_skipped] 用户选择不重放执行结果未知的工具调用", true, false, None, false)

  function BudgetError(reason: Reason): Result {
    Result("未执行工具：任务预算已耗尽", true, false, Some(reason), false)
  }

  function LimitResult(result: Result, limited: Limited): Result {
    result.(output := limited.output,
            exhausted := if limited.exhausted then Some(MaxTotalOutput) else result.exhausted)
  }

  function StatusOf(result: Result): Status {
    if !result.executed then Skipped else if result.isError then Failed else Completed
  }

  // ---------------------------------------------------------------------------------------------
  // Steps

  // What tool_completed does to a call.  An unknown outcome leaves it "started", without a result.
  function Finished(call: Call, result: Result, policy: Policy): Call {
    if result.unknown then call.(status := Started, policy := policy, result := None)
    else Call(StatusOf(result), policy, Some(result))
  }

  // Puts a call into memory and writes a checkpoint.
  function Checkpoint(w: World, i: nat, call: Call, phase: Phase): World
    requires i < |w.mem.calls|
  {
    var doc := w.mem.(calls := w.mem.calls[i := call]);
    w.(mem := doc, disk := doc, phase := phase)
  }

  function SetBudget(w: World, budget: Budget): World {
    w.(mem := w.mem.(budget := budget))
  }

  predicate Shaped(w: World) {
    && |w.mem.calls| == |w.disk.calls| == |w.effects| == |w.decided| == |w.automatic| == |w.everSafe|
    && w.disk.first <= |w.disk.calls| && w.mem.first == w.disk.first
    && (w.phase.Recovering? || w.phase.AtCall? || w.phase.Cancelling? ==> w.phase.i <= |w.mem.calls|)
    && (w.phase.Requested? || w.phase.Allowed? || w.phase.Charged? || w.phase.Running? || w.phase.Ran?
        ==> w.phase.i < |w.mem.calls|)
  }

  // The call a process is about to execute or cancel has neither started nor finished.
  predicate Open(call: Call) {
    call.status in {Planned, AwaitingApproval} && call.result == None
  }

  function Apply(w: World, action: Action): World
    requires Shaped(w)
  {
    match action
    case Crash => w.(mem := w.disk, phase := Down)
    case Pause => if w.phase.AtCall? then w.(disk := w.mem, phase := Down) else w
    case Resume =>
      if w.phase.Down? then w.(mem := w.disk, phase := Recovering(w.disk.first)) else w
    case Recover(choice) => if w.phase.Recovering? then RecoverCall(w, w.phase.i, choice) else w
    case NextBatch(size) =>
      if w.phase.AtCall? && w.phase.i == |w.mem.calls| then StartBatch(w, size) else w
    case ExtendCalls(cap) =>
      if w.phase.AtCall? && cap > w.mem.budget.maxCalls then
        var doc := w.mem.(budget := w.mem.budget.(maxCalls := cap));
        w.(mem := doc, disk := doc)
      else w
    case ExtendChars(cap) =>
      if w.phase.AtCall? && cap > w.mem.budget.maxTotalChars > 0 then
        var doc := w.mem.(budget := w.mem.budget.(maxTotalChars := cap));
        w.(mem := doc, disk := doc)
      else w
    case Cancel => if w.phase.AtCall? then w.(phase := Cancelling(w.phase.i)) else w
    case CancelOne => if w.phase.Cancelling? then CancelCall(w, w.phase.i) else w
    case _ => ExecuteStep(w, w.phase, action)
  }

  function RecoverCall(w: World, i: nat, choice: Choice): World
    requires Shaped(w) && i <= |w.mem.calls|
  {
    if i == |w.mem.calls| then w.(phase := AtCall(w.mem.first))
    else
      var call := w.mem.calls[i];
      if call.status != Started then w.(phase := Recovering(i + 1))
      else if Safe(call.policy) then
        Checkpoint(w, i, call.(status := Planned), Recovering(i + 1))
        .(automatic := w.automatic[i := w.automatic[i] + 1])
      else match choice
        case Retry =>
          Checkpoint(w, i, call.(status := Planned), Recovering(i + 1))
          .(decided := w.decided[i := w.decided[i] + 1])
        case Skip =>
          Checkpoint(w, i, call.(status := Skipped, result := Some(RECOVERY_SKIPPED)), Recovering(i + 1))
        case Abort => w.(mem := w.disk, phase := Down)
  }

  function StartBatch(w: World, size: nat): World {
    var doc := w.mem.(calls := w.mem.calls + seq(size, _ => Fresh), first := |w.mem.calls|);
    w.(mem := doc, disk := doc, phase := AtCall(|w.mem.calls|),
       effects := w.effects + seq(size, _ => 0),
       decided := w.decided + seq(size, _ => 0),
       automatic := w.automatic + seq(size, _ => 0),
       everSafe := w.everSafe + seq(size, _ => false))
  }

  // A call that already finished makes the coordinator raise, which ends the process.
  function CancelCall(w: World, i: nat): World
    requires Shaped(w) && i <= |w.mem.calls|
  {
    if i == |w.mem.calls| then w.(phase := AtCall(i))
    else if w.mem.calls[i].status in {Completed, Failed, Skipped} then w.(mem := w.disk, phase := Down)
    else Checkpoint(w, i, Finished(w.mem.calls[i], CANCELLED, RequiresDecision), Cancelling(i + 1))
  }

  function ExecuteStep(w: World, phase: Phase, action: Action): World
    requires Shaped(w) && phase == w.phase
  {
    match phase
    case AtCall(i) =>
      if i == |w.mem.calls| then w
      else if w.mem.calls[i].result.Some? then
        if action.SkipSaved? then w.(phase := AtCall(i + 1)) else w
      else if action.Refuse? then RefuseCall(w, i, action, RequiresDecision)
      else if action.Ask? then w.(phase := Requested(i, action.policy))
      else w
    case Requested(i, policy) =>
      if action.Prompt? then
        Checkpoint(w, i, w.mem.calls[i].(status := AwaitingApproval, policy := policy), phase)
        .(everSafe := w.everSafe[i := w.everSafe[i] || Safe(policy)])
      else if action.Allow? then w.(phase := Allowed(i, policy), log := w.log + [Granted(i)])
      else if action.Refuse? then RefuseCall(w, i, action, policy)
      else w
    case Allowed(i, policy) =>
      if !action.Charge? then w
      else
        var reason := ExhaustedReason(w.mem.budget);
        if reason.Some? then
          Checkpoint(w, i, Finished(w.mem.calls[i], BudgetError(reason.value), policy), AtCall(i + 1))
          .(everSafe := w.everSafe[i := w.everSafe[i] || Safe(policy)])
        else
          SetBudget(w, w.mem.budget.(usedCalls := w.mem.budget.usedCalls + 1))
          .(phase := Charged(i, policy), log := w.log + [Consumed(i)])
    case Charged(i, policy) =>
      if action.MarkStarted? then
        Checkpoint(w, i, w.mem.calls[i].(status := Started, policy := policy), Running(i, policy))
        .(everSafe := w.everSafe[i := w.everSafe[i] || Safe(policy)], log := w.log + [MarkedStarted(i)])
      else w
    case Running(i, policy) =>
      if action.RunTool? then
        var limited := LimitOutput(w.mem.budget, action.maxOutputChars, action.result.output);
        SetBudget(w, Consume(w.mem.budget, |limited.output|))
        .(phase := Ran(i, policy, LimitResult(action.result, limited)),
          effects := w.effects[i := w.effects[i] + 1],
          log := w.log + [Effect(i)])
      else w
    case Ran(i, policy, result) =>
      if !action.Complete? then w
      else if result.unknown then
        // The Run pauses until somebody decides.
        Checkpoint(w, i, Finished(w.mem.calls[i], result, policy), Down)
      else Checkpoint(w, i, Finished(w.mem.calls[i], result, policy), AtCall(i + 1))
    case _ => w
  }

  // The refusal itself is limited and charged like any other output.
  function RefuseCall(w: World, i: nat, refusal: Action, policy: Policy): World
    requires Shaped(w) && i < |w.mem.calls| && refusal.Refuse?
  {
    var limited := LimitOutput(w.mem.budget, refusal.maxOutputChars, refusal.output);
    var result := LimitResult(Result(refusal.output, refusal.isError, false, None, false), limited);
    Checkpoint(SetBudget(w, Consume(w.mem.budget, |limited.output|)), i,
               Finished(w.mem.calls[i], result, policy), AtCall(i + 1))
    .(everSafe := w.everSafe[i := w.everSafe[i] || Safe(policy)])
  }

  // ---------------------------------------------------------------------------------------------
  // The invariant

  predicate Resolved(call: Call) {
    call.status in {Completed, Failed, Skipped}
  }

  // How often the tool may still run without a further retry: the run in progress, or the one that
  // an open call stands for.
  function Potential(w: World, i: nat): nat
    requires i < |w.disk.calls|
  {
    if Open(w.disk.calls[i]) || (w.phase.Running? && w.phase.i == i) then 1 else 0
  }

  ghost predicate Balanced(w: World, i: nat)
    requires Shaped(w) && i < |w.disk.calls|
  {
    var call := w.disk.calls[i];
    && (call.result.Some? <==> Resolved(call))
    && (i < w.disk.first ==> Resolved(call))
    && w.effects[i] + Potential(w, i) <= 1 + w.decided[i] + w.automatic[i]
    && (call.status == Started && Safe(call.policy) ==> w.everSafe[i])
    && (w.automatic[i] > 0 ==> w.everSafe[i])
  }

  // The batch is worked off in order, and only the call that runs is "started", except behind and
  // before a recovery.
  predicate Ordered(phase: Phase, call: Call, i: nat) {
    match phase
    case Down => true
    case Recovering(k) => call.status == Started ==> k <= i
    case AtCall(k) => call.status != Started && (i < k ==> Resolved(call))
    case Cancelling(k) => call.status != Started && (i < k ==> Resolved(call))
    case Requested(k, _) => Waiting(k, call, i)
    case Allowed(k, _) => Waiting(k, call, i)
    case Charged(k, _) => Waiting(k, call, i)
    case Running(k, policy) => InProgress(k, policy, call, i)
    case Ran(k, policy, _) => InProgress(k, policy, call, i)
  }

  predicate Waiting(k: nat, call: Call, i: nat) {
    call.status != Started && (i < k ==> Resolved(call)) && (i == k ==> Open(call))
  }

  predicate InProgress(k: nat, policy: Policy, call: Call, i: nat) {
    && (call.status == Started <==> i == k)
    && (i == k ==> call.policy == policy)
    && (i < k ==> Resolved(call))
  }

  ghost predicate CallOk(w: World, i: nat)
    requires Shaped(w) && i < |w.disk.calls|
  {
    Balanced(w, i) && Ordered(w.phase, w.disk.calls[i], i)
  }

  function Sum(counts: seq<nat>): nat {
    if counts == [] then 0 else counts[0] + Sum(counts[1..])
  }

  ghost predicate BudgetOk(w: World) {
    WithinCaps(w.disk.budget) && WithinCaps(w.mem.budget) && UnitsKept(w)
  }

  // The last events are these.
  predicate EndsWith(log: seq<Event>, events: seq<Event>) {
    |events| <= |log| && log[|log| - |events|..] == events
  }

  // Every effect comes right after a permission, a consumed call unit and a durable "started", all
  // for the same call.
  ghost predicate Prepared(log: seq<Event>) {
    forall k :: 0 <= k < |log| ==> PreparedAt(log, k)
  }

  predicate PreparedAt(log: seq<Event>, k: nat)
    requires k < |log|
  {
    log[k].Effect? ==> EndsWith(log[..k], Preparation(log[k].i))
  }

  function Preparation(i: nat): seq<Event> {
    [Granted(i), Consumed(i), MarkedStarted(i)]
  }

  ghost predicate LogOk(w: World) {
    && Prepared(w.log)
    && EndsWith(w.log, Expected(w.phase))
  }

  // What the last events must be when a process is here.
  function Expected(phase: Phase): seq<Event> {
    match phase
    case Allowed(i, _) => [Granted(i)]
    case Charged(i, _) => [Granted(i), Consumed(i)]
    case Running(i, _) => Preparation(i)
    case _ => []
  }

  ghost predicate Inv(w: World) {
    && Shaped(w)
    && w.mem.calls == w.disk.calls
    && (forall i :: 0 <= i < |w.disk.calls| ==> CallOk(w, i))
    && BudgetOk(w)
    && LogOk(w)
  }

  lemma SumOfUpdate(counts: seq<nat>, i: nat)
    requires i < |counts|
    ensures Sum(counts[i := counts[i] + 1]) == Sum(counts) + 1
  {
    if i > 0 {
      assert counts[i := counts[i] + 1][1..] == counts[1..][i - 1 := counts[1..][i - 1] + 1];
      SumOfUpdate(counts[1..], i - 1);
    } else {
      assert counts[i := counts[i] + 1][1..] == counts[1..];
    }
  }

  lemma SumOfZeros(counts: seq<nat>, size: nat)
    ensures Sum(counts + seq(size, _ => 0)) == Sum(counts)
  {
    var zeros: seq<nat> := seq(size, _ => 0);
    if counts != [] {
      assert (counts + zeros)[1..] == counts[1..] + zeros;
      SumOfZeros(counts[1..], size);
    } else {
      assert counts + zeros == zeros;
      if size > 0 {
        assert zeros[1..] == [] + seq(size - 1, _ => 0);
        SumOfZeros([], size - 1);
      }
    }
  }

  lemma ExecutionKeepsShape(w: World, action: Action)
    requires Shaped(w) && w.mem.calls == w.disk.calls
    ensures var w' := ExecuteStep(w, w.phase, action); Shaped(w') && w'.mem.calls == w'.disk.calls
  {
  }

  lemma StepKeepsShape(w: World, action: Action)
    requires Shaped(w) && w.mem.calls == w.disk.calls
    ensures Shaped(Apply(w, action)) && Apply(w, action).mem.calls == Apply(w, action).disk.calls
  {
    if Executing(action) {
      ExecutionKeepsShape(w, action);
    }
  }

  lemma StepKeepsCaps(w: World, action: Action)
    requires Shaped(w) && WithinCaps(w.disk.budget) && WithinCaps(w.mem.budget)
    ensures WithinCaps(Apply(w, action).disk.budget) && WithinCaps(Apply(w, action).mem.budget)
  {
  }

  // Effects and charged units.
  ghost predicate UnitsOk(disk: Budget, mem: Budget, phase: Phase, effects: seq<nat>) {
    && mem.usedCalls == disk.usedCalls + (if phase.Charged? then 1 else 0)
    && (mem == disk || phase.Charged? || phase.Ran?)
    && Sum(effects) + (if phase.Running? then 1 else 0) <= disk.usedCalls
  }

  ghost predicate UnitsKept(w: World) {
    UnitsOk(w.disk.budget, w.mem.budget, w.phase, w.effects)
  }

  lemma ExecutionKeepsUnits(w: World, action: Action)
    requires Shaped(w) && UnitsKept(w)
    ensures UnitsKept(ExecuteStep(w, w.phase, action))
  {
    if w.phase.Running? {
      SumOfUpdate(w.effects, w.phase.i);
    }
  }

  lemma StepKeepsUnits(w: World, action: Action)
    requires Shaped(w) && UnitsKept(w)
    ensures UnitsKept(Apply(w, action))
  {
    if Executing(action) {
      ExecutionKeepsUnits(w, action);
    } else if action.NextBatch? {
      SumOfZeros(w.effects, action.size);
    }
  }

  lemma StepKeepsBudget(w: World, action: Action)
    requires Inv(w)
    ensures BudgetOk(Apply(w, action))
  {
    StepKeepsCaps(w, action);
    StepKeepsUnits(w, action);
  }

  lemma EndsWithMore(log: seq<Event>, events: seq<Event>, event: Event)
    requires EndsWith(log, events)
    ensures EndsWith(log + [event], events + [event])
  {
    assert (log + [event])[|log| - |events|..] == log[|log| - |events|..] + [event];
  }

  ghost predicate LogStep(w: World, w': World, event: Event) {
    && w'.log == w.log + [event]
    && (Expected(w'.phase) == [] || Expected(w'.phase) == Expected(w.phase) + [event])
    && (event.Effect? ==> Expected(w.phase) == Preparation(event.i))
  }

  // Where the log grows, and by what.
  lemma LogGrows(w: World, action: Action)
    requires Inv(w)
    ensures var w' := Apply(w, action);
      || (w'.log == w.log && Expected(w'.phase) in {[], Expected(w.phase)})
      || (exists event :: LogStep(w, w', event))
  {
    var w' := Apply(w, action);
    if w'.log != w.log {
      assert LogStep(w, w', if w.phase.Requested? then Granted(w.phase.i)
                            else if w.phase.Allowed? then Consumed(w.phase.i)
                            else if w.phase.Charged? then MarkedStarted(w.phase.i)
                            else Effect(w.phase.i));
    }
  }

  lemma StepKeepsLog(w: World, action: Action)
    requires Inv(w)
    ensures LogOk(Apply(w, action))
  {
    LogGrows(w, action);
    LogStaysOk(w, Apply(w, action));
  }

  lemma LogStaysOk(w: World, w': World)
    requires LogOk(w)
    requires
      || (w'.log == w.log && Expected(w'.phase) in {[], Expected(w.phase)})
      || (exists event :: LogStep(w, w', event))
    ensures LogOk(w')
  {
    if event :| LogStep(w, w', event) {
      EndsWithMore(w.log, Expected(w.phase), event);
      PreparedMore(w.log, event);
    }
  }

  lemma PreparedMore(log: seq<Event>, event: Event)
    requires Prepared(log)
    requires event.Effect? ==> EndsWith(log, Preparation(event.i))
    ensures Prepared(log + [event])
  {
    var log' := log + [event];
    forall k | 0 <= k < |log'| ensures PreparedAt(log', k) {
      if k < |log| {
        assert PreparedAt(log, k) && log'[..k] == log[..k] && log'[k] == log[k];
      } else {
        assert log'[..k] == log;
      }
    }
  }

  predicate Executing(action: Action) {
    match action
    case Crash => false
    case Resume => false
    case Recover(_) => false
    case NextBatch(_) => false
    case ExtendCalls(_) => false
    case ExtendChars(_) => false
    case Cancel => false
    case CancelOne => false
    case Pause => false
    case _ => true
  }

  lemma RecoveryKeepsCall(w: World, choice: Choice, i: nat)
    requires Inv(w) && i < |w.disk.calls|
    ensures Shaped(Apply(w, Recover(choice))) && CallOk(Apply(w, Recover(choice)), i)
  {
    hide LogOk, BudgetOk;
    StepKeepsShape(w, Recover(choice));
    assert CallOk(w, i);
  }

  lemma NextBatchKeepsCall(w: World, size: nat, i: nat)
    requires Inv(w) && i < |Apply(w, NextBatch(size)).disk.calls|
    ensures Shaped(Apply(w, NextBatch(size))) && CallOk(Apply(w, NextBatch(size)), i)
  {
    StepKeepsShape(w, NextBatch(size));
    if i < |w.disk.calls| {
      assert CallOk(w, i);
    }
  }

  lemma CancellingKeepsCall(w: World, i: nat)
    requires Inv(w) && i < |w.disk.calls|
    ensures Shaped(Apply(w, CancelOne)) && CallOk(Apply(w, CancelOne), i)
  {
    StepKeepsShape(w, CancelOne);
    assert CallOk(w, i);
    if w.phase.Cancelling? && w.phase.i < |w.disk.calls| {
      assert CallOk(w, w.phase.i);
    }
  }

  lemma ExecutionKeepsOrder(w: World, action: Action, i: nat)
    requires Inv(w) && i < |w.disk.calls| && Executing(action)
    ensures Shaped(Apply(w, action)) && i < |Apply(w, action).disk.calls|
    ensures Ordered(Apply(w, action).phase, Apply(w, action).disk.calls[i], i)
  {
    hide LogOk, BudgetOk;
    StepKeepsShape(w, action);
    assert CallOk(w, i);
    if w.phase.AtCall? && w.phase.i < |w.disk.calls| {
      assert CallOk(w, w.phase.i);
    }
  }

  lemma ExecutionKeepsBalance(w: World, action: Action, i: nat)
    requires Inv(w) && i < |w.disk.calls| && Executing(action)
    ensures Shaped(Apply(w, action)) && i < |Apply(w, action).disk.calls|
    ensures Balanced(Apply(w, action), i)
  {
    hide LogOk, BudgetOk, LimitOutput, TruncateOutput, ExhaustedReason, Consume, LimitResult;
    StepKeepsShape(w, action);
    assert CallOk(w, i);
  }

  lemma PassiveStepKeepsCall(w: World, action: Action, i: nat)
    requires Inv(w) && i < |w.disk.calls|
    requires !Executing(action) && !action.Recover? && !action.NextBatch? && !action.CancelOne?
    ensures Shaped(Apply(w, action)) && i < |Apply(w, action).disk.calls| && CallOk(Apply(w, action), i)
  {
    assert CallOk(w, i);
  }

  lemma CallCount(w: World, action: Action)
    requires Inv(w)
    ensures action.NextBatch? || |Apply(w, action).disk.calls| == |w.disk.calls|
  {
  }

  lemma StepKeepsCall(w: World, action: Action, i: nat)
    requires Inv(w) && i < |Apply(w, action).disk.calls|
    ensures Shaped(Apply(w, action)) && CallOk(Apply(w, action), i)
  {
    CallCount(w, action);
    if action.Recover? {
      RecoveryKeepsCall(w, action.choice, i);
    } else if action.NextBatch? {
      NextBatchKeepsCall(w, action.size, i);
    } else if action.CancelOne? {
      CancellingKeepsCall(w, i);
    } else if Executing(action) {
      ExecutionKeepsOrder(w, action, i);
      ExecutionKeepsBalance(w, action, i);
    } else {
      PassiveStepKeepsCall(w, action, i);
    }
  }

  lemma StepKeepsInv(w: World, action: Action)
    requires Inv(w)
    ensures Inv(Apply(w, action))
  {
    StepKeepsShape(w, action);
    StepKeepsBudget(w, action);
    StepKeepsLog(w, action);
    forall i | 0 <= i < |Apply(w, action).disk.calls| ensures CallOk(Apply(w, action), i) {
      StepKeepsCall(w, action, i);
    }
  }

  // ---------------------------------------------------------------------------------------------
  // What holds over all runs

  function Initial(budget: Budget): World {
    World(Doc([], 0, budget), Doc([], 0, budget), AtCall(0), [], [], [], [], [])
  }

  ghost function Exec(w: World, actions: seq<Action>): (w': World)
    requires Inv(w)
    ensures Inv(w')
    decreases |actions|
  {
    if actions == [] then w
    else
      StepKeepsInv(w, actions[0]);
      Exec(Apply(w, actions[0]), actions[1..])
  }

  lemma InitialInv(budget: Budget)
    requires WithinCaps(budget)
    ensures Inv(Initial(budget))
  {
  }

  // A Run that has made no call yet.
  ghost function NewRun(budget: Budget): (w: World)
    requires WithinCaps(budget)
    ensures Inv(w)
  {
    InitialInv(budget);
    Initial(budget)
  }

  // What these actions lead to from there.
  ghost function Reached(budget: Budget, actions: seq<Action>): (w: World)
    requires WithinCaps(budget)
    ensures Inv(w)
  {
    Exec(NewRun(budget), actions)
  }

  // What can happen to a call, told from the actions alone.
  datatype Happening = ToolRuns | RetryDecided | ReplayedAsSafe

  // A recovery has come to this call and finds it "started".
  predicate AsksAbout(w: World, i: nat) {
    w.phase == Recovering(i) && i < |w.mem.calls| && w.mem.calls[i].status == Started
  }

  predicate Happens(what: Happening, w: World, action: Action, i: nat) {
    match what
    case ToolRuns => w.phase.Running? && w.phase.i == i && action.RunTool?
    case RetryDecided => AsksAbout(w, i) && w.mem.calls[i].policy == RequiresDecision && action == Recover(Retry)
    case ReplayedAsSafe => AsksAbout(w, i) && w.mem.calls[i].policy != RequiresDecision && action.Recover?
  }

  // How often it happens to the call during these actions.
  ghost function Times(what: Happening, w: World, actions: seq<Action>, i: nat): nat
    requires Inv(w)
    decreases |actions|
  {
    if actions == [] then 0
    else
      StepKeepsInv(w, actions[0]);
      (if Happens(what, w, actions[0], i) then 1 else 0) + Times(what, Apply(w, actions[0]), actions[1..], i)
  }

  function CountAt(counts: seq<nat>, i: nat): nat {
    if i < |counts| then counts[i] else 0
  }

  lemma CountersStep(w: World, action: Action, i: nat)
    requires Shaped(w) && w.mem.calls == w.disk.calls
    ensures var w' := Apply(w, action);
      && CountAt(w'.effects, i) == CountAt(w.effects, i) + (if Happens(ToolRuns, w, action, i) then 1 else 0)
      && CountAt(w'.decided, i) == CountAt(w.decided, i) + (if Happens(RetryDecided, w, action, i) then 1 else 0)
      && CountAt(w'.automatic, i)
         == CountAt(w.automatic, i) + (if Happens(ReplayedAsSafe, w, action, i) then 1 else 0)
  {
    hide LimitOutput, LimitResult, ExhaustedReason, Consume;
  }

  lemma {:induction false} CountersAreTimes(w: World, actions: seq<Action>, i: nat)
    requires Inv(w)
    ensures var w' := Exec(w, actions);
      && CountAt(w'.effects, i) == CountAt(w.effects, i) + Times(ToolRuns, w, actions, i)
      && CountAt(w'.decided, i) == CountAt(w.decided, i) + Times(RetryDecided, w, actions, i)
      && CountAt(w'.automatic, i) == CountAt(w.automatic, i) + Times(ReplayedAsSafe, w, actions, i)
    decreases |actions|
  {
    hide Inv, Apply, Happens, CountAt;
    if actions != [] {
      CallsAgree(w);
      CountersStep(w, actions[0], i);
      StepKeepsInv(w, actions[0]);
      CountersAreTimes(Apply(w, actions[0]), actions[1..], i);
    }
  }

  lemma CallsAgree(w: World)
    requires Inv(w)
    ensures Shaped(w) && w.mem.calls == w.disk.calls
  {
  }

  // What happens at all happens at some action.
  lemma {:induction false} HappensSomewhere(what: Happening, w: World, actions: seq<Action>, i: nat) returns (k: nat)
    requires Inv(w) && Times(what, w, actions, i) > 0
    ensures k < |actions| && Happens(what, Exec(w, actions[..k]), actions[k], i)
    decreases |actions|
  {
    hide Inv, Apply, Happens;
    CallsAgree(w);
    if Happens(what, w, actions[0], i) {
      k := 0;
      assert Exec(w, []) == w && actions[..0] == [];
    } else {
      StepKeepsInv(w, actions[0]);
      k := HappensSomewhere(what, Apply(w, actions[0]), actions[1..], i);
      k := k + 1;
      assert actions[..k][0] == actions[0] && actions[..k][1..] == actions[1..][..k - 1];
    }
  }

  /** Whatever crashes, resumes and decisions happen: the tool runs for a call at most once, plus once for
      every time a recovery asked about the call and was told to retry, plus once for every time a
      recovery found the call recorded as safe to replay. */
  lemma EffectsAtMostOnce(budget: Budget, actions: seq<Action>, i: nat)
    requires WithinCaps(budget)
    ensures var w := NewRun(budget);
      Times(ToolRuns, w, actions, i) <= 1 + Times(RetryDecided, w, actions, i) + Times(ReplayedAsSafe, w, actions, i)
    ensures var w := NewRun(budget);
      (forall k :: 0 <= k < |actions| ==> !RecordedSafe(Exec(w, actions[..k]), i)) ==>
        Times(ToolRuns, w, actions, i) <= 1 + Times(RetryDecided, w, actions, i)
  {
    hide Inv, Apply, Happens, Exec, Times, RecordedSafe;
    var w := NewRun(budget);
    CountersAreTimes(w, actions, i);
    EffectsBalance(Exec(w, actions), i);
    if Times(ReplayedAsSafe, w, actions, i) > 0 {
      var k := ReplayNeedsRecord(w, actions, i);
    }
  }

  lemma EffectsBalance(w: World, i: nat)
    requires Inv(w)
    ensures CountAt(w.effects, i) <= 1 + CountAt(w.decided, i) + CountAt(w.automatic, i)
  {
    if i < |w.effects| {
      assert CallOk(w, i);
    }
  }

  lemma ReplayNeedsRecord(w: World, actions: seq<Action>, i: nat) returns (k: nat)
    requires Inv(w) && Times(ReplayedAsSafe, w, actions, i) > 0
    ensures k < |actions| && RecordedSafe(Exec(w, actions[..k]), i)
  {
    hide Inv, Apply, Exec, Times;
    k := HappensSomewhere(ReplayedAsSafe, w, actions, i);
    CallsAgree(Exec(w, actions[..k]));
  }

  // The checkpoint says that the call may be replayed without asking.
  predicate RecordedSafe(w: World, i: nat) {
    i < |w.disk.calls| && w.disk.calls[i].policy != RequiresDecision
  }

  /** What a recovery does with a call that needs a decision: a retry plans it again, a skip gives it the
      result that says so, and an abort leaves the document as it was; the tool does not run, and no
      other call changes. */
  lemma RecoveryDoesAsAsked(w: World, i: nat, choice: Choice)
    requires Inv(w) && AsksAbout(w, i) && w.mem.calls[i].policy == RequiresDecision
    ensures var w' := Apply(w, Recover(choice));
      && w'.effects == w.effects && |w'.disk.calls| == |w.disk.calls| && w'.disk.budget == w.disk.budget
      && (forall j :: 0 <= j < |w.disk.calls| && j != i ==> w'.disk.calls[j] == w.disk.calls[j])
      && match choice
         case Retry => w'.disk.calls[i] == Call(Planned, RequiresDecision, None) && w'.phase == Recovering(i + 1)
         case Skip =>
           && w'.disk.calls[i].status == Skipped && w'.disk.calls[i].result == Some(RECOVERY_SKIPPED)
           && w'.phase == Recovering(i + 1)
         case Abort => w'.disk == w.disk && w'.phase == Down
  {
    assert CallOk(w, i);
  }

  /** A call recorded as safe is planned again, whatever somebody would have chosen. */
  lemma SafeCallIsReplayed(w: World, i: nat, choice: Choice)
    requires Inv(w) && AsksAbout(w, i) && w.mem.calls[i].policy != RequiresDecision
    ensures var w' := Apply(w, Recover(choice));
      && w'.effects == w.effects && w'.phase == Recovering(i + 1)
      && w'.disk.calls == w.disk.calls[i := w.disk.calls[i].(status := Planned)] && w'.disk.calls[i].result == None
  {
    assert CallOk(w, i);
  }

  /** A recovery begins with the first call of the batch, leaves every call alone that is not "started", and
      hands over to the batch behind the last one. */
  lemma RecoveryPassesOthers(w: World, choice: Choice)
    requires Inv(w)
    ensures w.phase.Down? ==> Apply(w, Resume) == w.(mem := w.disk, phase := Recovering(w.disk.first))
    ensures w.phase.Recovering? && !AsksAbout(w, w.phase.i) ==>
              Apply(w, Recover(choice))
              == w.(phase := if w.phase.i < |w.disk.calls| then Recovering(w.phase.i + 1) else AtCall(w.disk.first))
  {
  }

  // A result that says that the tool ran is true.
  ghost predicate TrueReports(w: World) {
    && Shaped(w)
    && (forall i :: 0 <= i < |w.disk.calls| && w.disk.calls[i].result.Some? && w.disk.calls[i].result.value.executed ==>
          w.effects[i] > 0)
    && (w.phase.Ran? ==> w.effects[w.phase.i] > 0)
  }

  lemma StepKeepsReports(w: World, action: Action)
    requires Shaped(w) && w.mem.calls == w.disk.calls && TrueReports(w) && Shaped(Apply(w, action))
    ensures TrueReports(Apply(w, action))
  {
    hide LimitOutput, ExhaustedReason, Consume;
  }

  lemma {:induction false} RunKeepsReports(w: World, actions: seq<Action>)
    requires Inv(w) && TrueReports(w)
    ensures TrueReports(Exec(w, actions))
    decreases |actions|
  {
    hide Inv, Apply, TrueReports;
    if actions != [] {
      CallsAgree(w);
      StepKeepsInv(w, actions[0]);
      CallsAgree(Apply(w, actions[0]));
      StepKeepsReports(w, actions[0]);
      RunKeepsReports(Apply(w, actions[0]), actions[1..]);
    }
  }

  /** A saved result that says that the tool ran is only there if it did. */
  lemma ReportedMeansRan(budget: Budget, actions: seq<Action>, i: nat)
    requires WithinCaps(budget)
    ensures var calls := Reached(budget, actions).disk.calls;
      i < |calls| && calls[i].result.Some? && calls[i].result.value.executed ==>
        Times(ToolRuns, NewRun(budget), actions, i) > 0
  {
    hide Inv, Apply, Times, Exec;
    RunKeepsReports(NewRun(budget), actions);
    CountersAreTimes(NewRun(budget), actions, i);
  }

  /** A call that was skipped keeps that result and never runs again. */
  lemma SkippedForGood(w: World, i: nat, actions: seq<Action>)
    requires Inv(w) && AsksAbout(w, i) && w.mem.calls[i].policy == RequiresDecision
    ensures Inv(Apply(w, Recover(Skip)))
    ensures var w' := Apply(w, Recover(Skip)); var later := Exec(w', actions);
      && Times(ToolRuns, w', actions, i) == 0
      && i < |later.disk.calls| && later.disk.calls[i].result == Some(RECOVERY_SKIPPED)
  {
    hide Apply;
    StepKeepsInv(w, Recover(Skip));
    RecoveryDoesAsAsked(w, i, Skip);
    var w' := Apply(w, Recover(Skip));
    SavedResultIsFinal(w', actions, i);
    CountersAreTimes(w', actions, i);
  }

  /** No more tools run than call units were consumed, and no cap is ever exceeded. */
  lemma EffectsWithinBudget(budget: Budget, actions: seq<Action>)
    requires WithinCaps(budget)
    ensures var w := Reached(budget, actions);
      Sum(w.effects) <= w.mem.budget.usedCalls <= w.mem.budget.maxCalls && WithinCaps(w.mem.budget)
  {
    assert Inv(Reached(budget, actions));
  }

  /** Every effect comes right after the permission, the consumed unit and the durable "started". */
  lemma EffectsArePrepared(budget: Budget, actions: seq<Action>, k: nat)
    requires WithinCaps(budget)
    ensures var log := Reached(budget, actions).log;
      k < |log| && log[k].Effect? ==> k >= 3 && log[k - 3..k] == Preparation(log[k].i)
  {
    var log := Reached(budget, actions).log;
    if k < |log| && log[k].Effect? {
      assert PreparedAt(log, k);
      assert log[..k][k - 3..] == log[k - 3..k];
    }
  }

  lemma SavedStep(w: World, action: Action, i: nat)
    requires Inv(w) && i < |w.disk.calls| && w.disk.calls[i].result.Some?
    ensures Inv(Apply(w, action)) && i < |Apply(w, action).disk.calls|
    ensures Apply(w, action).disk.calls[i] == w.disk.calls[i]
    ensures Apply(w, action).effects[i] == w.effects[i] && Apply(w, action).decided[i] == w.decided[i]
  {
    StepKeepsInv(w, action);
    assert CallOk(w, i);
    if Executing(action) {
      SavedExecuteStep(w, action, i);
    }
  }

  lemma SavedExecuteStep(w: World, action: Action, i: nat)
    requires Inv(w) && i < |w.disk.calls| && w.disk.calls[i].result.Some?
    ensures var w' := ExecuteStep(w, w.phase, action);
      && |w'.disk.calls| == |w.disk.calls| && w'.disk.calls[i] == w.disk.calls[i]
      && |w'.effects| == |w.effects| && w'.effects[i] == w.effects[i]
      && |w'.decided| == |w.decided| && w'.decided[i] == w.decided[i]
  {
    assert CallOk(w, i);
  }

  /** A saved result is final: its call never runs again and the result never changes. */
  lemma {:induction false} SavedResultIsFinal(w: World, actions: seq<Action>, i: nat)
    requires Inv(w) && i < |w.disk.calls| && w.disk.calls[i].result.Some?
    ensures i < |Exec(w, actions).disk.calls|
    ensures Exec(w, actions).disk.calls[i] == w.disk.calls[i]
    ensures Exec(w, actions).effects[i] == w.effects[i]
    decreases |actions|
  {
    if actions != [] {
      SavedStep(w, actions[0], i);
      SavedResultIsFinal(Apply(w, actions[0]), actions[1..], i);
    }
  }

  // The outcome of the call is unknown and nobody works on it, or it is settled.
  ghost predicate Frozen(w: World, i: nat)
    requires Shaped(w)
  {
    && i < |w.disk.calls|
    && var call := w.disk.calls[i];
       Resolved(call) || (call.status == Started && !Safe(call.policy) && !Working(w.phase, i))
  }

  predicate Working(phase: Phase, i: nat) {
    (phase.Running? || phase.Ran?) && phase.i == i
  }

  lemma FrozenStep(w: World, action: Action, i: nat)
    requires Inv(w) && Frozen(w, i)
    ensures Inv(Apply(w, action)) && i < |Apply(w, action).disk.calls|
    ensures var w' := Apply(w, action);
      || (Frozen(w', i) && w'.effects[i] == w.effects[i] && w'.decided[i] == w.decided[i])
      || (w'.effects[i] == w.effects[i] && w'.decided[i] > w.decided[i])
  {
    hide Apply, BudgetOk, LogOk;
    StepKeepsInv(w, action);
    assert CallOk(w, i);
    if w.disk.calls[i].result.Some? {
      SavedStep(w, action, i);
    } else {
      assert w.phase.Down? || w.phase.Recovering?;
      FrozenIdleStep(w, action, i);
    }
  }

  lemma FrozenIdleStep(w: World, action: Action, i: nat)
    requires Shaped(w) && Frozen(w, i) && w.mem.calls == w.disk.calls
    requires !Resolved(w.disk.calls[i]) && (w.phase.Down? || w.phase.Recovering?)
    ensures Shaped(Apply(w, action)) && i < |Apply(w, action).disk.calls|
    ensures var w' := Apply(w, action);
      w'.effects[i] == w.effects[i]
      && (w'.decided[i] > w.decided[i] || (Frozen(w', i) && w'.decided[i] == w.decided[i]))
  {
  }

  lemma {:induction false} DecisionsOnlyGrow(w: World, actions: seq<Action>, i: nat)
    requires Inv(w) && i < |w.decided|
    ensures i < |Exec(w, actions).decided| && w.decided[i] <= Exec(w, actions).decided[i]
    decreases |actions|
  {
    if actions != [] {
      StepKeepsInv(w, actions[0]);
      DecisionsStep(w, actions[0], i);
      DecisionsOnlyGrow(Apply(w, actions[0]), actions[1..], i);
    }
  }

  lemma DecisionsStep(w: World, action: Action, i: nat)
    requires Shaped(w) && i < |w.decided|
    ensures i < |Apply(w, action).decided| && w.decided[i] <= Apply(w, action).decided[i]
  {
  }

  lemma {:induction false} FrozenNeedsDecision(w: World, actions: seq<Action>, i: nat)
    requires Inv(w) && Frozen(w, i)
    ensures i < |Exec(w, actions).effects|
    ensures Exec(w, actions).effects[i] != w.effects[i] ==> Exec(w, actions).decided[i] > w.decided[i]
    decreases |actions|
  {
    if actions != [] {
      FrozenStep(w, actions[0], i);
      var w' := Apply(w, actions[0]);
      if Frozen(w', i) {
        FrozenNeedsDecision(w', actions[1..], i);
      }
      DecisionsOnlyGrow(w', actions[1..], i);
    }
  }

  /** A call that needs a decision and whose outcome is unknown is not replayed silently: if its tool ever
      runs again, a recovery has asked about it in between and was told to retry. */
  lemma UnknownOutcomeNeedsDecision(w: World, actions: seq<Action>, i: nat)
    requires Inv(w) && Frozen(w, i)
    ensures Times(ToolRuns, w, actions, i) > 0 ==>
              exists k :: 0 <= k < |actions| && Happens(RetryDecided, Exec(w, actions[..k]), actions[k], i)
  {
    FrozenNeedsDecision(w, actions, i);
    CountersAreTimes(w, actions, i);
    if Times(ToolRuns, w, actions, i) > 0 {
      var k := HappensSomewhere(RetryDecided, w, actions, i);
    }
  }

  /** A crash anywhere leaves a call that may have had its effect visible as such: it is "started"
      and will be asked about, or its result is saved. */
  lemma EffectIsRemembered(w: World, i: nat)
    requires Inv(w) && i < |w.effects| && w.effects[i] > w.decided[i] + w.automatic[i]
    ensures Apply(w, Crash).disk.calls[i].status == Started || Apply(w, Crash).disk.calls[i].result.Some?
  {
    assert CallOk(w, i);
  }

  /** At the end of a batch every call is settled, so closing the batch is never refused. */
  lemma BatchEndsSettled(w: World, i: nat)
    requires Inv(w) && w.phase == AtCall(|w.disk.calls|) && i < |w.disk.calls|
    ensures Resolved(w.disk.calls[i]) && w.disk.calls[i].result.Some?
  {
    assert CallOk(w, i);
  }

  // ---------------------------------------------------------------------------------------------
  // Cancelling what is already done

  lemma {:induction false} ExecOfAppend(w: World, actions: seq<Action>, action: Action)
    requires Inv(w)
    ensures Exec(w, actions + [action]) == Apply(Exec(w, actions), action)
    decreases |actions|
  {
    hide Inv, Apply;
    InvIsShaped(w);
    var longer := actions + [action];
    if actions == [] {
      StepKeepsInv(w, action);
      assert longer[1..] == [];
    } else {
      StepKeepsInv(w, actions[0]);
      ExecOfAppend(Apply(w, actions[0]), actions[1..], action);
      assert longer[1..] == actions[1..] + [action];
    }
  }

  lemma AllCallsOk(w: World)
    requires Inv(w)
    ensures Shaped(w) && w.mem.calls == w.disk.calls
    ensures forall i :: 0 <= i < |w.disk.calls| ==> CallOk(w, i)
  {
  }

  lemma InvIsShaped(w: World)
    requires Inv(w)
    ensures Shaped(w)
  {
  }

  lemma OneStepFurther(budget: Budget, actions: seq<Action>, action: Action, w': World)
    requires WithinCaps(budget) && w' == Apply(Reached(budget, actions), action)
    ensures Reached(budget, actions + [action]) == w'
  {
    InitialInv(budget);
    ExecOfAppend(Initial(budget), actions, action);
  }

  // A batch of one call, which is refused; then a crash, and the Run is resumed.
  lemma RefusedThenResumed(budget: Budget) returns (actions: seq<Action>)
    requires WithinCaps(budget)
    ensures var w := Reached(budget, actions);
      w.phase == AtCall(0) && |w.disk.calls| == 1 && w.disk.calls[0].result.Some?
  {
    hide Inv, LimitOutput;
    InitialInv(budget);
    var w := Initial(budget);
    actions := [];
    var w' := Apply(w, NextBatch(1));
    OneStepFurther(budget, actions, NextBatch(1), w');
    actions, w := actions + [NextBatch(1)], w';
    w' := Apply(w, Refuse("", true, 0));
    OneStepFurther(budget, actions, Refuse("", true, 0), w');
    actions, w := actions + [Refuse("", true, 0)], w';
    assert w.phase == AtCall(1) && Resolved(w.disk.calls[0]) && w.disk.first == 0;
    w' := Apply(w, Crash);
    OneStepFurther(budget, actions, Crash, w');
    actions, w := actions + [Crash], w';
    w' := Apply(w, Resume);
    OneStepFurther(budget, actions, Resume, w');
    actions, w := actions + [Resume], w';
    w' := Apply(w, Recover(Skip));
    OneStepFurther(budget, actions, Recover(Skip), w');
    actions, w := actions + [Recover(Skip)], w';
    w' := Apply(w, Recover(Skip));
    OneStepFurther(budget, actions, Recover(Skip), w');
    actions := actions + [Recover(Skip)];
  }

  /** A resumed batch can begin with a call that has its result; cancelling it then ends the process
      instead, and leaves everything as it is. */
  lemma CancellingCanRaise(budget: Budget) returns (actions: seq<Action>)
    requires WithinCaps(budget)
    ensures var w := Reached(budget, actions);
      && w.phase == Cancelling(0) && |w.disk.calls| == 1
      && Apply(w, CancelOne).phase == Down && Apply(w, CancelOne).disk == w.disk
  {
    hide Inv;
    actions := RefusedThenResumed(budget);
    var w := Reached(budget, actions);
    InvIsShaped(w);
    AllCallsOk(w);
    assert CallOk(w, 0);
    OneStepFurther(budget, actions, Cancel, w.(phase := Cancelling(0)));
    actions := actions + [Cancel];
  }
}
