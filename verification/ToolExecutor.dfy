/** One tool call and one batch of tool calls, driven over the steps of `ToolProtocol`. */
module ToolExecutor {
  import opened Options
  import opened ToolBudgets
  import opened ToolProtocol

  // An answer without running the tool.
  datatype Rejection = Rejection(output: string, isError: bool)

  // What the outside decides about one call: whether it is rejected beforehand, whether the
  // permission check prompts and permits, and what the tool answers.
  datatype Script = Script(
    rejection: Option<Rejection>, policy: Policy, prompted: bool, permitted: bool, denial: Rejection,
    outcome: Result, maxOutputChars: int)

  datatype Control = Running | PauseRequested | CancelRequested

  // The control state before and after one call, and the cap granted if the budget is exhausted.  Behind
  // a call that is skipped the control state is not read.
  datatype Turn = Turn(script: Script, before: Control, grant: nat, after: Control)

  datatype Message = Message(call: nat, output: string)

  datatype Ending = Finished | Paused | Cancelled | Uncertain(call: nat) | Raised

  // Whether the tool is reached.
  predicate Runs(budget: Budget, script: Script) {
    script.rejection == None && script.permitted && ExhaustedReason(budget) == None
  }

  predicate RefusedByBudget(budget: Budget, script: Script) {
    script.rejection == None && script.permitted && ExhaustedReason(budget) != None
  }

  function Denial(rejection: Rejection): Result {
    Result(rejection.output, rejection.isError, false, None, false)
  }

  // The result before its output is limited.
  function Unlimited(budget: Budget, script: Script): Result {
    if script.rejection.Some? then Denial(script.rejection.value)
    else if !script.permitted then Denial(script.denial)
    else if ExhaustedReason(budget).Some? then BudgetError(ExhaustedReason(budget).value)
    else script.outcome
  }

  function Outcome(budget: Budget, script: Script): Result {
    var result := Unlimited(budget, script);
    if RefusedByBudget(budget, script) then result
    else LimitResult(result, LimitOutput(budget, script.maxOutputChars, result.output))
  }

  lemma OutcomeOfRun(budget: Budget, charged: Budget, script: Script)
    requires Runs(budget, script) && charged == budget.(usedCalls := charged.usedCalls)
    ensures Outcome(budget, script)
            == LimitResult(script.outcome, LimitOutput(charged, script.maxOutputChars, script.outcome.output))
  {
  }

  // A unit is left, and characters are if they are capped.
  predicate Affordable(budget: Budget) {
    budget.usedCalls < budget.maxCalls && (budget.maxTotalChars == 0 || budget.usedChars < budget.maxTotalChars)
  }

  /** The tool runs exactly if the call is not rejected, permitted and affordable.  Every other answer says
      that it did not run; a rejection comes before a denial, and a denial before the budget.  All answers
      but the refusal of the budget, which is free, are cut to what both output limits leave, and charged. */
  lemma OutcomeExactly(budget: Budget, script: Script)
    ensures Runs(budget, script) <==> script.rejection == None && script.permitted && Affordable(budget)
    ensures var r, spent := Outcome(budget, script), Spent(budget, script);
      var free := script.rejection == None && script.permitted && !Affordable(budget);
      var whole := if script.rejection.Some? then script.rejection.value.output
                   else if !script.permitted then script.denial.output else script.outcome.output;
      && spent == budget.(usedCalls := spent.usedCalls, usedChars := spent.usedChars)
      && spent.usedCalls == budget.usedCalls + (if Runs(budget, script) then 1 else 0)
      && spent.usedChars == budget.usedChars + (if free then 0 else |r.output|)
      && (if free then
            !r.executed && r.isError && !r.unknown
            && r.exhausted == Some(if budget.usedCalls < budget.maxCalls then MaxTotalOutput else MaxToolCalls)
          else
            var limited := LimitOutput(budget, script.maxOutputChars, whole);
            r.output == limited.output
            && r.exhausted == if limited.exhausted then Some(MaxTotalOutput)
                              else if Runs(budget, script) then script.outcome.exhausted else None)
      && (!Runs(budget, script) ==> !r.executed && !r.unknown)
      && (Runs(budget, script) ==>
            r.executed == script.outcome.executed && r.isError == script.outcome.isError
            && r.unknown == script.outcome.unknown)
  {
    hide LimitOutput;
  }

  // The budget after one call: a unit if the tool ran, and every character that came back.
  function Spent(budget: Budget, script: Script): Budget {
    budget.(usedCalls := budget.usedCalls + if Runs(budget, script) then 1 else 0,
            usedChars := budget.usedChars
                         + if RefusedByBudget(budget, script) then 0 else |Outcome(budget, script).output|)
  }

  // The budget after an exhausted cap was raised; a grant that is not higher changes nothing.
  function Lifted(budget: Budget, grant: nat): Budget {
    match ExhaustedReason(budget)
    case Some(MaxToolCalls) => if grant > budget.maxCalls then budget.(maxCalls := grant) else budget
    case Some(MaxTotalOutput) => if grant > budget.maxTotalChars then budget.(maxTotalChars := grant) else budget
    case None => budget
  }

  // What a batch has come to.
  datatype Tally = Tally(budget: Budget, results: seq<Result>, exhausted: Option<Reason>, skipped: nat)

  function Noted(tally: Tally, result: Result): Tally {
    tally.(results := tally.results + [result],
           exhausted := if tally.exhausted.Some? then tally.exhausted else result.exhausted,
           skipped := tally.skipped + if result.executed then 0 else 1)
  }

  // One more call: its saved result, or its outcome under the budget that is left or granted.  A grant
  // takes back what was reported as exhausted before.
  function Worked(tally: Tally, call: Call, turn: Turn): Tally {
    if call.result.Some? then Noted(tally, call.result.value)
    else
      var budget := Lifted(tally.budget, turn.grant);
      var reported := if budget == tally.budget then tally.exhausted else None;
      Noted(Tally(Spent(budget, turn.script), tally.results, reported, tally.skipped), Outcome(budget, turn.script))
  }

  function WorkedAll(budget: Budget, calls: seq<Call>, turns: seq<Turn>): (tally: Tally)
    requires |turns| <= |calls|
    ensures |tally.results| == |turns|
  {
    if turns == [] then Tally(budget, [], None, 0)
    else
      var k := |turns| - 1;
      Worked(WorkedAll(budget, calls, turns[..k]), calls[k], turns[k])
  }

  /** Skipped calls are those that did not run; without grants the first exhaustion is reported. */
  lemma {:induction false} TallyCounts(budget: Budget, calls: seq<Call>, turns: seq<Turn>)
    requires |turns| <= |calls|
    ensures var tally := WorkedAll(budget, calls, turns);
      && tally.skipped == NotExecuted(tally.results)
      && (Ungranted(turns) ==> tally.exhausted == FirstReason(tally.results))
    decreases |turns|
  {
    hide Outcome, Spent, Noted, NotExecuted, FirstReason;
    if turns == [] {
      NothingCounted();
    } else {
      var k := |turns| - 1;
      TallyCounts(budget, calls, turns[..k]);
      var before, call := WorkedAll(budget, calls, turns[..k]), calls[k];
      if call.result.Some? {
        NotedCounts(before, call.result.value);
      } else {
        var raised := Lifted(before.budget, turns[k].grant);
        var reported := if raised == before.budget then before.exhausted else None;
        NotedCounts(Tally(Spent(raised, turns[k].script), before.results, reported, before.skipped),
                    Outcome(raised, turns[k].script));
      }
    }
  }

  lemma NothingCounted()
    ensures NotExecuted([]) == 0 && FirstReason([]) == None
  {
  }

  lemma NotedCounts(tally: Tally, result: Result)
    ensures var noted := Noted(tally, result);
      && (tally.skipped == NotExecuted(tally.results) ==> noted.skipped == NotExecuted(noted.results))
      && (tally.exhausted == FirstReason(tally.results) ==> noted.exhausted == FirstReason(noted.results))
  {
    TallyOneMore(tally.results, result);
  }

  /** Saved results are kept; every other call gets its own outcome under the budget at that point. */
  lemma {:induction false} ResultIsSavedOrOutcome(budget: Budget, calls: seq<Call>, turns: seq<Turn>, k: nat)
    requires k < |turns| <= |calls|
    ensures var before := WorkedAll(budget, calls, turns[..k]);
      WorkedAll(budget, calls, turns).results[k]
      == match calls[k].result
         case Some(saved) => saved
         case None => Outcome(Lifted(before.budget, turns[k].grant), turns[k].script)
    decreases |turns|
  {
    hide Outcome, Spent, Lifted;
    var last := |turns| - 1;
    if k < last {
      ResultIsSavedOrOutcome(budget, calls, turns[..last], k);
      assert turns[..last][..k] == turns[..k];
    }
  }

  // What working off one call does.
  predicate Does(budget: Budget, call: Call, turn: Turn, result: Result, extended: bool, budget': Budget) {
    if call.result.Some? then call.result == Some(result) && !extended && budget' == budget
    else
      var raised := Lifted(budget, turn.grant);
      result == Outcome(raised, turn.script) && budget' == Spent(raised, turn.script)
      && (extended <==> raised != budget)
  }

  // The first calls of the batch have come to this.
  ghost predicate Tallied(budget: Budget, before: seq<Call>, first: nat, turns: seq<Turn>, tally: Tally) {
    && first + |turns| <= |before| && |tally.results| <= |turns|
    && tally == WorkedAll(budget, before[first..], turns[..|tally.results|])
  }

  lemma NothingTallied(budget: Budget, before: seq<Call>, first: nat, turns: seq<Turn>)
    requires first + |turns| <= |before|
    ensures Tallied(budget, before, first, turns, Tally(budget, [], None, 0))
  {
    assert turns[..0] == [];
  }

  lemma DoesOneMore(budget: Budget, before: seq<Call>, first: nat, turns: seq<Turn>, tally: Tally, result: Result,
                    extended: bool, budget': Budget)
    requires Tallied(budget, before, first, turns, tally) && |tally.results| < |turns|
    requires Does(tally.budget, before[first + |tally.results|], turns[|tally.results|], result, extended, budget')
    ensures Tallied(budget, before, first, turns,
                    Noted(Tally(budget', tally.results, if extended then None else tally.exhausted, tally.skipped),
                          result))
  {
    hide Outcome, Spent, Lifted;
    var k := |tally.results|;
    assert turns[..k + 1][..k] == turns[..k];
  }

  function TotalLength(outputs: seq<string>): nat {
    if outputs == [] then 0 else TotalLength(outputs[..|outputs| - 1]) + |outputs[|outputs| - 1]|
  }

  // One message for every call that had no result before, in order.
  function Answers(before: seq<Call>, first: nat, results: seq<Result>): (r: seq<Message>)
    requires first + |results| <= |before|
  {
    if results == [] then []
    else
      var k := |results| - 1;
      Answers(before, first, results[..k])
      + if before[first + k].result.Some? then [] else [Message(first + k, results[k].output)]
  }

  /** A batch with nothing saved gets exactly one message for every call, in call order. */
  lemma {:induction false} FreshAnswers(before: seq<Call>, first: nat, results: seq<Result>)
    requires first + |results| <= |before|
    requires forall i :: first <= i < first + |results| ==> before[i].result == None
    ensures |Answers(before, first, results)| == |results|
    ensures forall k :: 0 <= k < |results| ==>
              Answers(before, first, results)[k] == Message(first + k, results[k].output)
    decreases |results|
  {
    if results != [] {
      FreshAnswers(before, first, results[..|results| - 1]);
    }
  }

  // How many of the calls did not run.
  function NotExecuted(results: seq<Result>): nat {
    if results == [] then 0
    else NotExecuted(results[..|results| - 1]) + if results[|results| - 1].executed then 0 else 1
  }

  // Nobody asked to stop at one of these calls.
  ghost predicate KeptRunning(turns: seq<Turn>, before: seq<Call>, first: nat, count: nat)
    requires count <= |turns| && first + |turns| <= |before|
  {
    forall k :: 0 <= k < count ==>
      turns[k].before == Control.Running && (before[first + k].result == None ==> turns[k].after == Control.Running)
  }

  // After so many calls somebody asked for this.
  predicate AskedAt(turns: seq<Turn>, count: nat, control: Control) {
    || (count < |turns| && turns[count].before == control)
    || (0 < count <= |turns| && turns[count - 1].after == control)
  }

  // Nobody asked to stop so far, and whether somebody does at the next call.
  lemma AskedOrKept(turns: seq<Turn>, before: seq<Call>, first: nat, count: nat)
    requires count <= |turns| && first + |turns| <= |before|
    ensures KeptRunning(turns, before, first, 0)
    ensures count < |turns| ==>
              && AskedAt(turns, count, turns[count].before) && AskedAt(turns, count + 1, turns[count].after)
    ensures count < |turns| && KeptRunning(turns, before, first, count) && turns[count].before == Control.Running
            && (before[first + count].result == None ==> turns[count].after == Control.Running) ==>
              KeptRunning(turns, before, first, count + 1)
  {
  }

  // The first exhaustion any of these results reports.
  function FirstReason(results: seq<Result>): Option<Reason> {
    if results == [] then None
    else
      var earlier := FirstReason(results[..|results| - 1]);
      if earlier.Some? then earlier else results[|results| - 1].exhausted
  }

  // The calls from `first` on have these results, a saved one unchanged; the others are untouched.
  predicate Answered(before: seq<Call>, after: seq<Call>, first: nat, results: seq<Result>) {
    && first + |results| <= |before| == |after|
    && (forall i :: first <= i < first + |results| ==>
          && after[i].result == Some(results[i - first])
          && (before[i].result.Some? ==> after[i] == before[i]))
    && (forall i :: 0 <= i < |before| && !(first <= i < first + |results|) ==> after[i] == before[i])
  }

  lemma OneMore(before: seq<Call>, between: seq<Call>, after: seq<Call>, first: nat, results: seq<Result>,
                result: Result)
    requires Answered(before, between, first, results) && first + |results| < |before| == |after|
    requires after == between[first + |results| := after[first + |results|]]
    requires after[first + |results|].result == Some(result)
    requires before[first + |results|].result.Some? ==> after[first + |results|] == before[first + |results|]
    ensures Answered(before, after, first, results + [result])
    ensures Answers(before, first, results + [result]) == Answers(before, first, results)
              + if before[first + |results|].result.Some? then [] else [Message(first + |results|, result.output)]
  {
    assert (results + [result])[..|results|] == results;
  }

  lemma TallyOneMore(results: seq<Result>, result: Result)
    ensures NotExecuted(results + [result]) == NotExecuted(results) + if result.executed then 0 else 1
    ensures FirstReason(results + [result])
            == if FirstReason(results).Some? then FirstReason(results) else result.exhausted
  {
    assert (results + [result])[..|results|] == results;
  }

  // Nothing but call i may have changed on disk.
  predicate OnlyCall(w: World, w': World, i: nat) {
    && i < |w.disk.calls| == |w'.disk.calls| && |w'.effects| == |w.effects| == |w.disk.calls|
    && w'.disk.calls == w.disk.calls[i := w'.disk.calls[i]]
    && w'.mem.first == w.mem.first && w'.disk.first == w.disk.first
    && w'.mem.calls == w'.disk.calls
  }

  // Call i has ended with this result: saved, or, if the outcome is unknown, left "started".
  predicate Settled(w: World, i: nat, result: Result) {
    && i < |w.disk.calls|
    && var call := w.disk.calls[i];
       if result.unknown then w.phase == Down && call.status == Started && call.result == None
       else
         && w.phase == AtCall(i + 1) && call.result == Some(result)
         && call.status == (if !result.executed then Skipped else if result.isError then Failed else Completed)
  }

  // Only entry i changed, by `unit`.
  predicate Counted(counts: seq<nat>, counts': seq<nat>, i: nat, unit: nat) {
    && i < |counts| == |counts'| && counts'[i] == counts[i] + unit
    && forall j :: 0 <= j < |counts| && j != i ==> counts'[j] == counts[j]
  }

  // The tool ran once and used one call unit, or it did not run and used none.
  predicate Accounted(w: World, w': World, i: nat, script: Script) {
    var unit := if Runs(w.mem.budget, script) then 1 else 0;
    && Counted(w.effects, w'.effects, i, unit)
    && w'.mem.budget.usedCalls == w.mem.budget.usedCalls + unit
  }

  ghost predicate Ungranted(turns: seq<Turn>) {
    forall k :: 0 <= k < |turns| ==> turns[k].grant == 0
  }

  // Everything after these results is a cancellation.
  predicate Cancels(answered: seq<Result>, results: seq<Result>) {
    && answered <= results
    && forall k :: |answered| <= k < |results| ==> results[k] == CANCELLED
  }

  // The same, but the next call has run with an unknown outcome.
  predicate LeftUnknown(before: seq<Call>, after: seq<Call>, first: nat, results: seq<Result>) {
    var i := first + |results|;
    && i < |before| == |after| && after[i].status == Started && after[i].result == None
    && Answered(before, after[i := before[i]], first, results)
  }

  class ToolExecutor {
    var world: World
    var conversation: seq<Message>
    // Everything that went through the output limit since `chargedBefore` characters were used.
    ghost var limited: seq<string>
    ghost const chargedBefore: nat

    ghost predicate Valid()
      reads `world, `limited
    {
      Inv(world) && world.mem.budget.usedChars == chargedBefore + TotalLength(limited)
    }

    constructor (w: World)
      requires Inv(w)
      ensures Valid() && world == w && conversation == [] && limited == []
    {
      world, conversation, limited := w, [], [];
      chargedBefore := w.mem.budget.usedChars;
    }

    method Take(action: Action)
      requires Inv(world)
      modifies this`world
      ensures Inv(world) && world == Apply(old(world), action)
    {
      StepKeepsInv(world, action);
      world := Apply(world, action);
    }

    // The checkpoint before the approval prompt.
    method ApprovalPending(policy: Policy)
      requires Valid() && world.phase.Requested? && world.phase.policy == policy
      modifies this`world
      ensures Valid() && world.phase == old(world.phase) && world.effects == old(world.effects)
      ensures OnlyCall(old(world), world, world.phase.i)
      ensures world.mem.budget == old(world.mem.budget)
      ensures world.disk.calls[world.phase.i].result == old(world.disk.calls[world.phase.i].result)
    {
      Take(Prompt);
    }

    method TryConsumeCall() returns (reason: Option<Reason>)
      requires Valid() && world.phase.Allowed?
      modifies this`world
      ensures Valid() && OnlyCall(old(world), world, old(world.phase.i))
      ensures reason == ExhaustedReason(old(world.mem.budget)) && world.effects == old(world.effects)
      ensures reason == None ==>
                && world.phase == Charged(old(world.phase.i), old(world.phase.policy))
                && world.mem.budget == old(world.mem.budget).(usedCalls := old(world.mem.budget).usedCalls + 1)
      ensures reason.Some? ==>
                && world.phase == AtCall(old(world.phase.i) + 1) && world.mem.budget == old(world.mem.budget)
                && world.disk.calls[old(world.phase.i)].status == Skipped
                && world.disk.calls[old(world.phase.i)].result == Some(BudgetError(reason.value))
    {
      reason := ExhaustedReason(world.mem.budget);
      Take(Charge);
    }

    // The durable "started".
    method ToolStarted()
      requires Valid() && world.phase.Charged?
      modifies this`world
      ensures Valid() && OnlyCall(old(world), world, old(world.phase.i))
      ensures world.phase == ToolProtocol.Running(old(world.phase.i), old(world.phase.policy))
      ensures world.disk.calls[world.phase.i].status == Started
      ensures world.effects == old(world.effects) && world.mem.budget == old(world.mem.budget)
    {
      Take(MarkStarted);
    }

    // The tool itself, and the limit on its output.
    method RunAndLimit(outcome: Result, maxOutputChars: int) returns (result: Result)
      requires Valid() && world.phase.Running?
      modifies this`world, this`limited
      ensures Valid() && OnlyCall(old(world), world, old(world.phase.i))
      ensures result == LimitResult(outcome, LimitOutput(old(world.mem.budget), maxOutputChars, outcome.output))
      ensures world.phase == Ran(old(world.phase.i), old(world.phase.policy), result)
      ensures Counted(old(world.effects), world.effects, old(world.phase.i), 1)
      ensures world.mem.budget == Consume(old(world.mem.budget), |result.output|)
      ensures limited == old(limited) + [result.output]
    {
      Take(RunTool(outcome, maxOutputChars));
      result := world.phase.result;
      limited := limited + [result.output];
    }

    method ToolCompleted()
      requires Valid() && world.phase.Ran?
      modifies this`world
      ensures Valid() && OnlyCall(old(world), world, old(world.phase.i)) && world.effects == old(world.effects)
      ensures world.mem.budget == old(world.mem.budget)
      ensures Settled(world, old(world.phase.i), old(world.phase.result))
    {
      Take(Complete);
    }

    // Limits the refusal and saves it as the result.
    method Denied(rejection: Rejection, maxOutputChars: int) returns (result: Result)
      requires Valid()
      requires world.phase.AtCall? || world.phase.Requested?
      requires world.phase.i < |world.mem.calls| && world.mem.calls[world.phase.i].result == None
      modifies this`world, this`limited
      ensures Valid() && OnlyCall(old(world), world, old(world.phase.i)) && world.effects == old(world.effects)
      ensures result == LimitResult(Denial(rejection),
                                    LimitOutput(old(world.mem.budget), maxOutputChars, rejection.output))
      ensures world.mem.budget == Consume(old(world.mem.budget), |result.output|)
      ensures Settled(world, old(world.phase.i), result)
      ensures limited == old(limited) + [result.output]
    {
      var i := world.phase.i;
      Take(Refuse(rejection.output, rejection.isError, maxOutputChars));
      result := world.mem.calls[i].result.value;
      limited := limited + [result.output];
    }

    // The permission check, with its checkpoint if it prompts.
    method RequestPermissions(script: Script)
      requires Valid()
      requires world.phase.AtCall? && world.phase.i < |world.mem.calls|
      requires world.mem.calls[world.phase.i].result == None
      modifies this`world
      ensures Valid() && OnlyCall(old(world), world, old(world.phase.i))
      ensures world.phase == if script.permitted then Allowed(old(world.phase.i), script.policy)
                             else Requested(old(world.phase.i), script.policy)
      ensures world.effects == old(world.effects) && world.mem.budget == old(world.mem.budget)
      ensures world.disk.calls[old(world.phase.i)].result == None
    {
      Validated(script.policy);
      if script.prompted {
        ApprovalPending(script.policy);
      }
      if script.permitted {
        Permitted();
      }
    }

    method Validated(policy: Policy)
      requires Valid()
      requires world.phase.AtCall? && world.phase.i < |world.mem.calls|
      requires world.mem.calls[world.phase.i].result == None
      modifies this`world
      ensures Valid() && world == old(world).(phase := Requested(old(world.phase.i), policy))
    {
      Take(Ask(policy));
    }

    method Permitted()
      requires Valid() && world.phase.Requested?
      modifies this`world
      ensures Valid() && world.disk == old(world.disk) && world.mem == old(world.mem)
      ensures world.phase == Allowed(old(world.phase.i), old(world.phase.policy))
      ensures world.effects == old(world.effects)
    {
      Take(Allow);
    }

    // "Started", the tool itself, limit, "completed".
    method RunCharged(outcome: Result, maxOutputChars: int) returns (result: Result)
      requires Valid() && world.phase.Charged?
      modifies this`world, this`limited
      ensures Valid() && OnlyCall(old(world), world, old(world.phase.i))
      ensures result == LimitResult(outcome, LimitOutput(old(world.mem.budget), maxOutputChars, outcome.output))
      ensures Counted(old(world.effects), world.effects, old(world.phase.i), 1)
      ensures world.mem.budget == Consume(old(world.mem.budget), |result.output|)
      ensures limited == old(limited) + [result.output]
      ensures Settled(world, old(world.phase.i), result)
    {
      hide Valid;
      ToolStarted();
      result := RunAndLimit(outcome, maxOutputChars);
      ToolCompleted();
    }

    // Budget, then the tool.
    method RunPermitted(script: Script) returns (result: Result)
      requires Valid() && world.phase.Allowed? && script.rejection == None && script.permitted
      modifies this`world, this`limited
      ensures Valid() && OnlyCall(old(world), world, old(world.phase.i))
      ensures result == Outcome(old(world.mem.budget), script)
      ensures Accounted(old(world), world, old(world.phase.i), script)
      ensures world.mem.budget == Spent(old(world.mem.budget), script)
      ensures limited == old(limited) + if RefusedByBudget(old(world.mem.budget), script) then [] else [result.output]
      ensures Settled(world, old(world.phase.i), result)
    {
      hide Valid;
      var exhausted := TryConsumeCall();
      if exhausted.Some? {
        return BudgetError(exhausted.value);
      }
      OutcomeOfRun(old(world.mem.budget), world.mem.budget, script);
      result := RunCharged(script.outcome, script.maxOutputChars);
    }

    /** Checks, permission, budget, "started", the tool itself, limit, "completed", in this order. */
    method Execute(script: Script) returns (result: Result)
      requires Valid()
      requires world.phase.AtCall? && world.phase.i < |world.mem.calls|
      requires world.mem.calls[world.phase.i].result == None
      modifies this`world, this`limited
      ensures Valid() && OnlyCall(old(world), world, old(world.phase.i))
      ensures result == Outcome(old(world.mem.budget), script)
      ensures Accounted(old(world), world, old(world.phase.i), script)
      ensures world.mem.budget == Spent(old(world.mem.budget), script)
      ensures limited == old(limited) + if RefusedByBudget(old(world.mem.budget), script) then [] else [result.output]
      ensures Settled(world, old(world.phase.i), result)
    {
      hide Valid;
      if script.rejection.Some? {
        result := Denied(script.rejection.value, script.maxOutputChars);
        return;
      }
      RequestPermissions(script);
      if !script.permitted {
        result := Denied(script.denial, script.maxOutputChars);
        return;
      }
      result := RunPermitted(script);
    }

    // The batch that began with the calls `before` and the messages `earlier` is answered so far.
    ghost predicate InBatch(before: seq<Call>, earlier: seq<Message>, results: seq<Result>)
      reads this
    {
      && Valid() && |world.mem.calls| == |before|
      && Answered(before, world.disk.calls, world.mem.first, results)
      && conversation == earlier + Answers(before, world.mem.first, results)
    }

    lemma BatchBegins()
      requires Valid()
      ensures InBatch(world.disk.calls, conversation, []) && |world.mem.calls| == |world.disk.calls|
      ensures world.mem.first <= |world.disk.calls|
    {
    }

    lemma NextIsUntouched(before: seq<Call>, earlier: seq<Message>, results: seq<Result>)
      requires InBatch(before, earlier, results) && world.mem.first + |results| < |before|
      ensures |world.mem.calls| == |before|
      ensures world.mem.calls[world.mem.first + |results|] == before[world.mem.first + |results|]
    {
    }

    // One stable result for every call that has not started.  The coordinator raises as soon as it
    // meets a call that already has one.
    method CancelPending(ghost before: seq<Call>, ghost earlier: seq<Message>, ghost answered: seq<Result>)
      returns (raised: bool, ghost results: seq<Result>)
      requires InBatch(before, earlier, answered) && world.phase == AtCall(world.mem.first + |answered|)
      modifies this`world, this`conversation
      ensures Valid() && world.mem.first == old(world.mem.first)
      ensures raised <==> exists j :: old(world.phase.i) <= j < |before| && before[j].result.Some?
      ensures !raised ==>
                && InBatch(before, earlier, results) && Cancels(answered, results)
                && world.phase == AtCall(|before|) && world.mem.first + |results| == |before|
                && world.mem.budget == old(world.mem.budget)
    {
      hide Answers, Answered;
      var i := world.phase.i;
      results := answered;
      StartCancelling();
      while i < |world.mem.calls|
        invariant InBatch(before, earlier, results) && world.phase == Cancelling(i) && i <= |before|
        invariant world.mem.first == old(world.mem.first) && world.mem.budget == old(world.mem.budget)
        invariant i == world.mem.first + |results| && Cancels(answered, results)
        invariant forall j :: old(world.phase.i) <= j < i ==> before[j].result == None
        decreases |before| - i
      {
        raised := CancelNextInBatch(before, earlier, results);
        if raised {
          return;
        }
        results := results + [CANCELLED];
        i := i + 1;
      }
      FinishCancelling();
      raised := false;
    }

    method CancelNextInBatch(ghost before: seq<Call>, ghost earlier: seq<Message>, ghost results: seq<Result>)
      returns (raised: bool)
      requires InBatch(before, earlier, results)
      requires world.phase == Cancelling(world.mem.first + |results|) && world.phase.i < |before|
      modifies this`world, this`conversation
      ensures Valid() && world.mem.first == old(world.mem.first)
      ensures raised <==> before[old(world.phase.i)].result.Some?
      ensures !raised ==>
                && InBatch(before, earlier, results + [CANCELLED]) && world.phase == Cancelling(old(world.phase.i) + 1)
                && world.mem.budget == old(world.mem.budget)
    {
      ghost var between := world.disk.calls;
      var i := world.phase.i;
      raised := CancelNext();
      if !raised {
        OneMore(before, between, world.disk.calls, world.mem.first, results, CANCELLED);
        conversation := conversation + [Message(i, CANCELLED.output)];
      }
    }

    method StartCancelling()
      requires Valid() && world.phase.AtCall?
      modifies this`world
      ensures Valid() && world == old(world).(phase := Cancelling(old(world.phase.i)))
    {
      Take(Cancel);
    }

    method CancelNext() returns (raised: bool)
      requires Valid() && world.phase.Cancelling? && world.phase.i < |world.mem.calls|
      modifies this`world
      ensures Valid() && OnlyCall(old(world), world, old(world.phase.i))
      ensures raised <==> old(world.disk.calls[world.phase.i]).result.Some?
      ensures if raised then world.phase == Down && world.disk == old(world.disk)
              else world.phase == Cancelling(old(world.phase.i) + 1) && world.mem.budget == old(world.mem.budget)
                   && world.disk.calls[old(world.phase.i)].result == Some(CANCELLED)
    {
      assert CallOk(world, world.phase.i);
      raised := world.mem.calls[world.phase.i].result.Some?;
      Take(CancelOne);
    }

    method FinishCancelling()
      requires Valid() && world.phase == Cancelling(|world.mem.calls|)
      modifies this`world
      ensures Valid() && world == old(world).(phase := AtCall(|old(world.mem.calls)|))
    {
      Take(CancelOne);
    }

    // Asks for a higher cap if the budget is exhausted.  A refused or useless grant changes nothing.
    method EnsureBudget(grant: nat) returns (extended: bool)
      requires Valid() && world.phase.AtCall?
      modifies this`world
      ensures Valid() && world.phase == old(world.phase) && world.effects == old(world.effects)
      ensures world.disk.calls == old(world.disk.calls) && world.mem.calls == old(world.mem.calls)
      ensures world.disk.first == old(world.disk.first) && world.mem.first == old(world.mem.first)
      ensures var b := old(world.mem.budget);
        extended <==>
          || (ExhaustedReason(b) == Some(MaxToolCalls) && grant > b.maxCalls)
          || (ExhaustedReason(b) == Some(MaxTotalOutput) && grant > b.maxTotalChars)
      ensures world.mem.budget == Lifted(old(world.mem.budget), grant)
      ensures extended ==> world.mem.budget != old(world.mem.budget)
      ensures !extended ==> world == old(world)
    {
      var reason := ExhaustedReason(world.mem.budget);
      if reason == Some(MaxToolCalls) && grant > world.mem.budget.maxCalls {
        Take(ExtendCalls(grant));
        return true;
      }
      if reason == Some(MaxTotalOutput) && grant > world.mem.budget.maxTotalChars {
        Take(ExtendChars(grant));
        return true;
      }
      return false;
    }

    method SkipSavedCall()
      requires Valid() && world.phase.AtCall? && world.phase.i < |world.mem.calls|
      requires world.mem.calls[world.phase.i].result.Some?
      modifies this`world
      ensures Valid() && world == old(world).(phase := AtCall(old(world.phase.i) + 1))
    {
      Take(SkipSaved);
    }

    lemma CallsAgree()
      requires Valid()
      ensures world.mem.calls == world.disk.calls && |world.effects| == |world.disk.calls|
      ensures world.mem.first == world.disk.first
    {
    }

    // One call of the batch: skipped if its result is saved, executed otherwise.
    method WorkOff(turn: Turn) returns (result: Result, extended: bool)
      requires Valid() && world.phase.AtCall? && world.phase.i < |world.mem.calls|
      modifies this`world, this`conversation, this`limited
      ensures Valid() && OnlyCall(old(world), world, old(world.phase.i))
      ensures Does(old(world.mem.budget), old(world.mem.calls[world.phase.i]), turn, result, extended,
                   world.mem.budget)
      ensures old(world.disk.calls[world.phase.i]).result.Some? ==>
                && Some(result) == old(world.disk.calls[world.phase.i]).result && !extended
                && world == old(world).(phase := AtCall(old(world.phase.i) + 1)) && conversation == old(conversation)
      ensures old(world.disk.calls[world.phase.i]).result == None ==>
                && Settled(world, old(world.phase.i), result)
                && conversation == old(conversation)
                     + if result.unknown then [] else [Message(old(world.phase.i), result.output)]
    {
      hide Valid, Inv, Outcome, Spent, Lifted, Accounted, RefusedByBudget;
      CallsAgree();
      var i := world.phase.i;
      var saved := world.mem.calls[i].result;
      if saved.Some? {
        SkipSavedCall();
        return saved.value, false;
      }
      extended := EnsureBudget(turn.grant);
      result := Execute(turn.script);
      if !result.unknown {
        conversation := conversation + [Message(i, result.output)];
      }
    }

    // A requested pause or cancellation ends the batch here.
    method StopHere(control: Control, ghost before: seq<Call>, ghost earlier: seq<Message>, ghost answered: seq<Result>)
      returns (ending: Ending, ghost results: seq<Result>)
      requires InBatch(before, earlier, answered) && world.phase == AtCall(world.mem.first + |answered|)
      requires control != Control.Running
      modifies this`world, this`conversation
      ensures Valid() && world.mem.first == old(world.mem.first)
      ensures control == PauseRequested ==> ending.Paused? && world.phase == Down && results == answered
      ensures !ending.Raised? ==> world.mem.budget == old(world.mem.budget)
      ensures control == CancelRequested ==>
                && (ending.Cancelled? || ending.Raised?)
                && (ending.Raised? <==> exists j :: old(world.phase.i) <= j < |before| && before[j].result.Some?)
      ensures !ending.Raised? ==> InBatch(before, earlier, results) && Cancels(answered, results)
      ensures ending.Cancelled? ==> world.phase == AtCall(|before|) && world.mem.first + |results| == |before|
    {
      if control == PauseRequested {
        Take(Pause);
        return Paused, answered;
      }
      var raised;
      raised, results := CancelPending(before, earlier, answered);
      ending := if raised then Raised else Cancelled;
    }

    // One call of the batch, as the next step of a batch answered so far.
    method WorkOffNext(turn: Turn, ghost before: seq<Call>, ghost earlier: seq<Message>, ghost answered: seq<Result>)
      returns (result: Result, extended: bool)
      requires InBatch(before, earlier, answered) && world.phase == AtCall(world.mem.first + |answered|)
      requires world.phase.i < |before|
      modifies this`world, this`conversation, this`limited
      ensures Valid() && world.mem.first == old(world.mem.first) && |world.mem.calls| == |before|
      ensures Does(old(world.mem.budget), before[old(world.phase.i)], turn, result, extended, world.mem.budget)
      ensures world.phase == Down || world.phase == AtCall(old(world.phase.i) + 1)
      ensures world.phase == Down ==>
                && result.unknown && LeftUnknown(before, world.disk.calls, world.mem.first, answered)
                && conversation == earlier + Answers(before, world.mem.first, answered)
      ensures world.phase != Down ==> InBatch(before, earlier, answered + [result])
    {
      hide Answers, Inv, Outcome, Spent, Lifted, Does;
      ghost var between, i := world.disk.calls, world.phase.i;
      CallsAgree();
      NextIsUntouched(before, earlier, answered);
      result, extended := WorkOff(turn);
      if world.phase != Down {
        OneMore(before, between, world.disk.calls, world.mem.first, answered, result);
      } else {
        assert world.disk.calls[i := before[i]] == between;
      }
    }

    /** Works off the current batch in order.  `results` are the results of its calls, as far as they
        have one in the end, and `worked` what the calls that were worked off came to. */
    method ExecuteToolBatch(turns: seq<Turn>)
      returns (ending: Ending, exhausted: Option<Reason>, skipped: nat,
               ghost results: seq<Result>, ghost worked: seq<Result>)
      requires Valid() && world.phase == AtCall(world.mem.first)
      requires |turns| == |world.mem.calls| - world.mem.first
      modifies this
      ensures Valid() && world.mem.first == old(world.mem.first)
      ensures ending.Finished? || ending.Paused? || ending.Cancelled? ==>
                InBatch(old(world.disk.calls), old(conversation), results) && Cancels(worked, results)
      ensures !ending.Raised? ==>
                Tallied(old(world.mem.budget), old(world.disk.calls), world.mem.first, turns,
                        Tally(world.mem.budget, worked, exhausted, skipped))
      ensures ending.Finished? || ending.Cancelled? ==>
                && world.phase == AtCall(|old(world.disk.calls)|)
                && world.mem.first + |results| == |old(world.disk.calls)|
      ensures ending.Finished? || ending.Paused? ==> worked == results
      ensures ending.Finished? ==> KeptRunning(turns, old(world.disk.calls), world.mem.first, |turns|)
      ensures ending.Paused? ==> AskedAt(turns, |worked|, PauseRequested)
      ensures ending.Cancelled? ==> AskedAt(turns, |worked|, CancelRequested)
      ensures ending.Paused? || ending.Uncertain? ==> world.phase == Down
      ensures ending.Uncertain? ==>
                && ending.call == world.mem.first + |results|
                && LeftUnknown(old(world.disk.calls), world.disk.calls, world.mem.first, results)
                && conversation == old(conversation) + Answers(old(world.disk.calls), world.mem.first, results)
                && worked != [] && results == worked[..|worked| - 1] && worked[|worked| - 1].unknown
      ensures ending.Raised? ==>
                exists j :: world.mem.first <= j < |old(world.disk.calls)| && old(world.disk.calls)[j].result.Some?
    {
      hide Answers, Answered, InBatch, Valid, Does, Tallied, LeftUnknown, Outcome, KeptRunning, AskedAt;
      ghost var before, budget := world.disk.calls, world.mem.budget;
      BatchBegins();
      var first := world.mem.first;
      exhausted, skipped, results, worked := None, 0, [], [];
      var i := first;
      NothingTallied(budget, before, first, turns);
      AskedOrKept(turns, before, first, 0);
      while i < |world.mem.calls|
        invariant Valid() && InBatch(before, old(conversation), results) && worked == results
        invariant |world.mem.calls| == |before|
        invariant world.phase == AtCall(i) && world.mem.first == first && i == first + |results| <= |before|
        invariant KeptRunning(turns, before, first, i - first)
        invariant Tallied(budget, before, first, turns, Tally(world.mem.budget, results, exhausted, skipped))
        decreases |before| - i
      {
        var turn := turns[i - first];
        AskedOrKept(turns, before, first, i - first);
        if turn.before != Control.Running {
          ending, results := StopHere(turn.before, before, old(conversation), results);
          return;
        }
        NextIsUntouched(before, old(conversation), results);
        ghost var tally := Tally(world.mem.budget, results, exhausted, skipped);
        var saved := world.mem.calls[i].result.Some?;
        var result, extended := WorkOffNext(turn, before, old(conversation), results);
        DoesOneMore(budget, before, first, turns, tally, result, extended, world.mem.budget);
        if extended {
          exhausted := None;
        }
        exhausted := if exhausted.Some? then exhausted else result.exhausted;
        if !result.executed {
          skipped := skipped + 1;
        }
        worked := results + [result];
        if world.phase.Down? {
          ending := Uncertain(i);
          return;
        }
        results, i := worked, i + 1;
        if !saved && turn.after != Control.Running {
          ending, results := StopHere(turn.after, before, old(conversation), results);
          return;
        }
      }
      ending := Finished;
    }
  }
}
