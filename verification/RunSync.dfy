/** Bringing the public messages of a finished Run into the ledger of its Session. */
module RunSync {
  import opened Options
  import opened SessionLedger

  datatype RunState = RunState(
    run: nat, createdAt: int, updatedAt: int, messages: seq<Raw>, presentations: seq<Ref>, outputs: seq<Ref>)

  datatype Failure = HistoryTooShort | HistoryConflict | NoUserBefore | WrongOwner

  datatype Outcome = Done(ledger: seq<Entry>) | Failed(why: Failure)

  predicate OwnedBy(refs: seq<Ref>, id: MessageId) {
    forall ref :: ref in refs ==> ref.owner == id
  }

  // The entry for the message at `offset` of the new part of the history.
  function RunEntry(state: RunState, appended: seq<Raw>, offset: nat, ledger: seq<Entry>): Entry
    requires offset < |appended|
  {
    var raw := appended[offset];
    if RoleOf(raw) == User then
      Entry(RunMessage(state.run, User, offset), User, Some(state.run), Some(state.createdAt), None,
            raw.content, [], [])
    else
      Entry(if offset == |appended| - 1 then FinalMessage(state.run)
            else RunMessage(state.run, Assistant, offset),
            Assistant, Some(state.run), Some(state.updatedAt), LastUser(ledger), raw.content,
            state.presentations, state.outputs)
  }

  function EntryFailure(entry: Entry): Option<Failure> {
    if entry.role == User then None
    else if entry.replyTo == None then Some(NoUserBefore)
    else if !OwnedBy(entry.artifacts, entry.id) then Some(WrongOwner)
    else None
  }

  function AppendRun(state: RunState, appended: seq<Raw>, offset: nat, ledger: seq<Entry>): Outcome
    requires offset <= |appended|
    decreases |appended| - offset
  {
    if offset == |appended| then Done(ledger)
    else
      var entry := RunEntry(state, appended, offset, ledger);
      if EntryFailure(entry).Some? then Failed(EntryFailure(entry).value)
      else AppendRun(state, appended, offset + 1, ledger + [entry])
  }

  // The message that carries what a Run without a final answer has made.
  function Placeholder(state: RunState, ledger: seq<Entry>, artifacts: seq<Ref>, outputs: seq<Ref>): Entry {
    Entry(FinalMessage(state.run), Assistant, Some(state.run), Some(state.updatedAt), LastUser(ledger),
          "", artifacts, outputs)
  }

  function Carry(state: RunState, ledger: seq<Entry>, artifacts: seq<Ref>, outputs: seq<Ref>): Outcome {
    if artifacts + outputs == [] || Known(ledger, FinalMessage(state.run)) then Done(ledger)
    else if LastUser(ledger) == None then Failed(NoUserBefore)
    else if !OwnedBy(artifacts + outputs, FinalMessage(state.run)) then Failed(WrongOwner)
    else Done(ledger + [Placeholder(state, ledger, artifacts, outputs)])
  }

  function CarryBoth(state: RunState, ledger: seq<Entry>): Outcome {
    var first := Carry(state, ledger, state.presentations, []);
    if first.Failed? then first else Carry(state, first.ledger, [], state.outputs)
  }

  function SynchronizeRun(state: RunState, ledger: seq<Entry>): Outcome {
    var public := Public(state.messages);
    if |public| < |ledger| then Failed(HistoryTooShort)
    else if !(Projection(ledger) <= Lines(public)) then Failed(HistoryConflict)
    else
      var appended := AppendRun(state, public[|ledger|..], 0, ledger);
      if appended.Failed? then appended else CarryBoth(state, appended.ledger)
  }

  // ---------------------------------------------------------------------------------------------
  // The loop

  method SynchronizeRunLedger(session: Session, state: RunState) returns (failure: Option<Failure>)
    modifies session`ledger
    ensures old(session.ledger) <= session.ledger
    ensures SynchronizeRun(state, old(session.ledger))
            == if failure.Some? then Failed(failure.value) else Done(session.ledger)
  {
    var public := Public(state.messages);
    if |public| < |session.ledger| {
      return Some(HistoryTooShort);
    }
    if !(Projection(session.ledger) <= Lines(public)) {
      return Some(HistoryConflict);
    }
    var currentUser := LastUser(session.ledger);
    var appended := public[|session.ledger|..];
    var offset := 0;
    while offset < |appended|
      invariant offset <= |appended| && old(session.ledger) <= session.ledger
      invariant currentUser == LastUser(session.ledger)
      invariant AppendRun(state, appended, offset, session.ledger)
                == AppendRun(state, appended, 0, old(session.ledger))
    {
      var entry := RunEntry(state, appended, offset, session.ledger);
      assert (session.ledger + [entry])[..|session.ledger|] == session.ledger;
      if entry.role == User {
        currentUser := Some(entry.id);
      } else {
        if currentUser == None {
          return Some(NoUserBefore);
        }
        if !OwnedBy(entry.artifacts, entry.id) {
          return Some(WrongOwner);
        }
      }
      session.ledger := session.ledger + [entry];
      offset := offset + 1;
    }
    failure := CarryRefs(session, state, state.presentations, []);
    if failure == None {
      failure := CarryRefs(session, state, [], state.outputs);
    }
  }

  method CarryRefs(session: Session, state: RunState, artifacts: seq<Ref>, outputs: seq<Ref>)
    returns (failure: Option<Failure>)
    modifies session`ledger
    ensures old(session.ledger) <= session.ledger
    ensures Carry(state, old(session.ledger), artifacts, outputs)
            == if failure.Some? then Failed(failure.value) else Done(session.ledger)
  {
    if artifacts + outputs == [] || Known(session.ledger, FinalMessage(state.run)) {
      return None;
    }
    if LastUser(session.ledger) == None {
      return Some(NoUserBefore);
    }
    if !OwnedBy(artifacts + outputs, FinalMessage(state.run)) {
      return Some(WrongOwner);
    }
    session.ledger := session.ledger + [Placeholder(state, session.ledger, artifacts, outputs)];
    return None;
  }

  // ---------------------------------------------------------------------------------------------
  // What the synchronization guarantees

  predicate OfRun(id: MessageId, run: nat) {
    (id.RunMessage? || id.FinalMessage?) && id.run == run
  }

  // No entry has been written for this Run.
  ghost predicate FreshFor(run: nat, ledger: seq<Entry>) {
    forall i :: 0 <= i < |ledger| ==> !OfRun(ledger[i].id, run)
  }

  // The ledger is `start` and the first `offset` new messages, with ids of their own.
  ghost predicate Midway(state: RunState, start: seq<Entry>, ledger: seq<Entry>, appended: seq<Raw>, offset: nat) {
    && offset <= |appended| && |ledger| == |start| + offset && start <= ledger
    && WellFormed(ledger)
    && (forall i :: |start| <= i < |ledger| ==> NewId(state, appended, i - |start|, ledger[i]))
  }

  predicate NewId(state: RunState, appended: seq<Raw>, k: nat, entry: Entry)
    requires k < |appended|
  {
    entry.id == if RoleOf(appended[k]) == User then RunMessage(state.run, User, k)
                else if k == |appended| - 1 then FinalMessage(state.run)
                else RunMessage(state.run, Assistant, k)
  }

  lemma MidwayBegins(state: RunState, ledger: seq<Entry>, appended: seq<Raw>)
    requires WellFormed(ledger)
    ensures Midway(state, ledger, ledger, appended, 0)
  {
  }

  lemma NewIdIsFresh(state: RunState, start: seq<Entry>, ledger: seq<Entry>, appended: seq<Raw>, offset: nat)
    requires Midway(state, start, ledger, appended, offset) && offset < |appended| && FreshFor(state.run, start)
    ensures !HasId(ledger, RunEntry(state, appended, offset, ledger).id)
  {
    var id := RunEntry(state, appended, offset, ledger).id;
    forall i | 0 <= i < |ledger| ensures ledger[i].id != id {
      if i < |start| {
        assert ledger[i] == start[i];
      } else {
        assert NewId(state, appended, i - |start|, ledger[i]);
      }
    }
  }

  lemma {:induction false} AppendRunIsSound(state: RunState, start: seq<Entry>, appended: seq<Raw>, offset: nat,
                                            ledger: seq<Entry>)
    requires Midway(state, start, ledger, appended, offset) && FreshFor(state.run, start)
    ensures var r := AppendRun(state, appended, offset, ledger);
      r.Done? ==> Midway(state, start, r.ledger, appended, |appended|) && ledger <= r.ledger
    decreases |appended| - offset
  {
    if offset < |appended| {
      var entry := RunEntry(state, appended, offset, ledger);
      NewIdIsFresh(state, start, ledger, appended, offset);
      if EntryFailure(entry) == None {
        AppendKeepsWellFormed(ledger, entry);
        AppendRunIsSound(state, start, appended, offset + 1, ledger + [entry]);
      }
    }
  }

  lemma {:induction false} AppendRunProjects(state: RunState, appended: seq<Raw>, offset: nat, ledger: seq<Entry>)
    requires offset <= |appended|
    ensures var r := AppendRun(state, appended, offset, ledger);
      r.Done? ==> Projection(r.ledger) == Projection(ledger) + Lines(appended)[offset..]
    decreases |appended| - offset
  {
    if offset < |appended| {
      var entry := RunEntry(state, appended, offset, ledger);
      ProjectionOfAppend(ledger, entry);
      AppendRunProjects(state, appended, offset + 1, ledger + [entry]);
      assert Lines(appended)[offset..] == [Lines(appended)[offset]] + Lines(appended)[offset + 1..];
    } else {
      assert Lines(appended)[offset..] == [];
    }
  }

  predicate EndsInAnswer(state: RunState, ledger: seq<Entry>) {
    var public := Public(state.messages);
    |ledger| < |public| && RoleOf(public[|public| - 1]) == Assistant
  }

  // What the Run made has no message to be shown with.
  predicate Stranded(state: RunState, ledger: seq<Entry>) {
    state.presentations + state.outputs != [] && !EndsInAnswer(state, ledger)
  }

  // Everything a Run made belongs to its final message, as the tools that make it see to.
  ghost predicate MadeByRun(session: nat, state: RunState) {
    forall ref :: ref in state.presentations + state.outputs ==>
      ref.owner == FinalMessage(state.run) && ref.session == session && ref.run == Some(state.run)
  }

  /** The ledger grows, stays well formed, and shows exactly the public history, followed by one empty
      assistant message just when what the Run made has no final answer to be shown with. */
  lemma RunSyncShowsHistory(state: RunState, ledger: seq<Entry>)
    requires WellFormed(ledger) && FreshFor(state.run, ledger)
    ensures var r := SynchronizeRun(state, ledger);
      r.Done? ==>
        && ledger <= r.ledger && WellFormed(r.ledger)
        && Projection(r.ledger) == Lines(Public(state.messages))
                                   + (if Stranded(state, ledger) then [Line(Assistant, "")] else [])
        && (state.presentations + state.outputs != [] ==> Known(r.ledger, FinalMessage(state.run)))
  {
    hide AppendRun, Carry, FreshFor, RepliesWell;
    var public := Public(state.messages);
    if |ledger| <= |public| && Projection(ledger) <= Lines(public) {
      var appended := public[|ledger|..];
      AppendRunIsSound(state, ledger, appended, 0, ledger);
      AppendRunProjects(state, appended, 0, ledger);
      assert Lines(public) == Projection(ledger) + Lines(appended)[0..];
      var r := AppendRun(state, appended, 0, ledger);
      if r.Done? {
        FinalIsKnown(state, ledger, r.ledger, appended);
        CarryIsSound(state, r.ledger, state.presentations, []);
        var first := Carry(state, r.ledger, state.presentations, []);
        if first.Done? {
          CarryIsSound(state, first.ledger, [], state.outputs);
        }
      }
    }
  }

  lemma FinalIsKnown(state: RunState, start: seq<Entry>, ledger: seq<Entry>, appended: seq<Raw>)
    requires Midway(state, start, ledger, appended, |appended|) && FreshFor(state.run, start)
    ensures Known(ledger, FinalMessage(state.run))
            <==> appended != [] && RoleOf(appended[|appended| - 1]) == Assistant
  {
    KnownIsHasId(ledger, FinalMessage(state.run));
    forall i | 0 <= i < |start| ensures ledger[i].id != FinalMessage(state.run) {
      assert ledger[i] == start[i];
    }
    forall i | |start| <= i < |ledger| && ledger[i].id == FinalMessage(state.run)
      ensures i == |ledger| - 1 && RoleOf(appended[|appended| - 1]) == Assistant
    {
      assert NewId(state, appended, i - |start|, ledger[i]);
    }
    if appended != [] {
      assert NewId(state, appended, |appended| - 1, ledger[|ledger| - 1]);
    }
  }

  lemma CarryIsSound(state: RunState, ledger: seq<Entry>, artifacts: seq<Ref>, outputs: seq<Ref>)
    requires WellFormed(ledger)
    ensures var r := Carry(state, ledger, artifacts, outputs);
      r.Done? ==>
        && ledger <= r.ledger && WellFormed(r.ledger)
        && (artifacts + outputs != [] ==> Known(r.ledger, FinalMessage(state.run)))
        && (if artifacts + outputs == [] || Known(ledger, FinalMessage(state.run)) then r.ledger == ledger
            else Projection(r.ledger) == Projection(ledger) + [Line(Assistant, "")])
  {
    var r := Carry(state, ledger, artifacts, outputs);
    KnownIsHasId(ledger, FinalMessage(state.run));
    if r.Done? && r.ledger != ledger {
      var entry := Placeholder(state, ledger, artifacts, outputs);
      AppendKeepsWellFormed(ledger, entry);
      ProjectionOfAppend(ledger, entry);
      assert entry in r.ledger;
    }
  }

  /** A second synchronization changes nothing exactly if no empty message had to be added; after one
      it fails, because the ledger is longer than the history. */
  lemma SecondSyncChangesNothingUnlessStranded(state: RunState, ledger: seq<Entry>)
    requires WellFormed(ledger) && FreshFor(state.run, ledger) && SynchronizeRun(state, ledger).Done?
    ensures var ledger' := SynchronizeRun(state, ledger).ledger;
      SynchronizeRun(state, ledger') == if Stranded(state, ledger) then Failed(HistoryTooShort) else Done(ledger')
  {
    RunSyncShowsHistory(state, ledger);
    var public, ledger' := Public(state.messages), SynchronizeRun(state, ledger).ledger;
    assert |Projection(ledger')| == |ledger'| && |Lines(public)| == |public|;
    if !Stranded(state, ledger) {
      assert public[|ledger'|..] == [];
    }
  }

  /** A Run that was cut off before its answer, with an output: its Session takes it in once, and refuses
      to do it again. */
  lemma SecondSyncCanFail() returns (state: RunState)
    ensures MadeByRun(0, state) && SynchronizeRun(state, []).Done?
    ensures SynchronizeRun(state, SynchronizeRun(state, []).ledger) == Failed(HistoryTooShort)
  {
    var question := Raw(FromUser, "", false, None);
    state := RunState(0, 0, 0, [question], [], [Ref(Made(0), 0, 0, Some(0), FinalMessage(0))]);
    PublicOfOne(question);
    RunSyncSucceedsExactlyIf(0, state, []);
    SecondSyncChangesNothingUnlessStranded(state, []);
  }

  /** Unless something is stranded, saving the Session with the history of the Run adds nothing more. */
  lemma StoreSyncChangesNothing(session: nat, state: RunState, ledger: seq<Entry>)
    requires WellFormed(ledger) && FreshFor(state.run, ledger) && SynchronizeRun(state, ledger).Done?
    ensures var ledger' := SynchronizeRun(state, ledger).ledger;
      Synchronize(session, state.messages, ledger') == Synced(ledger')
  {
    RunSyncShowsHistory(state, ledger);
    var public, ledger' := Public(state.messages), SynchronizeRun(state, ledger).ledger;
    assert |Projection(ledger')| == |ledger'| && |Lines(public)| == |public|;
    if Stranded(state, ledger) {
      assert !(Projection(ledger') <= Lines(public)) && ledger' != [];
    } else {
      NothingToAppend(session, state.messages, ledger');
    }
  }

  // ---------------------------------------------------------------------------------------------
  // When the synchronization succeeds

  predicate OnlyLastIsAnswer(appended: seq<Raw>, offset: nat) {
    forall k :: offset <= k < |appended| - 1 ==> RoleOf(appended[k]) == User
  }

  // What the loop needs: somebody to reply to, and a single answer if there are charts.
  predicate Appendable(state: RunState, appended: seq<Raw>, offset: nat, ledger: seq<Entry>) {
    offset < |appended| ==>
      && (LastUser(ledger).Some? || RoleOf(appended[offset]) == User)
      && (state.presentations == [] || OnlyLastIsAnswer(appended, offset))
      && (RoleOf(appended[|appended| - 1]) == Assistant ==> OwnedBy(state.presentations, FinalMessage(state.run)))
  }

  // No chart claims a message other than the final one that this Run could write.
  predicate NoStrayOwners(state: RunState) {
    forall ref :: ref in state.presentations ==> ref.owner == FinalMessage(state.run)
  }

  lemma {:induction false} AppendRunSucceeds(state: RunState, appended: seq<Raw>, offset: nat, ledger: seq<Entry>)
    requires offset <= |appended| && NoStrayOwners(state)
    ensures AppendRun(state, appended, offset, ledger).Done? <==> Appendable(state, appended, offset, ledger)
    decreases |appended| - offset
  {
    if offset < |appended| {
      var entry := RunEntry(state, appended, offset, ledger);
      assert (ledger + [entry])[..|ledger|] == ledger;
      AppendRunSucceeds(state, appended, offset + 1, ledger + [entry]);
      if state.presentations != [] {
        assert state.presentations[0] in state.presentations;
      }
    }
  }

  /** The synchronization succeeds exactly if the ledger shows a prefix of the history, every new
      answer has a user message before it, and charts come with at most one answer, the last message. */
  lemma RunSyncSucceedsExactlyIf(session: nat, state: RunState, ledger: seq<Entry>)
    requires WellFormed(ledger) && FreshFor(state.run, ledger) && MadeByRun(session, state)
    ensures var public := Public(state.messages);
      SynchronizeRun(state, ledger).Done? <==>
        && Projection(ledger) <= Lines(public)
        && (|ledger| < |public| ==>
              && (LastUser(ledger).Some? || RoleOf(public[|ledger|]) == User)
              && (state.presentations == [] || OnlyLastIsAnswer(public, |ledger|)))
        && (Stranded(state, ledger) ==> LastUser(ledger).Some? || |ledger| < |public|)
  {
    var public := Public(state.messages);
    assert |Projection(ledger)| == |ledger| && |Lines(public)| == |public|;
    if Projection(ledger) <= Lines(public) {
      var appended := public[|ledger|..];
      AppendRunSucceeds(state, appended, 0, ledger);
      AppendRunIsSound(state, ledger, appended, 0, ledger);
      var r := AppendRun(state, appended, 0, ledger);
      if r.Done? {
        FinalIsKnown(state, ledger, r.ledger, appended);
        UserStays(state, appended, 0, ledger);
        KnownAfterCarry(state, r.ledger);
      }
    }
  }

  lemma {:induction false} UserStays(state: RunState, appended: seq<Raw>, offset: nat, ledger: seq<Entry>)
    requires offset <= |appended|
    ensures var r := AppendRun(state, appended, offset, ledger);
      r.Done? ==> (LastUser(r.ledger).Some? <==> LastUser(ledger).Some? || offset < |appended|)
    decreases |appended| - offset
  {
    if offset < |appended| {
      var entry := RunEntry(state, appended, offset, ledger);
      assert (ledger + [entry])[..|ledger|] == ledger;
      UserStays(state, appended, offset + 1, ledger + [entry]);
    }
  }

  // With a user message to reply to, or with nothing to carry, nothing can go wrong any more.
  lemma KnownAfterCarry(state: RunState, ledger: seq<Entry>)
    requires OwnedBy(state.presentations + state.outputs, FinalMessage(state.run))
    ensures CarryBoth(state, ledger).Done? <==>
              || LastUser(ledger).Some? || state.presentations + state.outputs == []
              || Known(ledger, FinalMessage(state.run))
  {
    assert state.presentations + [] == state.presentations && [] + state.outputs == state.outputs;
    forall ref | ref in state.presentations || ref in state.outputs ensures ref.owner == FinalMessage(state.run) {
      assert ref in state.presentations + state.outputs;
    }
    var first := Carry(state, ledger, state.presentations, []);
    if first.Done? && first.ledger != ledger {
      assert Placeholder(state, ledger, state.presentations, []) in first.ledger;
    }
  }

  // ---------------------------------------------------------------------------------------------
  // Self-containment

  lemma {:induction false} AppendRunOwns(session: nat, state: RunState, appended: seq<Raw>, offset: nat,
                                         ledger: seq<Entry>)
    requires offset <= |appended| && MadeByRun(session, state)
    requires state.outputs == [] || OnlyLastIsAnswer(appended, offset)
    requires AllOwn(session, ledger)
    ensures var r := AppendRun(state, appended, offset, ledger);
      r.Done? ==> AllOwn(session, r.ledger)
    decreases |appended| - offset
  {
    var r := AppendRun(state, appended, offset, ledger);
    if offset < |appended| && r.Done? {
      var entry := RunEntry(state, appended, offset, ledger);
      forall ref | ref in entry.artifacts || ref in entry.outputs ensures ref in state.presentations + state.outputs {
      }
      assert OwnsItsRefs(session, entry);
      AppendRunOwns(session, state, appended, offset + 1, ledger + [entry]);
    }
  }

  lemma CarryOwns(session: nat, state: RunState, ledger: seq<Entry>, artifacts: seq<Ref>, outputs: seq<Ref>)
    requires MadeByRun(session, state)
    requires forall ref :: ref in artifacts + outputs ==> ref in state.presentations + state.outputs
    requires AllOwn(session, ledger)
    ensures var r := Carry(state, ledger, artifacts, outputs);
      r.Done? ==> AllOwn(session, r.ledger)
  {
    forall ref | ref in artifacts || ref in outputs ensures ref in state.presentations + state.outputs {
      assert ref in artifacts + outputs;
    }
    assert OwnsItsRefs(session, Placeholder(state, ledger, artifacts, outputs));
  }

  /** The new ledger passes the readers' check if outputs come with at most one answer. */
  lemma RunSyncIsSelfContained(session: nat, state: RunState, ledger: seq<Entry>)
    requires WellFormed(ledger) && FreshFor(state.run, ledger) && MadeByRun(session, state)
    requires AllOwn(session, ledger)
    requires state.outputs == [] || OnlyLastIsAnswer(Public(state.messages), |ledger|)
    ensures SynchronizeRun(state, ledger).Done? ==> SelfContained(session, SynchronizeRun(state, ledger).ledger)
  {
    var public := Public(state.messages);
    if SynchronizeRun(state, ledger).Done? {
      RunSyncShowsHistory(state, ledger);
      var appended := public[|ledger|..];
      AppendRunOwns(session, state, appended, 0, ledger);
      var middle := AppendRun(state, appended, 0, ledger).ledger;
      CarryOwns(session, state, middle, state.presentations, []);
      CarryOwns(session, state, Carry(state, middle, state.presentations, []).ledger, [], state.outputs);
      WellFormedIsSelfContained(session, SynchronizeRun(state, ledger).ledger);
    }
  }

  lemma {:induction false} AppendRunDisowns(state: RunState, appended: seq<Raw>, offset: nat, ledger: seq<Entry>,
                                            k: nat)
    requires offset <= k < |appended| - 1 && RoleOf(appended[k]) == Assistant
    ensures var r := AppendRun(state, appended, offset, ledger);
      r.Done? ==>
        && |ledger| + (k - offset) < |r.ledger|
        && r.ledger[|ledger| + (k - offset)].id == RunMessage(state.run, Assistant, k)
        && r.ledger[|ledger| + (k - offset)].outputs == state.outputs
    decreases |appended| - offset
  {
    var entry := RunEntry(state, appended, offset, ledger);
    if EntryFailure(entry) == None {
      if offset < k {
        AppendRunDisowns(state, appended, offset + 1, ledger + [entry], k);
      } else {
        AppendRunGrows(state, appended, offset + 1, ledger + [entry]);
      }
    }
  }

  lemma {:induction false} AppendRunGrows(state: RunState, appended: seq<Raw>, offset: nat, ledger: seq<Entry>)
    requires offset <= |appended|
    ensures var r := AppendRun(state, appended, offset, ledger); r.Done? ==> ledger <= r.ledger
    decreases |appended| - offset
  {
    if offset < |appended| {
      AppendRunGrows(state, appended, offset + 1, ledger + [RunEntry(state, appended, offset, ledger)]);
    }
  }

  /** An earlier answer shows the same outputs, which belong to the final message: readers then refuse
      the whole Session. */
  lemma EarlierAnswerBreaksSelfContainment(session: nat, state: RunState, ledger: seq<Entry>, k: nat)
    requires WellFormed(ledger) && FreshFor(state.run, ledger) && MadeByRun(session, state)
    requires state.outputs != [] && SynchronizeRun(state, ledger).Done?
    requires |ledger| <= k < |Public(state.messages)| - 1 && RoleOf(Public(state.messages)[k]) == Assistant
    ensures var ledger' := SynchronizeRun(state, ledger).ledger;
      k < |ledger'| && ledger'[k].outputs == state.outputs && !AllOwn(session, ledger')
  {
    hide AppendRun, Carry, Midway, FreshFor, WellFormed;
    MidwayBegins(state, ledger, Public(state.messages)[|ledger|..]);
    var public := Public(state.messages);
    var appended := public[|ledger|..];
    AppendRunDisowns(state, appended, 0, ledger, k - |ledger|);
    var middle := AppendRun(state, appended, 0, ledger).ledger;
    AppendRunIsSound(state, ledger, appended, 0, ledger);
    CarryIsSound(state, middle, state.presentations, []);
    CarryIsSound(state, Carry(state, middle, state.presentations, []).ledger, [], state.outputs);
    var entry := SynchronizeRun(state, ledger).ledger[k];
    assert entry == middle[k];
    var ref := state.outputs[0];
    assert ref in entry.outputs && ref in state.presentations + state.outputs;
    assert !OwnsItsRefs(session, entry);
  }

  /** Readers accept the new ledger of a readable Session exactly if the Run has made no outputs, or has
      no answer before its last message. */
  lemma RunSyncIsSelfContainedExactlyIf(session: nat, state: RunState, ledger: seq<Entry>)
    requires Sound(session, ledger) && FreshFor(state.run, ledger) && MadeByRun(session, state)
    requires SynchronizeRun(state, ledger).Done?
    ensures var ledger' := SynchronizeRun(state, ledger).ledger;
      && (SelfContained(session, ledger')
          <==> state.outputs == [] || OnlyLastIsAnswer(Public(state.messages), |ledger|))
      && (SelfContained(session, ledger') <==> Sound(session, ledger'))
  {
    hide ReplyStaysInside, SynchronizeRun, RepliesWell;
    RunSyncShowsHistory(state, ledger);
    var public := Public(state.messages);
    if state.outputs == [] || OnlyLastIsAnswer(public, |ledger|) {
      RunSyncIsSelfContained(session, state, ledger);
    } else {
      var k :| |ledger| <= k < |public| - 1 && RoleOf(public[k]) == Assistant;
      EarlierAnswerBreaksSelfContainment(session, state, ledger, k);
    }
  }

  // The last message of the new ledger shows the outputs too: the final answer, or the empty one.
  lemma LastShowsOutputs(state: RunState, ledger: seq<Entry>, k: nat)
    requires WellFormed(ledger) && FreshFor(state.run, ledger) && SynchronizeRun(state, ledger).Done?
    requires state.outputs != [] && state.presentations == []
    requires |ledger| <= k < |Public(state.messages)| - 1
    ensures var ledger' := SynchronizeRun(state, ledger).ledger;
      k < |ledger'| - 1 && ledger'[|ledger'| - 1].outputs == state.outputs
  {
    hide AppendRun;
    var appended := Public(state.messages)[|ledger|..];
    AppendRunIsSound(state, ledger, appended, 0, ledger);
    var middle := AppendRun(state, appended, 0, ledger).ledger;
    FinalIsKnown(state, ledger, middle, appended);
    if RoleOf(appended[|appended| - 1]) == Assistant {
      LastAnswerShowsAll(state, appended, 0, ledger);
    }
  }

  lemma {:induction false} LastAnswerShowsAll(state: RunState, appended: seq<Raw>, offset: nat, ledger: seq<Entry>)
    requires offset < |appended| && RoleOf(appended[|appended| - 1]) == Assistant
    ensures var r := AppendRun(state, appended, offset, ledger);
      r.Done? ==> r.ledger != [] && r.ledger[|r.ledger| - 1].outputs == state.outputs
    decreases |appended| - offset
  {
    var entry := RunEntry(state, appended, offset, ledger);
    if EntryFailure(entry) == None {
      if offset < |appended| - 1 {
        LastAnswerShowsAll(state, appended, offset + 1, ledger + [entry]);
      } else {
        assert AppendRun(state, appended, offset + 1, ledger + [entry]) == Done(ledger + [entry]);
      }
    }
  }

  // ---------------------------------------------------------------------------------------------
  // The new messages one by one

  // The entry for the i-th public message, where `start` messages were known before: its role and
  // content, the Run and a time of the Run; a question shows nothing, an answer everything the Run made,
  // and it replies to the latest question.
  ghost predicate IsRunEntry(state: RunState, public: seq<Raw>, start: nat, ledger: seq<Entry>, i: nat)
    requires start <= i < |public| && i < |ledger|
  {
    var entry := ledger[i];
    && entry.role == (if public[i].kind == FromUser then User else Assistant)
    && entry.content == public[i].content && entry.run == Some(state.run)
    && (entry.role == User ==>
          && entry.id == RunMessage(state.run, User, i - start) && entry.createdAt == Some(state.createdAt)
          && entry.replyTo == None && entry.artifacts == [] && entry.outputs == [])
    && (entry.role == Assistant ==>
          && entry.id == (if i == |public| - 1 then FinalMessage(state.run)
                          else RunMessage(state.run, Assistant, i - start))
          && entry.createdAt == Some(state.updatedAt)
          && entry.artifacts == state.presentations && entry.outputs == state.outputs
          && RepliesToLatest(ledger, i))
  }

  ghost predicate RepliesToLatest(ledger: seq<Entry>, i: nat)
    requires i < |ledger|
  {
    exists u: nat :: IsLatestUser(ledger, i, u) && ledger[i].replyTo == Some(ledger[u].id)
  }

  // The message behind the history that carries what has no answer to be shown with.
  ghost predicate IsPlaceholder(state: RunState, ledger: seq<Entry>, i: nat)
    requires i < |ledger|
  {
    var entry := ledger[i];
    && entry.id == FinalMessage(state.run) && entry.role == Assistant && entry.content == ""
    && entry.run == Some(state.run) && entry.createdAt == Some(state.updatedAt) && RepliesToLatest(ledger, i)
    && entry.artifacts == state.presentations
    && entry.outputs == (if state.presentations == [] then state.outputs else [])
  }

  lemma RepliesStay(ledger: seq<Entry>, more: seq<Entry>, i: nat)
    requires i < |ledger| && RepliesToLatest(ledger, i)
    ensures RepliesToLatest(ledger + more, i)
  {
    var u: nat :| IsLatestUser(ledger, i, u) && ledger[i].replyTo == Some(ledger[u].id);
    assert IsLatestUser(ledger + more, i, u);
  }

  lemma LastReplies(ledger: seq<Entry>, entry: Entry)
    requires LastUser(ledger).Some? && entry.replyTo == LastUser(ledger)
    ensures RepliesToLatest(ledger + [entry], |ledger|)
  {
    var u := LastUserIsLatest(ledger);
    assert IsLatestUser(ledger + [entry], |ledger|, u);
  }

  lemma NextIsRunEntry(state: RunState, public: seq<Raw>, start: nat, ledger: seq<Entry>)
    requires start <= |ledger| < |public|
    requires forall i :: start <= i < |ledger| ==> IsRunEntry(state, public, start, ledger, i)
    requires EntryFailure(RunEntry(state, public[start..], |ledger| - start, ledger)) == None
    ensures var longer := ledger + [RunEntry(state, public[start..], |ledger| - start, ledger)];
      forall i :: start <= i < |longer| ==> IsRunEntry(state, public, start, longer, i)
  {
    hide RepliesToLatest, LastUser;
    var entry := RunEntry(state, public[start..], |ledger| - start, ledger);
    forall i | start <= i < |ledger| + 1 ensures IsRunEntry(state, public, start, ledger + [entry], i) {
      if i < |ledger| {
        assert IsRunEntry(state, public, start, ledger, i);
        if ledger[i].role == Assistant {
          RepliesStay(ledger, [entry], i);
        }
      } else if entry.role == Assistant {
        LastReplies(ledger, entry);
      }
    }
  }

  lemma {:induction false} AppendRunExactly(state: RunState, public: seq<Raw>, start: nat, ledger: seq<Entry>)
    requires start <= |ledger| <= |public|
    requires forall i :: start <= i < |ledger| ==> IsRunEntry(state, public, start, ledger, i)
    ensures var r := AppendRun(state, public[start..], |ledger| - start, ledger);
      r.Done? ==>
        && |r.ledger| == |public|
        && forall i :: start <= i < |public| ==> IsRunEntry(state, public, start, r.ledger, i)
    decreases |public| - |ledger|
  {
    hide IsRunEntry, RunEntry;
    if |ledger| < |public| {
      var entry := RunEntry(state, public[start..], |ledger| - start, ledger);
      if EntryFailure(entry) == None {
        NextIsRunEntry(state, public, start, ledger);
        AppendRunExactly(state, public, start, ledger + [entry]);
      }
    }
  }

  lemma CarryExactly(state: RunState, public: seq<Raw>, start: nat, ledger: seq<Entry>)
    requires start <= |public| == |ledger| && CarryBoth(state, ledger).Done?
    requires forall i :: start <= i < |public| ==> IsRunEntry(state, public, start, ledger, i)
    ensures var r := CarryBoth(state, ledger).ledger;
      && ledger <= r
      && (forall i :: start <= i < |public| ==> IsRunEntry(state, public, start, r, i))
      && |r| == |public| + (if state.presentations + state.outputs == [] || Known(ledger, FinalMessage(state.run))
                            then 0 else 1)
      && (|r| > |public| ==> IsPlaceholder(state, r, |public|))
  {
    hide RepliesToLatest, LastUser;
    var r := CarryBoth(state, ledger).ledger;
    assert state.presentations + [] == state.presentations && [] + state.outputs == state.outputs;
    var first := Carry(state, ledger, state.presentations, []).ledger;
    if first != ledger {
      assert first[|ledger|] in first && Known(first, FinalMessage(state.run));
    }
    if r != ledger {
      var entry := r[|ledger|];
      assert r == ledger + [entry];
      LastReplies(ledger, entry);
      forall i | start <= i < |public| ensures IsRunEntry(state, public, start, r, i) {
        assert IsRunEntry(state, public, start, ledger, i);
        if ledger[i].role == Assistant {
          RepliesStay(ledger, [entry], i);
        }
      }
    }
  }

  /** Every new message of the history is there with exactly what belongs to it, the final answer with all
      charts and all outputs; and what has no final answer is carried by one more, empty message. */
  lemma RunSyncWritesExactly(state: RunState, ledger: seq<Entry>)
    requires WellFormed(ledger) && FreshFor(state.run, ledger) && SynchronizeRun(state, ledger).Done?
    ensures var public, r := Public(state.messages), SynchronizeRun(state, ledger).ledger;
      && ledger <= r && |ledger| <= |public|
      && |r| == |public| + (if Stranded(state, ledger) then 1 else 0)
      && (forall i :: |ledger| <= i < |public| ==> IsRunEntry(state, public, |ledger|, r, i))
      && (Stranded(state, ledger) ==> IsPlaceholder(state, r, |public|))
  {
    hide AppendRun, CarryBoth, IsRunEntry, IsPlaceholder;
    var public := Public(state.messages);
    AppendRunIsSound(state, ledger, public[|ledger|..], 0, ledger);
    AppendRunExactly(state, public, |ledger|, ledger);
    var middle := AppendRun(state, public[|ledger|..], 0, ledger).ledger;
    FinalIsKnown(state, ledger, middle, public[|ledger|..]);
    CarryExactly(state, public, |ledger|, middle);
  }

  /** All new messages are of this Run, and show everything it made or nothing of a kind. */
  lemma NewMessagesAreOfRun(state: RunState, ledger: seq<Entry>, i: nat)
    requires WellFormed(ledger) && FreshFor(state.run, ledger) && SynchronizeRun(state, ledger).Done?
    requires |ledger| <= i < |SynchronizeRun(state, ledger).ledger|
    ensures var entry := SynchronizeRun(state, ledger).ledger[i];
      && OfRun(entry.id, state.run)
      && (entry.artifacts == [] || entry.artifacts == state.presentations)
      && (entry.outputs == [] || entry.outputs == state.outputs)
  {
    hide SynchronizeRun, RepliesToLatest;
    RunSyncWritesExactly(state, ledger);
    var public, r := Public(state.messages), SynchronizeRun(state, ledger).ledger;
    if i < |public| {
      assert IsRunEntry(state, public, |ledger|, r, i);
    } else {
      assert IsPlaceholder(state, r, i);
    }
  }

  /** Everything the Run made is shown by a new message exactly if it has a final answer, or has not made
      both charts and outputs: the empty message carries the charts alone. */
  lemma AllIsShownExactlyIf(session: nat, state: RunState, ledger: seq<Entry>)
    requires WellFormed(ledger) && FreshFor(state.run, ledger) && SynchronizeRun(state, ledger).Done?
    requires MadeByRun(session, state)
    requires state.presentations + state.outputs != []
    ensures var r := SynchronizeRun(state, ledger).ledger;
      (exists i :: |ledger| <= i < |r| && r[i].artifacts == state.presentations && r[i].outputs == state.outputs)
      <==> EndsInAnswer(state, ledger) || state.presentations == [] || state.outputs == []
  {
    hide SynchronizeRun, RepliesToLatest;
    RunSyncWritesExactly(state, ledger);
    RunSyncSucceedsExactlyIf(session, state, ledger);
    var public, r := Public(state.messages), SynchronizeRun(state, ledger).ledger;
    if EndsInAnswer(state, ledger) {
      assert IsRunEntry(state, public, |ledger|, r, |public| - 1);
      assert r[|public| - 1].artifacts == state.presentations && r[|public| - 1].outputs == state.outputs;
    } else {
      assert r[|public|].artifacts == state.presentations;
      forall i | |ledger| <= i < |public| && state.presentations != [] ensures r[i].artifacts == [] {
        assert IsRunEntry(state, public, |ledger|, r, i);
        assert RoleOf(public[i]) == User;
      }
    }
  }

  /** A Run that was cut off before its answer, with a chart and an output: no message shows the output. */
  lemma OutputCanStayUnshown() returns (state: RunState)
    ensures MadeByRun(0, state) && SynchronizeRun(state, []).Done? && state.outputs != []
    ensures forall entry :: entry in SynchronizeRun(state, []).ledger ==> entry.outputs == []
  {
    hide SynchronizeRun, RepliesToLatest, WellFormed, Lines, Projection;
    state := CutOff();
    CutOffIsInOrder(state);
    RunSyncSucceedsExactlyIf(0, state, []);
    RunSyncWritesExactly(state, []);
    var r := SynchronizeRun(state, []).ledger;
    assert IsRunEntry(state, state.messages, 0, r, 0) && IsPlaceholder(state, r, 1);
    assert r == [r[0], r[1]];
  }

  function CutOff(): RunState {
    RunState(0, 0, 0, [Raw(FromUser, "", false, None)], [Ref(Made(0), 0, 0, Some(0), FinalMessage(0))],
             [Ref(Made(1), 0, 0, Some(0), FinalMessage(0))])
  }

  lemma CutOffIsInOrder(state: RunState)
    requires state == CutOff()
    ensures Public(state.messages) == state.messages && MadeByRun(0, state)
    ensures WellFormed([]) && FreshFor(0, []) && Projection([]) <= Lines(state.messages)
  {
    PublicOfOne(state.messages[0]);
  }
}
