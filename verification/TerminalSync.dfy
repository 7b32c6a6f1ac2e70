/**
  Committing a finished Run to its Session: the ledger, what the Run made, and the history go into the
  document in one save; only then is the Run marked as synchronized.  A crash in between repeats it.
*/
module TerminalSync {
  import opened Options
  import opened RunSync
  import opened SessionFork
  import opened SessionLedger
  import opened SessionStore

  predicate DistinctIds(refs: seq<Ref>) {
    forall i, j :: 0 <= i < j < |refs| ==> refs[i].id != refs[j].id
  }

  // The position of the item with this id.
  function PositionOf(refs: seq<Ref>, id: RefId): (at: Option<nat>)
    ensures at.Some? ==> at.value < |refs| && refs[at.value].id == id
    ensures at == None <==> forall i :: 0 <= i < |refs| ==> refs[i].id != id
  {
    if refs == [] then None
    else
      var at := PositionOf(refs[..|refs| - 1], id);
      assert forall i :: 0 <= i < |refs| - 1 ==> refs[..|refs| - 1][i] == refs[i];
      if at.Some? then at else if refs[|refs| - 1].id == id then Some(|refs| - 1) else None
  }

  // One item for every id, where it came first; of several the last counts.
  function ById(refs: seq<Ref>): (distinct: seq<Ref>)
    ensures DistinctIds(distinct)
  {
    if refs == [] then []
    else
      var front, last := ById(refs[..|refs| - 1]), refs[|refs| - 1];
      var at := PositionOf(front, last.id);
      if at.Some? then front[at.value := last] else front + [last]
  }

  // What is there stays; of the rest everything with an id of its own is added.
  function AddMissing(kept: seq<Ref>, more: seq<Ref>): seq<Ref>
    decreases |more|
  {
    if more == [] then kept
    else AddMissing(if PositionOf(kept, more[0].id).Some? then kept else kept + [more[0]], more[1..])
  }

  function MergeRefs(kept: seq<Ref>, more: seq<Ref>): seq<Ref> {
    AddMissing(ById(kept), more)
  }

  // Among items with different ids there is one way to find an id.
  lemma {:induction false} LookupInDistinct(refs: seq<Ref>, id: RefId)
    requires DistinctIds(refs)
    ensures Lookup(refs, id) == match PositionOf(refs, id) case Some(at) => Some(refs[at]) case None => None
    decreases |refs|
  {
    if refs != [] {
      var front := refs[..|refs| - 1];
      LookupInDistinct(front, id);
      assert forall i :: 0 <= i < |front| ==> front[i] == refs[i];
    }
  }

  lemma {:induction false} LookupById(refs: seq<Ref>, id: RefId)
    ensures Lookup(ById(refs), id) == Lookup(refs, id)
    decreases |refs|
  {
    if refs != [] {
      LookupById(refs[..|refs| - 1], id);
      LookupOfOneMore(ById(refs[..|refs| - 1]), refs[|refs| - 1], id);
    }
  }

  lemma LookupOfOneMore(front: seq<Ref>, last: Ref, id: RefId)
    requires DistinctIds(front)
    ensures var at := PositionOf(front, last.id);
      var next := if at.Some? then front[at.value := last] else front + [last];
      Lookup(next, id) == if last.id == id then Some(last) else Lookup(front, id)
  {
    hide PositionOf, Lookup;
    var at := PositionOf(front, last.id);
    if at.Some? {
      var next := front[at.value := last];
      assert forall i :: 0 <= i < |front| ==> next[i].id == front[i].id;
      LookupInDistinct(front, id);
      LookupInDistinct(next, id);
      SamePosition(front, next, id);
    } else {
      LookupOfAppend(front, last, id);
    }
  }

  lemma SamePosition(a: seq<Ref>, b: seq<Ref>, id: RefId)
    requires DistinctIds(a) && DistinctIds(b) && |a| == |b| && forall i :: 0 <= i < |a| ==> a[i].id == b[i].id
    ensures PositionOf(a, id) == PositionOf(b, id)
  {
    hide PositionOf;
    if PositionOf(a, id).Some? && PositionOf(b, id).Some? {
      assert a[PositionOf(a, id).value].id == a[PositionOf(b, id).value].id;
    }
  }

  // The first of several with this id.
  function FirstWith(refs: seq<Ref>, id: RefId): Option<Ref> {
    if refs == [] then None else if refs[0].id == id then Some(refs[0]) else FirstWith(refs[1..], id)
  }

  lemma {:induction false} AddMissingExactly(kept: seq<Ref>, more: seq<Ref>, id: RefId)
    requires DistinctIds(kept)
    ensures var merged := AddMissing(kept, more);
      && DistinctIds(merged) && kept <= merged
      && Lookup(merged, id) == if Lookup(kept, id).Some? then Lookup(kept, id) else FirstWith(more, id)
    decreases |more|
  {
    LookupInDistinct(kept, id);
    if more != [] {
      var there := PositionOf(kept, more[0].id).Some?;
      var next := if there then kept else kept + [more[0]];
      AddMissingExactly(next, more[1..], id);
      if !there {
        LookupOfAppend(kept, more[0], id);
      } else if more[0].id == id {
        LookupInDistinct(kept, id);
      }
    }
  }

  /** Every id is there once: with what the Session had last under it, or else with what the Run made first;
      and there is nothing else. */
  lemma MergeExactly(kept: seq<Ref>, more: seq<Ref>, id: RefId)
    ensures var merged := MergeRefs(kept, more);
      && DistinctIds(merged)
      && Lookup(merged, id) == if Lookup(kept, id).Some? then Lookup(kept, id) else FirstWith(more, id)
  {
    LookupById(kept, id);
    AddMissingExactly(ById(kept), more, id);
  }

  lemma {:induction false} DistinctStays(refs: seq<Ref>)
    requires DistinctIds(refs)
    ensures ById(refs) == refs
    decreases |refs|
  {
    if refs != [] {
      var front := refs[..|refs| - 1];
      DistinctStays(front);
      assert refs == front + [refs[|refs| - 1]];
    }
  }

  lemma {:induction false} NothingMissing(kept: seq<Ref>, more: seq<Ref>)
    requires forall ref :: ref in more ==> PositionOf(kept, ref.id).Some?
    ensures AddMissing(kept, more) == kept
    decreases |more|
  {
    if more != [] {
      assert more[0] in more;
      NothingMissing(kept, more[1..]);
    }
  }

  lemma {:induction false} FirstWithIsThere(refs: seq<Ref>, ref: Ref)
    requires ref in refs
    ensures FirstWith(refs, ref.id).Some?
    decreases |refs|
  {
    if refs[0].id != ref.id {
      FirstWithIsThere(refs[1..], ref);
    }
  }

  /** Merging the same again changes nothing. */
  lemma MergeTwice(kept: seq<Ref>, more: seq<Ref>)
    ensures MergeRefs(MergeRefs(kept, more), more) == MergeRefs(kept, more)
  {
    var merged := MergeRefs(kept, more);
    forall ref | ref in more ensures PositionOf(merged, ref.id).Some? {
      MergeExactly(kept, more, ref.id);
      FirstWithIsThere(more, ref);
      LookupInDistinct(merged, ref.id);
    }
    if more == [] {
      DistinctStays(merged);
    } else {
      MergeExactly(kept, more, more[0].id);
      DistinctStays(merged);
    }
    NothingMissing(merged, more);
  }

  // The Session as it is saved, if the Run can be brought into its ledger.
  function Extended(doc: Doc, state: RunState): Option<Doc> {
    var ledger := SynchronizeRun(state, doc.ledger);
    if ledger.Failed? then None
    else
      Some(doc.(ledger := ledger.ledger, messages := state.messages,
                presentations := MergeRefs(doc.presentations, state.presentations),
                outputs := MergeRefs(doc.outputs, state.outputs)))
  }

  /** Loads the Session, extends it and saves it.  The caller marks the Run as synchronized if this
      succeeds. */
  method SyncTerminalSession(store: SessionStore, id: nat, state: RunState, now: int) returns (saving: Option<Saving>)
    requires id in store.docs && store.docs[id].id == id && id !in store.deleted
    modifies store
    ensures saving == None <==> Extended(old(store.docs)[id], state) == None
    ensures saving == None ==> store.Value() == old(store.Value())
    ensures saving.Some? ==>
              var mine := Extended(old(store.docs)[id], state).value;
              && saving.value == SaveDoc(old(store.Value()), mine, true, now)
              && store.Value() == Apply(old(store.Value()), Op.Save(mine, true, now))
  {
    var session := new Session(store.docs[id]);
    session.presentations := MergeRefs(session.presentations, state.presentations);
    session.outputs := MergeRefs(session.outputs, state.outputs);
    var failure := SynchronizeRunLedger(session, state);
    if failure.Some? {
      return None;
    }
    var saved := store.Save(session, Some(state.messages), true, now);
    saving := Some(saved);
  }

  /** The save succeeds, and the document then shows exactly the public history of the Run. */
  lemma SyncedSessionShowsRun(store: Store, id: nat, state: RunState, now: int)
    requires id in store.docs && store.docs[id].id == id && id !in store.deleted
    requires WellFormed(store.docs[id].ledger) && FreshFor(state.run, store.docs[id].ledger)
    requires Extended(store.docs[id], state).Some?
    ensures var mine := Extended(store.docs[id], state).value;
      var saving := SaveDoc(store, mine, true, now);
      && saving.Written? && saving.doc.ledger == mine.ledger && WellFormed(saving.doc.ledger)
      && saving.doc.messages == state.messages && saving.doc.id == id
      && saving.doc.presentations == MergeRefs(store.docs[id].presentations, state.presentations)
      && saving.doc.outputs == MergeRefs(store.docs[id].outputs, state.outputs)
      && (!Stranded(state, store.docs[id].ledger) ==> Projection(saving.doc.ledger) == Lines(Public(state.messages)))
  {
    hide Synchronize, SynchronizeRun, AutoTitle;
    var stored, mine := store.docs[id], Extended(store.docs[id], state).value;
    RunSyncShowsHistory(state, stored.ledger);
    StoreSyncChangesNothing(id, state, stored.ledger);
    var merged := Merged(mine, stored);
    assert stored.ledger <= mine.ledger;
    assert |mine.ledger| <= |stored.ledger| ==> mine.ledger == stored.ledger;
  }

  /** Repeating the whole thing after a crash, with the Session loaded anew, succeeds and changes
      neither ledger nor what the Session shows, unless something is stranded; then it fails. */
  lemma SyncTwiceChangesNothing(store: Store, id: nat, state: RunState, now: int)
    requires id in store.docs && store.docs[id].id == id && id !in store.deleted
    requires WellFormed(store.docs[id].ledger) && FreshFor(state.run, store.docs[id].ledger)
    requires Extended(store.docs[id], state).Some?
    ensures var saving := SaveDoc(store, Extended(store.docs[id], state).value, true, now);
      && saving.Written?
      && Extended(saving.doc, state) == if Stranded(state, store.docs[id].ledger) then None else Some(saving.doc)
  {
    hide SynchronizeRun, SaveDoc, MergeRefs;
    var stored := store.docs[id];
    SyncedSessionShowsRun(store, id, state, now);
    SecondSyncChangesNothingUnlessStranded(state, stored.ledger);
    MergeTwice(stored.presentations, state.presentations);
    MergeTwice(stored.outputs, state.outputs);
  }

  // ---------------------------------------------------------------------------------------------
  // What an earlier answer does to the Session and to its forks

  /** The save of a Session in order leaves it readable exactly if the Run has made no outputs, or has
      no answer before its last message. */
  lemma SyncWritesCleanExactlyIf(store: Store, id: nat, state: RunState, now: int)
    requires id in store.docs && store.docs[id].id == id && Sound(id, store.docs[id].ledger)
    requires FreshFor(state.run, store.docs[id].ledger) && MadeByRun(id, state)
    requires Extended(store.docs[id], state).Some?
    ensures WritesClean(Op.Save(Extended(store.docs[id], state).value, true, now))
            <==> state.outputs == [] || OnlyLastIsAnswer(Public(state.messages), |store.docs[id].ledger|)
  {
    hide SynchronizeRun, Sound, OnlyLastIsAnswer, MadeByRun, FreshFor;
    RunSyncIsSelfContainedExactlyIf(id, state, store.docs[id].ledger);
  }

  /** After a Run with outputs and an answer before its last message, every fork before a later user
      message is refused by readers. */
  lemma EarlierAnswerSpoilsForks(state: RunState, ledger: seq<Entry>, k: nat, source: Doc, before: MessageId,
                                 target: nat, doc: Doc)
    requires WellFormed(ledger) && FreshFor(state.run, ledger) && MadeByRun(source.id, state)
    requires state.outputs != [] && SynchronizeRun(state, ledger).Done?
    requires |ledger| <= k < |Public(state.messages)| - 1 && RoleOf(Public(state.messages)[k]) == Assistant
    requires WellFormed(source.ledger) && SynchronizeRun(state, ledger).ledger <= source.ledger
    requires Boundary(source.ledger, before).Some?
    requires |SynchronizeRun(state, ledger).ledger| <= Boundary(source.ledger, before).value
    requires doc.ledger == CloneAll(source.ledger[..Boundary(source.ledger, before).value], target)
    requires doc.messages == RawMessages(doc.ledger)
    ensures !SelfContained(target, doc.ledger)
  {
    hide SynchronizeRun, CloneAll, WellFormed;
    var public, ledger' := Public(state.messages), SynchronizeRun(state, ledger).ledger;
    RunSyncSucceedsExactlyIf(source.id, state, ledger);
    assert !OnlyLastIsAnswer(public, |ledger|) && state.presentations == [];
    EarlierAnswerBreaksSelfContainment(source.id, state, ledger, k);
    LastShowsOutputs(state, ledger, k);
    var copied := source.ledger[..Boundary(source.ledger, before).value];
    assert copied[k] == ledger'[k] && copied[|ledger'| - 1] == ledger'[|ledger'| - 1];
    assert state.outputs[0] in copied[k].outputs && state.outputs[0] in copied[|ledger'| - 1].outputs;
    assert ShareOutput(copied[k], copied[|ledger'| - 1]);
    ForkIsSelfContainedExactlyIf(source, before, target, doc);
  }

  function Question(): Raw {
    Raw(FromUser, "", false, None)
  }

  function Answer(): Raw {
    Raw(FromAssistant, "", false, None)
  }

  // A Run with two answers and one output.
  function TwoAnswers(): RunState {
    RunState(0, 0, 0, [Question(), Answer(), Answer()], [], [Ref(Made(0), 0, 0, Some(0), FinalMessage(0))])
  }

  function EmptyDoc(): Doc {
    Doc(0, 0, 0, EMPTY_SESSION_TITLE, Auto, 1, [], [], None, [], [])
  }

  lemma TwoAnswersSynced()
    ensures Public(TwoAnswers().messages) == TwoAnswers().messages && |TwoAnswers().messages| == 3
    ensures RoleOf(TwoAnswers().messages[1]) == Assistant && TwoAnswers().outputs != []
    ensures FreshFor(TwoAnswers().run, []) && MadeByRun(0, TwoAnswers())
    ensures SynchronizeRun(TwoAnswers(), []).Done? && Extended(EmptyDoc(), TwoAnswers()).Some?
    ensures Extended(EmptyDoc(), TwoAnswers()).value.ledger == SynchronizeRun(TwoAnswers(), []).ledger
    ensures var ledger := Extended(EmptyDoc(), TwoAnswers()).value.ledger;
      && |ledger| == 3 && WellFormed(ledger) && Projection(ledger) == Lines(TwoAnswers().messages)
      && !HasId(ledger, SessionMessage(0, 3, User)) && !Known(ledger, SessionMessage(0, 3, User))
  {
    hide SynchronizeRun, MergeRefs, RepliesWell;
    var state := TwoAnswers();
    AllPublic(state.messages);
    assert Projection([]) == [] && FreshFor(0, []);
    RunSyncSucceedsExactlyIf(0, state, []);
    RunSyncShowsHistory(state, []);
    var ledger := SynchronizeRun(state, []).ledger;
    assert |Projection(ledger)| == |ledger| && |Lines(state.messages)| == 3;
    forall i | 0 <= i < 3 ensures OfRun(ledger[i].id, 0) {
      NewMessagesAreOfRun(state, [], i);
    }
    KnownIsHasId(ledger, SessionMessage(0, 3, User));
  }

  // A new user message goes to the end of a ledger that shows everything before it.
  lemma QuestionIsAdded(session: nat, messages: seq<Raw>, ledger: seq<Entry>)
    requires Public(messages) == messages && Projection(ledger) == Lines(messages)
    requires !Known(ledger, SessionMessage(session, |ledger|, User))
    ensures var entry := NextEntry(session, Question(), ledger);
      Synchronize(session, messages + [Question()], ledger) == Synced(ledger + [entry])
  {
    var public := messages + [Question()];
    assert public[..|messages|] == messages;
    assert |Projection(ledger)| == |ledger| && |Lines(messages)| == |messages|;
    assert Projection(ledger) <= Lines(public);
    var entry := NextEntry(session, Question(), ledger);
    assert AppendPublic(session, public, ledger + [entry]) == Synced(ledger + [entry]);
  }

  lemma SaveQuestion(store: Store, doc: Doc)
    requires store.docs == map[0 := doc] && store.deleted == {} && doc.id == 0
    requires Public(doc.messages) == doc.messages && Projection(doc.ledger) == Lines(doc.messages)
    requires !Known(doc.ledger, SessionMessage(0, |doc.ledger|, User))
    ensures var saving := SaveDoc(store, doc.(messages := doc.messages + [Question()]), true, 0);
      && saving.Written? && saving.doc.id == 0
      && saving.doc.ledger == doc.ledger + [NextEntry(0, Question(), doc.ledger)]
      && saving.doc.outputs == doc.outputs && saving.doc.presentations == doc.presentations
  {
    hide Synchronize, AutoTitle;
    QuestionIsAdded(0, doc.messages, doc.ledger);
    var mine := doc.(messages := doc.messages + [Question()]);
    assert Merged(mine, doc) == Written(mine);
  }

  lemma EmptyIsWellFormed()
    ensures WellFormed([])
  {
  }

  lemma FirstSave()
    ensures SaveDoc(Store(map[], {}), EmptyDoc(), false, 0) == Written(EmptyDoc())
  {
    assert Public([]) == [];
  }

  // The Session after the Run and one more question can be forked before the question.
  lemma QuestionCanBeForkedBefore(ledger: seq<Entry>, source: Doc)
    requires Extended(EmptyDoc(), TwoAnswers()).Some?
    requires ledger == Extended(EmptyDoc(), TwoAnswers()).value.ledger
    requires source.ledger == ledger + [NextEntry(0, Question(), ledger)]
    requires source.outputs == MergeRefs([], TwoAnswers().outputs)
    ensures WellFormed(source.ledger) && Boundary(source.ledger, SessionMessage(0, 3, User)) == Some(3)
    ensures source.ledger[..3] == ledger
    ensures forall entry :: entry in ledger ==> Obstacle(source, ledger, 1, entry, {}) == None
  {
    hide SynchronizeRun, Boundary, OutputObstacle, CloneReply;
    TwoAnswersSynced();
    EmptyIsWellFormed();
    var entry := NextEntry(0, Question(), ledger);
    AppendKeepsWellFormed(ledger, entry);
    assert source.ledger[3] == entry && forall i :: 0 <= i < 3 ==> source.ledger[i] == ledger[i];
    forall entry | entry in ledger ensures Obstacle(source, ledger, 1, entry, {}) == None {
      var i :| 0 <= i < 3 && ledger[i] == entry;
      NewMessagesAreOfRun(TwoAnswers(), [], i);
      OutputIsKept();
      ForkSucceeds(source, ledger, 1, entry, {});
    }
  }

  lemma OutputIsKept()
    ensures MergeRefs([], TwoAnswers().outputs) == TwoAnswers().outputs
    ensures AllBacked(TwoAnswers().outputs, TwoAnswers().outputs)
  {
    var outputs := TwoAnswers().outputs;
    assert ById([]) == [] && AddMissing([] + [outputs[0]], []) == outputs;
  }

  // A Session, and a Run with two answers and an output.
  lemma SavesOfRun() returns (ops: seq<Op>, synced: Doc)
    ensures Run(Store(map[], {}), ops) && Exec(Store(map[], {}), ops) == Store(map[0 := synced], {})
    ensures Extended(EmptyDoc(), TwoAnswers()).Some? && synced.id == 0 && synced.messages == TwoAnswers().messages
    ensures synced.ledger == Extended(EmptyDoc(), TwoAnswers()).value.ledger
    ensures synced.outputs == MergeRefs([], TwoAnswers().outputs)
  {
    hide SaveDoc, SynchronizeRun, MergeRefs, WellFormed, Lines, Projection, Public, Known, RoleOf, MadeByRun;
    hide FreshFor, TwoAnswers, AutoTitle, HasId, Run, Exec;
    var state := TwoAnswers();
    var store0, store1 := Store(map[], {}), Store(map[0 := EmptyDoc()], {});
    FirstSave();
    TwoAnswersSynced();
    var a, b := Op.Save(EmptyDoc(), false, 0), Op.Save(Extended(EmptyDoc(), state).value, true, 0);
    NothingRuns(store0);
    RunOfAppend(store0, [], a);
    assert Apply(store0, a) == store1 && store1.docs[0] == EmptyDoc();
    EmptyIsWellFormed();
    SyncedSessionShowsRun(store1, 0, state, 0);
    synced := SaveDoc(store1, b.mine, true, 0).doc;
    RunOfAppend(store0, [] + [a], b);
    assert Apply(store1, b) == Store(map[0 := synced], {});
    ops := [] + [a] + [b];
  }

  lemma NothingRuns(store: Store)
    ensures Run(store, []) && Exec(store, []) == store
  {
  }

  // One more question.
  lemma SavesBeforeFork() returns (ops: seq<Op>, source: Doc)
    ensures Run(Store(map[], {}), ops) && Exec(Store(map[], {}), ops) == Store(map[0 := source], {})
    ensures Extended(EmptyDoc(), TwoAnswers()).Some? && source.id == 0
    ensures var ledger := Extended(EmptyDoc(), TwoAnswers()).value.ledger;
      source.ledger == ledger + [NextEntry(0, Question(), ledger)]
    ensures source.outputs == MergeRefs([], TwoAnswers().outputs) && |source.ledger| == 4
  {
    hide SaveDoc, SynchronizeRun, MergeRefs, WellFormed, Lines, Projection, Public, Known, RoleOf, MadeByRun;
    hide FreshFor, TwoAnswers, AutoTitle, HasId, Run, Exec;
    var synced;
    ops, synced := SavesOfRun();
    TwoAnswersSynced();
    var store := Store(map[0 := synced], {});
    SaveQuestion(store, synced);
    var c := Op.Save(synced.(messages := synced.messages + [Question()]), true, 0);
    source := SaveDoc(store, c.mine, true, 0).doc;
    assert Apply(store, c) == Store(map[0 := source], {});
    RunOfAppend(Store(map[], {}), ops, c);
    ops := ops + [c];
  }

  /** From an empty store: after a Session and a Run with two answers and an output readers refuse the
      document. */
  lemma TwoAnswersBreakTheSession() returns (ops: seq<Op>)
    ensures Run(Store(map[], {}), ops)
    ensures var docs := Exec(Store(map[], {}), ops).docs;
      0 in docs && !AllOwn(0, docs[0].ledger) && !SelfContained(0, docs[0].ledger)
  {
    hide SynchronizeRun, MergeRefs, WellFormed, Lines, Projection, Public, RoleOf, MadeByRun, AllOwn, FreshFor;
    hide TwoAnswers, Run, Exec;
    var synced;
    ops, synced := SavesOfRun();
    TwoAnswersSynced();
    EmptyIsWellFormed();
    EarlierAnswerBreaksSelfContainment(0, TwoAnswers(), [], 1);
  }

  lemma ForkBeforeQuestion(source: Doc, charts: seq<Ref>, outputs: seq<Ref>) returns (doc: Doc)
    requires Extended(EmptyDoc(), TwoAnswers()).Some? && source.id == 0
    requires var ledger := Extended(EmptyDoc(), TwoAnswers()).value.ledger;
      source.ledger == ledger + [NextEntry(0, Question(), ledger)]
    requires source.outputs == MergeRefs([], TwoAnswers().outputs)
    requires |source.ledger| == 4
    ensures doc == ForkDoc(source, SessionMessage(0, 3, User), 1, 0, 0, 0, CloneAll(source.ledger[..3], 1),
                           charts, outputs)
    ensures Admissible(Store(map[0 := source], {}), PublishFork(doc))
    ensures WellFormed(source.ledger) && Boundary(source.ledger, SessionMessage(0, 3, User)) == Some(3)
    ensures forall entry :: entry in source.ledger[..3] ==>
              Obstacle(source, source.ledger[..3], 1, entry, {}) == None
    ensures !SelfContained(1, doc.ledger)
  {
    hide SynchronizeRun, MergeRefs, CloneAll, Boundary, WellFormed, Obstacle, SelfContained, RawMessages, Public;
    hide MadeByRun, FreshFor, RoleOf, TwoAnswers, EmptyDoc, AutoTitle, OfRun, Lines, Projection;
    QuestionCanBeForkedBefore(Extended(EmptyDoc(), TwoAnswers()).value.ledger, source);
    TwoAnswersSynced();
    EmptyIsWellFormed();
    var before := SessionMessage(0, 3, User);
    doc := ForkDoc(source, before, 1, 0, 0, 0, CloneAll(source.ledger[..3], 1), charts, outputs);
    EarlierAnswerSpoilsForks(TwoAnswers(), [], 1, source, before, 1, doc);
  }

  /** From an empty store: a Session, a Run with two answers and an output, one more question, and a
      fork before it, to which nothing is an obstacle and which readers refuse. */
  lemma SpoiledForkIsReachable(charts: seq<Ref>, outputs: seq<Ref>)
    returns (ops: seq<Op>, source: Doc, before: MessageId, doc: Doc)
    ensures Run(Store(map[], {}), ops + [PublishFork(doc)])
    ensures Exec(Store(map[], {}), ops).docs == map[0 := source]
    ensures WellFormed(source.ledger) && Boundary(source.ledger, before).Some?
    ensures var copied := source.ledger[..Boundary(source.ledger, before).value];
      && (forall entry :: entry in copied ==> Obstacle(source, copied, 1, entry, {}) == None)
      && doc == ForkDoc(source, before, 1, 0, 0, 0, CloneAll(copied, 1), charts, outputs)
    ensures !SelfContained(1, doc.ledger)
  {
    hide *;
    ops, source := SavesBeforeFork();
    before := SessionMessage(0, 3, User);
    doc := ForkBeforeQuestion(source, charts, outputs);
    RunOfAppend(Store(map[], {}), ops, PublishFork(doc));
  }
}
