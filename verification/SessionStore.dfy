/**
  The Session documents: saving a possibly stale Session, renaming, deleting and forking.  Each
  operation runs under the lock of its document and replaces at most one document, atomically, so any
  interleaving of any number of writers is a sequence of whole operations.
*/
module SessionStore {
  import opened Options
  import opened SessionLedger
  import opened SessionFork

  datatype Store = Store(docs: map<nat, Doc>, deleted: set<nat>)

  datatype Refusal =
    | InvalidTitle | InvalidVersion | VersionConflict | SessionDeleted | NoSuchSession | AlreadyExists
    | LedgerConflict | MessageIdConflict | NoUserBefore | IdempotencyConflict | ForkFailed(why: Fork)

  datatype Saving = Written(doc: Doc) | Refused(why: Refusal)

  // The Session to be saved with everything that only the store decides taken from the document.
  function Merged(mine: Doc, stored: Doc): Saving {
    var merged := mine.(title := stored.title, titleSource := stored.titleSource,
                        metadataVersion := stored.metadataVersion, createdAt := stored.createdAt,
                        ledger := stored.ledger, origin := stored.origin);
    if |mine.ledger| <= |stored.ledger| then Written(merged)
    else if !(stored.ledger <= mine.ledger) then Refused(LedgerConflict)
    else Written(merged.(ledger := mine.ledger))
  }

  function Titled(doc: Doc): Doc {
    var generated := AutoTitle(doc.messages);
    if doc.titleSource == Auto && doc.title == EMPTY_SESSION_TITLE && generated != EMPTY_SESSION_TITLE then
      doc.(title := generated, metadataVersion := doc.metadataVersion + 1)
    else doc
  }

  function Finished(merged: Doc, now: int): Saving {
    match Synchronize(merged.id, merged.messages, merged.ledger)
    case Synced(ledger) => Written(Titled(merged.(ledger := ledger)).(updatedAt := now))
    case IdConflict => Refused(MessageIdConflict)
    case NoUser => Refused(NoUserBefore)
  }

  function SaveDoc(store: Store, mine: Doc, mustExist: bool, now: int): Saving {
    if mine.id in store.deleted then Refused(SessionDeleted)
    else if mine.id !in store.docs then
      if mustExist then Refused(NoSuchSession) else Finished(mine, now)
    else if !mustExist then Refused(AlreadyExists)
    else
      var merged := Merged(mine, store.docs[mine.id]);
      if merged.Refused? then merged else Finished(merged.doc, now)
  }

  function RenameDoc(store: Store, id: nat, title: string, expected: int, now: int): Saving {
    if !ValidTitle(title) then Refused(InvalidTitle)
    else if expected < 1 then Refused(InvalidVersion)
    else if id in store.deleted then Refused(SessionDeleted)
    else if id !in store.docs then Refused(NoSuchSession)
    else if store.docs[id].metadataVersion != expected then Refused(VersionConflict)
    else
      Written(store.docs[id].(title := title, titleSource := ByUser,
                              metadataVersion := store.docs[id].metadataVersion + 1, updatedAt := now))
  }

  function Put(store: Store, saving: Saving): Store {
    if saving.Written? then store.(docs := store.docs[saving.doc.id := saving.doc]) else store
  }

  // ---------------------------------------------------------------------------------------------
  // The operations as a state machine

  datatype Op =
    | Save(mine: Doc, mustExist: bool, now: int)
    | Rename(id: nat, title: string, expected: int, now: int)
    | PublishFork(doc: Doc)                // the one write of a fork
    | Bury(id: nat)                        // the tombstone
    | Remove(id: nat)                      // the document of a deleted Session

  // Any Session may be saved, whatever its ledger; only a fork has an origin when it is created.  A fork
  // has a new id, and no document has its source and key yet.
  ghost predicate Admissible(store: Store, op: Op) {
    match op
    case Save(mine, mustExist, _) => mustExist || mine.origin == None
    case PublishFork(doc) =>
      && doc.id !in store.docs && doc.id !in store.deleted
      && doc.origin.Some? && !ForkExists(store, doc.origin.value.session, doc.origin.value.key)
    case _ => true
  }

  function Apply(store: Store, op: Op): Store {
    match op
    case Save(mine, mustExist, now) => Put(store, SaveDoc(store, mine, mustExist, now))
    case Rename(id, title, expected, now) => Put(store, RenameDoc(store, id, title, expected, now))
    case PublishFork(doc) => store.(docs := store.docs[doc.id := doc])
    case Bury(id) => store.(deleted := store.deleted + {id})
    case Remove(id) => if id in store.deleted then store.(docs := store.docs - {id}) else store
  }

  predicate IsForkOf(doc: Doc, source: nat, key: nat) {
    doc.id != source && doc.origin.Some? && doc.origin.value.session == source && doc.origin.value.key == key
  }

  predicate ForkExists(store: Store, source: nat, key: nat) {
    exists id :: id in store.docs && IsForkOf(store.docs[id], source, key)
  }

  ghost predicate Inv(store: Store) {
    && (forall id :: id in store.docs ==> store.docs[id].id == id)
    && (forall a, b :: a in store.docs && b in store.docs ==> !SameFork(store.docs[a], store.docs[b]) || a == b)
  }

  predicate SameFork(a: Doc, b: Doc) {
    a.origin.Some? && IsForkOf(a, a.origin.value.session, a.origin.value.key)
    && IsForkOf(b, a.origin.value.session, a.origin.value.key)
  }

  // The later document continues the earlier one.
  predicate Continues(doc: Doc, doc': Doc) {
    && doc'.id == doc.id && doc'.createdAt == doc.createdAt && doc'.origin == doc.origin
    && doc.ledger <= doc'.ledger
    && doc.metadataVersion <= doc'.metadataVersion
    && (doc'.title != doc.title ==> doc.metadataVersion < doc'.metadataVersion)
    && (doc.titleSource == ByUser ==> doc'.titleSource == ByUser)
  }

  /** However old the Session is that somebody saves: the document continues the one on disk. */
  lemma SaveContinues(store: Store, mine: Doc, mustExist: bool, now: int)
    requires mine.id in store.docs && store.docs[mine.id].id == mine.id
    ensures var r := SaveDoc(store, mine, mustExist, now);
      r.Written? ==>
        && Continues(store.docs[mine.id], r.doc)
        && (store.docs[mine.id].titleSource == ByUser ==> r.doc.title == store.docs[mine.id].title)
        && (Sound(mine.id, mine.ledger) && Sound(mine.id, store.docs[mine.id].ledger) ==> Sound(mine.id, r.doc.ledger))
  {
    var stored := store.docs[mine.id];
    var merged := Merged(mine, stored);
    if merged.Written? {
      assert stored.ledger <= merged.doc.ledger;
      SynchronizeIsSafe(mine.id, merged.doc.messages, merged.doc.ledger);
    }
  }

  // The ledger a save starts from: the stored one, or the longer one of the Session that continues it.
  function Base(store: Store, mine: Doc): seq<Entry> {
    if mine.id in store.docs && |mine.ledger| <= |store.docs[mine.id].ledger| then store.docs[mine.id].ledger
    else mine.ledger
  }

  // What the Session was called before the save.
  function Named(store: Store, mine: Doc): (string, Source, nat) {
    var doc := if mine.id in store.docs then store.docs[mine.id] else mine;
    (doc.title, doc.titleSource, doc.metadataVersion)
  }

  /** A save goes through exactly if the Session is not deleted, exists or is new as expected, continues
      what is stored, and every message missing in the ledger can be appended. */
  lemma SaveGoesThroughExactlyIf(store: Store, mine: Doc, mustExist: bool, now: int)
    ensures var public, base := Public(mine.messages), Base(store, mine);
      SaveDoc(store, mine, mustExist, now).Written? <==>
        && mine.id !in store.deleted && (mine.id in store.docs <==> mustExist)
        && (mine.id in store.docs ==> store.docs[mine.id].ledger <= base)
        && (ShowsPrefix(public, base) ==>
              forall i :: |base| <= i < |public| ==> CanAppend(mine.id, public, base, i))
    ensures var saving := SaveDoc(store, mine, mustExist, now);
      && (saving == Refused(SessionDeleted) <==> mine.id in store.deleted)
      && (saving == Refused(NoSuchSession) <==>
            mine.id !in store.deleted && mine.id !in store.docs && mustExist)
      && (saving == Refused(AlreadyExists) <==>
            mine.id !in store.deleted && mine.id in store.docs && !mustExist)
      && (saving == Refused(MessageIdConflict) ==>
            exists i :: FirstRefused(mine.id, Public(mine.messages), Base(store, mine), i, IdConflict))
      && (saving == Refused(NoUserBefore) ==>
            exists i :: FirstRefused(mine.id, Public(mine.messages), Base(store, mine), i, NoUser))
  {
    hide Synchronize, ShowsPrefix, CanAppend, AutoTitle, FirstRefused;
    SynchronizeExactly(mine.id, mine.messages, Base(store, mine));
  }

  /** What a save writes: the messages and what the Session shows, as they are; the time; a ledger that
      continues the one it started from by one entry for every missing message, unless it shows no prefix of
      the history and stays as it is; and a first title for a Session that has none. */
  lemma SaveWritesEverything(store: Store, mine: Doc, mustExist: bool, now: int)
    requires SaveDoc(store, mine, mustExist, now).Written?
    ensures var doc := SaveDoc(store, mine, mustExist, now).doc;
      && doc.id == mine.id && doc.messages == mine.messages && doc.updatedAt == now
      && doc.presentations == mine.presentations && doc.outputs == mine.outputs
      && doc.createdAt == (if mine.id in store.docs then store.docs[mine.id].createdAt else mine.createdAt)
      && doc.origin == (if mine.id in store.docs then store.docs[mine.id].origin else mine.origin)
    ensures var doc := SaveDoc(store, mine, mustExist, now).doc;
      var public, base := Public(mine.messages), Base(store, mine);
      if !ShowsPrefix(public, base) then doc.ledger == base
      else
        && base <= doc.ledger && |doc.ledger| == |public|
        && forall i :: |base| <= i < |public| ==> IsEntryFor(mine.id, public, doc.ledger, i)
    ensures var doc := SaveDoc(store, mine, mustExist, now).doc;
      var (title, source, version) := Named(store, mine);
      if source == Auto && title == EMPTY_SESSION_TITLE && AutoTitle(mine.messages) != EMPTY_SESSION_TITLE
      then doc.title == AutoTitle(mine.messages) && doc.titleSource == Auto && doc.metadataVersion == version + 1
      else doc.title == title && doc.titleSource == source && doc.metadataVersion == version
  {
    hide Synchronize, ShowsPrefix, CanAppend, AutoTitle, FirstRefused, IsEntryFor;
    SynchronizeExactly(mine.id, mine.messages, Base(store, mine));
  }

  /** A save of an existing document is refused exactly if the Session is deleted, meant to be new, or
      continues the public ledger differently from what somebody else has saved, or if a message
      cannot be given an id or a user message to reply to. */
  lemma StaleSaveIsRefusedExactlyIf(store: Store, mine: Doc, now: int)
    requires mine.id in store.docs && mine.id !in store.deleted
    ensures var stored := store.docs[mine.id];
      SaveDoc(store, mine, true, now) == Refused(LedgerConflict) <==>
        |stored.ledger| < |mine.ledger| && mine.ledger[..|stored.ledger|] != stored.ledger
  {
    var stored := store.docs[mine.id];
    if |stored.ledger| < |mine.ledger| && mine.ledger[..|stored.ledger|] == stored.ledger {
      assert stored.ledger <= mine.ledger;
    }
  }

  lemma StepKeepsInv(store: Store, op: Op)
    requires Inv(store) && Admissible(store, op)
    ensures Inv(Apply(store, op))
  {
    match op
    case Save(mine, mustExist, now) =>
      if mine.id in store.docs {
        SaveContinues(store, mine, mustExist, now);
      } else {
        SynchronizeIsSafe(mine.id, mine.messages, mine.ledger);
      }
    case _ =>
  }

  lemma StepContinues(store: Store, op: Op, id: nat)
    requires Inv(store) && Admissible(store, op) && id in store.docs && id in Apply(store, op).docs
    ensures Continues(store.docs[id], Apply(store, op).docs[id])
    ensures store.docs[id].titleSource == ByUser && Apply(store, op).docs[id].title != store.docs[id].title ==>
              Renames(store, op, id, Apply(store, op).docs[id].title)
  {
    if op.Save? && op.mine.id == id {
      SaveContinues(store, op.mine, op.mustExist, op.now);
    }
  }

  // Every operation is admissible where it happens.
  ghost predicate Run(store: Store, ops: seq<Op>)
    decreases |ops|
  {
    ops == [] || (Admissible(store, ops[0]) && Run(Apply(store, ops[0]), ops[1..]))
  }

  function Exec(store: Store, ops: seq<Op>): Store
    decreases |ops|
  {
    if ops == [] then store else Exec(Apply(store, ops[0]), ops[1..])
  }

  lemma {:induction false} RunKeepsInv(store: Store, ops: seq<Op>)
    requires Inv(store) && Run(store, ops)
    ensures Inv(Exec(store, ops))
    decreases |ops|
  {
    if ops != [] {
      StepKeepsInv(store, ops[0]);
      RunKeepsInv(Apply(store, ops[0]), ops[1..]);
    }
  }

  lemma {:induction false} RunOfAppend(store: Store, ops: seq<Op>, op: Op)
    ensures Run(store, ops + [op]) <==> Run(store, ops) && Admissible(Exec(store, ops), op)
    ensures Exec(store, ops + [op]) == Apply(Exec(store, ops), op)
    decreases |ops|
  {
    hide Apply, Admissible;
    var longer := ops + [op];
    if ops == [] {
      assert longer == [op] && longer[1..] == [];
    } else {
      assert longer[1..] == ops[1..] + [op];
      RunOfAppend(Apply(store, ops[0]), ops[1..], op);
    }
  }

  // Whether the document is there after every operation.
  predicate Stays(store: Store, ops: seq<Op>, id: nat)
    decreases |ops|
  {
    id in store.docs && (ops == [] || Stays(Apply(store, ops[0]), ops[1..], id))
  }

  lemma {:induction false} NeverRecreated(store: Store, ops: seq<Op>, id: nat)
    requires Inv(store) && Run(store, ops) && id in store.deleted && id !in store.docs
    ensures id !in Exec(store, ops).docs
    decreases |ops|
  {
    if ops != [] {
      StepKeepsInv(store, ops[0]);
      NeverRecreated(Apply(store, ops[0]), ops[1..], id);
    }
  }

  /** For any interleaving of writers with arbitrarily old Sessions: as long as the document exists,
      its ledger only grows, its metadata version never decreases and grows with every new title. */
  lemma {:induction false} DocumentsOnlyContinue(store: Store, ops: seq<Op>, id: nat)
    requires Inv(store) && Run(store, ops) && id in store.docs && id in Exec(store, ops).docs
    ensures Stays(store, ops, id) && Continues(store.docs[id], Exec(store, ops).docs[id])
    decreases |ops|
  {
    if ops != [] {
      var next := Apply(store, ops[0]);
      StepKeepsInv(store, ops[0]);
      if id !in next.docs {
        NeverRecreated(next, ops[1..], id);
      }
      StepContinues(store, ops[0], id);
      DocumentsOnlyContinue(next, ops[1..], id);
      VersionGrows(store.docs[id], next.docs[id], Exec(store, ops).docs[id]);
    }
  }

  lemma VersionGrows(a: Doc, b: Doc, c: Doc)
    requires Continues(a, b) && Continues(b, c)
    ensures Continues(a, c)
  {
    assert a.ledger <= c.ledger by {
      assert c.ledger[..|a.ledger|] == c.ledger[..|b.ledger|][..|a.ledger|];
    }
  }

  // A renaming of this Session to this title that goes through.
  predicate Renames(store: Store, op: Op, id: nat, title: string) {
    op.Rename? && op.id == id && op.title == title && RenameDoc(store, id, title, op.expected, op.now).Written?
  }

  /** A title the user has set is replaced only by a renaming to the new title that goes through. */
  lemma {:induction false} UserTitleNeedsRename(store: Store, ops: seq<Op>, id: nat)
    requires Inv(store) && Run(store, ops) && id in store.docs && id in Exec(store, ops).docs
    requires store.docs[id].titleSource == ByUser
    ensures Exec(store, ops).docs[id].title != store.docs[id].title ==>
              exists k :: 0 <= k < |ops|
                          && Renames(Exec(store, ops[..k]), ops[k], id, Exec(store, ops).docs[id].title)
    decreases |ops|
  {
    if ops != [] {
      var next := Apply(store, ops[0]);
      StepKeepsInv(store, ops[0]);
      DocumentsOnlyContinue(store, ops, id);
      StepContinues(store, ops[0], id);
      UserTitleNeedsRename(next, ops[1..], id);
      var title := Exec(store, ops).docs[id].title;
      if title != next.docs[id].title {
        var k :| 0 <= k < |ops[1..]| && Renames(Exec(next, ops[1..][..k]), ops[1..][k], id, title);
        assert ops[..k + 1][0] == ops[0] && ops[..k + 1][1..] == ops[1..][..k];
        assert Renames(Exec(store, ops[..k + 1]), ops[k + 1], id, title);
      } else if title != store.docs[id].title {
        assert Renames(Exec(store, ops[..0]), ops[0], id, title);
      }
    }
  }

  /** Of all renamings that expect the same version only one ever goes through. */
  lemma OnlyOneRenameWins(store: Store, op: Op, ops: seq<Op>, late: Op)
    requires Inv(store) && op.Rename? && late.Rename? && late.id == op.id && late.expected == op.expected
    requires Renames(store, op, op.id, op.title) && Run(Apply(store, op), ops)
    ensures !Renames(Exec(Apply(store, op), ops), late, op.id, late.title)
  {
    var next := Apply(store, op);
    StepKeepsInv(store, op);
    if op.id in Exec(next, ops).docs {
      DocumentsOnlyContinue(next, ops, op.id);
    }
  }

  /** Once the tombstone is there, the document is never written again. */
  lemma {:induction false} NoWriteAfterTombstone(store: Store, ops: seq<Op>, id: nat)
    requires Inv(store) && Run(store, ops) && id in store.deleted && id in Exec(store, ops).docs
    ensures id in store.docs && Exec(store, ops).docs[id] == store.docs[id]
    decreases |ops|
  {
    if id !in store.docs {
      NeverRecreated(store, ops, id);
    }
    if ops != [] {
      StepKeepsInv(store, ops[0]);
      NoWriteAfterTombstone(Apply(store, ops[0]), ops[1..], id);
    }
  }

  /** A repeated key finds the same fork, whatever happened since, for as long as it exists. */
  lemma ForkIsFoundAgain(store: Store, doc: Doc, ops: seq<Op>, id: nat)
    requires Inv(store) && Admissible(store, PublishFork(doc)) && Run(Apply(store, PublishFork(doc)), ops)
    requires doc.id != doc.origin.value.session
    ensures var store' := Exec(Apply(store, PublishFork(doc)), ops); var origin := doc.origin.value;
      doc.id in store'.docs ==>
        && store'.docs[doc.id].origin == doc.origin && doc.ledger <= store'.docs[doc.id].ledger
        && (id in store'.docs && IsForkOf(store'.docs[id], origin.session, origin.key) <==> id == doc.id)
  {
    var next := Apply(store, PublishFork(doc));
    StepKeepsInv(store, PublishFork(doc));
    RunKeepsInv(next, ops);
    var store' := Exec(next, ops);
    if doc.id in store'.docs {
      DocumentsOnlyContinue(next, ops, doc.id);
      if id in store'.docs && IsForkOf(store'.docs[id], doc.origin.value.session, doc.origin.value.key) {
        assert SameFork(store'.docs[doc.id], store'.docs[id]);
      }
    }
  }

  // ---------------------------------------------------------------------------------------------
  // Which documents can be read

  ghost predicate Clean(store: Store) {
    forall id :: id in store.docs ==> Sound(id, store.docs[id].ledger)
  }

  // Everything that is written has a sound ledger.
  ghost predicate WritesClean(op: Op) {
    match op
    case Save(mine, _, _) => Sound(mine.id, mine.ledger)
    case PublishFork(doc) => Sound(doc.id, doc.ledger)
    case _ => true
  }

  lemma StepKeepsClean(store: Store, op: Op)
    requires Inv(store) && Clean(store) && Admissible(store, op) && WritesClean(op)
    ensures Clean(Apply(store, op))
  {
    match op
    case Save(mine, mustExist, now) =>
      if mine.id in store.docs {
        SaveContinues(store, mine, mustExist, now);
      } else {
        SynchronizeIsSafe(mine.id, mine.messages, mine.ledger);
      }
    case _ =>
  }

  /** As long as only sound ledgers are saved, readers accept every document. */
  lemma {:induction false} EveryDocumentIsReadable(store: Store, ops: seq<Op>, id: nat)
    requires Inv(store) && Clean(store) && Run(store, ops) && id in Exec(store, ops).docs
    requires forall op :: op in ops ==> WritesClean(op)
    ensures SelfContained(id, Exec(store, ops).docs[id].ledger)
    decreases |ops|
  {
    if ops == [] {
      WellFormedIsSelfContained(id, store.docs[id].ledger);
    } else {
      assert ops[0] in ops;
      StepKeepsInv(store, ops[0]);
      StepKeepsClean(store, ops[0]);
      EveryDocumentIsReadable(Apply(store, ops[0]), ops[1..], id);
    }
  }

  /** A message that shows something of another message makes the Session unreadable for as long as it
      exists, whatever is saved later. */
  lemma UnreadableForGood(store: Store, ops: seq<Op>, id: nat)
    requires Inv(store) && Run(store, ops) && id in store.docs && id in Exec(store, ops).docs
    requires !AllOwn(id, store.docs[id].ledger)
    ensures !SelfContained(id, Exec(store, ops).docs[id].ledger)
  {
    DocumentsOnlyContinue(store, ops, id);
    var ledger := Exec(store, ops).docs[id].ledger;
    var entry :| entry in store.docs[id].ledger && !OwnsItsRefs(id, entry);
    var i :| 0 <= i < |store.docs[id].ledger| && store.docs[id].ledger[i] == entry;
    assert ledger[i] == entry && ledger[i] in ledger;
  }

  // ---------------------------------------------------------------------------------------------
  // The store itself

  class SessionStore {
    var docs: map<nat, Doc>
    var deleted: set<nat>

    function Value(): Store
      reads this
    {
      Store(docs, deleted)
    }

    constructor ()
      ensures Value() == Store(map[], {})
    {
      docs, deleted := map[], {};
    }

    /** Merges a Session into the latest document.  On success the Session in memory is the document. */
    method Save(session: Session, messages: Option<seq<Raw>>, mustExist: bool, now: int) returns (saving: Saving)
      modifies this, session
      ensures var mine := if messages.Some? then old(session.Value()).(messages := messages.value)
                          else old(session.Value());
        && saving == SaveDoc(old(Value()), mine, mustExist, now)
        && Value() == Apply(old(Value()), Op.Save(mine, mustExist, now))
        && (saving.Written? ==> session.Value() == saving.doc)
    {
      hide Finished, Merged;
      if session.id in deleted {
        return Refused(SessionDeleted);
      }
      var known := session.id in docs;
      if mustExist && !known {
        return Refused(NoSuchSession);
      }
      if !mustExist && known {
        return Refused(AlreadyExists);
      }
      if messages.Some? {
        session.messages := messages.value;
      }
      if known {
        var conflict := MergeStored(session, docs[session.id]);
        if conflict {
          return Refused(LedgerConflict);
        }
      }
      saving := Finish(session, now);
      if saving.Written? {
        docs := docs[session.id := saving.doc];
      }
    }

    method UpdateMetadata(id: nat, title: string, expected: int, now: int) returns (saving: Saving)
      modifies this
      ensures saving == RenameDoc(old(Value()), id, title, expected, now)
      ensures saving.Written? <==>
                && ValidTitle(title) && 1 <= expected && id in old(docs) && id !in old(deleted)
                && old(docs)[id].metadataVersion == expected
      ensures deleted == old(deleted) && (saving.Refused? ==> docs == old(docs))
      ensures saving.Written? ==>
                && docs.Keys == old(docs).Keys && docs[id] == saving.doc
                && (forall other :: other in docs && other != id ==> docs[other] == old(docs)[other])
                && docs[id].title == title && docs[id].titleSource == ByUser
                && docs[id].metadataVersion == expected + 1 && docs[id].ledger == old(docs)[id].ledger
      ensures id in old(docs) && old(docs)[id].id == id ==>
                Value() == Apply(old(Value()), Rename(id, title, expected, now))
    {
      hide ValidTitle;
      if !ValidTitle(title) {
        return Refused(InvalidTitle);
      }
      if expected < 1 {
        return Refused(InvalidVersion);
      }
      if id in deleted {
        return Refused(SessionDeleted);
      }
      if id !in docs {
        return Refused(NoSuchSession);
      }
      var doc := docs[id];
      if doc.metadataVersion != expected {
        return Refused(VersionConflict);
      }
      doc := doc.(title := title, titleSource := ByUser);
      doc := doc.(metadataVersion := doc.metadataVersion + 1, updatedAt := now);
      docs := docs[id := doc];
      return Written(doc);
    }

    method FindFork(source: nat, key: nat) returns (found: Option<Doc>)
      ensures found == None <==> !ForkExists(Value(), source, key)
      ensures found == None <==>
                forall id :: id in docs && docs[id].id != source && docs[id].origin.Some? ==>
                  docs[id].origin.value.session != source || docs[id].origin.value.key != key
      ensures found.Some? ==> exists id :: id in docs && docs[id] == found.value && IsForkOf(docs[id], source, key)
    {
      if id :| id in docs && IsForkOf(docs[id], source, key) {
        return Some(docs[id]);
      }
      return None;
    }

    /** Publishes a new fork in one write, or finds the one an earlier request with this key made.
        `target` is an id nobody has used. */
    method ForkSession(source: nat, before: MessageId, key: nat, request: nat, target: nat, now: int, lost: set<RefId>)
      returns (result: Saving, created: bool)
      requires target !in docs && target !in deleted && Inv(Value())
      modifies this
      ensures Inv(Value()) && deleted == old(deleted)
      ensures !created ==> docs == old(docs)
      ensures created ==>
                && result.Written? && source in old(docs) && source !in deleted
                && !ForkExists(old(Value()), source, key)
                && Admissible(old(Value()), PublishFork(result.doc))
                && Value() == Apply(old(Value()), PublishFork(result.doc))
                && result.doc.id == target && result.doc.origin == Some(Origin(source, before, key, request))
                && Boundary(old(docs)[source].ledger, before).Some?
                && var copied := old(docs)[source].ledger[..Boundary(old(docs)[source].ledger, before).value];
                   && result.doc.ledger == CloneAll(copied, target)
                   && (WellFormed(old(docs)[source].ledger) ==>
                         && (WritesClean(PublishFork(result.doc)) <==> NoSharedOutput(copied))
                         && (SelfContained(target, result.doc.ledger) <==> NoSharedOutput(copied)))
      ensures source in old(docs) && source !in deleted && ForkExists(old(Value()), source, key) ==>
                && !created
                && forall id :: id in docs && IsForkOf(docs[id], source, key) ==>
                     result == if docs[id].origin.value.request == request && docs[id].origin.value.before == before
                               then Written(docs[id]) else Refused(IdempotencyConflict)
      ensures source in old(docs) && source !in deleted && !ForkExists(old(Value()), source, key) ==>
                created || (result.Refused? && result.why.ForkFailed?)
    {
      created := false;
      if source in deleted {
        return Refused(SessionDeleted), false;
      }
      if source !in docs {
        return Refused(NoSuchSession), false;
      }
      var replay := FindFork(source, key);
      if replay.Some? {
        var origin := replay.value.origin.value;
        if origin.request != request || origin.before != before {
          return Refused(IdempotencyConflict), false;
        }
        return Written(replay.value), false;
      }
      var fork := BuildForkedSession(docs[source], before, target, now, key, request, lost);
      if !fork.Forked? {
        return Refused(ForkFailed(fork)), false;
      }
      if WellFormed(docs[source].ledger) {
        ForkIsSelfContainedExactlyIf(docs[source], before, target, fork.doc);
        CopiesOwn(target, fork.doc.ledger);
      }
      StepKeepsInv(Value(), PublishFork(fork.doc));
      docs := docs[target := fork.doc];
      return Written(fork.doc), true;
    }
  }

  lemma CopiesOwn(session: nat, ledger: seq<Entry>)
    requires WellFormed(ledger)
    ensures SelfContained(session, ledger) <==> Sound(session, ledger)
  {
    if AllOwn(session, ledger) {
      WellFormedIsSelfContained(session, ledger);
    }
  }

  // Takes over what only the document decides, and the pending entries if they continue its ledger.
  method MergeStored(session: Session, stored: Doc) returns (conflict: bool)
    modifies session
    ensures Merged(old(session.Value()), stored)
            == if conflict then Refused(LedgerConflict) else Written(session.Value())
  {
    var pending := session.ledger;
    session.title, session.titleSource := stored.title, stored.titleSource;
    session.metadataVersion, session.createdAt := stored.metadataVersion, stored.createdAt;
    session.ledger, session.origin := stored.ledger, stored.origin;
    if |pending| > |session.ledger| {
      if !(session.ledger <= pending) {
        return true;
      }
      session.ledger := pending;
    }
    return false;
  }

  // Extends the ledger, names a Session that has no name yet, and stamps it.
  method Finish(session: Session, now: int) returns (saving: Saving)
    modifies session
    ensures saving == Finished(old(session.Value()), now)
    ensures saving.Written? ==> session.Value() == saving.doc && saving.doc.id == session.id
  {
    hide AutoTitle, ValidTitle, Synchronize, Collapse;
    var failure := SynchronizeLedger(session);
    if failure.Some? {
      return Refused(failure.value);
    }
    var generated := AutoTitle(session.messages);
    if session.titleSource == Auto && session.title == EMPTY_SESSION_TITLE && generated != EMPTY_SESSION_TITLE {
      session.title := generated;
      session.metadataVersion := session.metadataVersion + 1;
    }
    session.updatedAt := now;
    saving := Written(session.Value());
  }

  // The loop that extends the ledger in place; on failure part of it may have happened in memory.
  method SynchronizeLedger(session: Session) returns (failure: Option<Refusal>)
    modifies session`ledger
    ensures old(session.ledger) <= session.ledger
    ensures Synchronize(session.id, session.messages, old(session.ledger))
            == match failure
               case None => Synced(session.ledger)
               case Some(why) => if why == MessageIdConflict then IdConflict else NoUser
    ensures failure in {None, Some(MessageIdConflict), Some(NoUserBefore)}
  {
    var public := Public(session.messages);
    if session.ledger != [] && !(Projection(session.ledger) <= Lines(public)) {
      return None;
    }
    assert |Projection(session.ledger)| == |session.ledger| && |Lines(public)| == |public|;
    var currentUser := LastUser(session.ledger);
    while |session.ledger| < |public|
      invariant |session.ledger| <= |public| && old(session.ledger) <= session.ledger
      invariant currentUser == LastUser(session.ledger)
      invariant AppendPublic(session.id, public, session.ledger)
                == AppendPublic(session.id, public, old(session.ledger))
      decreases |public| - |session.ledger|
    {
      var raw := public[|session.ledger|];
      var id := SessionMessage(session.id, |session.ledger|, RoleOf(raw));
      if Known(session.ledger, id) {
        return Some(MessageIdConflict);
      }
      var replyTo: Option<MessageId> := None;
      if RoleOf(raw) == User {
        currentUser := Some(id);
      } else {
        if currentUser == None {
          return Some(NoUserBefore);
        }
        replyTo := currentUser;
      }
      var entry := Entry(id, RoleOf(raw), None, raw.createdAt, replyTo, raw.content, [], []);
      assert entry == NextEntry(session.id, raw, session.ledger);
      assert (session.ledger + [entry])[..|session.ledger|] == session.ledger;
      session.ledger := session.ledger + [entry];
    }
    return None;
  }
}
