/**
  The double-slot Run checkpoint store with its Session index.

  Every method performs its file operations one at a time through `Take`, which records the world
  after each of them; so what a method ensures about `trace` holds in every state a crash can leave
  behind.  Other processes work on the same disk: a method may start with any epoch any process has
  ever verified, or with none.
*/
module RunStore {
  import opened Options
  import opened RunDisk

  datatype RunMeta = RunMeta(id: RunId, session: SessionId, status: Status, updatedAt: int)

  datatype SaveOutcome =
    | Saved
    | SessionDeleted
    | RunDeleted
    | SessionConflict
    | CheckpointCorrupt // both slots damaged, or the current one without a previous one
    | IndexInvalid      // the refs of another Session do not match a correct manifest

  datatype LastOutcome = Last(run: Option<RunMeta>) | NoSession | InvalidIndex

  function MetaOf(document: Document, session: SessionId): RunMeta {
    RunMeta(document.runId, session, document.status, document.updatedAt)
  }

  // Strictly later in (updated_at, id).
  predicate Later(a: RunMeta, b: RunMeta) {
    a.updatedAt > b.updatedAt || (a.updatedAt == b.updatedAt && a.id > b.id)
  }

  // The document in the slots: the current one if it is readable, otherwise the previous one.
  predicate Shows(slots: Slots, run: RunId, document: Document) {
    && document.runId == run
    && (slots.current == Holds(document)
        || (slots.previous == Holds(document) && !(slots.current.Holds? && slots.current.document.runId == run)))
  }

  // The Run has a public status, is not tombstoned, and its slots show this document of the Session.
  predicate IsPublicRun(d: Disk, session: SessionId, run: RunId, document: Document) {
    && run !in d.tombstones && Shows(SlotsOf(d, run), run, document)
    && document.session == Some(session) && document.status != NotPublic
  }

  // The answer a full scan of the Run directory gives: the latest live Run with a public status.
  ghost predicate IsLastPublic(d: Disk, session: SessionId, last: Option<RunMeta>) {
    match last
    case None =>
      forall run :: LiveIn(d, session, run) ==> LiveDocument(d, run).value.status == NotPublic
    case Some(meta) =>
      && LiveIn(d, session, meta.id)
      && meta == MetaOf(LiveDocument(d, meta.id).value, session)
      && meta.status != NotPublic
      && forall run :: LiveIn(d, session, run) && LiveDocument(d, run).value.status != NotPublic ==>
           !Later(MetaOf(LiveDocument(d, run).value, session), meta)
  }

  /** In terms of the slots: nothing if no Run of the Session is public; otherwise a public Run, and every
      other one was updated before it, or at the same time and has a smaller id. */
  lemma LastPublicIsLatest(d: Disk, session: SessionId, last: Option<RunMeta>)
    requires IsLastPublic(d, session, last)
    ensures last == None <==> forall run, document :: !IsPublicRun(d, session, run, document)
    ensures last.Some? ==>
              exists document :: IsPublicRun(d, session, last.value.id, document)
                                 && last.value == RunMeta(document.runId, session, document.status, document.updatedAt)
    ensures last.Some? ==>
              forall run: RunId, document: Document ::
                IsPublicRun(d, session, run, document) && run != last.value.id ==>
                document.updatedAt < last.value.updatedAt
                || (document.updatedAt == last.value.updatedAt && run < last.value.id)
  {
    forall run, document
      ensures IsPublicRun(d, session, run, document) <==>
                LiveIn(d, session, run) && LiveDocument(d, run) == Some(document) && document.status != NotPublic
    {
    }
    if last.Some? {
      assert IsPublicRun(d, session, last.value.id, LiveDocument(d, last.value.id).value);
    }
  }

  // ---------------------------------------------------------------------------------------------
  // The index files

  // What reading a manifest accepts: no empty Session, no Run in two Sessions.
  predicate WellFormed(sessions: Index) {
    && (forall session :: session in sessions ==> sessions[session] != {})
    && (forall s, t :: s in sessions && t in sessions && s != t ==> sessions[s] !! sessions[t])
  }

  function RunsOf(sessions: Index, session: SessionId): set<RunId> {
    if session in sessions then sessions[session] else {}
  }

  predicate SessionRefsValid(dirs: map<SessionId, map<RunId, bool>>, session: SessionId, runs: set<RunId>) {
    if runs == {} then session !in dirs
    else
      && session in dirs
      && dirs[session].Keys == runs
      && forall run :: run in dirs[session] ==> dirs[session][run]
  }

  predicate RefsValid(refs: Refs, generation: Generation, sessions: Index, only: Option<SessionId>) {
    && generation in refs
    && match only
       case Some(session) => SessionRefsValid(refs[generation], session, RunsOf(sessions, session))
       case None =>
         && (forall session :: session in sessions ==>
               SessionRefsValid(refs[generation], session, sessions[session]))
         && refs[generation].Keys == sessions.Keys
  }

  predicate Usable(d: Disk, only: Option<SessionId>) {
    && d.manifest.Manifest?
    && WellFormed(d.manifest.sessions)
    && RefsValid(d.refs, d.manifest.generation, d.manifest.sessions, only)
  }

  function CurrentEpoch(d: Disk): Epoch {
    Epoch(d.manifest, d.dirVersion)
  }

  // The one situation in which an operation on a Session fails although nothing about that Session
  // is wrong: the manifest is correct, this process has not verified it yet, and the refs of some
  // other Session do not match it.
  ghost predicate IndexGap(d: Disk, verified: Option<Epoch>, only: Option<SessionId>) {
    && Usable(d, only)
    && verified != Some(CurrentEpoch(d))
    && Exact(d.manifest.sessions, d)
    && !RefsValid(d.refs, d.manifest.generation, d.manifest.sessions, None)
  }

  /** The gap: an index that equals the full scan and is not verified, where the refs of the Session are
      right and those of another one are not. */
  lemma IndexGapExactlyIf(d: Disk, verified: Option<Epoch>, only: Option<SessionId>)
    ensures IndexGap(d, verified, only) <==>
              && only.Some? && d.manifest.Manifest? && verified != Some(Epoch(d.manifest, d.dirVersion))
              && Exact(d.manifest.sessions, d) && d.manifest.generation in d.refs
              && var dirs := d.refs[d.manifest.generation];
                 && SessionRefsValid(dirs, only.value, RunsOf(d.manifest.sessions, only.value))
                 && exists other :: other != only.value
                                    && !SessionRefsValid(dirs, other, RunsOf(d.manifest.sessions, other))
  {
    if d.manifest.Manifest? && Exact(d.manifest.sessions, d) && d.manifest.generation in d.refs {
      ExactIsWellFormed(d.manifest.sessions, d);
      var sessions, dirs := d.manifest.sessions, d.refs[d.manifest.generation];
      if !RefsValid(d.refs, d.manifest.generation, sessions, None) {
        var other :| (other in sessions || other in dirs) && !SessionRefsValid(dirs, other, RunsOf(sessions, other));
      }
      if other :| !SessionRefsValid(dirs, other, RunsOf(sessions, other)) {
        assert other in sessions || other in dirs;
      }
    }
  }

  // What an operation that opened the index takes for the Session of a Run.
  ghost predicate KnownIn(d: Disk, verified: Option<Epoch>, only: Option<SessionId>,
                          session: SessionId, run: RunId) {
    if Usable(d, only) && verified == Some(CurrentEpoch(d))
    then Lists(d.manifest.sessions, session, run)
    else LiveIn(d, session, run)
  }

  ghost function SaveOutcomeOf(d: Disk, verified: Option<Epoch>, run: RunId, document: Document): SaveOutcome {
    match document.session
    case None => LockedSaveOutcome(d, run, document)
    case Some(session) =>
      if session in d.deletedSessions then SessionDeleted
      else if IndexGap(d, verified, Some(session)) then IndexInvalid
      else if exists other :: other != session && KnownIn(d, verified, Some(session), other, run)
      then SessionConflict
      else LockedSaveOutcome(d, run, document)
  }

  // There is nothing in the slots, or a document can be read from one of them.
  ghost predicate SlotsInOrder(slots: Slots, run: RunId) {
    || (slots.current == Absent && slots.previous == Absent)
    || exists document :: Shows(slots, run, document)
  }

  // What can be read belongs to no Session, or to this one.
  ghost predicate SessionFits(slots: Slots, run: RunId, session: Option<SessionId>) {
    forall document :: Shows(slots, run, document) ==> document.session == None || document.session == session
  }

  // Nothing about the Session and the index stands in the way.
  ghost predicate SessionAccepts(d: Disk, verified: Option<Epoch>, session: Option<SessionId>, run: RunId) {
    session.Some? ==>
      && session.value !in d.deletedSessions && !IndexGap(d, verified, session)
      && forall other :: other != session.value ==> !KnownIn(d, verified, session, other, run)
  }

  lemma LoadedIsShown(slots: Slots, run: RunId)
    ensures forall document, previous ::
              LoadUnchecked(slots, run) == Loaded(document, previous) ==> Shows(slots, run, document)
    ensures forall document :: Shows(slots, run, document) ==>
              LoadUnchecked(slots, run).Loaded? && LoadUnchecked(slots, run).document == document
    ensures LoadUnchecked(slots, run) == NotFound <==> slots.current == Absent && slots.previous == Absent
  {
  }

  /** A save goes through exactly if the Run is not tombstoned, its slots are in order and fit the Session,
      and the Session accepts it; and which obstacle it reports otherwise. */
  lemma SaveGoesThroughExactlyIf(d: Disk, verified: Option<Epoch>, run: RunId, document: Document)
    ensures var outcome, slots := SaveOutcomeOf(d, verified, run, document), SlotsOf(d, run);
      var accepted := SessionAccepts(d, verified, document.session, run);
      && (outcome == Saved <==>
            accepted && run !in d.tombstones && SlotsInOrder(slots, run) && SessionFits(slots, run, document.session))
      && (outcome == SessionDeleted <==> document.session.Some? && document.session.value in d.deletedSessions)
      && (outcome == IndexInvalid <==>
            && document.session.Some? && document.session.value !in d.deletedSessions
            && IndexGap(d, verified, document.session))
      && (outcome == RunDeleted <==> accepted && run in d.tombstones)
      && (outcome == CheckpointCorrupt <==> accepted && run !in d.tombstones && !SlotsInOrder(slots, run))
      && (outcome == SessionConflict <==>
            || (&& document.session.Some? && document.session.value !in d.deletedSessions
                && !IndexGap(d, verified, document.session)
                && exists other ::
                     other != document.session.value && KnownIn(d, verified, document.session, other, run))
            || (&& accepted && run !in d.tombstones && SlotsInOrder(slots, run)
                && !SessionFits(slots, run, document.session)))
  {
    LoadedIsShown(SlotsOf(d, run), run);
  }

  /** The first save of a Run in any Session of an empty store goes through, and so does the first save of
      a Run that a store with a verified, usable index does not list. */
  lemma FirstSaveGoesThrough(d: Disk, verified: Option<Epoch>, run: RunId, document: Document)
    requires SlotsOf(d, run) == Slots(Absent, Absent) && run !in d.tombstones
    requires document.session.Some? ==> document.session.value !in d.deletedSessions
    requires d == NewWorld.disk
             || (Usable(d, document.session) && verified == Some(CurrentEpoch(d))
                 && forall session :: !Lists(d.manifest.sessions, session, run))
    ensures SaveOutcomeOf(d, verified, run, document) == Saved
  {
    SaveGoesThroughExactlyIf(d, verified, run, document);
    assert forall document :: !Shows(SlotsOf(d, run), run, document);
  }

  // The Run files and tombstones are the same.
  predicate SameRuns(d: Disk, d': Disk) {
    && d'.slots == d.slots
    && d'.tombstones == d.tombstones
    && d'.deletedSessions == d.deletedSessions
    && d'.dirVersion == d.dirVersion
  }

  lemma SameRunsSameLive(d: Disk, d': Disk)
    requires SameRuns(d, d')
    ensures forall run :: LiveDocument(d', run) == LiveDocument(d, run)
    ensures forall session, run :: LiveIn(d', session, run) == LiveIn(d, session, run)
    ensures forall sessions :: Covers(sessions, d') == Covers(sessions, d)
    ensures forall sessions :: Exact(sessions, d') == Exact(sessions, d)
  {
    assert forall run :: SlotsOf(d', run) == SlotsOf(d, run);
    assert forall session, run :: LiveIn(d', session, run) == LiveIn(d, session, run);
  }

  lemma ExtendedIsUsable(refs: Refs, generation: Generation, sessions: Index, session: SessionId, run: RunId)
    requires WellFormed(sessions) && RefsValid(refs, generation, sessions, Some(session))
    requires forall other :: other != session ==> !Lists(sessions, other, run)
    ensures var extended := sessions[session := RunsOf(sessions, session) + {run}];
      && WellFormed(extended)
      && RefsValid(WithRef(refs, generation, session, run), generation, extended, Some(session))
  {
    var extended := sessions[session := RunsOf(sessions, session) + {run}];
    forall s, t | s in extended && t in extended && s != t ensures extended[s] !! extended[t] {
      assert s in sessions && s != session ==> !Lists(sessions, s, run);
      assert t in sessions && t != session ==> !Lists(sessions, t, run);
    }
  }

  // After a save over a readable checkpoint, damage to either slot leaves one of two documents.
  ghost predicate SurvivesEitherDamage(before: Disk, w: World, run: RunId, document: Document) {
    LiveDocument(before, run).Some? ==>
      forall previous :: LiveDocument(Apply(w, DamageSlot(run, previous)).disk, run) in
                           {LiveDocument(before, run), Some(document)}
  }

  lemma SurvivesDamage(before: Disk, w: World, outcome: SaveOutcome, run: RunId, document: Document)
    requires document.runId == run
    requires outcome == Saved ==>
               && run !in w.disk.tombstones
               && SlotsOf(w.disk, run) ==
                  Slots(Holds(document),
                        if LiveDocument(before, run).Some? then Holds(LiveDocument(before, run).value) else Absent)
    ensures outcome == Saved ==> SurvivesEitherDamage(before, w, run, document)
  {
  }

  lemma PublishedIsCovered(d: Disk, d': Disk, run: RunId, document: Document)
    requires d.manifest.Manifest? && Covers(d.manifest.sessions, d) && d'.manifest == d.manifest
    requires d'.tombstones == d.tombstones
    requires LiveDocument(d', run) == Some(document)
    requires document.session.Some? && Lists(d.manifest.sessions, document.session.value, run)
    requires forall r :: r != run ==> SlotsOf(d', r) == SlotsOf(d, r)
    ensures Covers(d'.manifest.sessions, d')
  {
    forall s, r | LiveIn(d', s, r) ensures Lists(d'.manifest.sessions, s, r) {
      assert r != run ==> LiveIn(d, s, r);
    }
  }

  function FullDirectory(runs: set<RunId>): map<RunId, bool> {
    map run | run in runs :: true
  }

  function FullRefs(sessions: Index): map<SessionId, map<RunId, bool>> {
    map session | session in sessions :: FullDirectory(sessions[session])
  }

  function WithRef(refs: Refs, generation: Generation, session: SessionId, run: RunId): Refs {
    var dirs: map<SessionId, map<RunId, bool>> := if generation in refs then refs[generation] else map[];
    var dir: map<RunId, bool> := if session in dirs then dirs[session] else map[];
    refs[generation := dirs[session := dir[run := true]]]
  }

  function WithDirectory(refs: Refs, generation: Generation, session: SessionId,
                         directory: map<RunId, bool>): Refs
    requires generation in refs
  {
    var dirs: map<SessionId, map<RunId, bool>> := refs[generation];
    refs[generation := dirs[session := directory]]
  }

  lemma WithRefStep(refs: Refs, generation: Generation, session: SessionId, written: set<RunId>, run: RunId)
    requires generation in refs && session !in refs[generation]
    ensures WithRef(if written == {} then refs
                    else WithDirectory(refs, generation, session, FullDirectory(written)),
                    generation, session, run) ==
            WithDirectory(refs, generation, session, FullDirectory(written + {run}))
  {
    assert FullDirectory(written + {run}) == FullDirectory(written)[run := true];
    assert written == {} ==> FullDirectory(written) == map[];
    var dirs: map<SessionId, map<RunId, bool>> := refs[generation];
    assert dirs[session := FullDirectory(written)][session := FullDirectory(written + {run})] ==
           dirs[session := FullDirectory(written + {run})];
    if written != {} {
      var before := WithDirectory(refs, generation, session, FullDirectory(written));
      assert before[generation] == dirs[session := FullDirectory(written)];
      assert before[generation := dirs[session := FullDirectory(written + {run})]] ==
             refs[generation := dirs[session := FullDirectory(written + {run})]];
    }
  }

  lemma ExactIsWellFormed(sessions: Index, d: Disk)
    requires Exact(sessions, d)
    ensures WellFormed(sessions) && Covers(sessions, d)
  {
    forall s, t | s in sessions && t in sessions && s != t ensures sessions[s] !! sessions[t] {
      forall run | run in sessions[s] ensures run !in sessions[t] {
        assert Lists(sessions, s, run) && LiveIn(d, s, run) && !LiveIn(d, t, run);
        assert !Lists(sessions, t, run);
      }
    }
  }

  lemma FullRefsAreValid(refs: Refs, generation: Generation, sessions: Index)
    requires WellFormed(sessions)
    requires generation in refs && refs[generation] == FullRefs(sessions)
    ensures forall only :: RefsValid(refs, generation, sessions, only)
  {
  }

  lemma FreshGeneration(d: Disk) returns (generation: Generation)
    ensures generation !in d.refs
    ensures d.manifest.Manifest? ==> generation != d.manifest.generation
  {
    var taken := d.refs.Keys + if d.manifest.Manifest? then {d.manifest.generation} else {};
    generation := AboveAll(taken);
  }

  lemma AboveAll(s: set<nat>) returns (bound: nat)
    ensures forall x :: x in s ==> x < bound
  {
    if s == {} {
      bound := 0;
    } else {
      var x :| x in s;
      var rest := AboveAll(s - {x});
      bound := if x < rest then rest else x + 1;
      assert forall y :: y in s ==> y == x || y in s - {x};
    }
  }

  // ---------------------------------------------------------------------------------------------

  class RunStore {
    var disk: Disk
    var verified: Option<Epoch> // the epoch this process remembers as verified
    ghost var issued: set<Epoch> // all epochs any process has ever verified
    ghost var trace: seq<World>

    ghost function Now(): World
      reads this
    {
      World(disk, issued)
    }

    ghost predicate Valid()
      reads this
    {
      && trace != []
      && trace[|trace| - 1] == Now()
      && Path(trace)
      && Inv(Now())
      && (verified.Some? ==> verified.value in issued)
    }

    // All steps since the old state were steps of the store itself.
    twostate predicate Ran()
      reads this
    {
      && old(trace) <= trace
      && old(issued) <= issued
      && forall i :: |old(trace)| <= i < |trace| && 0 < i ==> ProgramStep(trace[i - 1], trace[i])
    }

    // Only index files changed, at every moment since the old state.
    twostate predicate IndexOnly()
      reads this
    {
      && Ran()
      && SameRuns(old(disk), disk)
      && forall i :: |old(trace)| <= i < |trace| ==> SameRuns(old(disk), trace[i].disk)
    }

    constructor (d: Disk)
      requires forall run :: SlotsAgree(SlotsOf(d, run), run)
      ensures Valid() && disk == d && verified == None
    {
      disk := d;
      verified := None;
      issued := {};
      trace := [World(d, {})];
    }

    /** A process starts after a crash, at any moment of an earlier process, with a remembered epoch of
        that time or none: it finds a valid store, so everything proved of the operations holds again. */
    constructor Restart(ghost past: seq<World>, moment: nat, d: Disk, remembered: Option<Epoch>)
      requires Path(past) && moment < |past| && Inv(past[0]) && d == past[moment].disk
      requires remembered.Some? ==> remembered.value in past[moment].issued
      ensures Valid() && disk == d && verified == remembered
      ensures trace == past[..moment + 1] && issued == past[moment].issued
    {
      disk, verified, issued, trace := d, remembered, past[moment].issued, past[..moment + 1];
      new;
      VerifiedEpochsNeverMissARun(past, moment);
      forall i | 0 < i < |trace| ensures Next(trace[i - 1], trace[i]) {
        assert Next(past[i - 1], past[i]);
      }
    }

    /** Another process takes over the disk, remembering any epoch verified so far, or none. */
    method Switch(remembered: Option<Epoch>)
      requires Valid() && (remembered.Some? ==> remembered.value in issued)
      modifies `verified
      ensures Valid() && verified == remembered
    {
      verified := remembered;
    }

    method Take(step: Step)
      requires Valid() && Enabled(Now(), step) && !step.MarkVerified? && !step.Tamper?
      modifies `disk, `trace
      ensures Valid() && Ran()
      ensures Now() == Apply(old(Now()), step) && trace == old(trace) + [Now()]
    {
      StepKeepsInv(Now(), step);
      disk := Apply(World(disk, {}), step).disk;
      trace := trace + [Now()];
      assert Next(old(Now()), Now());
    }

    method MarkIndexEpochVerified()
      requires Valid() && disk.manifest.Manifest? && Covers(disk.manifest.sessions, disk)
      modifies `verified, `issued, `trace
      ensures Valid() && IndexOnly()
      ensures verified == Some(CurrentEpoch(disk))
      ensures trace == old(trace) + [Now()]
    {
      StepKeepsInv(Now(), MarkVerified);
      verified := Some(CurrentEpoch(disk));
      issued := issued + {CurrentEpoch(disk)};
      trace := trace + [Now()];
      assert Now() == Apply(old(Now()), MarkVerified);
      assert Next(old(Now()), Now());
    }

    // -------------------------------------------------------------------------------------------
    // Slots

    /** Replaces the current slot and keeps the last readable document as the previous one.  A crash
        anywhere inside leaves the document that loaded before, or the new one. */
    method SaveUnchecked(run: RunId, document: Document)
      requires Valid() && document.runId == run && run !in disk.tombstones
      requires LoadUnchecked(SlotsOf(disk, run), run) != Corrupt
      requires LiveDocument(disk, run).Some? ==>
                 LiveDocument(disk, run).value.session in {None, document.session}
      requires document.session.Some? ==>
                 && document.session.value !in disk.deletedSessions
                 && disk.manifest.Manifest?
                 && Lists(disk.manifest.sessions, document.session.value, run)
      modifies `disk, `trace
      ensures Valid() && Ran()
      ensures SlotsOf(disk, run) ==
              Slots(Holds(document),
                    if old(LiveDocument(disk, run)).Some? then Holds(old(LiveDocument(disk, run)).value)
                    else Absent)
      ensures forall r :: r != run ==> SlotsOf(disk, r) == SlotsOf(old(disk), r)
      ensures disk == old(disk).(slots := disk.slots, dirVersion := disk.dirVersion)
      ensures forall i :: |old(trace)| <= i < |trace| ==>
                && LiveDocument(trace[i].disk, run) in {old(LiveDocument(disk, run)), Some(document)}
                && forall r :: r != run ==> SlotsOf(trace[i].disk, r) == SlotsOf(old(disk), r)
      ensures issued == old(issued)
    {
      hide Valid;
      Take(TouchRunDirectory);
      if SlotsOf(disk, run).current != Absent {
        ClearCurrent(run);
      }
      Take(PublishCurrent(run, document));
    }

    // Moves a readable current slot to the previous one, and unlinks a damaged one.
    method ClearCurrent(run: RunId)
      requires Valid() && run !in disk.tombstones && SlotsOf(disk, run).current != Absent
      requires LiveDocument(disk, run).Some?
      modifies `disk, `trace
      ensures Valid() && Ran() && issued == old(issued) && trace == old(trace) + [Now()]
      ensures SlotsOf(disk, run) == Slots(Absent, Holds(old(LiveDocument(disk, run)).value))
      ensures forall r :: r != run ==> SlotsOf(disk, r) == SlotsOf(old(disk), r)
      ensures disk == old(disk).(slots := disk.slots, dirVersion := disk.dirVersion)
    {
      if Readable(SlotsOf(disk, run).current, run) {
        Take(RotateCurrent(run));
      } else {
        Take(UnlinkDamagedCurrent(run));
      }
    }

    method ExistingSessionId(run: RunId) returns (outcome: SaveOutcome, session: Option<SessionId>)
      ensures outcome in {Saved, CheckpointCorrupt}
      ensures outcome == CheckpointCorrupt <==> LoadUnchecked(SlotsOf(disk, run), run) == Corrupt
      ensures session == match LoadUnchecked(SlotsOf(disk, run), run)
                         case Loaded(document, _) => document.session
                         case _ => None
    {
      match LoadUnchecked(SlotsOf(disk, run), run)
      case Loaded(document, _) => return Saved, document.session;
      case NotFound => return Saved, None;
      case Corrupt => return CheckpointCorrupt, None;
    }

    method SaveWithRunLock(run: RunId, document: Document) returns (outcome: SaveOutcome)
      requires Valid() && document.runId == run
      requires document.session.Some? ==>
                 && document.session.value !in disk.deletedSessions
                 && disk.manifest.Manifest?
                 && Lists(disk.manifest.sessions, document.session.value, run)
      modifies `disk, `trace
      ensures Valid() && Ran() && issued == old(issued)
      ensures outcome == LockedSaveOutcome(old(disk), run, document)
      ensures outcome == Saved <==>
                && run !in old(disk).tombstones && SlotsInOrder(old(SlotsOf(disk, run)), run)
                && SessionFits(old(SlotsOf(disk, run)), run, document.session)
      ensures outcome != Saved ==> disk == old(disk) && trace == old(trace)
      ensures outcome == Saved ==>
                && SlotsOf(disk, run) ==
                   Slots(Holds(document),
                         if old(LiveDocument(disk, run)).Some?
                         then Holds(old(LiveDocument(disk, run)).value) else Absent)
                && disk == old(disk).(slots := disk.slots, dirVersion := disk.dirVersion)
                && forall r :: r != run ==> SlotsOf(disk, r) == SlotsOf(old(disk), r)
      ensures forall i :: |old(trace)| <= i < |trace| ==>
                && LiveDocument(trace[i].disk, run) in {old(LiveDocument(disk, run)), Some(document)}
                && forall r :: r != run ==> SlotsOf(trace[i].disk, r) == SlotsOf(old(disk), r)
    {
      LoadedIsShown(SlotsOf(disk, run), run);
      if run in disk.tombstones {
        return RunDeleted;
      }
      var existing: Option<SessionId>;
      outcome, existing := ExistingSessionId(run);
      if outcome != Saved {
        return;
      }
      if existing.Some? && existing != document.session {
        return SessionConflict;
      }
      SaveUnchecked(run, document);
    }

    // -------------------------------------------------------------------------------------------
    // Index

    /** The full scan. */
    method AuthoritativeSessions() returns (sessions: Index)
      ensures Exact(sessions, disk)
    {
      sessions := map[];
      var todo := disk.slots.Keys;
      while todo != {}
        invariant todo <= disk.slots.Keys
        invariant forall s, r :: Lists(sessions, s, r) <==> LiveIn(disk, s, r) && r !in todo
        invariant forall s :: s in sessions ==> sessions[s] != {}
      {
        var run :| run in todo;
        todo := todo - {run};
        if run !in disk.tombstones {
          var loaded := LoadUnchecked(SlotsOf(disk, run), run);
          if loaded.Loaded? && loaded.document.session.Some? {
            var session := loaded.document.session.value;
            sessions := sessions[session := RunsOf(sessions, session) + {run}];
            assert run in sessions[session];
          }
        }
      }
    }

    method WriteSessionRef(generation: Generation, session: SessionId, run: RunId)
      requires Valid() && generation in disk.refs
      modifies `disk, `trace
      ensures Valid() && IndexOnly() && issued == old(issued)
      ensures disk == old(disk).(refs := WithRef(old(disk).refs, generation, session, run))
      ensures forall i :: |old(trace)| <= i < |trace| ==>
                && trace[i].disk.manifest == old(disk).manifest
                && forall g :: g in old(disk).refs && g != generation ==>
                     g in trace[i].disk.refs && trace[i].disk.refs[g] == old(disk).refs[g]
    {
      var refs := disk.refs;
      if session in refs[generation] && run in refs[generation][session]
         && refs[generation][session][run] {
        assert refs[generation][session][run := true] == refs[generation][session];
        assert refs[generation][session := refs[generation][session]] == refs[generation];
        assert refs[generation := refs[generation]] == refs;
        assert WithRef(refs, generation, session, run) == refs;
        return;
      }
      if session !in refs[generation] {
        Take(WriteRefs(WithDirectory(refs, generation, session, map[])));
      }
      Take(WriteRefs(WithRef(refs, generation, session, run)));
    }

    /** Removes every generation but one: nothing the manifest points at. */
    method CleanupIndex(keep: Generation)
      requires Valid() && keep in disk.refs
      modifies `disk, `trace
      ensures Valid() && IndexOnly() && issued == old(issued)
      ensures disk == old(disk).(refs := map[keep := old(disk).refs[keep]])
      ensures forall i :: |old(trace)| <= i < |trace| ==>
                && trace[i].disk.manifest == old(disk).manifest
                && keep in trace[i].disk.refs
                && trace[i].disk.refs[keep] == old(disk).refs[keep]
    {
      var todo := disk.refs.Keys - {keep};
      while todo != {}
        invariant Valid() && IndexOnly() && issued == old(issued)
        invariant keep in disk.refs && disk.refs.Keys == todo + {keep} && keep !in todo
        invariant disk == old(disk).(refs := disk.refs)
        invariant disk.refs[keep] == old(disk).refs[keep]
        invariant forall i :: |old(trace)| <= i < |trace| ==>
                    && trace[i].disk.manifest == old(disk).manifest
                    && keep in trace[i].disk.refs
                    && trace[i].disk.refs[keep] == old(disk).refs[keep]
      {
        var generation :| generation in todo;
        todo := todo - {generation};
        Take(WriteRefs(disk.refs - {generation}));
      }
    }

    // The generation the manifest points at is as it was.
    static ghost predicate Intact(before: Disk, after: Disk) {
      before.manifest.Manifest? && before.manifest.generation in before.refs ==>
        && before.manifest.generation in after.refs
        && after.refs[before.manifest.generation] == before.refs[before.manifest.generation]
    }

    /** Builds a new generation beside the old one and switches to it with a single replacement of
        the manifest.  A crash before that leaves manifest and old generation as they were. */
    method BuildSessionIndex(sessions: Index) returns (generation: Generation)
      requires Valid() && Exact(sessions, disk)
      modifies `disk, `trace
      ensures Valid() && IndexOnly() && issued == old(issued)
      ensures disk.manifest == Manifest(generation, sessions)
      ensures disk.refs == map[generation := FullRefs(sessions)]
      ensures forall i :: |old(trace)| <= i < |trace| ==>
                || trace[i].disk.manifest == disk.manifest
                || (trace[i].disk.manifest == old(disk).manifest && Intact(old(disk), trace[i].disk))
    {
      hide Valid;
      ghost var g := FreshGeneration(disk);
      generation :| generation !in disk.refs
                    && (disk.manifest.Manifest? ==> generation != disk.manifest.generation);
      var base := disk.refs;
      Take(WriteRefs(disk.refs[generation := map[]]));
      WriteGeneration(generation, sessions);
      SameRunsSameLive(old(disk), disk);
      ExactIsWellFormed(sessions, disk);
      Take(WriteManifest(Manifest(generation, sessions)));
      label published:
      CleanupIndex(generation);
    }

    method WriteGeneration(generation: Generation, sessions: Index)
      requires Valid() && generation in disk.refs && disk.refs[generation] == map[]
      requires forall session :: session in sessions ==> sessions[session] != {}
      modifies `disk, `trace
      ensures Valid() && IndexOnly() && issued == old(issued)
      ensures disk == old(disk).(refs := old(disk).refs[generation := FullRefs(sessions)])
      ensures forall i :: |old(trace)| <= i < |trace| ==>
                && trace[i].disk.manifest == old(disk).manifest
                && forall g :: g in old(disk).refs && g != generation ==>
                     g in trace[i].disk.refs && trace[i].disk.refs[g] == old(disk).refs[g]
    {
      hide Valid, FullDirectory;
      var todo := sessions.Keys;
      ghost var base := disk.refs;
      ghost var built: map<SessionId, map<RunId, bool>> := map[];
      assert base[generation := built] == base;
      while todo != {}
        invariant todo <= sessions.Keys && built.Keys == sessions.Keys - todo
        invariant Valid() && IndexOnly() && issued == old(issued)
        invariant disk == old(disk).(refs := base[generation := built])
        invariant forall s :: s in built ==> built[s] == FullDirectory(sessions[s])
        invariant forall i :: |old(trace)| <= i < |trace| ==>
                    && trace[i].disk.manifest == old(disk).manifest
                    && forall g :: g in old(disk).refs && g != generation ==>
                         g in trace[i].disk.refs && trace[i].disk.refs[g] == old(disk).refs[g]
      {
        var session :| session in todo;
        WriteSession(generation, session, sessions[session]);
        todo := todo - {session};
        built := built[session := FullDirectory(sessions[session])];
        assert disk.refs == base[generation := built];
      }
      assert built == FullRefs(sessions);
    }

    method WriteSession(generation: Generation, session: SessionId, runs: set<RunId>)
      requires Valid() && generation in disk.refs && session !in disk.refs[generation]
      requires runs != {}
      modifies `disk, `trace
      ensures Valid() && IndexOnly() && issued == old(issued)
      ensures disk == old(disk).(refs :=
                WithDirectory(old(disk).refs, generation, session, FullDirectory(runs)))
      ensures forall i :: |old(trace)| <= i < |trace| ==>
                && trace[i].disk.manifest == old(disk).manifest
                && forall g :: g in old(disk).refs && g != generation ==>
                     g in trace[i].disk.refs && trace[i].disk.refs[g] == old(disk).refs[g]
    {
      var todo := runs;
      ghost var written: set<RunId> := {};
      while todo != {}
        invariant written <= runs && todo == runs - written
        invariant Valid() && IndexOnly() && issued == old(issued)
        invariant disk == old(disk).(refs :=
                    if written == {} then old(disk).refs
                    else WithDirectory(old(disk).refs, generation, session, FullDirectory(written)))
        invariant forall i :: |old(trace)| <= i < |trace| ==>
                    && trace[i].disk.manifest == old(disk).manifest
                    && forall g :: g in old(disk).refs && g != generation ==>
                         g in trace[i].disk.refs && trace[i].disk.refs[g] == old(disk).refs[g]
      {
        var run :| run in todo;
        WriteSessionRef(generation, session, run);
        todo := todo - {run};
        WithRefStep(old(disk).refs, generation, session, written, run);
        written := written + {run};
      }
      assert written == runs;
    }

    method RebuildSessionIndex() returns (generation: Generation, sessions: Index)
      requires Valid()
      modifies this
      ensures Valid() && IndexOnly()
      ensures Exact(sessions, disk) && disk.manifest == Manifest(generation, sessions)
      ensures forall only :: Usable(disk, only)
      ensures verified == Some(CurrentEpoch(disk))
    {
      sessions := AuthoritativeSessions();
      generation := BuildSessionIndex(sessions);
      SameRunsSameLive(old(disk), disk);
      ExactIsWellFormed(sessions, disk);
      FullRefsAreValid(disk.refs, generation, sessions);
      MarkIndexEpochVerified();
    }

    method IndexLocked(only: Option<SessionId>) returns (generation: Generation, sessions: Index)
      requires Valid()
      modifies this
      ensures Valid() && IndexOnly()
      ensures disk.manifest == Manifest(generation, sessions) && Usable(disk, only)
      ensures old(Usable(disk, only)) ==> Now() == old(Now()) && verified == old(verified)
      ensures !old(Usable(disk, only)) ==>
                Exact(sessions, disk) && verified == Some(CurrentEpoch(disk)) && Usable(disk, None)
    {
      if Usable(disk, only) {
        return disk.manifest.generation, disk.manifest.sessions;
      }
      generation, sessions := RebuildSessionIndex();
    }

    lemma VerifiedCovers()
      requires Valid() && verified == Some(CurrentEpoch(disk))
      ensures disk.manifest.Manifest? && Covers(disk.manifest.sessions, disk)
    {
      assert EpochSound(verified.value, disk);
    }

    method VerifyIndexEpoch(generation: Generation, sessions: Index)
      returns (ok: bool, generation': Generation, sessions': Index)
      requires Valid() && disk.manifest == Manifest(generation, sessions) && WellFormed(sessions)
      modifies this
      ensures Valid() && IndexOnly()
      ensures disk.manifest == Manifest(generation', sessions')
      ensures ok <==> !old(
                && verified != Some(CurrentEpoch(disk))
                && Exact(sessions, disk)
                && !RefsValid(disk.refs, generation, sessions, None))
      ensures ok ==> WellFormed(sessions') && Covers(sessions', disk) && verified == Some(CurrentEpoch(disk))
      ensures old(verified == Some(CurrentEpoch(disk))) ==> Now() == old(Now())
      ensures ok && old(verified != Some(CurrentEpoch(disk))) ==>
                Exact(sessions', disk) && Usable(disk, None)
    {
      hide Valid, Covers, RefsValid;
      generation', sessions' := generation, sessions;
      if verified == Some(CurrentEpoch(disk)) {
        VerifiedCovers();
        return true, generation, sessions;
      }
      var authoritative := AuthoritativeSessions();
      ExactIsWellFormed(authoritative, disk);
      if sessions != authoritative {
        if Exact(sessions, disk) {
          ExactIsUnique(sessions, authoritative, disk);
        }
        generation' := BuildSessionIndex(authoritative);
        sessions' := authoritative;
        SameRunsSameLive(old(disk), disk);
        FullRefsAreValid(disk.refs, generation', sessions');
      }
      ok := RefsValid(disk.refs, generation', sessions', None);
      if ok {
        MarkIndexEpochVerified();
      }
    }

    /** Opens the index for one Session, or for all of them. */
    method OpenIndex(only: Option<SessionId>)
      returns (ok: bool, generation: Generation, sessions: Index)
      requires Valid()
      modifies this
      ensures Valid() && IndexOnly()
      ensures ok <==> !old(IndexGap(disk, verified, only))
      ensures ok ==>
                && disk.manifest == Manifest(generation, sessions) && Usable(disk, only)
                && Covers(sessions, disk) && verified == Some(CurrentEpoch(disk))
                && forall s, r :: Lists(sessions, s, r) <==> old(KnownIn(disk, verified, only, s, r))
    {
      generation, sessions := IndexLocked(only);
      SameRunsSameLive(old(disk), disk);
      ok, generation, sessions := VerifyIndexEpoch(generation, sessions);
      SameRunsSameLive(old(disk), disk);
    }

    /** Runs when a store is opened. */
    method EnsureSessionIndex()
      requires Valid()
      modifies this
      ensures Valid() && IndexOnly()
      ensures Usable(disk, None) && Covers(disk.manifest.sessions, disk)
      ensures disk.refs.Keys == {disk.manifest.generation}
      ensures verified == Some(CurrentEpoch(disk))
    {
      var _, generation, sessions := OpenIndex(None);
      CleanupIndex(generation);
      SameRunsSameLive(old(disk), disk);
    }

    // -------------------------------------------------------------------------------------------
    // Operations

    /** Saves a checkpoint.  The index is written before the slots, so a crash can leave a listed
        Run without a checkpoint, never a checkpoint the index misses. */
    method Save(run: RunId, document: Document) returns (outcome: SaveOutcome)
      requires Valid() && document.runId == run
      modifies this
      ensures Valid() && Ran()
      ensures outcome == old(SaveOutcomeOf(disk, verified, run, document))
      ensures outcome == Saved <==>
                && run !in old(disk).tombstones && SlotsInOrder(old(SlotsOf(disk, run)), run)
                && SessionFits(old(SlotsOf(disk, run)), run, document.session)
                && old(SessionAccepts(disk, verified, document.session, run))
      ensures outcome == Saved ==>
                && SlotsOf(disk, run) ==
                   Slots(Holds(document),
                         if old(LiveDocument(disk, run)).Some?
                         then Holds(old(LiveDocument(disk, run)).value) else Absent)
                && LiveDocument(disk, run) == Some(document)
                && (document.session.Some? ==>
                      && LiveIn(disk, document.session.value, run)
                      && Usable(disk, document.session) && Covers(disk.manifest.sessions, disk)
                      && verified == Some(CurrentEpoch(disk)))
      ensures outcome == Saved ==> SurvivesEitherDamage(old(disk), Now(), run, document)
      ensures outcome != Saved ==> SameRuns(old(disk), disk)
      ensures disk.tombstones == old(disk).tombstones && disk.deletedSessions == old(disk).deletedSessions
      ensures forall r :: r != run ==> SlotsOf(disk, r) == SlotsOf(old(disk), r)
      ensures forall i :: |old(trace)| <= i < |trace| ==>
                && LiveDocument(trace[i].disk, run) in {old(LiveDocument(disk, run)), Some(document)}
                && forall r :: r != run ==> SlotsOf(trace[i].disk, r) == SlotsOf(old(disk), r)
    {
      hide Valid, IndexGap, KnownIn, SlotsInOrder, SessionFits, RefsValid, WellFormed, Covers, Exact;
      hide SurvivesEitherDamage;
      SaveGoesThroughExactlyIf(disk, verified, run, document);
      if document.session == None {
        outcome := SaveWithRunLock(run, document);
        SurvivesDamage(old(disk), Now(), outcome, run, document);
        return;
      }
      var session := document.session.value;
      if session in disk.deletedSessions {
        return SessionDeleted;
      }
      outcome := IndexRun(session, run);
      SameRunsSameLive(old(disk), disk);
      if outcome != Saved {
        return;
      }
      label indexed:
      outcome := SaveWithRunLock(run, document);
      if outcome == Saved {
        PublishedIsCovered(old@indexed(disk), disk, run, document);
        MarkIndexEpochVerified();
      }
      SurvivesDamage(old(disk), Now(), outcome, run, document);
    }

    /** The part of a save before the slots: ref first, then manifest. */
    method IndexRun(session: SessionId, run: RunId) returns (outcome: SaveOutcome)
      requires Valid() && session !in disk.deletedSessions
      modifies this
      ensures Valid() && IndexOnly()
      ensures outcome == old(
                if IndexGap(disk, verified, Some(session)) then IndexInvalid
                else if exists other :: other != session && KnownIn(disk, verified, Some(session), other, run)
                then SessionConflict
                else Saved)
      ensures outcome == Saved ==>
                && disk.manifest.Manifest?
                && Covers(disk.manifest.sessions, disk)
                && Lists(disk.manifest.sessions, session, run)
                && Usable(disk, Some(session))
    {
      var ok, generation, sessions := OpenIndex(Some(session));
      if !ok {
        return IndexInvalid;
      }
      if other :| other in sessions && other != session && run in sessions[other] {
        assert Lists(sessions, other, run);
        return SessionConflict;
      }
      assert forall other :: other != session ==> !Lists(sessions, other, run);
      AddToIndex(generation, sessions, session, run);
      return Saved;
    }

    method AddToIndex(generation: Generation, sessions: Index, session: SessionId, run: RunId)
      requires Valid() && disk.manifest == Manifest(generation, sessions)
      requires Usable(disk, Some(session)) && Covers(sessions, disk)
      requires forall other :: other != session ==> !Lists(sessions, other, run)
      modifies `disk, `trace
      ensures Valid() && IndexOnly()
      ensures disk.manifest.Manifest? && Covers(disk.manifest.sessions, disk)
      ensures Lists(disk.manifest.sessions, session, run) && Usable(disk, Some(session))
    {
      ExtendedIsUsable(disk.refs, generation, sessions, session, run);
      var extended := sessions[session := RunsOf(sessions, session) + {run}];
      assert forall s, r :: Lists(sessions, s, r) ==> Lists(extended, s, r);
      WriteSessionRef(generation, session, run);
      SameRunsSameLive(old(disk), disk);
      Take(WriteManifest(Manifest(generation, extended)));
      SameRunsSameLive(old(disk), disk);
    }

    /** One pass over the indexed Runs of a Session; stale when one of them is not live there. */
    method LastIndexedRun(session: SessionId, runs: set<RunId>) returns (stale: bool, last: Option<RunMeta>)
      ensures stale <==> exists run :: run in runs && !LiveIn(disk, session, run)
      ensures !stale && (forall run :: LiveIn(disk, session, run) ==> run in runs) ==>
                IsLastPublic(disk, session, last)
    {
      last := None;
      var todo := runs;
      while todo != {}
        invariant todo <= runs
        invariant forall run :: run in runs - todo ==> LiveIn(disk, session, run)
        invariant last.Some? ==>
                    && last.value.id in runs - todo
                    && LiveIn(disk, session, last.value.id)
                    && last.value == MetaOf(LiveDocument(disk, last.value.id).value, session)
                    && last.value.status != NotPublic
        invariant forall run :: run in runs - todo && LiveDocument(disk, run).value.status != NotPublic ==>
                    last.Some? && !Later(MetaOf(LiveDocument(disk, run).value, session), last.value)
      {
        var run :| run in todo;
        todo := todo - {run};
        if run in disk.tombstones {
          return true, None;
        }
        var loaded := LoadUnchecked(SlotsOf(disk, run), run);
        if !loaded.Loaded? || loaded.document.session != Some(session) {
          return true, None;
        }
        assert LiveDocument(disk, run) == Some(loaded.document);
        if loaded.document.status != NotPublic {
          var candidate := MetaOf(loaded.document, session);
          if last == None || Later(candidate, last.value) {
            last := Some(candidate);
          }
        }
      }
      assert runs - {} == runs;
      stale := false;
    }

    /** Answers exactly what a full scan would, from an index that may be stale, damaged or edited.
        It gives no answer only for a deleted Session, and in the one gap of `IndexGap`. */
    method LastForSession(session: SessionId) returns (outcome: LastOutcome)
      requires Valid()
      modifies this
      ensures Valid() && IndexOnly()
      ensures outcome == NoSession <==> session in disk.deletedSessions
      ensures outcome == InvalidIndex <==>
              session !in disk.deletedSessions && old(IndexGap(disk, verified, Some(session)))
      ensures outcome.Last? ==> IsLastPublic(disk, session, outcome.run)
    {
      if session in disk.deletedSessions {
        return NoSession;
      }
      var ok, generation, sessions := OpenIndex(Some(session));
      if !ok {
        return InvalidIndex;
      }
      var stale, last := LastIndexedRun(session, RunsOf(sessions, session));
      if stale {
        generation, sessions := RebuildSessionIndex();
        assert forall run :: run in RunsOf(sessions, session) ==> Lists(sessions, session, run);
        stale, last := LastIndexedRun(session, RunsOf(sessions, session));
      }
      assert forall run :: LiveIn(disk, session, run) ==> Lists(sessions, session, run);
      return Last(last);
    }

    // -------------------------------------------------------------------------------------------
    // Deletion

    /** Tombstone first, slots afterwards. */
    method DeleteLocked(run: RunId) returns (deleted: bool)
      requires Valid()
      modifies `disk, `trace
      ensures Valid() && Ran() && issued == old(issued)
      ensures deleted <==> run !in old(disk).tombstones && SlotsOf(old(disk), run) != Slots(Absent, Absent)
      ensures SlotsOf(disk, run) == Slots(Absent, Absent)
      ensures disk.tombstones == old(disk).tombstones + if deleted then {run} else {}
      ensures disk == old(disk).(slots := disk.slots, tombstones := disk.tombstones,
                                 dirVersion := disk.dirVersion)
      ensures forall i :: |old(trace)| <= i < |trace| ==>
                && LiveDocument(trace[i].disk, run) == None
                && forall r :: r != run ==> SlotsOf(trace[i].disk, r) == SlotsOf(old(disk), r)
      ensures forall r :: r != run ==> SlotsOf(disk, r) == SlotsOf(old(disk), r)
    {
      hide Valid;
      if run !in disk.tombstones {
        if SlotsOf(disk, run) == Slots(Absent, Absent) {
          return false;
        }
        Take(PublishTombstone(run));
        deleted := true;
      } else {
        deleted := false;
      }
      if SlotsOf(disk, run).current != Absent {
        Take(UnlinkSlot(run, false));
      }
      if SlotsOf(disk, run).previous != Absent {
        Take(UnlinkSlot(run, true));
      }
    }

    /** After a delete the Run is neither live nor listed, and every crash on the way leaves it
        either as it was or gone. */
    method Delete(run: RunId) returns (deleted: bool)
      requires Valid()
      modifies this
      ensures Valid() && Ran()
      ensures deleted <==> run !in old(disk).tombstones && SlotsOf(old(disk), run) != Slots(Absent, Absent)
      ensures SlotsOf(disk, run) == Slots(Absent, Absent) && LoadRun(disk, run) == NotFound
      ensures disk.tombstones == old(disk).tombstones + if deleted then {run} else {}
      ensures disk.deletedSessions == old(disk).deletedSessions
      ensures forall r :: r != run ==> SlotsOf(disk, r) == SlotsOf(old(disk), r)
      ensures forall i :: |old(trace)| <= i < |trace| ==>
                && LiveDocument(trace[i].disk, run) in {old(LiveDocument(disk, run)), None}
                && forall r :: r != run ==> SlotsOf(trace[i].disk, r) == SlotsOf(old(disk), r)
      ensures verified == Some(CurrentEpoch(disk))
      ensures forall session :: !Lists(disk.manifest.sessions, session, run)
    {
      hide Valid;
      var _, generation, sessions := OpenIndex(None);
      SameRunsSameLive(old(disk), disk);
      label indexed:
      deleted := DeleteLocked(run);
      StillCovered(sessions, old@indexed(disk), disk, run);
      label unlinked:
      Delist(generation, sessions, run);
      MarkIndexEpochVerified();
      assert forall r :: SlotsOf(disk, r) == SlotsOf(old@unlinked(disk), r);
    }

    // Takes a Run that is not live any more out of the index: ref, directory, then manifest.
    method Delist(generation: Generation, sessions: Index, run: RunId)
      requires Valid() && disk.manifest == Manifest(generation, sessions) && WellFormed(sessions)
      requires Covers(sessions, disk) && LiveDocument(disk, run) == None
      modifies `disk, `trace
      ensures Valid() && IndexOnly() && issued == old(issued)
      ensures disk.manifest.Manifest? && Covers(disk.manifest.sessions, disk)
      ensures forall session :: !Lists(disk.manifest.sessions, session, run)
    {
      hide Valid;
      if session :| session in sessions && run in sessions[session] {
        var rest := sessions[session] - {run};
        var delisted := if rest == {} then sessions - {session} else sessions[session := rest];
        forall s, r | LiveIn(disk, s, r) ensures Lists(delisted, s, r) {
          assert Lists(sessions, s, r) && r != run;
          assert s == session ==> r in rest;
        }
        Take(WriteRefs(WithoutRef(disk.refs, generation, session, run)));
        if rest == {} {
          Take(WriteRefs(WithoutDirectory(disk.refs, generation, session)));
        }
        SameRunsSameLive(old(disk), disk);
        Take(WriteManifest(Manifest(generation, delisted)));
        SameRunsSameLive(old(disk), disk);
      }
    }

    method DeleteSessionRuns(session: SessionId) returns (removed: Option<seq<RunId>>)
      requires Valid()
      modifies this
      ensures Valid() && Ran()
      ensures removed == None <==> session !in disk.deletedSessions
      ensures removed == None ==> Now() == old(Now())
      ensures removed.Some? ==>
                && Ascending(removed.value)
                && (forall run :: run in removed.value <==> old(LiveIn(disk, session, run)))
                && (forall run :: !LiveIn(disk, session, run))
                && disk.manifest.Manifest? && Exact(disk.manifest.sessions, disk)
                && verified == Some(CurrentEpoch(disk))
      ensures forall run :: SlotsOf(disk, run) ==
                if removed.Some? && run in removed.value then Slots(Absent, Absent) else SlotsOf(old(disk), run)
      ensures disk.tombstones == old(disk).tombstones +
                if removed.Some? then (set run | run in removed.value) else {}
      ensures disk.deletedSessions == old(disk).deletedSessions
    {
      hide Valid;
      if session !in disk.deletedSessions {
        return None;
      }
      var generation, sessions := RebuildSessionIndex();
      SameRunsSameLive(old(disk), disk);
      var runs := RunsOf(sessions, session);
      assert forall run :: run in runs <==> Lists(sessions, session, run);
      label rebuilt:
      var ids := DeleteAll(runs);
      AllGone(sessions, old@rebuilt(disk), disk, session, runs);
      assert runs == set run | run in ids;
      RemoveSessionRefs(generation, sessions, session);
      MarkIndexEpochVerified();
      removed := Some(ids);
    }

    method RemoveSessionRefs(generation: Generation, sessions: Index, session: SessionId)
      requires Valid() && Exact(sessions - {session}, disk)
      modifies `disk, `trace
      ensures Valid() && IndexOnly() && issued == old(issued)
      ensures disk.manifest == Manifest(generation, sessions - {session})
      ensures Exact(sessions - {session}, disk) && Covers(sessions - {session}, disk)
    {
      Take(WriteRefs(WithoutDirectory(disk.refs, generation, session)));
      SameRunsSameLive(old(disk), disk);
      Take(WriteManifest(Manifest(generation, sessions - {session})));
      SameRunsSameLive(old(disk), disk);
    }

    method DeleteAll(runs: set<RunId>) returns (removed: seq<RunId>)
      requires Valid()
      requires forall run :: run in runs ==> LiveDocument(disk, run).Some?
      modifies `disk, `trace
      ensures Valid() && Ran() && issued == old(issued)
      ensures Ascending(removed) && (forall run :: run in removed <==> run in runs)
      ensures forall run :: SlotsOf(disk, run) ==
                if run in runs then Slots(Absent, Absent) else SlotsOf(old(disk), run)
      ensures disk == old(disk).(slots := disk.slots, tombstones := old(disk).tombstones + runs,
                                 dirVersion := disk.dirVersion)
    {
      hide Valid;
      removed := [];
      var todo := runs;
      while todo != {}
        invariant todo <= runs
        invariant Valid() && Ran() && issued == old(issued)
        invariant Ascending(removed) && (forall run :: run in removed <==> run in runs - todo)
        invariant forall i, b :: 0 <= i < |removed| && b in todo ==> removed[i] < b
        invariant forall run :: SlotsOf(disk, run) ==
                    if run in runs - todo then Slots(Absent, Absent) else SlotsOf(old(disk), run)
        invariant disk == old(disk).(slots := disk.slots,
                                     tombstones := old(disk).tombstones + (runs - todo),
                                     dirVersion := disk.dirVersion)
      {
        ghost var least := Least(todo);
        var run :| run in todo && forall other :: other in todo ==> run <= other;
        assert old(LiveDocument(disk, run)).Some?;
        var deleted := DeleteLocked(run);
        if deleted {
          removed := removed + [run];
        }
        todo := todo - {run};
      }
      assert runs - {} == runs;
    }
  }

  /** The gap exists: a writer adds a Run of another Session and crashes after its first ref.  A
      process whose remembered epoch is older then cannot be told the last Run of `session`, although
      manifest, refs and checkpoints of that Session are all in order. */
  lemma CrashedSaveOpensIndexGap(session: SessionId, other: SessionId, run: RunId, late: RunId)
    returns (before: World, step: Step, remembered: Option<Epoch>)
    requires session != other && run != late
    ensures Reachable(before)
    ensures Inv(before) && Usable(before.disk, None) && Exact(before.disk.manifest.sessions, before.disk)
    ensures remembered.Some? && remembered.value in before.issued
    ensures Enabled(before, step) && step.WriteRefs?
    ensures step.refs == WithRef(before.disk.refs, before.disk.manifest.generation, other, late)
    ensures LiveIn(before.disk, session, run)
    ensures IndexGap(Apply(before, step).disk, remembered, Some(session))
  {
    var document := Document(run, Some(session), Completed, 0, 0);
    var slots := map[run := Slots(Holds(document), Absent)];
    var sessions: Index := map[session := {run}];
    var refs: Refs := map[0 := FullRefs(sessions)];
    var disk := Disk(slots, {}, {}, 1, Manifest(0, sessions), refs);
    remembered := Some(Epoch(Manifest(0, map[]), 0));
    before := GapBegins(document, session, run);
    forall s, r ensures LiveIn(disk, s, r) <==> Lists(sessions, s, r) {
      assert r == run || SlotsOf(disk, r) == Slots(Absent, Absent);
    }
    step := WriteRefs(WithRef(refs, 0, other, late));
    var after := Apply(before, step).disk;
    SameRunsSameLive(disk, after);
    assert other in after.refs[0].Keys && other !in sessions.Keys;
    assert after.refs[0][session] == FullDirectory({run});
  }

  // The state before: an empty index is verified, then the Run is indexed and saved.
  lemma GapBegins(document: Document, session: SessionId, run: RunId) returns (w: World)
    requires document.runId == run && document.session == Some(session)
    ensures Reachable(w)
    ensures w == World(Disk(map[run := Slots(Holds(document), Absent)], {}, {}, 1,
                            Manifest(0, map[session := {run}]), map[0 := FullRefs(map[session := {run}])]),
                       {Epoch(Manifest(0, map[]), 0)})
  {
    hide Reachable;
    w := EmptyVerified();
    var sessions: Index := map[session := {run}];
    var refs, manifest := WriteRefs(map[0 := FullRefs(sessions)]), WriteManifest(Manifest(0, sessions));
    StepIsReachable(w, refs);
    w := Apply(w, refs);
    assert forall r :: SlotsOf(w.disk, r) == Slots(Absent, Absent);
    StepIsReachable(w, manifest);
    w := Apply(w, manifest);
    StepIsReachable(w, PublishCurrent(run, document));
    w := Apply(w, PublishCurrent(run, document));
  }

  // An empty store whose empty index is verified.
  lemma EmptyVerified() returns (w: World)
    ensures Reachable(w)
    ensures w == World(Disk(map[], {}, {}, 0, Manifest(0, map[]), map[]), {Epoch(Manifest(0, map[]), 0)})
  {
    hide Reachable;
    NewIsReachable();
    w := NewWorld;
    assert forall r :: SlotsOf(w.disk, r) == Slots(Absent, Absent);
    StepIsReachable(w, WriteManifest(Manifest(0, map[])));
    w := Apply(w, WriteManifest(Manifest(0, map[])));
    assert forall r :: SlotsOf(w.disk, r) == Slots(Absent, Absent);
    StepIsReachable(w, MarkVerified);
    w := Apply(w, MarkVerified);
  }

  predicate Ascending(ids: seq<RunId>) {
    forall i, j :: 0 <= i < j < |ids| ==> ids[i] < ids[j]
  }

  lemma Least(s: set<RunId>) returns (least: RunId)
    requires s != {}
    ensures least in s && forall x :: x in s ==> least <= x
    decreases s
  {
    var start :| start in s;
    var below := set x | x in s && x < start;
    if below == {} {
      least := start;
      assert forall x :: x in s && x < start ==> x in below;
    } else {
      assert below <= s && start !in below;
      least := Least(below);
      assert least < start && forall x :: x in s && x < start ==> x in below;
    }
  }

  function WithoutRef(refs: Refs, generation: Generation, session: SessionId, run: RunId): Refs {
    if generation !in refs || session !in refs[generation] then refs
    else WithDirectory(refs, generation, session, refs[generation][session] - {run})
  }

  function WithoutDirectory(refs: Refs, generation: Generation, session: SessionId): Refs {
    if generation !in refs then refs
    else refs[generation := refs[generation] - {session}]
  }

  lemma StillCovered(sessions: Index, d: Disk, d': Disk, run: RunId)
    requires WellFormed(sessions) && Covers(sessions, d)
    requires LiveDocument(d', run) == None
    requires d.tombstones <= d'.tombstones
    requires forall r :: r != run ==> SlotsOf(d', r) == SlotsOf(d, r)
    ensures Covers(sessions, d')
  {
    forall s, r | LiveIn(d', s, r) ensures r != run && Lists(sessions, s, r) {
      assert LiveIn(d, s, r);
    }
  }

  lemma AllGone(sessions: Index, d: Disk, d': Disk, session: SessionId, runs: set<RunId>)
    requires Exact(sessions, d) && runs == RunsOf(sessions, session)
    requires d'.tombstones == d.tombstones + runs
    requires forall r :: SlotsOf(d', r) == if r in runs then Slots(Absent, Absent) else SlotsOf(d, r)
    ensures Exact(sessions - {session}, d')
    ensures forall r :: !LiveIn(d', session, r)
  {
    var rest := sessions - {session};
    forall s, r ensures LiveIn(d', s, r) <==> Lists(rest, s, r) {
      assert LiveIn(d, s, r) <==> Lists(sessions, s, r);
      if r in runs {
        assert Lists(sessions, session, r) && LiveIn(d, session, r);
      } else {
        assert LiveIn(d', s, r) == LiveIn(d, s, r);
      }
    }
    forall r ensures !LiveIn(d', session, r) {
      assert !Lists(rest, session, r);
    }
  }

  // When the locked part of a save goes through.
  function LockedSaveOutcome(d: Disk, run: RunId, document: Document): SaveOutcome {
    var loaded := LoadUnchecked(SlotsOf(d, run), run);
    if run in d.tombstones then RunDeleted
    else if loaded == Corrupt then CheckpointCorrupt
    else if loaded.Loaded? && loaded.document.session !in {None, document.session} then SessionConflict
    else Saved
  }
}
