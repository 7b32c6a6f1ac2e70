/**
  The files behind the Run checkpoint store, and the single file operations that may touch them.

  A `Disk` is what a process finds after a crash.  A `World` adds, for the proofs only, every index
  epoch that some process has ever recorded as verified.  One `Step` is one atomic file operation;
  a run of the system is any sequence of enabled steps, so a crash may fall between any two of them.
*/
module RunDisk {
  import opened Options

  // Run ids are compared as strings in the store; the order of naturals stands for that order.
  type RunId = nat
  type SessionId = nat
  type Generation = nat

  datatype Status = Running | Paused | Cancelled | Completed | Failed | NotPublic

  datatype Document =
    Document(runId: RunId, session: Option<SessionId>, status: Status, updatedAt: int, body: int)

  // A slot file is missing, holds something that cannot be parsed, or holds a document.
  datatype Slot = Absent | Damaged | Holds(document: Document)

  datatype Slots = Slots(current: Slot, previous: Slot)

  datatype LoadResult = Loaded(document: Document, fromPrevious: bool) | NotFound | Corrupt

  // A document under the name of another Run is rejected like a damaged file.
  predicate Readable(slot: Slot, run: RunId) {
    slot.Holds? && slot.document.runId == run
  }

  function LoadUnchecked(slots: Slots, run: RunId): LoadResult {
    if Readable(slots.current, run) then Loaded(slots.current.document, false)
    else if Readable(slots.previous, run) then Loaded(slots.previous.document, true)
    else if slots == Slots(Absent, Absent) then NotFound
    else Corrupt
  }

  type Index = map<SessionId, set<RunId>>

  // `Unreadable` stands for a missing or damaged manifest.
  datatype Manifest = Unreadable | Manifest(generation: Generation, sessions: Index)

  // For every generation directory: its Session directories, and in each the ref files.  A ref is
  // mapped to true when its content names exactly this Run and this Session.
  type Refs = map<Generation, map<SessionId, map<RunId, bool>>>

  datatype Disk = Disk(
    slots: map<RunId, Slots>,
    tombstones: set<RunId>,
    deletedSessions: set<SessionId>,
    dirVersion: nat, // mtime and size of the Run directory: changes with every entry change
    manifest: Manifest,
    refs: Refs)

  function SlotsOf(d: Disk, run: RunId): Slots {
    if run in d.slots then d.slots[run] else Slots(Absent, Absent)
  }

  function SlotAt(d: Disk, run: RunId, previous: bool): Slot {
    if previous then SlotsOf(d, run).previous else SlotsOf(d, run).current
  }

  // The document a full scan of the Run directory finds for a Run that is not tombstoned.
  function LiveDocument(d: Disk, run: RunId): Option<Document> {
    var loaded := LoadUnchecked(SlotsOf(d, run), run);
    if run !in d.tombstones && loaded.Loaded? then Some(loaded.document) else None
  }

  predicate LiveIn(d: Disk, session: SessionId, run: RunId) {
    LiveDocument(d, run).Some? && LiveDocument(d, run).value.session == Some(session)
  }

  function LoadRun(d: Disk, run: RunId): LoadResult {
    if run in d.tombstones then NotFound
    else
      var loaded := LoadUnchecked(SlotsOf(d, run), run);
      if loaded.Loaded? && loaded.document.session.Some?
         && loaded.document.session.value in d.deletedSessions
      then NotFound
      else loaded
  }

  predicate Lists(sessions: Index, session: SessionId, run: RunId) {
    session in sessions && run in sessions[session]
  }

  // No live Run of any Session is missing from the index.
  ghost predicate Covers(sessions: Index, d: Disk) {
    forall session, run :: LiveIn(d, session, run) ==> Lists(sessions, session, run)
  }

  // The index is the result of a full scan.
  ghost predicate Exact(sessions: Index, d: Disk) {
    && (forall session, run :: LiveIn(d, session, run) <==> Lists(sessions, session, run))
    && (forall session :: session in sessions ==> sessions[session] != {})
  }

  lemma ExactIsUnique(a: Index, b: Index, d: Disk)
    requires Exact(a, d) && Exact(b, d)
    ensures a == b
  {
    forall session
      ensures session in a <==> session in b
      ensures session in a && session in b ==> a[session] == b[session]
    {
      if session in a {
        var run :| run in a[session];
        assert Lists(a, session, run);
      }
      if session in b {
        var run :| run in b[session];
        assert Lists(b, session, run);
      }
      if session in a && session in b {
        forall run ensures run in a[session] <==> run in b[session] {
          assert Lists(a, session, run) <==> LiveIn(d, session, run);
        }
      }
    }
  }

  // ---------------------------------------------------------------------------------------------
  // Steps

  datatype Epoch = Epoch(manifest: Manifest, dirVersion: nat)

  datatype World = World(disk: Disk, issued: set<Epoch>)

  datatype Step =
    | TouchRunDirectory                        // a temporary file appears or disappears
    | RotateCurrent(run: RunId)                // os.replace(current, previous)
    | UnlinkDamagedCurrent(run: RunId)
    | PublishCurrent(run: RunId, document: Document) // os.replace(temp, current)
    | PublishTombstone(run: RunId)
    | UnlinkSlot(run: RunId, previous: bool)   // clean-up behind a tombstone
    | PublishSessionTombstone(session: SessionId)
    | WriteRefs(refs: Refs)                    // one ref file or directory created or removed
    | WriteManifest(manifest: Manifest)
    | MarkVerified                             // memory only: the current epoch counts as verified
    | DamageSlot(run: RunId, previous: bool)   // outside the program: in-place damage
    | Tamper(manifest: Manifest, refs: Refs)   // outside the program: any change of the index files

  function SetSlots(d: Disk, run: RunId, slots: Slots): Disk {
    d.(slots := d.slots[run := slots])
  }

  function Bump(d: Disk): Disk {
    d.(dirVersion := d.dirVersion + 1)
  }

  ghost predicate Enabled(w: World, step: Step) {
    var d := w.disk;
    match step
    case TouchRunDirectory => true
    case RotateCurrent(run) =>
      && run !in d.tombstones
      && Readable(SlotsOf(d, run).current, run)
    case UnlinkDamagedCurrent(run) =>
      && run !in d.tombstones
      && !Readable(SlotsOf(d, run).current, run)
      && Readable(SlotsOf(d, run).previous, run)
    case PublishCurrent(run, document) =>
      var slots := SlotsOf(d, run);
      && run !in d.tombstones
      && document.runId == run
      && slots.current == Absent
      && (slots.previous == Absent || Readable(slots.previous, run))
      && (slots.previous.Holds? ==>
            slots.previous.document.session in {None, document.session})
      && (document.session.Some? ==>
            && document.session.value !in d.deletedSessions
            && d.manifest.Manifest?
            && Lists(d.manifest.sessions, document.session.value, run))
    case PublishTombstone(run) => SlotsOf(d, run) != Slots(Absent, Absent)
    case UnlinkSlot(run, previous) =>
      && run in d.tombstones
      && SlotAt(d, run, previous) != Absent
    case PublishSessionTombstone(_) => true
    case WriteRefs(_) => true
    case WriteManifest(manifest) => manifest.Manifest? && Covers(manifest.sessions, d)
    case MarkVerified => d.manifest.Manifest? && Covers(d.manifest.sessions, d)
    case DamageSlot(run, previous) => SlotAt(d, run, previous) != Absent
    case Tamper(_, _) => true
  }

  function Apply(w: World, step: Step): World {
    var d := w.disk;
    match step
    case TouchRunDirectory => w.(disk := Bump(d))
    case RotateCurrent(run) =>
      w.(disk := Bump(SetSlots(d, run, Slots(Absent, SlotsOf(d, run).current))))
    case UnlinkDamagedCurrent(run) =>
      w.(disk := Bump(SetSlots(d, run, SlotsOf(d, run).(current := Absent))))
    case PublishCurrent(run, document) =>
      w.(disk := Bump(SetSlots(d, run, SlotsOf(d, run).(current := Holds(document)))))
    case PublishTombstone(run) => w.(disk := d.(tombstones := d.tombstones + {run}))
    case UnlinkSlot(run, previous) =>
      var slots := SlotsOf(d, run);
      w.(disk := Bump(SetSlots(d, run,
                               if previous then slots.(previous := Absent) else slots.(current := Absent))))
    case PublishSessionTombstone(session) =>
      w.(disk := d.(deletedSessions := d.deletedSessions + {session}))
    case WriteRefs(refs) => w.(disk := d.(refs := refs))
    case WriteManifest(manifest) => w.(disk := d.(manifest := manifest))
    case MarkVerified => w.(issued := w.issued + {Epoch(d.manifest, d.dirVersion)})
    case DamageSlot(run, previous) =>
      var slots := SlotsOf(d, run);
      w.(disk := SetSlots(d, run,
                          if previous then slots.(previous := Damaged) else slots.(current := Damaged)))
    case Tamper(manifest, refs) => w.(disk := d.(manifest := manifest, refs := refs))
  }

  ghost predicate Next(w: World, w': World) {
    exists step :: Enabled(w, step) && w' == Apply(w, step)
  }

  ghost predicate Path(worlds: seq<World>) {
    forall i :: 0 < i < |worlds| ==> Next(worlds[i - 1], worlds[i])
  }

  // An empty store, and the states it can come to.
  const NewWorld := World(Disk(map[], {}, {}, 0, Unreadable, map[]), {})

  ghost predicate Reachable(w: World) {
    exists worlds :: worlds != [] && Path(worlds) && worlds[0] == NewWorld && worlds[|worlds| - 1] == w
  }

  lemma NewIsReachable()
    ensures Reachable(NewWorld)
  {
    assert Path([NewWorld]);
  }

  lemma StepIsReachable(w: World, step: Step)
    requires Reachable(w) && Enabled(w, step)
    ensures Reachable(Apply(w, step))
  {
    var worlds :| worlds != [] && Path(worlds) && worlds[0] == NewWorld && worlds[|worlds| - 1] == w;
    var longer := worlds + [Apply(w, step)];
    forall i | 0 < i < |longer| ensures Next(longer[i - 1], longer[i]) {
      assert i < |worlds| ==> Next(worlds[i - 1], worlds[i]);
    }
    assert Path(longer) && longer[|longer| - 1] == Apply(w, step);
  }

  // ---------------------------------------------------------------------------------------------
  // What every step keeps

  // A previous slot never belongs to another Session than the current one.
  predicate SlotsAgree(slots: Slots, run: RunId) {
    Readable(slots.current, run) && Readable(slots.previous, run) ==>
      slots.previous.document.session in {None, slots.current.document.session}
  }

  // A verified epoch that still matches the Run directory has not lost a live Run, whatever was
  // done to the index files in the meantime.
  ghost predicate EpochSound(e: Epoch, d: Disk) {
    && e.manifest.Manifest?
    && e.dirVersion <= d.dirVersion
    && (e.dirVersion == d.dirVersion ==> Covers(e.manifest.sessions, d))
  }

  ghost predicate Inv(w: World) {
    && (forall run :: SlotsAgree(SlotsOf(w.disk, run), run))
    && (forall e :: e in w.issued ==> EpochSound(e, w.disk))
  }

  ghost predicate ManifestCovers(d: Disk) {
    d.manifest.Manifest? ==> Covers(d.manifest.sessions, d)
  }

  // Steps that leave the directory version alone never make a Run live.
  lemma QuietStepsOnlyShrink(w: World, step: Step, session: SessionId, run: RunId)
    requires Inv(w) && Enabled(w, step)
    requires Apply(w, step).disk.dirVersion == w.disk.dirVersion
    requires LiveIn(Apply(w, step).disk, session, run)
    ensures LiveIn(w.disk, session, run)
  {
    assert SlotsAgree(SlotsOf(w.disk, run), run);
  }

  lemma StepKeepsInv(w: World, step: Step)
    requires Inv(w) && Enabled(w, step)
    ensures Inv(Apply(w, step))
  {
    var w' := Apply(w, step);
    forall run ensures SlotsAgree(SlotsOf(w'.disk, run), run) {
      assert SlotsAgree(SlotsOf(w.disk, run), run);
    }
    forall e | e in w'.issued ensures EpochSound(e, w'.disk) {
      if e in w.issued {
        assert EpochSound(e, w.disk);
        if e.dirVersion == w'.disk.dirVersion {
          forall session, run | LiveIn(w'.disk, session, run)
            ensures Lists(e.manifest.sessions, session, run)
          {
            QuietStepsOnlyShrink(w, step, session, run);
          }
        }
      }
    }
  }

  /** Over every run of the store, with any number of processes, crashes, damaged slots and even
      arbitrary edits of the index files: an epoch some process remembers as verified, if it still
      matches the Run directory, lists every live Run of every Session. */
  lemma {:induction false} VerifiedEpochsNeverMissARun(worlds: seq<World>, i: nat)
    requires Path(worlds) && i < |worlds| && Inv(worlds[0])
    ensures Inv(worlds[i])
  {
    if i > 0 {
      VerifiedEpochsNeverMissARun(worlds, i - 1);
      assert Next(worlds[i - 1], worlds[i]);
      var step :| Enabled(worlds[i - 1], step) && worlds[i] == Apply(worlds[i - 1], step);
      StepKeepsInv(worlds[i - 1], step);
    }
  }

  ghost predicate ProgramStep(w: World, w': World) {
    exists step: Step :: !step.Tamper? && Enabled(w, step) && w' == Apply(w, step)
  }

  lemma StepKeepsManifest(w: World, step: Step)
    requires Inv(w) && ManifestCovers(w.disk) && !step.Tamper? && Enabled(w, step)
    ensures ManifestCovers(Apply(w, step).disk)
  {
    var w' := Apply(w, step);
    if w'.disk.manifest.Manifest? {
      forall session, run | LiveIn(w'.disk, session, run)
        ensures Lists(w'.disk.manifest.sessions, session, run)
      {
        if step.PublishCurrent? && step.run == run {
        } else {
          assert SlotsAgree(SlotsOf(w.disk, run), run);
          assert LiveIn(w.disk, session, run);
        }
      }
    }
  }

  /** While only the store writes the index, the manifest may list Runs that are gone but never
      misses a live one, in every state a crash can leave behind. */
  lemma {:induction false} ManifestNeverMissesARun(worlds: seq<World>, i: nat)
    requires i < |worlds| && Inv(worlds[0]) && ManifestCovers(worlds[0].disk)
    requires forall k :: 0 < k < |worlds| ==> ProgramStep(worlds[k - 1], worlds[k])
    ensures Inv(worlds[i]) && ManifestCovers(worlds[i].disk)
    decreases i
  {
    hide Inv, ManifestCovers, Enabled, Apply;
    if i > 0 {
      ManifestNeverMissesARun(worlds, i - 1);
      assert ProgramStep(worlds[i - 1], worlds[i]);
      var step: Step :| !step.Tamper? && Enabled(worlds[i - 1], step) && worlds[i] == Apply(worlds[i - 1], step);
      StepKeepsInv(worlds[i - 1], step);
      StepKeepsManifest(worlds[i - 1], step);
    }
  }

  // ---------------------------------------------------------------------------------------------
  // How long a verified index equals the scan

  predicate Listed(sessions: Index, run: RunId) {
    exists session :: session in sessions && run in sessions[session]
  }

  // Damage to this slot leaves the Run live in the Session if it was: the slot it loads from is the
  // other one, or the older document belongs to the Session as well.
  predicate HasBackup(slots: Slots, run: RunId, session: SessionId, previous: bool) {
    if previous then Readable(slots.current, run)
    else
      || !Readable(slots.current, run)
      || (Readable(slots.previous, run) && slots.previous.document.session == Some(session))
  }

  // A listed Run is tombstoned, or damaged in place without a backup.
  predicate LosesListed(d: Disk, step: Step, sessions: Index) {
    match step
    case PublishTombstone(run) => Listed(sessions, run)
    case DamageSlot(run, previous) =>
      exists session ::
        session in sessions && run in sessions[session] && !HasBackup(SlotsOf(d, run), run, session, previous)
    case _ => false
  }

  // The Runs a step takes away without a change of the directory.
  predicate Loses(d: Disk, step: Step, session: SessionId, run: RunId) {
    match step
    case PublishTombstone(gone) => gone == run
    case DamageSlot(damaged, previous) => damaged == run && !HasBackup(SlotsOf(d, run), run, session, previous)
    case _ => false
  }

  lemma QuietStepTakesAway(w: World, step: Step, session: SessionId, run: RunId)
    requires Inv(w) && Enabled(w, step) && Apply(w, step).disk.dirVersion == w.disk.dirVersion
    ensures LiveIn(Apply(w, step).disk, session, run) <==>
              LiveIn(w.disk, session, run) && !Loses(w.disk, step, session, run)
  {
    assert SlotsAgree(SlotsOf(w.disk, run), run);
  }

  lemma QuietStepStaysExactExactlyIf(w: World, step: Step, sessions: Index)
    requires Inv(w) && Enabled(w, step) && Apply(w, step).disk.dirVersion == w.disk.dirVersion
    requires Covers(sessions, w.disk)
    ensures Covers(sessions, Apply(w, step).disk)
    ensures Exact(sessions, Apply(w, step).disk) <==>
              Exact(sessions, w.disk) && !LosesListed(w.disk, step, sessions)
  {
    var d, d' := w.disk, Apply(w, step).disk;
    forall session, run
      ensures LiveIn(d', session, run) <==> LiveIn(d, session, run) && !Loses(d, step, session, run)
    {
      QuietStepTakesAway(w, step, session, run);
    }
    hide LiveIn, Enabled, Apply, HasBackup, Inv;
    forall session, run | Lists(sessions, session, run) && Loses(d, step, session, run)
      ensures LosesListed(d, step, sessions)
    {
      assert session in sessions && run in sessions[session];
    }
    if LosesListed(d, step, sessions) {
      var session :| session in sessions && step.run in sessions[session] && Loses(d, step, session, step.run);
      assert Lists(sessions, session, step.run) && !LiveIn(d', session, step.run);
    }
    if Exact(sessions, d') {
      forall session, run ensures LiveIn(d, session, run) <==> Lists(sessions, session, run) {
        assert LiveIn(d', session, run) <==> Lists(sessions, session, run);
      }
    }
  }

  // These steps lead through these worlds.
  ghost predicate Leads(worlds: seq<World>, steps: seq<Step>) {
    && |worlds| == |steps| + 1
    && forall k :: 0 <= k < |steps| ==> Enabled(worlds[k], steps[k]) && worlds[k + 1] == Apply(worlds[k], steps[k])
  }

  lemma {:induction false} VersionGrowsTo(worlds: seq<World>, steps: seq<Step>, i: nat, j: nat)
    requires Leads(worlds, steps) && i <= j <= |steps|
    ensures worlds[i].disk.dirVersion <= worlds[j].disk.dirVersion
    decreases j
  {
    if i < j {
      VersionGrowsTo(worlds, steps, i, j - 1);
      assert Enabled(worlds[j - 1], steps[j - 1]) && worlds[j] == Apply(worlds[j - 1], steps[j - 1]);
    }
  }

  /** From a moment when the index equals the full scan, and for as long as the Run directory keeps its
      time, it still equals the scan exactly if no listed Run has been tombstoned, or damaged in place
      without a backup, since then. */
  lemma {:induction false} IndexStaysExactExactlyIf(worlds: seq<World>, steps: seq<Step>, sessions: Index)
    requires Leads(worlds, steps) && Inv(worlds[0]) && Exact(sessions, worlds[0].disk)
    requires worlds[|steps|].disk.dirVersion == worlds[0].disk.dirVersion
    ensures Inv(worlds[|steps|]) && Covers(sessions, worlds[|steps|].disk)
    ensures Exact(sessions, worlds[|steps|].disk) <==>
              forall k :: 0 <= k < |steps| ==> !LosesListed(worlds[k].disk, steps[k], sessions)
    decreases |steps|
  {
    hide Enabled, Apply, Inv, LosesListed, Exact;
    if steps == [] {
      ExactCovers(sessions, worlds[0].disk);
    } else {
      var n := |steps| - 1;
      VersionGrowsTo(worlds, steps, 0, n);
      VersionGrowsTo(worlds, steps, n, n + 1);
      assert Leads(worlds[..n + 1], steps[..n]);
      IndexStaysExactExactlyIf(worlds[..n + 1], steps[..n], sessions);
      assert worlds[..n + 1][n] == worlds[n] && worlds[n + 1] == Apply(worlds[n], steps[n]);
      StepKeepsInv(worlds[n], steps[n]);
      QuietStepStaysExactExactlyIf(worlds[n], steps[n], sessions);
      assert forall k :: 0 <= k < n ==> steps[..n][k] == steps[k] && worlds[..n + 1][k] == worlds[k];
    }
  }

  lemma ExactCovers(sessions: Index, d: Disk)
    requires Exact(sessions, d)
    ensures Covers(sessions, d)
  {
  }

  /** So an epoch that counts as verified and still matches need not equal the scan: from an empty store,
      one Run is saved, verified and tombstoned. */
  lemma VerifiedEpochCanBeStale(session: SessionId, run: RunId) returns (w: World)
    ensures Reachable(w) && w.disk.manifest.Manifest?
    ensures Epoch(w.disk.manifest, w.disk.dirVersion) in w.issued
    ensures !Exact(w.disk.manifest.sessions, w.disk)
  {
    var sessions: Index := map[session := {run}];
    var document := Document(run, Some(session), Completed, 0, 0);
    NewIsReachable();
    w := NewWorld;
    assert Covers(sessions, w.disk) by {
      assert forall r :: SlotsOf(w.disk, r) == Slots(Absent, Absent);
    }
    StepIsReachable(w, WriteManifest(Manifest(0, sessions)));
    w := Apply(w, WriteManifest(Manifest(0, sessions)));
    StepIsReachable(w, PublishCurrent(run, document));
    w := Apply(w, PublishCurrent(run, document));
    assert Covers(sessions, w.disk) by {
      assert forall r :: r != run ==> SlotsOf(w.disk, r) == Slots(Absent, Absent);
    }
    StepIsReachable(w, MarkVerified);
    w := Apply(w, MarkVerified);
    StepIsReachable(w, PublishTombstone(run));
    w := Apply(w, PublishTombstone(run));
    assert Lists(sessions, session, run) && !LiveIn(w.disk, session, run);
  }

  // ---------------------------------------------------------------------------------------------
  // No resurrection

  /** Once a Run tombstone is published, no later step makes that Run load again. */
  lemma {:induction false} TombstonedRunNeverLoads(worlds: seq<World>, run: RunId, i: nat, j: nat)
    requires Path(worlds) && i <= j < |worlds|
    requires run in worlds[i].disk.tombstones
    ensures run in worlds[j].disk.tombstones && LoadRun(worlds[j].disk, run) == NotFound
  {
    if i < j {
      TombstonedRunNeverLoads(worlds, run, i, j - 1);
      assert Next(worlds[j - 1], worlds[j]);
    }
  }

  // The Run has a slot file, and every document it can still read belongs to the Session.
  predicate BelongsTo(d: Disk, run: RunId, session: SessionId) {
    var slots := SlotsOf(d, run);
    && slots != Slots(Absent, Absent)
    && (Readable(slots.current, run) ==> slots.current.document.session == Some(session))
    && (Readable(slots.previous, run) ==> slots.previous.document.session == Some(session))
  }

  lemma SessionStaysDeleted(w: World, w': World, session: SessionId)
    requires Next(w, w') && session in w.disk.deletedSessions
    ensures session in w'.disk.deletedSessions
  {
  }

  lemma GoneStaysGone(w: World, w': World, run: RunId)
    requires Next(w, w') && run in w.disk.tombstones
    ensures run in w'.disk.tombstones
  {
  }

  lemma BelongingStays(w: World, w': World, run: RunId, session: SessionId)
    requires Next(w, w') && session in w.disk.deletedSessions && BelongsTo(w.disk, run, session)
    ensures run in w'.disk.tombstones || BelongsTo(w'.disk, run, session)
  {
  }

  lemma BelongingDoesNotLoad(d: Disk, run: RunId, session: SessionId)
    requires session in d.deletedSessions && (run in d.tombstones || BelongsTo(d, run, session))
    ensures !LoadRun(d, run).Loaded?
  {
  }

  /** Once a Session tombstone is published, no later save, crash, late worker or damage makes a
      Run whose documents belong to that Session load again. */
  lemma {:induction false} RunOfDeletedSessionNeverLoads(
    worlds: seq<World>, run: RunId, session: SessionId, i: nat, j: nat)
    requires Path(worlds) && i <= j < |worlds|
    requires session in worlds[i].disk.deletedSessions
    requires BelongsTo(worlds[i].disk, run, session)
    ensures session in worlds[j].disk.deletedSessions
    ensures run in worlds[j].disk.tombstones || BelongsTo(worlds[j].disk, run, session)
    ensures !LoadRun(worlds[j].disk, run).Loaded?
  {
    hide Next, BelongsTo, LoadRun;
    if i < j {
      RunOfDeletedSessionNeverLoads(worlds, run, session, i, j - 1);
      assert Next(worlds[j - 1], worlds[j]);
      if run in worlds[j - 1].disk.tombstones {
        GoneStaysGone(worlds[j - 1], worlds[j], run);
      } else {
        BelongingStays(worlds[j - 1], worlds[j], run, session);
      }
      SessionStaysDeleted(worlds[j - 1], worlds[j], session);
    }
    BelongingDoesNotLoad(worlds[j].disk, run, session);
  }

  // Some run of the store from here makes the Run load.
  ghost predicate CanLoadAgain(w: World, run: RunId) {
    exists worlds: seq<World> ::
      && worlds != [] && Path(worlds) && worlds[0] == w
      && LoadRun(worlds[|worlds| - 1].disk, run).Loaded?
  }

  /** A live Run of a deleted Session can load again, at once or ever, exactly if it still has an older
      document that does not belong to the Session. */
  lemma RunOfDeletedSessionLoadsAgainExactlyIf(w: World, run: RunId, session: SessionId)
    requires Inv(w) && session in w.disk.deletedSessions && LiveIn(w.disk, session, run)
    ensures (exists step :: Enabled(w, step) && LoadRun(Apply(w, step).disk, run).Loaded?)
            <==> !BelongsTo(w.disk, run, session)
    ensures CanLoadAgain(w, run) <==> !BelongsTo(w.disk, run, session)
  {
    if BelongsTo(w.disk, run, session) {
      forall worlds: seq<World> | worlds != [] && Path(worlds) && worlds[0] == w
        ensures !LoadRun(worlds[|worlds| - 1].disk, run).Loaded?
      {
        RunOfDeletedSessionNeverLoads(worlds, run, session, 0, |worlds| - 1);
      }
      forall step | Enabled(w, step) ensures !LoadRun(Apply(w, step).disk, run).Loaded? {
        assert Next(w, Apply(w, step)) && Path([w, Apply(w, step)]);
        RunOfDeletedSessionNeverLoads([w, Apply(w, step)], run, session, 0, 1);
      }
    } else {
      assert SlotsAgree(SlotsOf(w.disk, run), run);
      var step := DamageSlot(run, false);
      assert Enabled(w, step) && LoadRun(Apply(w, step).disk, run).Loaded?;
      assert Next(w, Apply(w, step)) && Path([w, Apply(w, step)]);
    }
  }

  /** Such a Run: from an empty store, it is saved without a Session, then in one, and the Session is
      deleted. */
  lemma StandaloneFallbackOutlivesItsSession(run: RunId, session: SessionId) returns (w: World)
    ensures Reachable(w) && Inv(w) && session in w.disk.deletedSessions
    ensures LiveIn(w.disk, session, run) && LoadRun(w.disk, run) == NotFound
    ensures CanLoadAgain(w, run)
  {
    var before := Document(run, None, Running, 0, 0);
    var after := before.(session := Some(session));
    var manifest := Manifest(0, map[session := {run}]);
    var steps := [PublishCurrent(run, before), WriteManifest(manifest), RotateCurrent(run),
                  PublishCurrent(run, after), PublishSessionTombstone(session)];
    NewIsReachable();
    w := NewWorld;
    StepIsReachable(w, steps[0]);
    w := Apply(w, steps[0]);
    assert Covers(manifest.sessions, w.disk) by {
      assert forall r :: r != run ==> SlotsOf(w.disk, r) == Slots(Absent, Absent);
    }
    StepIsReachable(w, steps[1]);
    w := Apply(w, steps[1]);
    StepIsReachable(w, steps[2]);
    w := Apply(w, steps[2]);
    StepIsReachable(w, steps[3]);
    w := Apply(w, steps[3]);
    StepIsReachable(w, steps[4]);
    w := Apply(w, steps[4]);
    RunOfDeletedSessionLoadsAgainExactlyIf(w, run, session);
  }

  // ---------------------------------------------------------------------------------------------
  // Saves that take no index lock

  // The steps of saving a Run that has no Session.  Only the Run's own lock guards them, so they
  // may fall between any two steps of an operation that holds the index lock.
  ghost predicate StandaloneStep(w: World, step: Step) {
    match step
    case TouchRunDirectory => true
    case RotateCurrent(run) => SlotsOf(w.disk, run).current == Absent
                               || (SlotsOf(w.disk, run).current.Holds?
                                   && SlotsOf(w.disk, run).current.document.session == None)
    case UnlinkDamagedCurrent(_) => true
    case PublishCurrent(_, document) => document.session == None
    case _ => false
  }

  /** Nothing the holder of the index lock knows changes under such a step: the index files, the
      tombstones and the live Runs of every Session stay as they are. */
  lemma StandaloneStepsDoNotInterfere(w: World, step: Step)
    requires Inv(w) && Enabled(w, step) && StandaloneStep(w, step)
    ensures var d, d' := w.disk, Apply(w, step).disk;
      && d'.manifest == d.manifest && d'.refs == d.refs
      && d'.tombstones == d.tombstones && d'.deletedSessions == d.deletedSessions
      && forall session, run :: LiveIn(d', session, run) ==
                                LiveIn(d, session, run)
    ensures forall session, run :: LiveIn(w.disk, session, run) ==>
                                     LiveDocument(Apply(w, step).disk, run) == LiveDocument(w.disk, run)
  {
    var d, d' := w.disk, Apply(w, step).disk;
    forall session, run
      ensures LiveIn(d', session, run) == LiveIn(d, session, run)
      ensures LiveIn(d, session, run) ==> LiveDocument(d', run) == LiveDocument(d, run)
    {
      assert SlotsAgree(SlotsOf(d, run), run);
    }
  }
}
