/**
  The store of output files: text drafts written chunk by chunk, published artifacts, and the limits
  on both.  Every change is one file written atomically or removed, and a process may die between any
  two of them; the operations that take several say with `crash` or `removed` how far they get.
*/
module OutputStore {
  import opened Options
  import opened Utf8

  // A fork publishes under names made from the output it copies.
  datatype Name = Given(n: nat) | OfOutput(id: OutputId)

  // The hash of Run and call.
  datatype OutputId = OutputId(run: Name, call: Name)

  datatype Config = Config(
    mediaTypes: set<nat>, maxFileBytes: nat, maxRunFiles: nat, maxRunBytes: nat,
    maxSessionFiles: nat, maxSessionBytes: nat, maxChunkBytes: nat, maxChunks: nat)

  datatype Meta = Meta(filename: string, mediaType: nat, disposition: nat, message: Option<nat>, title: Option<string>)

  datatype Artifact = Artifact(session: nat, id: OutputId, meta: Meta, content: bytes)

  // A draft directory.  `meta` is its description if that was written; the chunk files are numbered
  // from `first` on.
  datatype Draft = Draft(
    session: nat, id: OutputId, meta: Option<Meta>, first: nat, chunks: seq<bytes>, finalized: bool)

  datatype Files = Files(drafts: seq<Draft>, artifacts: seq<Artifact>)

  datatype Error = Invalid | LimitExceeded | Conflict | NotFound | Unavailable | Crashed

  datatype Outcome<T> = Ok(value: T) | Err(error: Error)

  // ---------------------------------------------------------------------------------------------
  // Sums and lookups

  function Size(chunks: seq<bytes>): nat {
    if chunks == [] then 0 else Size(chunks[..|chunks| - 1]) + |chunks[|chunks| - 1]|
  }

  function Join(chunks: seq<bytes>): bytes {
    if chunks == [] then [] else Join(chunks[..|chunks| - 1]) + chunks[|chunks| - 1]
  }

  // Whose files are counted: those of one Run, or of the whole Session.
  datatype Scope = OfRun(session: nat, run: Name) | OfSession(session: nat)

  predicate Within(scope: Scope, session: nat, id: OutputId) {
    scope.session == session && (scope.OfRun? ==> scope.run == id.run)
  }

  function DraftBytes(drafts: seq<Draft>, scope: Scope): nat {
    if drafts == [] then 0
    else
      var last := drafts[|drafts| - 1];
      DraftBytes(drafts[..|drafts| - 1], scope) + if Within(scope, last.session, last.id) then Size(last.chunks) else 0
  }

  // Drafts with a description.
  function DraftCount(drafts: seq<Draft>, scope: Scope): nat {
    if drafts == [] then 0
    else
      var last := drafts[|drafts| - 1];
      DraftCount(drafts[..|drafts| - 1], scope)
      + if Within(scope, last.session, last.id) && last.meta.Some? then 1 else 0
  }

  function ArtifactBytes(artifacts: seq<Artifact>, scope: Scope): nat {
    if artifacts == [] then 0
    else
      var last := artifacts[|artifacts| - 1];
      ArtifactBytes(artifacts[..|artifacts| - 1], scope)
      + if Within(scope, last.session, last.id) then |last.content| else 0
  }

  function ArtifactCount(artifacts: seq<Artifact>, scope: Scope): nat {
    if artifacts == [] then 0
    else
      var last := artifacts[|artifacts| - 1];
      ArtifactCount(artifacts[..|artifacts| - 1], scope) + if Within(scope, last.session, last.id) then 1 else 0
  }

  function FindDraft(drafts: seq<Draft>, session: nat, id: OutputId): (at: Option<nat>)
    ensures at.Some? ==> at.value < |drafts| && drafts[at.value].session == session && drafts[at.value].id == id
    ensures at == None ==> forall d :: d in drafts ==> !(d.session == session && d.id == id)
  {
    if drafts == [] then None
    else if drafts[|drafts| - 1].session == session && drafts[|drafts| - 1].id == id then Some(|drafts| - 1)
    else FindDraft(drafts[..|drafts| - 1], session, id)
  }

  function FindArtifact(artifacts: seq<Artifact>, session: nat, id: OutputId): (at: Option<nat>)
    ensures at.Some? ==>
              at.value < |artifacts| && artifacts[at.value].session == session && artifacts[at.value].id == id
    ensures at == None ==> forall a :: a in artifacts ==> !(a.session == session && a.id == id)
  {
    if artifacts == [] then None
    else
      var last := |artifacts| - 1;
      if artifacts[last].session == session && artifacts[last].id == id then Some(last)
      else FindArtifact(artifacts[..last], session, id)
  }

  // ---------------------------------------------------------------------------------------------
  // The limits

  function ByteLimit(config: Config, scope: Scope): nat {
    if scope.OfRun? then config.maxRunBytes else config.maxSessionBytes
  }

  function FileLimit(config: Config, scope: Scope): nat {
    if scope.OfRun? then config.maxRunFiles else config.maxSessionFiles
  }

  ghost predicate ChunksOk(config: Config, draft: Draft) {
    && Size(draft.chunks) <= config.maxFileBytes && draft.first + |draft.chunks| <= config.maxChunks
    && forall chunk :: chunk in draft.chunks ==> 1 <= |chunk| <= config.maxChunkBytes
  }

  predicate UniqueDrafts(drafts: seq<Draft>) {
    forall i, j :: 0 <= i < j < |drafts| ==>
      !(drafts[i].session == drafts[j].session && drafts[i].id == drafts[j].id)
  }

  predicate UniqueArtifacts(artifacts: seq<Artifact>) {
    forall i, j :: 0 <= i < j < |artifacts| ==>
      !(artifacts[i].session == artifacts[j].session && artifacts[i].id == artifacts[j].id)
  }

  ghost predicate DraftsOk(config: Config, drafts: seq<Draft>) {
    && UniqueDrafts(drafts)
    && (forall draft :: draft in drafts ==> ChunksOk(config, draft))
    && (forall scope :: DraftBytes(drafts, scope) <= ByteLimit(config, scope))
  }

  // At most one output per Session, Run and call, and all counts and sums within their limits.
  ghost predicate ArtifactsOk(config: Config, artifacts: seq<Artifact>) {
    && UniqueArtifacts(artifacts)
    && (forall a :: a in artifacts ==> |a.content| <= config.maxFileBytes && a.meta.mediaType in config.mediaTypes)
    && (forall scope :: ArtifactBytes(artifacts, scope) <= ByteLimit(config, scope))
    && (forall scope :: ArtifactCount(artifacts, scope) <= FileLimit(config, scope))
  }

  ghost predicate Sound(config: Config, files: Files) {
    DraftsOk(config, files.drafts) && ArtifactsOk(config, files.artifacts)
  }

  // An output that is there before and after is the same.
  predicate SameContent(before: seq<Artifact>, after: seq<Artifact>) {
    forall a, b :: a in before && b in after && a.session == b.session && a.id == b.id ==> a == b
  }

  lemma {:induction false} DraftBytesOfUpdate(drafts: seq<Draft>, i: nat, draft: Draft, scope: Scope)
    requires i < |drafts| && draft.session == drafts[i].session && draft.id == drafts[i].id
    ensures DraftBytes(drafts[i := draft], scope)
            == if Within(scope, draft.session, draft.id)
               then DraftBytes(drafts, scope) - Size(drafts[i].chunks) + Size(draft.chunks)
               else DraftBytes(drafts, scope)
    decreases |drafts|
  {
    var last := |drafts| - 1;
    if i < last {
      assert drafts[i := draft][..last] == drafts[..last][i := draft];
      DraftBytesOfUpdate(drafts[..last], i, draft, scope);
    } else {
      assert drafts[i := draft][..last] == drafts[..last];
    }
  }

  lemma {:induction false} SizeWithin(drafts: seq<Draft>, i: nat, scope: Scope)
    requires i < |drafts| && Within(scope, drafts[i].session, drafts[i].id)
    ensures Size(drafts[i].chunks) <= DraftBytes(drafts, scope)
    decreases |drafts|
  {
    if i < |drafts| - 1 {
      SizeWithin(drafts[..|drafts| - 1], i, scope);
    }
  }

  // A draft keeps its identity and its chunks stay within the limits: so do all of them.
  lemma UpdateKeepsDraftsOk(config: Config, drafts: seq<Draft>, i: nat, draft: Draft)
    requires DraftsOk(config, drafts) && i < |drafts| && ChunksOk(config, draft)
    requires draft.session == drafts[i].session && draft.id == drafts[i].id
    requires Size(drafts[i].chunks) < Size(draft.chunks) ==>
               var added := Size(draft.chunks) - Size(drafts[i].chunks);
               && DraftBytes(drafts, OfRun(draft.session, draft.id.run)) + added <= config.maxRunBytes
               && DraftBytes(drafts, OfSession(draft.session)) + added <= config.maxSessionBytes
    ensures DraftsOk(config, drafts[i := draft])
  {
    forall scope ensures DraftBytes(drafts[i := draft], scope) <= ByteLimit(config, scope) {
      DraftBytesOfUpdate(drafts, i, draft, scope);
      if Within(scope, draft.session, draft.id) {
        assert scope == if scope.OfRun? then OfRun(draft.session, draft.id.run) else OfSession(draft.session);
      }
    }
  }

  lemma NewDraftKeepsDraftsOk(config: Config, drafts: seq<Draft>, draft: Draft)
    requires DraftsOk(config, drafts) && FindDraft(drafts, draft.session, draft.id) == None
    requires draft.chunks == [] && draft.first == 0
    ensures DraftsOk(config, drafts + [draft])
  {
    forall scope ensures DraftBytes(drafts + [draft], scope) == DraftBytes(drafts, scope) {
      assert (drafts + [draft])[..|drafts|] == drafts;
    }
  }

  // ---------------------------------------------------------------------------------------------
  // Publishing

  predicate SamePublication(a: Artifact, b: Artifact) {
    a.content == b.content && a.meta.(message := b.meta.message) == b.meta
  }

  predicate Room(config: Config, artifacts: seq<Artifact>, a: Artifact) {
    var run, session := OfRun(a.session, a.id.run), OfSession(a.session);
    && ArtifactCount(artifacts, session) < config.maxSessionFiles
    && ArtifactCount(artifacts, run) < config.maxRunFiles
    && ArtifactBytes(artifacts, run) + |a.content| <= config.maxRunBytes
    && ArtifactBytes(artifacts, session) + |a.content| <= config.maxSessionBytes
  }

  // The same publication again gives the artifact that is there; a different one is refused.
  function Publish(config: Config, artifacts: seq<Artifact>, a: Artifact): Outcome<Artifact> {
    if a.meta.mediaType !in config.mediaTypes then Err(Invalid)
    else if |a.content| > config.maxFileBytes then Err(LimitExceeded)
    else
      var prior := FindArtifact(artifacts, a.session, a.id);
      if prior.Some? then
        if SamePublication(artifacts[prior.value], a) then Ok(artifacts[prior.value]) else Err(Conflict)
      else if Room(config, artifacts, a) then Ok(a)
      else Err(LimitExceeded)
  }

  function Published(config: Config, artifacts: seq<Artifact>, a: Artifact): seq<Artifact> {
    if Publish(config, artifacts, a).Ok? && FindArtifact(artifacts, a.session, a.id) == None then artifacts + [a]
    else artifacts
  }

  /** Publishing keeps every limit, at most one output per call, and the content of all others. */
  lemma PublishKeepsLimits(config: Config, artifacts: seq<Artifact>, a: Artifact)
    requires ArtifactsOk(config, artifacts)
    ensures ArtifactsOk(config, Published(config, artifacts, a))
    ensures SameContent(artifacts, Published(config, artifacts, a))
  {
    var after := Published(config, artifacts, a);
    if after != artifacts {
      assert after[..|artifacts|] == artifacts;
      forall scope ensures ArtifactBytes(after, scope) <= ByteLimit(config, scope)
                        && ArtifactCount(after, scope) <= FileLimit(config, scope)
      {
        if Within(scope, a.session, a.id) {
          assert scope == if scope.OfRun? then OfRun(a.session, a.id.run) else OfSession(a.session);
        }
      }
    }
    KeysDecide(config, artifacts);
  }

  lemma KeysDecide(config: Config, artifacts: seq<Artifact>)
    requires ArtifactsOk(config, artifacts)
    ensures SameContent(artifacts, artifacts)
  {
    forall a, b | a in artifacts && b in artifacts && a.session == b.session && a.id == b.id ensures a == b {
      var i :| 0 <= i < |artifacts| && artifacts[i] == a;
      var j :| 0 <= j < |artifacts| && artifacts[j] == b;
    }
  }

  // The output is there: the same content, and the same description but for the message.
  predicate IsThere(artifacts: seq<Artifact>, a: Artifact) {
    exists one :: one in artifacts && one.session == a.session && one.id == a.id && one.content == a.content
                  && one.meta.(message := a.meta.message) == a.meta
  }

  predicate IsTaken(artifacts: seq<Artifact>, a: Artifact) {
    exists one :: one in artifacts && one.session == a.session && one.id == a.id
  }

  lemma LimitsOfAppend(config: Config, artifacts: seq<Artifact>, a: Artifact)
    requires ArtifactsOk(config, artifacts) && !IsTaken(artifacts, a)
    ensures ArtifactsOk(config, artifacts + [a]) <==>
              a.meta.mediaType in config.mediaTypes && |a.content| <= config.maxFileBytes && Room(config, artifacts, a)
  {
    var after := artifacts + [a];
    assert after[..|artifacts|] == artifacts && a in after;
    forall scope
      ensures ArtifactBytes(after, scope)
              == ArtifactBytes(artifacts, scope) + (if Within(scope, a.session, a.id) then |a.content| else 0)
      ensures ArtifactCount(after, scope)
              == ArtifactCount(artifacts, scope) + (if Within(scope, a.session, a.id) then 1 else 0)
    {
    }
    var run, session := OfRun(a.session, a.id.run), OfSession(a.session);
    if ArtifactsOk(config, after) {
      assert ArtifactBytes(after, run) <= ByteLimit(config, run) && ArtifactCount(after, run) <= FileLimit(config, run);
      assert ArtifactBytes(after, session) <= ByteLimit(config, session);
      assert ArtifactCount(after, session) <= FileLimit(config, session);
    }
    if a.meta.mediaType in config.mediaTypes && |a.content| <= config.maxFileBytes && Room(config, artifacts, a) {
      forall scope ensures ArtifactBytes(after, scope) <= ByteLimit(config, scope)
                        && ArtifactCount(after, scope) <= FileLimit(config, scope)
      {
        if Within(scope, a.session, a.id) {
          assert scope == if scope.OfRun? then run else session;
        }
      }
      forall i | 0 <= i < |artifacts| ensures !(artifacts[i].session == a.session && artifacts[i].id == a.id) {
        assert artifacts[i] in artifacts;
      }
    }
  }

  /** A new output is published exactly if all limits hold with it; a known one exactly if it is the same
      publication, and then nothing changes. */
  lemma PublishSucceedsExactlyIf(config: Config, artifacts: seq<Artifact>, a: Artifact)
    requires ArtifactsOk(config, artifacts)
    ensures !IsTaken(artifacts, a) ==>
              && (Publish(config, artifacts, a).Ok? <==> ArtifactsOk(config, artifacts + [a]))
              && (Publish(config, artifacts, a).Ok? ==>
                    Publish(config, artifacts, a) == Ok(a) && Published(config, artifacts, a) == artifacts + [a])
    ensures IsTaken(artifacts, a) ==>
              && (Publish(config, artifacts, a).Ok? <==>
                    IsThere(artifacts, a) && a.meta.mediaType in config.mediaTypes)
              && Published(config, artifacts, a) == artifacts
  {
    hide ArtifactBytes, ArtifactCount, Room;
    KeysDecide(config, artifacts);
    var at := FindArtifact(artifacts, a.session, a.id);
    if at.Some? {
      assert artifacts[at.value] in artifacts;
      assert IsTaken(artifacts, a);
      if IsThere(artifacts, a) {
        var one :| one in artifacts && one.session == a.session && one.id == a.id && one.content == a.content
                   && one.meta.(message := a.meta.message) == a.meta;
        assert one == artifacts[at.value];
      }
    } else {
      LimitsOfAppend(config, artifacts, a);
    }
  }

  /** Publishing the same again, even after other publications, returns the same artifact and changes
      nothing. */
  lemma PublishTwice(config: Config, artifacts: seq<Artifact>, a: Artifact, later: seq<Artifact>)
    requires Publish(config, artifacts, a).Ok?
    requires ArtifactsOk(config, later) && Publish(config, artifacts, a).value in later
    ensures Publish(config, later, a) == Publish(config, artifacts, a)
    ensures Published(config, later, a) == later
  {
    var one := Publish(config, artifacts, a).value;
    var at := FindArtifact(later, a.session, a.id);
    KeysDecide(config, later);
    assert at.Some? && later[at.value] in later;
  }

  // ---------------------------------------------------------------------------------------------
  // Drafts

  // Some of the first chunk files are missing.
  predicate Damaged(draft: Draft) {
    draft.first > 0 && draft.chunks != []
  }

  function Load(drafts: seq<Draft>, session: nat, id: OutputId): (at: Outcome<nat>)
    ensures at.Ok? ==> at.value < |drafts| && drafts[at.value].session == session && drafts[at.value].id == id
  {
    var at := FindDraft(drafts, session, id);
    if at == None || drafts[at.value].meta == None then Err(NotFound) else Ok(at.value)
  }

  function Begin(config: Config, drafts: seq<Draft>, session: nat, id: OutputId, meta: Meta): Outcome<seq<Draft>> {
    var at := FindDraft(drafts, session, id);
    if meta.mediaType !in config.mediaTypes then Err(Invalid)
    else if at == None then
      if DraftCount(drafts, OfRun(session, id.run)) >= config.maxRunFiles then Err(LimitExceeded)
      else Ok(drafts + [Draft(session, id, Some(meta), 0, [], false)])
    else if drafts[at.value].meta == None then Ok(drafts[at.value := drafts[at.value].(meta := Some(meta))])
    else if drafts[at.value].meta == Some(meta) then Ok(drafts)
    else Err(Conflict)
  }

  /** A new draft is begun exactly if its type is allowed and the Run has a draft left; one that is there is
      found again with the same description, completed if it has none, and refused otherwise. */
  lemma BeginSucceedsExactlyIf(config: Config, drafts: seq<Draft>, session: nat, id: OutputId, meta: Meta)
    requires DraftsOk(config, drafts)
    ensures var r := Begin(config, drafts, session, id, meta);
      && ((forall draft :: draft in drafts ==> !(draft.session == session && draft.id == id)) ==>
            && (r.Ok? <==>
                  && meta.mediaType in config.mediaTypes
                  && DraftCount(drafts, OfRun(session, id.run)) < config.maxRunFiles)
            && (r.Ok? ==> r.value == drafts + [Draft(session, id, Some(meta), 0, [], false)]))
      && (forall at :: 0 <= at < |drafts| && drafts[at].session == session && drafts[at].id == id ==>
            && (r.Ok? <==> meta.mediaType in config.mediaTypes && drafts[at].meta in {None, Some(meta)})
            && (r.Ok? ==> r.value == drafts[at := drafts[at].(meta := Some(meta))]))
  {
    hide DraftBytes, Size, DraftCount;
    var found := FindDraft(drafts, session, id);
    if found.Some? {
      assert drafts[found.value] in drafts;
      forall at | 0 <= at < |drafts| && drafts[at].session == session && drafts[at].id == id ensures at == found.value {
      }
    }
  }

  // What is left if the process dies before it writes the description.
  function BegunOnly(config: Config, drafts: seq<Draft>, session: nat, id: OutputId, meta: Meta): seq<Draft> {
    if Begin(config, drafts, session, id, meta).Ok? && FindDraft(drafts, session, id) == None then
      drafts + [Draft(session, id, None, 0, [], false)]
    else drafts
  }

  function Append(config: Config, drafts: seq<Draft>, session: nat, id: OutputId, index: int, chunk: bytes)
    : Outcome<Draft>
  {
    var at := Load(drafts, session, id);
    if at.Err? then Err(at.error)
    else
      var draft := drafts[at.value];
      if draft.finalized then Err(Conflict)
      else if index < 0 || index >= config.maxChunks then Err(LimitExceeded)
      else if chunk == [] then Err(Invalid)
      else if |chunk| > config.maxChunkBytes then Err(LimitExceeded)
      else if Damaged(draft) then Err(Unavailable)
      else if index < |draft.chunks| then
        if draft.chunks[index] == chunk then Ok(draft) else Err(Conflict)
      else if index != |draft.chunks| then Err(Invalid)
      else if Size(draft.chunks) + |chunk| > config.maxFileBytes then Err(LimitExceeded)
      else if DraftBytes(drafts, OfRun(session, id.run)) + |chunk| > config.maxRunBytes then Err(LimitExceeded)
      else if DraftBytes(drafts, OfSession(session)) + |chunk| > config.maxSessionBytes then Err(LimitExceeded)
      else Ok(draft.(first := 0, chunks := draft.chunks + [chunk]))
  }

  lemma FindDraftAt(config: Config, drafts: seq<Draft>, at: nat)
    requires DraftsOk(config, drafts) && at < |drafts|
    ensures FindDraft(drafts, drafts[at].session, drafts[at].id) == Some(at)
  {
    hide DraftBytes, Size;
    assert drafts[at] in drafts;
  }

  /** A chunk is accepted exactly if the draft is open and without a gap, and the chunk repeats the one with
      this number or is the next one and all limits hold with it. */
  lemma AppendSucceedsExactlyIf(config: Config, drafts: seq<Draft>, at: nat, index: int, chunk: bytes)
    requires DraftsOk(config, drafts) && at < |drafts| && drafts[at].meta.Some?
    ensures var draft := drafts[at];
      var longer := draft.(first := 0, chunks := draft.chunks + [chunk]);
      var r := Append(config, drafts, draft.session, draft.id, index, chunk);
      && (r.Ok? <==>
            && !draft.finalized && !(draft.first > 0 && draft.chunks != []) && 0 <= index < config.maxChunks
            && chunk != [] && |chunk| <= config.maxChunkBytes
            && ((index < |draft.chunks| && draft.chunks[index] == chunk)
                || (index == |draft.chunks| && DraftsOk(config, drafts[at := longer]))))
      && (r.Ok? ==> r.value == if index < |draft.chunks| then draft else longer)
  {
    hide FindDraft, Size, DraftBytes, DraftsOk;
    FindDraftAt(config, drafts, at);
    var draft := drafts[at];
    if 0 <= index == |draft.chunks| < config.maxChunks && 1 <= |chunk| <= config.maxChunkBytes {
      LongerDraftOk(config, drafts, at, chunk);
    }
  }

  // One more chunk keeps all limits exactly if the bytes of the file, the Run and the Session do.
  lemma LongerDraftOk(config: Config, drafts: seq<Draft>, at: nat, chunk: bytes)
    requires DraftsOk(config, drafts) && at < |drafts|
    requires |drafts[at].chunks| < config.maxChunks && 1 <= |chunk| <= config.maxChunkBytes
    ensures var draft := drafts[at];
      DraftsOk(config, drafts[at := draft.(first := 0, chunks := draft.chunks + [chunk])]) <==>
        && Size(draft.chunks) + |chunk| <= config.maxFileBytes
        && DraftBytes(drafts, OfRun(draft.session, draft.id.run)) + |chunk| <= config.maxRunBytes
        && DraftBytes(drafts, OfSession(draft.session)) + |chunk| <= config.maxSessionBytes
  {
    var draft := drafts[at];
    var longer := draft.(first := 0, chunks := draft.chunks + [chunk]);
    var run, session := OfRun(draft.session, draft.id.run), OfSession(draft.session);
    assert longer.chunks[..|draft.chunks|] == draft.chunks && Size(longer.chunks) == Size(draft.chunks) + |chunk|;
    assert draft in drafts && drafts[at := longer][at] == longer && chunk in longer.chunks;
    if DraftsOk(config, drafts[at := longer]) {
      DraftBytesOfUpdate(drafts, at, longer, run);
      DraftBytesOfUpdate(drafts, at, longer, session);
      assert longer in drafts[at := longer] && ChunksOk(config, longer);
      assert DraftBytes(drafts[at := longer], run) <= ByteLimit(config, run);
      assert DraftBytes(drafts[at := longer], session) <= ByteLimit(config, session);
    } else if Size(longer.chunks) <= config.maxFileBytes
              && DraftBytes(drafts, run) + |chunk| <= config.maxRunBytes
              && DraftBytes(drafts, session) + |chunk| <= config.maxSessionBytes {
      UpdateKeepsDraftsOk(config, drafts, at, longer);
    }
  }

  // Unlinks the chunks in order; with fewer than all of them the process has died in between.
  function Reset(draft: Draft, removed: nat): Outcome<Draft> {
    if draft.finalized then Err(Conflict)
    else if Damaged(draft) then Err(Unavailable)
    else if removed == 0 || draft.chunks == [] then Ok(draft)
    else Ok(Unlinked(draft, if removed < |draft.chunks| then removed else |draft.chunks|))
  }

  // The draft without its first k chunk files.
  function Unlinked(draft: Draft, k: nat): Draft
    requires k <= |draft.chunks|
  {
    draft.(first := if k == |draft.chunks| then 0 else k, chunks := draft.chunks[k..])
  }

  function ReadText(draft: Draft): Outcome<string> {
    if Damaged(draft) then Err(Unavailable)
    else if draft.chunks == [] then Err(Invalid)
    else
      match Decode(Join(draft.chunks))
      case None => Err(Invalid)
      case Some(text) => Ok(text)
  }

  // The draft is whole, has chunks, and they are the encoding of this text.
  predicate HoldsText(drafts: seq<Draft>, session: nat, id: OutputId, text: string) {
    var at := Load(drafts, session, id);
    at.Ok? && !Damaged(drafts[at.value]) && drafts[at.value].chunks != []
    && Encode(text) == Join(drafts[at.value].chunks)
  }

  lemma NoSuchText(content: bytes)
    requires Decode(content) == None
    ensures forall text :: Encode(text) != content
  {
    forall text ensures Encode(text) != content {
      DecodeOfEncode(text);
    }
  }

  lemma OneText(content: bytes, text: string)
    requires Encode(text) == content
    ensures forall other :: Encode(other) == content ==> other == text
  {
    forall other | Encode(other) == content ensures other == text {
      DecodeOfEncode(other);
      DecodeOfEncode(text);
    }
  }

  // What finalizing publishes.
  function ArtifactOf(draft: Draft, text: string): Artifact
    requires draft.meta.Some?
  {
    Artifact(draft.session, draft.id, draft.meta.value, Encode(text))
  }

  function Finalize(config: Config, files: Files, session: nat, id: OutputId): Outcome<Artifact> {
    var at := Load(files.drafts, session, id);
    if at.Err? then Err(at.error)
    else
      var draft := files.drafts[at.value];
      if draft.finalized then
        var known := FindArtifact(files.artifacts, session, id);
        if known == None then Err(NotFound) else Ok(files.artifacts[known.value])
      else
        var text := ReadText(draft);
        if text.Err? then Err(text.error) else Publish(config, files.artifacts, ArtifactOf(draft, text.value))
  }

  // The files afterwards; `crash` stops after the publication, before the marker.
  function Finalized(config: Config, files: Files, session: nat, id: OutputId, crash: bool): Files {
    var at := Load(files.drafts, session, id);
    if Finalize(config, files, session, id).Err? || files.drafts[at.value].finalized then files
    else
      var draft := files.drafts[at.value];
      Files(if crash then files.drafts else files.drafts[at.value := draft.(finalized := true)],
            Published(config, files.artifacts, ArtifactOf(draft, ReadText(draft).value)))
  }

  /** Finalizing an open draft publishes its very bytes, under its name and description. */
  lemma FinalizePublishesTheChunks(config: Config, files: Files, at: nat)
    requires Sound(config, files) && at < |files.drafts| && files.drafts[at].meta.Some? && !files.drafts[at].finalized
    ensures var draft := files.drafts[at];
      var artifact := Artifact(draft.session, draft.id, draft.meta.value, Join(draft.chunks));
      if Damaged(draft) || draft.chunks == [] || Decode(Join(draft.chunks)) == None
      then Finalize(config, files, draft.session, draft.id).Err?
      else Finalize(config, files, draft.session, draft.id) == Publish(config, files.artifacts, artifact)
  {
    hide FindDraft, Join, Publish;
    FindDraftAt(config, files.drafts, at);
    var draft := files.drafts[at];
    if Decode(Join(draft.chunks)).Some? {
      EncodeOfDecode(Join(draft.chunks));
    }
  }

  /** After a crash between the publication and the marker, finalizing again returns the artifact that
      was published, whatever else happened, as long as the artifact and the draft are still there. */
  lemma CrashedFinalizeRepeats(config: Config, files: Files, later: Files, session: nat, id: OutputId)
    requires Sound(config, files) && Sound(config, later) && Finalize(config, files, session, id).Ok?
    requires Finalize(config, files, session, id).value in later.artifacts
    requires Load(files.drafts, session, id).Ok? && Load(later.drafts, session, id).Ok?
    requires later.drafts[Load(later.drafts, session, id).value] == files.drafts[Load(files.drafts, session, id).value]
    ensures Finalize(config, later, session, id) == Finalize(config, files, session, id)
    ensures Finalized(config, later, session, id, false).artifacts == later.artifacts
  {
    var draft := files.drafts[Load(files.drafts, session, id).value];
    if draft.finalized {
      var at := FindArtifact(later.artifacts, session, id);
      KeysDecide(config, later.artifacts);
      assert later.artifacts[at.value] in later.artifacts;
    } else {
      PublishTwice(config, files.artifacts, ArtifactOf(draft, ReadText(draft).value), later.artifacts);
    }
  }

  /** A crash inside a reset spoils the draft for good, exactly if it happens after the first and
      before the last chunk is gone: then no later append, reset or finalize gets past the gap. */
  lemma ResetCrashSpoilsDraft(config: Config, files: Files, at: nat, removed: nat, index: int, chunk: bytes)
    requires DraftsOk(config, files.drafts) && at < |files.drafts| && Reset(files.drafts[at], removed).Ok?
    requires files.drafts[at].meta.Some?
    ensures var draft := files.drafts[at]; var left := Reset(draft, removed).value;
      && (Damaged(left) <==> 0 < removed < |draft.chunks|)
      && (Damaged(left) ==>
            && (forall again: nat :: Reset(left, again) == Err(Unavailable))
            && ReadText(left) == Err(Unavailable)
            && !Append(config, files.drafts[at := left], draft.session, draft.id, index, chunk).Ok?)
      && (!Damaged(left) ==> Reset(left, |left.chunks|).Ok? && Reset(left, |left.chunks|).value.chunks == [])
  {
    var draft, left := files.drafts[at], Reset(files.drafts[at], removed).value;
    var drafts := files.drafts[at := left];
    if Damaged(left) && Load(drafts, draft.session, draft.id).Ok? {
      var found := Load(drafts, draft.session, draft.id).value;
      assert found == at by {
        assert drafts[found].session == files.drafts[found].session && drafts[found].id == files.drafts[found].id;
      }
    }
  }

  // ---------------------------------------------------------------------------------------------
  // Deleting and forking

  function WithoutArtifacts(artifacts: seq<Artifact>, scope: Scope): seq<Artifact> {
    if artifacts == [] then []
    else
      var last := artifacts[|artifacts| - 1];
      WithoutArtifacts(artifacts[..|artifacts| - 1], scope)
      + if Within(scope, last.session, last.id) then [] else [last]
  }

  function WithoutDrafts(drafts: seq<Draft>, scope: Scope): seq<Draft> {
    if drafts == [] then []
    else
      var last := drafts[|drafts| - 1];
      WithoutDrafts(drafts[..|drafts| - 1], scope) + if Within(scope, last.session, last.id) then [] else [last]
  }

  function Delete(artifacts: seq<Artifact>, session: nat, id: OutputId): seq<Artifact> {
    var at := FindArtifact(artifacts, session, id);
    if at == None then artifacts else artifacts[..at.value] + artifacts[at.value + 1..]
  }

  lemma {:induction false} WithoutDraftsShrinks(drafts: seq<Draft>, removed: Scope, scope: Scope)
    ensures var left := WithoutDrafts(drafts, removed);
      DraftBytes(left, scope) <= DraftBytes(drafts, scope) && (forall d :: d in left ==> d in drafts)
    decreases |drafts|
  {
    if drafts != [] {
      var init := drafts[..|drafts| - 1];
      WithoutDraftsShrinks(init, removed, scope);
      var left := WithoutDrafts(drafts, removed);
      if left != WithoutDrafts(init, removed) {
        assert left[..|left| - 1] == WithoutDrafts(init, removed);
      }
    }
  }

  lemma {:induction false} WithoutDraftsUnique(drafts: seq<Draft>, removed: Scope)
    requires UniqueDrafts(drafts)
    ensures UniqueDrafts(WithoutDrafts(drafts, removed))
    decreases |drafts|
  {
    hide DraftBytes, Size;
    if drafts != [] {
      var init, last := drafts[..|drafts| - 1], drafts[|drafts| - 1];
      WithoutDraftsUnique(init, removed);
      WithoutDraftsShrinks(init, removed, removed);
      var left := WithoutDrafts(init, removed);
      forall i | 0 <= i < |left| ensures !(left[i].session == last.session && left[i].id == last.id) {
        assert left[i] in init;
        var k :| 0 <= k < |init| && init[k] == left[i];
        assert drafts[k] == left[i];
      }
    }
  }

  /** Exactly the drafts and outputs of the Run or Session go. */
  lemma {:induction false} WithoutExactly(drafts: seq<Draft>, artifacts: seq<Artifact>, removed: Scope)
    ensures forall d :: d in WithoutDrafts(drafts, removed) <==>
                          && d in drafts
                          && !(d.session == removed.session && (removed.OfRun? ==> d.id.run == removed.run))
    ensures forall a :: a in WithoutArtifacts(artifacts, removed) <==>
                          && a in artifacts
                          && !(a.session == removed.session && (removed.OfRun? ==> a.id.run == removed.run))
    decreases |drafts| + |artifacts|
  {
    if drafts != [] {
      WithoutExactly(drafts[..|drafts| - 1], artifacts, removed);
      assert drafts == drafts[..|drafts| - 1] + [drafts[|drafts| - 1]];
    } else if artifacts != [] {
      WithoutExactly(drafts, artifacts[..|artifacts| - 1], removed);
      assert artifacts == artifacts[..|artifacts| - 1] + [artifacts[|artifacts| - 1]];
    }
  }

  lemma WithoutDraftsKeepsOk(config: Config, drafts: seq<Draft>, removed: Scope)
    requires DraftsOk(config, drafts)
    ensures DraftsOk(config, WithoutDrafts(drafts, removed))
  {
    WithoutDraftsUnique(drafts, removed);
    forall scope ensures DraftBytes(WithoutDrafts(drafts, removed), scope) <= DraftBytes(drafts, scope) {
      WithoutDraftsShrinks(drafts, removed, scope);
    }
    WithoutDraftsShrinks(drafts, removed, removed);
  }

  lemma {:induction false} WithoutArtifactsShrinks(artifacts: seq<Artifact>, removed: Scope, scope: Scope)
    ensures var left := WithoutArtifacts(artifacts, removed);
      && ArtifactBytes(left, scope) <= ArtifactBytes(artifacts, scope)
      && ArtifactCount(left, scope) <= ArtifactCount(artifacts, scope)
      && (forall a :: a in left ==> a in artifacts)
    decreases |artifacts|
  {
    if artifacts != [] {
      var init := artifacts[..|artifacts| - 1];
      WithoutArtifactsShrinks(init, removed, scope);
      var left := WithoutArtifacts(artifacts, removed);
      if left != WithoutArtifacts(init, removed) {
        assert left[..|left| - 1] == WithoutArtifacts(init, removed);
      }
    }
  }

  lemma {:induction false} WithoutArtifactsUnique(artifacts: seq<Artifact>, removed: Scope)
    requires UniqueArtifacts(artifacts)
    ensures UniqueArtifacts(WithoutArtifacts(artifacts, removed))
    decreases |artifacts|
  {
    hide ArtifactBytes, ArtifactCount;
    if artifacts != [] {
      var init, last := artifacts[..|artifacts| - 1], artifacts[|artifacts| - 1];
      WithoutArtifactsUnique(init, removed);
      WithoutArtifactsShrinks(init, removed, removed);
      var left := WithoutArtifacts(init, removed);
      forall i | 0 <= i < |left| ensures !(left[i].session == last.session && left[i].id == last.id) {
        assert left[i] in init;
        var k :| 0 <= k < |init| && init[k] == left[i];
        assert artifacts[k] == left[i];
      }
    }
  }

  lemma WithoutArtifactsKeepsOk(config: Config, artifacts: seq<Artifact>, removed: Scope)
    requires ArtifactsOk(config, artifacts)
    ensures ArtifactsOk(config, WithoutArtifacts(artifacts, removed))
    ensures SameContent(artifacts, WithoutArtifacts(artifacts, removed))
  {
    WithoutArtifactsUnique(artifacts, removed);
    forall scope
      ensures ArtifactBytes(WithoutArtifacts(artifacts, removed), scope) <= ArtifactBytes(artifacts, scope)
           && ArtifactCount(WithoutArtifacts(artifacts, removed), scope) <= ArtifactCount(artifacts, scope)
    {
      WithoutArtifactsShrinks(artifacts, removed, scope);
    }
    WithoutArtifactsShrinks(artifacts, removed, removed);
    KeysDecide(config, artifacts);
  }

  lemma {:induction false} SumsOfConcat(a: seq<Artifact>, b: seq<Artifact>, scope: Scope)
    ensures ArtifactBytes(a + b, scope) == ArtifactBytes(a, scope) + ArtifactBytes(b, scope)
    ensures ArtifactCount(a + b, scope) == ArtifactCount(a, scope) + ArtifactCount(b, scope)
    decreases |b|
  {
    if b == [] {
      assert a + b == a;
    } else {
      assert (a + b)[..|a + b| - 1] == a + b[..|b| - 1];
      SumsOfConcat(a, b[..|b| - 1], scope);
    }
  }

  lemma DeleteKeepsOk(config: Config, artifacts: seq<Artifact>, session: nat, id: OutputId)
    requires ArtifactsOk(config, artifacts)
    ensures ArtifactsOk(config, Delete(artifacts, session, id))
    ensures SameContent(artifacts, Delete(artifacts, session, id))
    ensures forall a :: a in Delete(artifacts, session, id) <==> a in artifacts && !(a.session == session && a.id == id)
  {
    hide ArtifactBytes, ArtifactCount, Within;
    KeysDecide(config, artifacts);
    var at := FindArtifact(artifacts, session, id);
    if at.Some? {
      var a, b := artifacts[..at.value], artifacts[at.value + 1..];
      assert artifacts == a + [artifacts[at.value]] + b;
      forall scope
        ensures ArtifactBytes(a + b, scope) <= ArtifactBytes(artifacts, scope)
             && ArtifactCount(a + b, scope) <= ArtifactCount(artifacts, scope)
      {
        SumsOfConcat(a, b, scope);
        SumsOfConcat(a + [artifacts[at.value]], b, scope);
        SumsOfConcat(a, [artifacts[at.value]], scope);
      }
    }
  }

  // The copy of an output for another Session.
  function Copy(source: Artifact, target: nat, message: Option<nat>): Artifact {
    Artifact(target, OutputId(OfOutput(source.id), OfOutput(source.id)), source.meta.(message := message),
             source.content)
  }

  /** Copying an output into one Session again returns the first copy, with the message that one was
      made for. */
  lemma SecondCopyIsFirst(config: Config, artifacts: seq<Artifact>, source: Artifact, target: nat,
                          first: Option<nat>, second: Option<nat>)
    requires ArtifactsOk(config, artifacts) && Publish(config, artifacts, Copy(source, target, first)).Ok?
    ensures var later := Published(config, artifacts, Copy(source, target, first));
      && Publish(config, later, Copy(source, target, second)) == Publish(config, artifacts, Copy(source, target, first))
      && Published(config, later, Copy(source, target, second)) == later
  {
    var a := Copy(source, target, first);
    var later := Published(config, artifacts, a);
    PublishKeepsLimits(config, artifacts, a);
    var at, one := FindArtifact(later, target, a.id), Publish(config, artifacts, a).value;
    assert one in later by {
      if FindArtifact(artifacts, target, a.id) == None {
        assert later[|artifacts|] == a;
      }
    }
    KeysDecide(config, later);
    assert later[at.value] in later;
  }

  // ---------------------------------------------------------------------------------------------
  // All operations, in any order and with any crashes

  datatype Op =
    | BeginDraft(session: nat, id: OutputId, meta: Meta, crash: bool)
    | AppendDraft(session: nat, id: OutputId, index: int, chunk: bytes)
    | ResetDraft(session: nat, id: OutputId, removed: nat)
    | FinalizeDraft(session: nat, id: OutputId, crash: bool)
    | PublishOutput(artifact: Artifact)
    | ForkOutput(session: nat, id: OutputId, target: nat, message: Option<nat>)
    | DeleteOutput(session: nat, id: OutputId)
    | DiscardDrafts(session: nat, run: Name)
    | DeleteSession(session: nat)

  function AfterBegin(config: Config, drafts: seq<Draft>, session: nat, id: OutputId, meta: Meta, crash: bool)
    : seq<Draft>
  {
    if crash then BegunOnly(config, drafts, session, id, meta)
    else
      var begun := Begin(config, drafts, session, id, meta);
      if begun.Ok? then begun.value else drafts
  }

  function AfterAppend(config: Config, drafts: seq<Draft>, session: nat, id: OutputId, index: int, chunk: bytes)
    : seq<Draft>
  {
    var draft := Append(config, drafts, session, id, index, chunk);
    if draft.Ok? then drafts[Load(drafts, session, id).value := draft.value] else drafts
  }

  function AfterReset(drafts: seq<Draft>, session: nat, id: OutputId, removed: nat): seq<Draft> {
    var at := Load(drafts, session, id);
    if at.Err? || Reset(drafts[at.value], removed).Err? then drafts
    else drafts[at.value := Reset(drafts[at.value], removed).value]
  }

  function AfterFork(config: Config, artifacts: seq<Artifact>, session: nat, id: OutputId, target: nat,
                     message: Option<nat>): seq<Artifact>
  {
    var at := FindArtifact(artifacts, session, id);
    if at == None then artifacts else Published(config, artifacts, Copy(artifacts[at.value], target, message))
  }

  function Apply(config: Config, files: Files, op: Op): Files {
    match op
    case BeginDraft(session, id, meta, crash) =>
      files.(drafts := AfterBegin(config, files.drafts, session, id, meta, crash))
    case AppendDraft(session, id, index, chunk) =>
      files.(drafts := AfterAppend(config, files.drafts, session, id, index, chunk))
    case ResetDraft(session, id, removed) => files.(drafts := AfterReset(files.drafts, session, id, removed))
    case FinalizeDraft(session, id, crash) => Finalized(config, files, session, id, crash)
    case PublishOutput(artifact) => files.(artifacts := Published(config, files.artifacts, artifact))
    case ForkOutput(session, id, target, message) =>
      files.(artifacts := AfterFork(config, files.artifacts, session, id, target, message))
    case DeleteOutput(session, id) => files.(artifacts := Delete(files.artifacts, session, id))
    case DiscardDrafts(session, run) => files.(drafts := WithoutDrafts(files.drafts, OfRun(session, run)))
    case DeleteSession(session) =>
      Files(WithoutDrafts(files.drafts, OfSession(session)), WithoutArtifacts(files.artifacts, OfSession(session)))
  }

  lemma BeginKeepsDraftsOk(config: Config, drafts: seq<Draft>, session: nat, id: OutputId, meta: Meta, crash: bool)
    requires DraftsOk(config, drafts)
    ensures DraftsOk(config, AfterBegin(config, drafts, session, id, meta, crash))
  {
    var at := FindDraft(drafts, session, id);
    if at == None {
      NewDraftKeepsDraftsOk(config, drafts, Draft(session, id, Some(meta), 0, [], false));
      NewDraftKeepsDraftsOk(config, drafts, Draft(session, id, None, 0, [], false));
    } else {
      assert drafts[at.value] in drafts;
      UpdateKeepsDraftsOk(config, drafts, at.value, drafts[at.value].(meta := Some(meta)));
    }
  }

  lemma AppendKeepsDraftsOk(config: Config, drafts: seq<Draft>, session: nat, id: OutputId, index: int, chunk: bytes)
    requires DraftsOk(config, drafts)
    ensures DraftsOk(config, AfterAppend(config, drafts, session, id, index, chunk))
  {
    var draft := Append(config, drafts, session, id, index, chunk);
    if draft.Ok? {
      var at := Load(drafts, session, id).value;
      assert drafts[at] in drafts;
      assert draft.value.chunks == drafts[at].chunks || draft.value.chunks[..|drafts[at].chunks|] == drafts[at].chunks;
      UpdateKeepsDraftsOk(config, drafts, at, draft.value);
    }
  }

  lemma {:induction false} SizeOfSuffix(chunks: seq<bytes>, k: nat)
    requires k <= |chunks|
    ensures Size(chunks[k..]) <= Size(chunks)
    decreases |chunks|
  {
    if k < |chunks| {
      assert chunks[k..][..|chunks| - k - 1] == chunks[..|chunks| - 1][k..];
      SizeOfSuffix(chunks[..|chunks| - 1], k);
    }
  }

  lemma ResetKeepsDraftsOk(config: Config, drafts: seq<Draft>, session: nat, id: OutputId, removed: nat)
    requires DraftsOk(config, drafts)
    ensures DraftsOk(config, AfterReset(drafts, session, id, removed))
  {
    var at := Load(drafts, session, id);
    if at.Ok? && Reset(drafts[at.value], removed).Ok? {
      var draft := drafts[at.value];
      assert draft in drafts;
      SizeOfSuffix(draft.chunks, if removed < |draft.chunks| then removed else |draft.chunks|);
      UpdateKeepsDraftsOk(config, drafts, at.value, Reset(draft, removed).value);
    }
  }

  lemma FinalizeKeepsSound(config: Config, files: Files, session: nat, id: OutputId, crash: bool)
    requires Sound(config, files)
    ensures Sound(config, Finalized(config, files, session, id, crash))
    ensures SameContent(files.artifacts, Finalized(config, files, session, id, crash).artifacts)
  {
    KeysDecide(config, files.artifacts);
    var at := Load(files.drafts, session, id);
    if Finalize(config, files, session, id).Ok? && !files.drafts[at.value].finalized {
      var draft := files.drafts[at.value];
      assert draft in files.drafts;
      UpdateKeepsDraftsOk(config, files.drafts, at.value, draft.(finalized := true));
      PublishKeepsLimits(config, files.artifacts, ArtifactOf(draft, ReadText(draft).value));
    }
  }

  lemma StepKeepsSound(config: Config, files: Files, op: Op)
    requires Sound(config, files)
    ensures Sound(config, Apply(config, files, op))
    ensures SameContent(files.artifacts, Apply(config, files, op).artifacts)
  {
    hide DraftBytes, Size, ArtifactBytes, ArtifactCount, DraftsOk, ArtifactsOk;
    KeysDecide(config, files.artifacts);
    match op
    case BeginDraft(session, id, meta, crash) => BeginKeepsDraftsOk(config, files.drafts, session, id, meta, crash);
    case AppendDraft(session, id, index, chunk) => AppendKeepsDraftsOk(config, files.drafts, session, id, index, chunk);
    case ResetDraft(session, id, removed) => ResetKeepsDraftsOk(config, files.drafts, session, id, removed);
    case FinalizeDraft(session, id, crash) => FinalizeKeepsSound(config, files, session, id, crash);
    case PublishOutput(artifact) => PublishKeepsLimits(config, files.artifacts, artifact);
    case ForkOutput(session, id, target, message) =>
      var at := FindArtifact(files.artifacts, session, id);
      if at.Some? {
        PublishKeepsLimits(config, files.artifacts, Copy(files.artifacts[at.value], target, message));
      }
    case DeleteOutput(session, id) => DeleteKeepsOk(config, files.artifacts, session, id);
    case DiscardDrafts(session, run) => WithoutDraftsKeepsOk(config, files.drafts, OfRun(session, run));
    case DeleteSession(session) =>
      WithoutDraftsKeepsOk(config, files.drafts, OfSession(session));
      WithoutArtifactsKeepsOk(config, files.artifacts, OfSession(session));
  }

  function Exec(config: Config, files: Files, ops: seq<Op>): Files
    decreases |ops|
  {
    if ops == [] then files else Exec(config, Apply(config, files, ops[0]), ops[1..])
  }

  /** Draft bytes per file, Run and Session, published counts and published bytes stay within their
      limits, and there is never more than one output for a call, over any sequence of operations. */
  lemma {:induction false} RunKeepsLimits(config: Config, files: Files, ops: seq<Op>)
    requires Sound(config, files)
    ensures Sound(config, Exec(config, files, ops))
    decreases |ops|
  {
    if ops != [] {
      StepKeepsSound(config, files, ops[0]);
      RunKeepsLimits(config, Apply(config, files, ops[0]), ops[1..]);
    }
  }

  // Limits with room for a draft of two bytes.
  const TwoChunks := Config({0}, 2, 1, 2, 1, 2, 1, 2)

  /** Two chunks, and a crash after the first of them is gone. */
  lemma ResetCrashCanSpoilDraft(session: nat, id: OutputId, meta: Meta) returns (ops: seq<Op>)
    requires meta.mediaType == 0
    ensures |Exec(TwoChunks, Files([], []), ops).drafts| == 1
    ensures Damaged(Exec(TwoChunks, Files([], []), ops).drafts[0])
  {
    hide Exec;
    var empty, one := Draft(session, id, Some(meta), 0, [], false), Draft(session, id, Some(meta), 0, [[0]], false);
    var two := Draft(session, id, Some(meta), 0, [[0], [0]], false);
    var left := Draft(session, id, Some(meta), 1, [[0]], false);
    var a, b := BeginDraft(session, id, meta, false), AppendDraft(session, id, 0, [0]);
    var c, d := AppendDraft(session, id, 1, [0]), ResetDraft(session, id, 1);
    OneByte();
    AppendStep(empty);
    AppendStep(one);
    assert empty.chunks + [[0]] == one.chunks && one.chunks + [[0]] == two.chunks;
    assert Apply(TwoChunks, Files([], []), a) == Files([empty], []);
    assert Apply(TwoChunks, Files([two], []), d) == Files([left], []);
    ops := [a, b, c, d];
    FourSteps(TwoChunks, Files([], []), a, b, c, d);
  }

  lemma FourSteps(config: Config, files: Files, a: Op, b: Op, c: Op, d: Op)
    ensures Exec(config, files, [a, b, c, d])
            == Apply(config, Apply(config, Apply(config, Apply(config, files, a), b), c), d)
  {
    hide Apply;
    var one := Apply(config, files, a);
    var two := Apply(config, one, b);
    var three := Apply(config, two, c);
    assert [a, b, c, d][1..] == [b, c, d] && [b, c, d][1..] == [c, d] && [c, d][1..] == [d] && [d][1..] == [];
    assert Exec(config, three, [d]) == Exec(config, Apply(config, three, d), []);
    assert Exec(config, two, [c, d]) == Exec(config, three, [d]);
    assert Exec(config, one, [b, c, d]) == Exec(config, two, [c, d]);
  }

  // One more chunk of one byte in the only draft.
  lemma AppendStep(draft: Draft)
    requires draft.meta.Some? && draft.first == 0 && !draft.finalized
    requires |draft.chunks| < 2 && Size(draft.chunks) < 2
    ensures Apply(TwoChunks, Files([draft], []), AppendDraft(draft.session, draft.id, |draft.chunks|, [0]))
            == Files([draft.(chunks := draft.chunks + [[0]])], [])
  {
    var drafts, longer := [draft], draft.(chunks := draft.chunks + [[0]]);
    assert drafts[..0] == [] && drafts[0 := longer] == [longer];
    assert forall scope :: DraftBytes(drafts, scope) <= Size(draft.chunks);
    assert Load(drafts, draft.session, draft.id) == Ok(0);
  }

  lemma OneByte()
    ensures Size([]) == 0 && Size([[0]]) == 1
  {
    var chunks: seq<bytes> := [[0]];
    assert chunks[..0] == [];
  }

  // The output is there after every operation.
  predicate Lives(config: Config, files: Files, ops: seq<Op>, session: nat, id: OutputId)
    decreases |ops|
  {
    && FindArtifact(files.artifacts, session, id).Some?
    && (ops == [] || Lives(config, Apply(config, files, ops[0]), ops[1..], session, id))
  }

  /** A published output never changes while it lives. */
  lemma {:induction false} ContentNeverChanges(config: Config, files: Files, ops: seq<Op>, artifact: Artifact)
    requires Sound(config, files) && artifact in files.artifacts
    requires Lives(config, files, ops, artifact.session, artifact.id)
    ensures artifact in Exec(config, files, ops).artifacts
    decreases |ops|
  {
    if ops != [] {
      var next := Apply(config, files, ops[0]);
      StepKeepsSound(config, files, ops[0]);
      var at := FindArtifact(next.artifacts, artifact.session, artifact.id);
      assert next.artifacts[at.value] in next.artifacts;
      ContentNeverChanges(config, next, ops[1..], artifact);
    }
  }

  // ---------------------------------------------------------------------------------------------
  // The limit on the number of drafts

  lemma {:induction false} DraftCountOfDescribed(drafts: seq<Draft>, at: nat, meta: Meta, scope: Scope)
    requires at < |drafts| && drafts[at].meta == None && Within(scope, drafts[at].session, drafts[at].id)
    ensures DraftCount(drafts[at := drafts[at].(meta := Some(meta))], scope) == DraftCount(drafts, scope) + 1
    decreases |drafts|
  {
    var last := |drafts| - 1;
    if at < last {
      var described := drafts[at].(meta := Some(meta));
      assert drafts[at := described][..last] == drafts[..last][at := described];
      DraftCountOfDescribed(drafts[..last], at, meta, scope);
    } else {
      assert drafts[at := drafts[at].(meta := Some(meta))][..last] == drafts[..last];
    }
  }

  /** Beginning a draft exceeds the limit on drafts exactly if the limit is reached and the draft's
      directory is already there without a description, as a crash leaves it. */
  lemma DraftLimitHoldsExactlyIf(config: Config, drafts: seq<Draft>, session: nat, id: OutputId, meta: Meta)
    requires Begin(config, drafts, session, id, meta).Ok?
    requires DraftCount(drafts, OfRun(session, id.run)) <= config.maxRunFiles
    ensures var at := FindDraft(drafts, session, id); var scope := OfRun(session, id.run);
      DraftCount(Begin(config, drafts, session, id, meta).value, scope) > config.maxRunFiles
      <==> DraftCount(drafts, scope) == config.maxRunFiles && at.Some? && drafts[at.value].meta == None
  {
    var at := FindDraft(drafts, session, id);
    if at == None {
      var draft := Draft(session, id, Some(meta), 0, [], false);
      assert (drafts + [draft])[..|drafts|] == drafts;
    } else if drafts[at.value].meta == None {
      DraftCountOfDescribed(drafts, at.value, meta, OfRun(session, id.run));
    }
  }

  /** Such a run: two drafts, where the limit is one. */
  lemma DraftLimitCanBeExceeded(config: Config, session: nat, run: Name, first: Name, second: Name, meta: Meta)
    requires config.maxRunFiles == 1 && meta.mediaType in config.mediaTypes && first != second
    ensures var ops := [BeginDraft(session, OutputId(run, first), meta, true),
                        BeginDraft(session, OutputId(run, second), meta, false),
                        BeginDraft(session, OutputId(run, first), meta, false)];
      DraftCount(Exec(config, Files([], []), ops).drafts, OfRun(session, run)) == 2
  {
    hide Begin, BegunOnly, DraftCount;
    var a, b := OutputId(run, first), OutputId(run, second);
    var one, two, three := ThreeDrafts(config, session, run, first, second, meta);
    var ops := [BeginDraft(session, a, meta, true), BeginDraft(session, b, meta, false),
                BeginDraft(session, a, meta, false)];
    assert ops[1..] == [ops[1], ops[2]] && [ops[1], ops[2]][1..] == [ops[2]] && [ops[2]][1..] == [];
    assert Apply(config, Files([], []), ops[0]) == Files(one, []);
    assert Apply(config, Files(one, []), ops[1]) == Files(two, []);
    assert Apply(config, Files(two, []), ops[2]) == Files(three, []);
    assert Exec(config, Files(two, []), [ops[2]]) == Exec(config, Files(three, []), []);
    assert Exec(config, Files(one, []), [ops[1], ops[2]]) == Exec(config, Files(two, []), [ops[2]]);
  }

  lemma ThreeDrafts(config: Config, session: nat, run: Name, first: Name, second: Name, meta: Meta)
    returns (one: seq<Draft>, two: seq<Draft>, three: seq<Draft>)
    requires config.maxRunFiles == 1 && meta.mediaType in config.mediaTypes && first != second
    ensures var a, b := OutputId(run, first), OutputId(run, second);
      && BegunOnly(config, [], session, a, meta) == one
      && Begin(config, one, session, b, meta) == Ok(two)
      && Begin(config, two, session, a, meta) == Ok(three)
    ensures DraftCount(three, OfRun(session, run)) == 2
  {
    var a, b := OutputId(run, first), OutputId(run, second);
    one := [Draft(session, a, None, 0, [], false)];
    two := one + [Draft(session, b, Some(meta), 0, [], false)];
    three := two[0 := two[0].(meta := Some(meta))];
    assert one[..0] == [] && two[..1] == one;
    assert DraftCount(one, OfRun(session, run)) == 0 && DraftCount(two, OfRun(session, run)) == 1;
    assert FindDraft(two, session, a) == Some(0);
    DraftCountOfDescribed(two, 0, meta, OfRun(session, run));
  }

  // ---------------------------------------------------------------------------------------------
  // The store itself

  class OutputStore {
    const config: Config
    var drafts: seq<Draft>
    var artifacts: seq<Artifact>

    function Value(): Files
      reads this
    {
      Files(drafts, artifacts)
    }

    constructor (config: Config)
      ensures Value() == Files([], []) && this.config == config
    {
      this.config, drafts, artifacts := config, [], [];
    }

    method PublishText(a: Artifact) returns (result: Outcome<Artifact>)
      modifies this`artifacts
      ensures result == Publish(config, old(artifacts), a)
      ensures Value() == Apply(config, old(Value()), PublishOutput(a))
    {
      if a.meta.mediaType !in config.mediaTypes {
        return Err(Invalid);
      }
      if |a.content| > config.maxFileBytes {
        return Err(LimitExceeded);
      }
      var prior := FindArtifact(artifacts, a.session, a.id);
      if prior.Some? {
        if SamePublication(artifacts[prior.value], a) {
          return Ok(artifacts[prior.value]);
        }
        return Err(Conflict);
      }
      var run, session := OfRun(a.session, a.id.run), OfSession(a.session);
      if ArtifactCount(artifacts, session) >= config.maxSessionFiles
         || ArtifactCount(artifacts, run) >= config.maxRunFiles {
        return Err(LimitExceeded);
      }
      if ArtifactBytes(artifacts, run) + |a.content| > config.maxRunBytes
         || ArtifactBytes(artifacts, session) + |a.content| > config.maxSessionBytes {
        return Err(LimitExceeded);
      }
      artifacts := artifacts + [a];
      return Ok(a);
    }

    method BeginTextDraft(session: nat, id: OutputId, meta: Meta, crash: bool) returns (result: Outcome<OutputId>)
      modifies this`drafts
      ensures result.Ok? <==> Begin(config, old(drafts), session, id, meta).Ok? && !crash
      ensures Value() == Apply(config, old(Value()), BeginDraft(session, id, meta, crash))
    {
      if meta.mediaType !in config.mediaTypes {
        return Err(Invalid);
      }
      var at := FindDraft(drafts, session, id);
      if at == None && DraftCount(drafts, OfRun(session, id.run)) >= config.maxRunFiles {
        return Err(LimitExceeded);
      }
      if at.Some? && drafts[at.value].meta.Some? {
        if crash {
          return Err(Crashed);
        }
        if drafts[at.value].meta == Some(meta) {
          return Ok(id);
        }
        return Err(Conflict);
      }
      if at == None {
        drafts := drafts + [Draft(session, id, None, 0, [], false)];
        at := Some(|drafts| - 1);
      }
      if crash {
        return Err(Crashed);
      }
      drafts := drafts[at.value := drafts[at.value].(meta := Some(meta))];
      return Ok(id);
    }

    // The size of the draft afterwards.
    method AppendTextDraft(session: nat, id: OutputId, index: int, chunk: bytes) returns (result: Outcome<nat>)
      modifies this`drafts
      ensures result == match Append(config, old(drafts), session, id, index, chunk)
                        case Ok(draft) => Ok(Size(draft.chunks))
                        case Err(error) => Err(error)
      ensures Value() == Apply(config, old(Value()), AppendDraft(session, id, index, chunk))
    {
      var at := Load(drafts, session, id);
      if at.Err? {
        return Err(at.error);
      }
      var draft := drafts[at.value];
      if draft.finalized {
        return Err(Conflict);
      }
      if index < 0 || index >= config.maxChunks {
        return Err(LimitExceeded);
      }
      if chunk == [] {
        return Err(Invalid);
      }
      if |chunk| > config.maxChunkBytes {
        return Err(LimitExceeded);
      }
      if Damaged(draft) {
        return Err(Unavailable);
      }
      if index < |draft.chunks| {
        if draft.chunks[index] == chunk {
          return Ok(Size(draft.chunks));
        }
        return Err(Conflict);
      }
      if index != |draft.chunks| {
        return Err(Invalid);
      }
      var size := Size(draft.chunks);
      if size + |chunk| > config.maxFileBytes
         || DraftBytes(drafts, OfRun(session, id.run)) + |chunk| > config.maxRunBytes
         || DraftBytes(drafts, OfSession(session)) + |chunk| > config.maxSessionBytes {
        return Err(LimitExceeded);
      }
      var longer := draft.(first := 0, chunks := draft.chunks + [chunk]);
      assert longer.chunks[..|draft.chunks|] == draft.chunks;
      drafts := drafts[at.value := longer];
      return Ok(size + |chunk|);
    }

    // Unlinks one chunk file after the other; the process dies after `removed` of them.
    method ResetTextDraft(session: nat, id: OutputId, removed: nat) returns (error: Option<Error>)
      modifies this`drafts
      ensures var at := Load(old(drafts), session, id);
        error == None <==>
          && at.Ok? && Reset(old(drafts)[at.value], removed).Ok?
          && removed >= |old(drafts)[at.value].chunks|
      ensures Value() == Apply(config, old(Value()), ResetDraft(session, id, removed))
    {
      var at := Load(drafts, session, id);
      if at.Err? {
        return Some(at.error);
      }
      var draft := drafts[at.value];
      if draft.finalized {
        return Some(Conflict);
      }
      if Damaged(draft) {
        return Some(Unavailable);
      }
      var k := 0;
      while k < |draft.chunks| && k < removed
        invariant k <= |draft.chunks| && k <= removed
        invariant drafts == old(drafts)[at.value := if k == 0 then draft else Unlinked(draft, k)]
        decreases |draft.chunks| - k
      {
        k := k + 1;
        drafts := drafts[at.value := Unlinked(draft, k)];
      }
      return if k < |draft.chunks| then Some(Crashed) else None;
    }

    /** The one text whose encoding the chunks are together, if there is one. */
    method ReadTextDraft(session: nat, id: OutputId) returns (result: Outcome<string>)
      ensures var at := Load(drafts, session, id);
        result == if at.Err? then Err(at.error) else ReadText(drafts[at.value])
      ensures forall text :: result == Ok(text) <==> HoldsText(drafts, session, id, text)
    {
      var at := Load(drafts, session, id);
      if at.Err? {
        return Err(at.error);
      }
      var draft := drafts[at.value];
      if Damaged(draft) {
        return Err(Unavailable);
      }
      if draft.chunks == [] {
        return Err(Invalid);
      }
      var text := Decode(Join(draft.chunks));
      if text == None {
        NoSuchText(Join(draft.chunks));
        return Err(Invalid);
      }
      EncodeOfDecode(Join(draft.chunks));
      OneText(Join(draft.chunks), text.value);
      return Ok(text.value);
    }

    // Publishes the text, then writes the marker, unless the process dies in between.
    method FinalizeTextDraft(session: nat, id: OutputId, crash: bool) returns (result: Outcome<Artifact>)
      modifies this`drafts, this`artifacts
      ensures result == Finalize(config, old(Value()), session, id)
              || (crash && result == Err(Crashed) && Finalize(config, old(Value()), session, id).Ok?)
      ensures Value() == Apply(config, old(Value()), FinalizeDraft(session, id, crash))
    {
      var at := Load(drafts, session, id);
      if at.Err? {
        return Err(at.error);
      }
      var draft := drafts[at.value];
      if draft.finalized {
        var known := FindArtifact(artifacts, session, id);
        return if known == None then Err(NotFound) else Ok(artifacts[known.value]);
      }
      var text := ReadTextDraft(session, id);
      if text.Err? {
        return Err(text.error);
      }
      result := PublishText(ArtifactOf(draft, text.value));
      if result.Err? {
        return;
      }
      if crash {
        return Err(Crashed);
      }
      drafts := drafts[at.value := draft.(finalized := true)];
    }

    method Fork(session: nat, id: OutputId, target: nat, message: Option<nat>) returns (result: Outcome<Artifact>)
      modifies this`artifacts
      ensures Value() == Apply(config, old(Value()), ForkOutput(session, id, target, message))
      ensures result.Ok? ==>
                && FindArtifact(old(artifacts), session, id).Some? && result.value in artifacts
                && result.value.session == target
                && var source := old(artifacts)[FindArtifact(old(artifacts), session, id).value];
                   && result.value.content == source.content
                   && result.value.meta == source.meta.(message := result.value.meta.message)
                   && result.value.id == OutputId(OfOutput(source.id), OfOutput(source.id))
                   && (FindArtifact(old(artifacts), target, result.value.id) == None ==>
                         result.value.meta.message == message)
    {
      var at := FindArtifact(artifacts, session, id);
      if at == None {
        return Err(NotFound);
      }
      result := PublishText(Copy(artifacts[at.value], target, message));
    }
  }
}
