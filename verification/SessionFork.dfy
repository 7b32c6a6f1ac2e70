/** A fork: the part of a Session before one of its user messages, as a Session of its own. */
module SessionFork {
  import opened Options
  import opened SessionLedger

  datatype Fork = Forked(doc: Doc) | NoSuchUserMessage | InconsistentRef | OutputUnavailable | ReplyLost

  // The position of the first user message with this id.
  function Boundary(ledger: seq<Entry>, before: MessageId): (at: Option<nat>)
    ensures at.Some? ==> at.value < |ledger| && ledger[at.value].id == before && ledger[at.value].role == User
    ensures at.Some? ==> forall i :: 0 <= i < at.value ==> !(ledger[i].id == before && ledger[i].role == User)
    ensures at == None <==> forall i :: 0 <= i < |ledger| ==> !(ledger[i].id == before && ledger[i].role == User)
  {
    if ledger == [] then None
    else
      var earlier := Boundary(ledger[..|ledger| - 1], before);
      var last := ledger[|ledger| - 1];
      assert forall i :: 0 <= i < |ledger| - 1 ==> ledger[..|ledger| - 1][i] == ledger[i];
      if earlier.Some? then earlier
      else
        if last.id == before && last.role == User then Some(|ledger| - 1) else None
  }

  predicate Shows(entry: Entry, output: RefId) {
    exists ref :: ref in entry.outputs && ref.id == output
  }

  // The position of the first message that shows the output.
  function FirstToShow(ledger: seq<Entry>, output: RefId): (at: Option<nat>)
    ensures at.Some? ==> at.value < |ledger| && Shows(ledger[at.value], output)
                         && forall j :: 0 <= j < at.value ==> !Shows(ledger[j], output)
    ensures at == None <==> forall j :: 0 <= j < |ledger| ==> !Shows(ledger[j], output)
  {
    if ledger == [] then None
    else
      var earlier := FirstToShow(ledger[..|ledger| - 1], output);
      assert forall j :: 0 <= j < |ledger| - 1 ==> ledger[..|ledger| - 1][j] == ledger[j];
      if earlier.Some? then earlier
      else if Shows(ledger[|ledger| - 1], output) then Some(|ledger| - 1)
      else None
  }

  function CloneChart(ref: Ref, target: nat, id: MessageId): Ref {
    Ref(ClonedChart(target, id, ref.id, ref.hash), ref.hash, target, None, id)
  }

  // The message whose copy owns the copy of the output: publishing an output again returns what was
  // published first.
  function OutputOwner(earlier: seq<Entry>, id: MessageId, output: RefId): MessageId {
    match FirstToShow(earlier, output)
    case Some(at) => earlier[at].id
    case None => id
  }

  function CloneOutput(earlier: seq<Entry>, ref: Ref, target: nat, id: MessageId): Ref {
    Ref(ForkedOutput(ref.id), ref.hash, target, None, ForkMessage(target, OutputOwner(earlier, id, ref.id)))
  }

  function CloneCharts(refs: seq<Ref>, target: nat, id: MessageId): seq<Ref> {
    seq(|refs|, i requires 0 <= i < |refs| => CloneChart(refs[i], target, id))
  }

  function CloneOutputs(earlier: seq<Entry>, refs: seq<Ref>, target: nat, id: MessageId): seq<Ref> {
    seq(|refs|, i requires 0 <= i < |refs| => CloneOutput(earlier, refs[i], target, id))
  }

  function CloneReply(copied: seq<Entry>, target: nat, reply: Option<MessageId>): Option<MessageId> {
    if reply.Some? && Known(copied, reply.value) then Some(ForkMessage(target, reply.value)) else None
  }

  function CloneEntry(copied: seq<Entry>, target: nat, i: nat): Entry
    requires i < |copied|
  {
    var entry, id := copied[i], ForkMessage(target, copied[i].id);
    Entry(id, entry.role, None, entry.createdAt, CloneReply(copied, target, entry.replyTo), entry.content,
          CloneCharts(entry.artifacts, target, id), CloneOutputs(copied[..i], entry.outputs, target, entry.id))
  }

  function CloneAll(copied: seq<Entry>, target: nat): seq<Entry> {
    seq(|copied|, i requires 0 <= i < |copied| => CloneEntry(copied, target, i))
  }

  // Of several with one id the last counts.
  function Lookup(kept: seq<Ref>, id: RefId): (found: Option<Ref>)
    ensures found.Some? ==> found.value in kept && found.value.id == id
    ensures found == None <==> forall ref :: ref in kept ==> ref.id != id
  {
    if kept == [] then None
    else if kept[|kept| - 1].id == id then Some(kept[|kept| - 1])
    else Lookup(kept[..|kept| - 1], id)
  }

  // The Session still has what the message shows, unchanged.
  predicate Backed(ref: Ref, kept: seq<Ref>) {
    var found := Lookup(kept, ref.id);
    found.Some? && found.value.hash == ref.hash
  }

  predicate AllBacked(refs: seq<Ref>, kept: seq<Ref>) {
    forall ref :: ref in refs ==> Backed(ref, kept)
  }

  predicate Copyable(refs: seq<Ref>, lost: set<RefId>) {
    forall ref :: ref in refs ==> ref.id !in lost
  }

  // The first output that cannot be copied.  `lost` are the outputs that cannot be read or published.
  function OutputObstacle(refs: seq<Ref>, kept: seq<Ref>, lost: set<RefId>): (obstacle: Option<Fork>)
    ensures obstacle == None <==> AllBacked(refs, kept) && Copyable(refs, lost)
    ensures obstacle in {None, Some(InconsistentRef), Some(OutputUnavailable)}
  {
    if refs == [] then None
    else
      var earlier, last := OutputObstacle(refs[..|refs| - 1], kept, lost), refs[|refs| - 1];
      assert refs == refs[..|refs| - 1] + [last];
      if earlier.Some? then earlier
      else if !Backed(last, kept) then Some(InconsistentRef)
      else if last.id in lost then Some(OutputUnavailable)
      else None
  }

  // What prevents the message from being copied.
  function Obstacle(source: Doc, copied: seq<Entry>, target: nat, entry: Entry, lost: set<RefId>): Option<Fork> {
    var outputs := OutputObstacle(entry.outputs, source.outputs, lost);
    if !AllBacked(entry.artifacts, source.presentations) then Some(InconsistentRef)
    else if outputs.Some? then outputs
    else if entry.role == Assistant && CloneReply(copied, target, entry.replyTo) == None then Some(ReplyLost)
    else None
  }

  ghost predicate FirstObstacle(source: Doc, copied: seq<Entry>, target: nat, i: nat, lost: set<RefId>,
                                obstacle: Fork)
  {
    && i < |copied| && Obstacle(source, copied, target, copied[i], lost) == Some(obstacle)
    && forall j :: 0 <= j < i ==> Obstacle(source, copied, target, copied[j], lost) == None
  }

  function RawMessages(ledger: seq<Entry>): seq<Raw> {
    seq(|ledger|, i requires 0 <= i < |ledger| =>
      Raw(if ledger[i].role == User then FromUser else FromAssistant, ledger[i].content, false, None))
  }

  function ForkDoc(source: Doc, before: MessageId, target: nat, committedAt: int, key: nat, request: nat,
                   ledger: seq<Entry>, charts: seq<Ref>, outputs: seq<Ref>): Doc {
    Doc(target, committedAt, committedAt, AutoTitle(RawMessages(ledger)), Auto, 1, RawMessages(ledger), ledger,
        Some(Origin(source.id, before, key, request)), charts, outputs)
  }

  // The copy of an output the Session has, published for one message.
  predicate IsCopy(copy: Ref, kept: seq<Ref>, output: RefId, target: nat, owner: MessageId) {
    var original := Lookup(kept, output);
    original.Some?
    && copy == Ref(ForkedOutput(output), original.value.hash, target, None, ForkMessage(target, owner))
  }

  // What the new Session has published: a copy of every output shown so far, for the first message that
  // shows it.
  ghost predicate Holds(published: seq<Ref>, kept: seq<Ref>, ledger: seq<Entry>, target: nat) {
    forall output :: HoldsFirst(published, kept, ledger, target, output)
  }

  predicate HoldsFirst(published: seq<Ref>, kept: seq<Ref>, ledger: seq<Entry>, target: nat, output: RefId) {
    var copy := Lookup(published, ForkedOutput(output));
    match FirstToShow(ledger, output)
    case Some(at) => copy.Some? && IsCopy(copy.value, kept, output, target, ledger[at].id)
    case None => copy == None
  }

  lemma FirstToShowOfAppend(ledger: seq<Entry>, entry: Entry, output: RefId)
    ensures FirstToShow(ledger + [entry], output)
            == if FirstToShow(ledger, output).Some? then FirstToShow(ledger, output)
               else if Shows(entry, output) then Some(|ledger|) else None
  {
    assert (ledger + [entry])[..|ledger|] == ledger;
  }

  lemma LookupOfAppend(refs: seq<Ref>, ref: Ref, id: RefId)
    ensures Lookup(refs + [ref], id) == if ref.id == id then Some(ref) else Lookup(refs, id)
  {
    assert (refs + [ref])[..|refs|] == refs;
  }

  // One more output of the message at the end: published before, or published now.
  lemma OneMoreHeld(published: seq<Ref>, kept: seq<Ref>, earlier: seq<Entry>, entry: Entry, k: nat, target: nat,
                    clone: Ref)
    requires k < |entry.outputs| && Backed(entry.outputs[k], kept)
    requires Holds(published, kept, earlier + [entry.(outputs := entry.outputs[..k])], target)
    requires clone == match Lookup(published, ForkedOutput(entry.outputs[k].id))
                      case Some(prior) => prior
                      case None => Ref(ForkedOutput(entry.outputs[k].id), entry.outputs[k].hash, target, None,
                                       ForkMessage(target, entry.id))
    ensures Holds(if Lookup(published, clone.id).Some? then published else published + [clone], kept,
                  earlier + [entry.(outputs := entry.outputs[..k + 1])], target)
    ensures clone == CloneOutput(earlier, entry.outputs[k], target, entry.id)
  {
    var ref := entry.outputs[k];
    var before, after := entry.(outputs := entry.outputs[..k]), entry.(outputs := entry.outputs[..k + 1]);
    assert after.outputs == before.outputs + [ref];
    assert ref in after.outputs;
    var published' := if Lookup(published, clone.id).Some? then published else published + [clone];
    forall output ensures HoldsFirst(published', kept, earlier + [after], target, output) {
      FirstToShowOfAppend(earlier, before, output);
      FirstToShowOfAppend(earlier, after, output);
      assert Shows(after, output) <==> Shows(before, output) || output == ref.id;
      LookupOfAppend(published, clone, ForkedOutput(output));
      assert HoldsFirst(published, kept, earlier + [before], target, output);
    }
    assert HoldsFirst(published, kept, earlier + [before], target, ref.id);
    FirstToShowOfAppend(earlier, before, ref.id);
  }

  /** Publishes the outputs of one message in the new Session.  An output that is there already is
      returned as it was published, whatever message that was for. */
  method PublishOutputs(kept: seq<Ref>, earlier: seq<Entry>, entry: Entry, target: nat, published: seq<Ref>)
    returns (clones: seq<Ref>, published': seq<Ref>)
    requires AllBacked(entry.outputs, kept) && Holds(published, kept, earlier, target)
    ensures clones == CloneOutputs(earlier, entry.outputs, target, entry.id)
    ensures Holds(published', kept, earlier + [entry], target)
  {
    hide CloneOutput, FirstToShow, Lookup, Backed;
    clones, published' := [], published;
    var bare := entry.(outputs := entry.outputs[..0]);
    forall output ensures HoldsFirst(published, kept, earlier + [bare], target, output) {
      FirstToShowOfAppend(earlier, bare, output);
      assert HoldsFirst(published, kept, earlier, target, output);
    }
    var i := 0;
    while i < |entry.outputs|
      invariant i <= |entry.outputs| && |clones| == i
      invariant forall j :: 0 <= j < i ==> clones[j] == CloneOutput(earlier, entry.outputs[j], target, entry.id)
      invariant Holds(published', kept, earlier + [entry.(outputs := entry.outputs[..i])], target)
    {
      var ref := entry.outputs[i];
      var prior := Lookup(published', ForkedOutput(ref.id));
      var clone := match prior
                   case Some(there) => there
                   case None => Ref(ForkedOutput(ref.id), ref.hash, target, None, ForkMessage(target, entry.id));
      OneMoreHeld(published', kept, earlier, entry, i, target, clone);
      clones := clones + [clone];
      if prior == None {
        published' := published' + [clone];
      }
      i := i + 1;
    }
    assert entry.(outputs := entry.outputs[..i]) == entry;
  }

  /** Copies the messages before the chosen one, and everything they show, under new ids. */
  method BuildForkedSession(source: Doc, before: MessageId, target: nat, committedAt: int, key: nat, request: nat,
                            lost: set<RefId>) returns (fork: Fork)
    ensures fork == NoSuchUserMessage <==> Boundary(source.ledger, before) == None
    ensures Boundary(source.ledger, before).Some? ==>
              var copied := source.ledger[..Boundary(source.ledger, before).value];
              && (fork.Forked? <==>
                    forall i :: 0 <= i < |copied| ==> Obstacle(source, copied, target, copied[i], lost) == None)
              && (fork.Forked? || exists i :: FirstObstacle(source, copied, target, i, lost, fork))
              && (fork.Forked? ==>
                    fork.doc == ForkDoc(source, before, target, committedAt, key, request, CloneAll(copied, target),
                                        fork.doc.presentations, fork.doc.outputs)
                    && (forall ref :: ref in fork.doc.presentations <==>
                          exists entry :: entry in fork.doc.ledger && ref in entry.artifacts)
                    && (forall ref :: ref in fork.doc.outputs <==>
                          exists entry :: entry in fork.doc.ledger && ref in entry.outputs))
  {
    hide CloneOutputs, CloneCharts, CloneReply, FirstToShow, Lookup, AllBacked, Copyable, OutputObstacle, Holds;
    var boundary := Boundary(source.ledger, before);
    if boundary == None {
      return NoSuchUserMessage;
    }
    var copied := source.ledger[..boundary.value];
    var ledger: seq<Entry> := [];
    var charts: seq<Ref> := [];
    var outputs: seq<Ref> := [];
    var published: seq<Ref> := [];
    NothingHeld(source.outputs, target);
    var i := 0;
    while i < |copied|
      invariant i <= |copied| && ledger == CloneAll(copied, target)[..i]
      invariant forall j :: 0 <= j < i ==> Obstacle(source, copied, target, copied[j], lost) == None
      invariant forall ref :: ref in charts <==> exists entry :: entry in ledger && ref in entry.artifacts
      invariant forall ref :: ref in outputs <==> exists entry :: entry in ledger && ref in entry.outputs
      invariant Holds(published, source.outputs, copied[..i], target)
    {
      var obstacle := Obstacle(source, copied, target, copied[i], lost);
      if obstacle.Some? {
        assert FirstObstacle(source, copied, target, i, lost, obstacle.value);
        return obstacle.value;
      }
      var entry, id := copied[i], ForkMessage(target, copied[i].id);
      var clones;
      clones, published := PublishOutputs(source.outputs, copied[..i], entry, target, published);
      var clone := Entry(id, entry.role, None, entry.createdAt, CloneReply(copied, target, entry.replyTo),
                         entry.content, CloneCharts(entry.artifacts, target, id), clones);
      assert clone == CloneEntry(copied, target, i) && copied[..i + 1] == copied[..i] + [entry];
      ledger, charts, outputs := ledger + [clone], charts + clone.artifacts, outputs + clone.outputs;
      i := i + 1;
    }
    assert ledger == CloneAll(copied, target);
    fork := Forked(ForkDoc(source, before, target, committedAt, key, request, ledger, charts, outputs));
  }

  lemma NothingHeld(kept: seq<Ref>, target: nat)
    ensures Holds([], kept, [], target)
  {
  }

  // ---------------------------------------------------------------------------------------------
  // What a fork is

  lemma LastUserOfClone(copied: seq<Entry>, target: nat, n: nat)
    requires n <= |copied|
    ensures LastUser(CloneAll(copied, target)[..n])
            == match LastUser(copied[..n]) case Some(id) => Some(ForkMessage(target, id)) case None => None
  {
    if n > 0 {
      assert CloneAll(copied, target)[..n][..n - 1] == CloneAll(copied, target)[..n - 1];
      assert copied[..n][..n - 1] == copied[..n - 1];
      LastUserOfClone(copied, target, n - 1);
    }
  }

  lemma PrefixIsWellFormed(ledger: seq<Entry>, n: nat)
    requires WellFormed(ledger) && n <= |ledger|
    ensures WellFormed(ledger[..n])
  {
    forall i | 0 <= i < n ensures RepliesWell(ledger[..n], i) {
      assert RepliesWell(ledger, i) && ledger[..n][..i] == ledger[..i];
    }
  }

  /** The fork of a well-formed ledger is an injective renaming of the prefix: same length, roles,
      contents, times and reply edges, and no reply leaves it. */
  lemma ForkIsARenamedPrefix(copied: seq<Entry>, target: nat)
    requires WellFormed(copied)
    ensures var fork := CloneAll(copied, target);
      && |fork| == |copied| && WellFormed(fork)
      && Projection(fork) == Projection(copied)
      && (forall i :: 0 <= i < |fork| ==> fork[i].createdAt == copied[i].createdAt)
      && (forall i, j :: 0 <= i < |fork| && 0 <= j < |fork| ==>
            (fork[i].replyTo == Some(fork[j].id) <==> copied[i].replyTo == Some(copied[j].id)))
  {
    var fork := CloneAll(copied, target);
    forall i | 0 <= i < |fork| ensures RepliesWell(fork, i) {
      assert RepliesWell(copied, i);
      LastUserOfClone(copied, target, i);
      if copied[i].replyTo.Some? {
        ReplyIsKnown(copied, i);
      }
    }
    forall i | 0 <= i < |fork| && copied[i].replyTo.Some?
      ensures fork[i].replyTo == Some(ForkMessage(target, copied[i].replyTo.value))
    {
      ReplyIsKnown(copied, i);
    }
  }

  lemma ReplyIsKnown(copied: seq<Entry>, i: nat)
    requires WellFormed(copied) && i < |copied| && copied[i].replyTo.Some?
    ensures Known(copied, copied[i].replyTo.value)
  {
    assert RepliesWell(copied, i);
    var j :| 0 <= j < i && copied[..i][j].id == copied[i].replyTo.value;
    assert copied[j] in copied && copied[..i][j] == copied[j];
  }

  // The message has at least one output in common with another.
  predicate ShareOutput(a: Entry, b: Entry) {
    exists ref :: ref in a.outputs && Shows(b, ref.id)
  }

  // No output is shown by two messages.
  predicate NoSharedOutput(ledger: seq<Entry>) {
    forall i, j :: 0 <= i < j < |ledger| ==> !ShareOutput(ledger[i], ledger[j])
  }

  // Whether the copy of this message owns its copies is decided by the messages before it.
  lemma CloneOwnsExactlyIf(copied: seq<Entry>, target: nat, i: nat)
    requires UniqueIds(copied) && i < |copied|
    ensures OwnsItsRefs(target, CloneEntry(copied, target, i))
            <==> forall j :: 0 <= j < i ==> !ShareOutput(copied[j], copied[i])
  {
    var entry, clone := copied[i], CloneEntry(copied, target, i);
    forall k | 0 <= k < |entry.outputs|
      ensures clone.outputs[k].owner == clone.id <==> FirstToShow(copied[..i], entry.outputs[k].id) == None
    {
      assert clone.outputs[k] == CloneOutput(copied[..i], entry.outputs[k], target, entry.id);
    }
    if j :| 0 <= j < i && ShareOutput(copied[j], entry) {
      var ref :| ref in copied[j].outputs && Shows(entry, ref.id);
      var k :| 0 <= k < |entry.outputs| && entry.outputs[k].id == ref.id;
      assert Shows(copied[..i][j], ref.id);
      assert clone.outputs[k] in clone.outputs && clone.outputs[k].owner != clone.id;
    } else {
      forall ref | ref in clone.outputs ensures ref.owner == clone.id {
        var k :| 0 <= k < |entry.outputs| && clone.outputs[k] == ref;
        assert FirstToShow(copied[..i], entry.outputs[k].id) == None;
      }
    }
  }

  lemma CloneOwns(copied: seq<Entry>, target: nat)
    requires UniqueIds(copied)
    ensures AllOwn(target, CloneAll(copied, target)) <==> NoSharedOutput(copied)
  {
    var fork := CloneAll(copied, target);
    forall i | 0 <= i < |copied|
      ensures OwnsItsRefs(target, fork[i]) <==> forall j :: 0 <= j < i ==> !ShareOutput(copied[j], copied[i])
    {
      CloneOwnsExactlyIf(copied, target, i);
    }
    if !NoSharedOutput(copied) {
      var j, i :| 0 <= j < i < |copied| && ShareOutput(copied[j], copied[i]);
      assert fork[i] in fork;
    }
  }

  lemma {:induction false} AllPublic(messages: seq<Raw>)
    requires forall raw :: raw in messages ==> IsPublic(raw)
    ensures Public(messages) == messages
    decreases |messages|
  {
    if messages != [] {
      AllPublic(messages[..|messages| - 1]);
    }
  }

  lemma RawMessagesArePublic(ledger: seq<Entry>)
    ensures Public(RawMessages(ledger)) == RawMessages(ledger)
    ensures Lines(RawMessages(ledger)) == Projection(ledger)
  {
    AllPublic(RawMessages(ledger));
  }

  /** Readers accept the fork exactly if no output is shown by two of the copied messages; and
      synchronizing it with its own messages changes nothing. */
  lemma ForkIsSelfContainedExactlyIf(source: Doc, before: MessageId, target: nat, doc: Doc)
    requires WellFormed(source.ledger) && Boundary(source.ledger, before).Some?
    requires doc.ledger == CloneAll(source.ledger[..Boundary(source.ledger, before).value], target)
    requires doc.messages == RawMessages(doc.ledger)
    ensures WellFormed(doc.ledger)
    ensures SelfContained(target, doc.ledger)
            <==> NoSharedOutput(source.ledger[..Boundary(source.ledger, before).value])
    ensures Synchronize(target, doc.messages, doc.ledger) == Synced(doc.ledger)
  {
    var copied := source.ledger[..Boundary(source.ledger, before).value];
    PrefixIsWellFormed(source.ledger, |copied|);
    ForkIsARenamedPrefix(copied, target);
    CloneOwns(copied, target);
    if NoSharedOutput(copied) {
      WellFormedIsSelfContained(target, doc.ledger);
    }
    RawMessagesArePublic(doc.ledger);
    NothingToAppend(target, doc.messages, doc.ledger);
  }

  // Every output belongs to one message, wherever it is shown.
  ghost predicate OneOwner(ledger: seq<Entry>) {
    forall a, b, x, y :: a in ledger && b in ledger && x in a.outputs && y in b.outputs && x.id == y.id ==>
      x.owner == y.owner
  }

  /** Where every output belongs to one message, a readable Session has readable forks. */
  lemma ReadableSharesNothing(session: nat, ledger: seq<Entry>)
    requires SelfContained(session, ledger) && OneOwner(ledger)
    ensures NoSharedOutput(ledger)
  {
    hide ReplyStaysInside;
    forall i, j | 0 <= i < j < |ledger| ensures !ShareOutput(ledger[i], ledger[j]) {
      var a, b := ledger[i], ledger[j];
      assert OwnsItsRefs(session, a) && OwnsItsRefs(session, b) && a.id != b.id;
      forall x, y | x in a.outputs && y in b.outputs ensures x.id != y.id {
      }
    }
  }

  // The copy of a chart: its own id, the same content, in the new Session and of the copied message.
  predicate IsChartCopy(copy: Ref, ref: Ref, target: nat, id: MessageId) {
    && copy.id == ClonedChart(target, id, ref.id, ref.hash) && copy.hash == ref.hash
    && copy.session == target && copy.run == None && copy.owner == id
  }

  // The copy of an output: of the first copied message that shows it.
  ghost predicate IsOutputCopy(copy: Ref, ref: Ref, target: nat, copied: seq<Entry>, i: nat) {
    && copy.id == ForkedOutput(ref.id) && copy.hash == ref.hash && copy.session == target && copy.run == None
    && exists j :: 0 <= j <= i < |copied| && copy.owner == ForkMessage(target, copied[j].id)
                   && Shows(copied[j], ref.id) && forall k :: 0 <= k < j ==> !Shows(copied[k], ref.id)
  }

  /** Every message is copied with everything it shows, one by one. */
  lemma CopiesOneByOne(copied: seq<Entry>, target: nat, i: nat)
    requires i < |copied|
    ensures var entry, copy := copied[i], CloneAll(copied, target)[i];
      && copy.id == ForkMessage(target, entry.id) && copy.role == entry.role && copy.run == None
      && copy.createdAt == entry.createdAt && copy.content == entry.content
      && |copy.artifacts| == |entry.artifacts| && |copy.outputs| == |entry.outputs|
      && (forall k :: 0 <= k < |entry.artifacts| ==>
            IsChartCopy(copy.artifacts[k], entry.artifacts[k], target, copy.id))
      && (forall k :: 0 <= k < |entry.outputs| ==>
            IsOutputCopy(copy.outputs[k], entry.outputs[k], target, copied, i))
  {
    var entry, copy := copied[i], CloneAll(copied, target)[i];
    forall k | 0 <= k < |entry.outputs|
      ensures IsOutputCopy(copy.outputs[k], entry.outputs[k], target, copied, i)
    {
      var ref := entry.outputs[k];
      assert copy.outputs[k] == CloneOutput(copied[..i], ref, target, entry.id);
      assert Shows(entry, ref.id);
      var first := FirstToShow(copied[..i], ref.id);
      var j := if first.Some? then first.value else i;
      assert forall k :: 0 <= k < j ==> copied[..i][k] == copied[k];
    }
  }

  /** The new Session begins with the copied messages as its history, named after them. */
  lemma ForkBegins(source: Doc, before: MessageId, target: nat, committedAt: int, key: nat, request: nat,
                   ledger: seq<Entry>, charts: seq<Ref>, outputs: seq<Ref>)
    ensures var doc := ForkDoc(source, before, target, committedAt, key, request, ledger, charts, outputs);
      && doc.id == target && doc.createdAt == committedAt && doc.updatedAt == committedAt
      && doc.ledger == ledger && doc.presentations == charts && doc.outputs == outputs
      && doc.titleSource == Auto && doc.metadataVersion == 1 && doc.title == AutoTitle(doc.messages)
      && doc.origin == Some(Origin(source.id, before, key, request))
      && ShowsPrefix(Public(doc.messages), ledger) && |Public(doc.messages)| == |ledger| == |doc.messages|
  {
    RawMessagesArePublic(ledger);
  }

  // The Session has this, unchanged, and nothing later under its id.
  ghost predicate IsKept(ref: Ref, kept: seq<Ref>) {
    exists k :: 0 <= k < |kept| && kept[k].id == ref.id && kept[k].hash == ref.hash
                && forall m :: k < m < |kept| ==> kept[m].id != ref.id
  }

  lemma {:induction false} BackedIsKept(ref: Ref, kept: seq<Ref>)
    ensures Backed(ref, kept) <==> IsKept(ref, kept)
    decreases |kept|
  {
    if kept != [] {
      var front, last := kept[..|kept| - 1], kept[|kept| - 1];
      BackedIsKept(ref, front);
      if last.id == ref.id {
        assert last.hash == ref.hash ==> kept[|kept| - 1].hash == ref.hash;
      } else {
        if IsKept(ref, front) {
          var k :| 0 <= k < |front| && front[k].id == ref.id && front[k].hash == ref.hash
                   && forall m :: k < m < |front| ==> front[m].id != ref.id;
          assert kept[k] == front[k];
        }
        if IsKept(ref, kept) {
          var k :| 0 <= k < |kept| && kept[k].id == ref.id && kept[k].hash == ref.hash
                   && forall m :: k < m < |kept| ==> kept[m].id != ref.id;
          assert front[k] == kept[k];
        }
      }
    }
  }

  /** A message of a well-formed ledger can be copied exactly if the Session still has all its charts and
      outputs, unchanged, and every output can be read and published. */
  lemma MessageIsCopiedExactlyIf(source: Doc, copied: seq<Entry>, target: nat, i: nat, lost: set<RefId>)
    requires WellFormed(copied) && i < |copied|
    ensures Obstacle(source, copied, target, copied[i], lost) == None <==>
              && (forall ref :: ref in copied[i].artifacts ==> IsKept(ref, source.presentations))
              && (forall ref :: ref in copied[i].outputs ==> IsKept(ref, source.outputs) && ref.id !in lost)
  {
    hide IsKept, Backed;
    var entry := copied[i];
    forall ref | ref in entry.artifacts
      ensures Backed(ref, source.presentations) <==> IsKept(ref, source.presentations)
    {
      BackedIsKept(ref, source.presentations);
    }
    forall ref | ref in entry.outputs ensures Backed(ref, source.outputs) <==> IsKept(ref, source.outputs) {
      BackedIsKept(ref, source.outputs);
    }
    assert RepliesWell(copied, i);
    if entry.replyTo.Some? {
      ReplyIsKnown(copied, i);
    }
  }

  /** A well-formed, backed Session can be forked before any of its user messages. */
  lemma ForkSucceeds(source: Doc, copied: seq<Entry>, target: nat, entry: Entry, lost: set<RefId>)
    requires WellFormed(copied) && entry in copied
    requires AllBacked(entry.artifacts, source.presentations) && AllBacked(entry.outputs, source.outputs)
    requires Copyable(entry.outputs, lost)
    ensures Obstacle(source, copied, target, entry, lost) == None
  {
    var i :| 0 <= i < |copied| && copied[i] == entry;
    assert RepliesWell(copied, i);
    if entry.replyTo.Some? {
      ReplyIsKnown(copied, i);
    }
  }
}
