/**
  The public ledger of a Session: what an entry is, when a ledger is well formed, and how new public
  messages are appended to it.
*/
module SessionLedger {
  import opened Options

  datatype Role = User | Assistant

  // Message ids are hashes of tagged payloads; distinct payloads give distinct ids.
  datatype MessageId =
    | SessionMessage(session: nat, ordinal: nat, role: Role)
    | RunMessage(run: nat, role: Role, offset: nat)
    | FinalMessage(run: nat)
    | ForkMessage(session: nat, source: MessageId)

  datatype RefId =
    | Made(n: nat)
    | ClonedChart(session: nat, owner: MessageId, source: RefId, hash: nat)
    | ForkedOutput(source: RefId)

  // A chart or an output that a message shows; a copy made by a fork names no Run.
  datatype Ref = Ref(id: RefId, hash: nat, session: nat, run: Option<nat>, owner: MessageId)

  datatype Entry = Entry(
    id: MessageId, role: Role, run: Option<nat>, createdAt: Option<int>, replyTo: Option<MessageId>,
    content: string, artifacts: seq<Ref>, outputs: seq<Ref>)

  // A message of the model-facing history.
  datatype Kind = FromUser | FromAssistant | Hidden

  datatype Raw = Raw(kind: Kind, content: string, toolCalls: bool, createdAt: Option<int>)

  // A message as the public sees it.
  datatype Line = Line(role: Role, content: string)

  predicate IsPublic(raw: Raw) {
    raw.kind == FromUser || (raw.kind == FromAssistant && !raw.toolCalls)
  }

  function Public(messages: seq<Raw>): (public: seq<Raw>)
    ensures forall raw :: raw in public ==> raw in messages && IsPublic(raw)
  {
    if messages == [] then []
    else
      var rest := Public(messages[..|messages| - 1]);
      var last := messages[|messages| - 1];
      if IsPublic(last) then rest + [last] else rest
  }

  /** The public messages are those of the user and the answers without tool calls, in their order. */
  lemma {:induction false} PublicOfConcat(a: seq<Raw>, b: seq<Raw>)
    ensures Public(a + b) == Public(a) + Public(b)
    decreases |b|
  {
    if b == [] {
      assert a + b == a;
    } else {
      assert (a + b)[..|a + b| - 1] == a + b[..|b| - 1];
      PublicOfConcat(a, b[..|b| - 1]);
    }
  }

  lemma PublicOfOne(raw: Raw)
    ensures Public([raw])
            == if raw.kind == FromUser || (raw.kind == FromAssistant && !raw.toolCalls) then [raw] else []
  {
    assert [raw][..0] == [] && Public([]) == [];
  }

  function RoleOf(raw: Raw): Role {
    if raw.kind == FromUser then User else Assistant
  }

  function Lines(public: seq<Raw>): seq<Line> {
    seq(|public|, i requires 0 <= i < |public| => Line(RoleOf(public[i]), public[i].content))
  }

  function Projection(ledger: seq<Entry>): seq<Line> {
    seq(|ledger|, i requires 0 <= i < |ledger| => Line(ledger[i].role, ledger[i].content))
  }

  // The id of the latest user message.
  function LastUser(ledger: seq<Entry>): (id: Option<MessageId>)
    ensures id == None <==> forall i :: 0 <= i < |ledger| ==> ledger[i].role != User
    ensures id.Some? ==> exists i :: 0 <= i < |ledger| && ledger[i].id == id.value && ledger[i].role == User
  {
    if ledger == [] then None
    else
      var last := ledger[|ledger| - 1];
      if last.role == User then
        assert ledger[|ledger| - 1].role == User;
        Some(last.id)
      else LastUser(ledger[..|ledger| - 1])
  }

  // The latest user message before position n.
  ghost predicate IsLatestUser(ledger: seq<Entry>, n: nat, u: nat) {
    && u < n <= |ledger| && ledger[u].role == User
    && forall v :: u < v < n ==> ledger[v].role != User
  }

  /** The answer to a question is the latest one: the user message found has no user message behind it. */
  lemma {:induction false} LastUserIsLatest(ledger: seq<Entry>) returns (u: nat)
    requires LastUser(ledger).Some?
    ensures IsLatestUser(ledger, |ledger|, u) && LastUser(ledger) == Some(ledger[u].id)
    decreases |ledger|
  {
    u := |ledger| - 1;
    if ledger[u].role != User {
      u := LastUserIsLatest(ledger[..|ledger| - 1]);
    }
  }

  ghost predicate HasId(ledger: seq<Entry>, id: MessageId) {
    exists i :: 0 <= i < |ledger| && ledger[i].id == id
  }

  ghost predicate UniqueIds(ledger: seq<Entry>) {
    forall i, j :: 0 <= i < j < |ledger| ==> ledger[i].id != ledger[j].id
  }

  // A user message replies to nothing, an assistant message to the nearest earlier user message.
  predicate RepliesWell(ledger: seq<Entry>, i: nat)
    requires i < |ledger|
  {
    if ledger[i].role == User then ledger[i].replyTo == None
    else ledger[i].replyTo.Some? && ledger[i].replyTo == LastUser(ledger[..i])
  }

  ghost predicate WellFormed(ledger: seq<Entry>) {
    UniqueIds(ledger) && forall i :: 0 <= i < |ledger| ==> RepliesWell(ledger, i)
  }

  // What readers of a Session demand of its ledger.
  ghost predicate SelfContained(session: nat, ledger: seq<Entry>) {
    && UniqueIds(ledger) && AllOwn(session, ledger)
    && (forall i :: 0 <= i < |ledger| ==> ReplyStaysInside(ledger, i))
  }

  ghost predicate ReplyStaysInside(ledger: seq<Entry>, i: nat)
    requires i < |ledger|
  {
    ledger[i].replyTo.Some? ==>
      exists j :: 0 <= j < |ledger| && ledger[j].id == ledger[i].replyTo.value && ledger[j].role == User
  }

  ghost predicate OwnsItsRefs(session: nat, entry: Entry) {
    && (forall ref :: ref in entry.artifacts ==>
          && ref.session == session && ref.owner == entry.id
          && (entry.run.Some? && ref.run.Some? ==> ref.run == entry.run))
    && (forall ref :: ref in entry.outputs ==>
          && ref.session == session && ref.owner == entry.id
          && (entry.run.Some? ==> ref.run == entry.run))
  }

  ghost predicate AllOwn(session: nat, ledger: seq<Entry>) {
    forall entry :: entry in ledger ==> OwnsItsRefs(session, entry)
  }

  ghost predicate Sound(session: nat, ledger: seq<Entry>) {
    WellFormed(ledger) && AllOwn(session, ledger)
  }

  /** Appending one entry that replies to the latest user message keeps a ledger well formed. */
  lemma AppendKeepsWellFormed(ledger: seq<Entry>, entry: Entry)
    requires WellFormed(ledger) && !HasId(ledger, entry.id)
    requires if entry.role == User then entry.replyTo == None
             else entry.replyTo.Some? && entry.replyTo == LastUser(ledger)
    ensures WellFormed(ledger + [entry])
  {
    var ledger' := ledger + [entry];
    forall i | 0 <= i < |ledger'| ensures RepliesWell(ledger', i) {
      if i < |ledger| {
        assert RepliesWell(ledger, i) && ledger'[..i] == ledger[..i];
      } else {
        assert ledger'[..i] == ledger;
      }
    }
  }

  /** A well-formed ledger is self-contained as soon as every message owns what it shows. */
  lemma WellFormedIsSelfContained(session: nat, ledger: seq<Entry>)
    requires WellFormed(ledger)
    requires AllOwn(session, ledger)
    ensures SelfContained(session, ledger)
  {
    forall i | 0 <= i < |ledger| ensures ReplyStaysInside(ledger, i) {
      assert RepliesWell(ledger, i);
      if ledger[i].replyTo.Some? {
        var j :| 0 <= j < i && ledger[..i][j].id == ledger[i].replyTo.value && ledger[..i][j].role == User;
        assert ledger[j] == ledger[..i][j];
      }
    }
  }

  // ---------------------------------------------------------------------------------------------
  // Sessions

  datatype Source = Auto | ByUser

  datatype Origin = Origin(session: nat, before: MessageId, key: nat, request: nat)

  // What a Session document holds.
  datatype Doc = Doc(
    id: nat, createdAt: int, updatedAt: int, title: string, titleSource: Source, metadataVersion: nat,
    messages: seq<Raw>, ledger: seq<Entry>, origin: Option<Origin>,
    presentations: seq<Ref>, outputs: seq<Ref>)

  const EMPTY_SESSION_TITLE := "（空会话）"

  // The characters the source's language counts as white space.
  predicate IsSpace(c: char) {
    || '\U{0009}' <= c <= '\U{000D}' || '\U{001C}' <= c <= '\U{0020}' || c == '\U{0085}' || c == '\U{00A0}'
    || c == '\U{1680}' || '\U{2000}' <= c <= '\U{200A}' || c == '\U{2028}' || c == '\U{2029}'
    || c == '\U{202F}' || c == '\U{205F}' || c == '\U{3000}'
  }

  predicate IsWord(word: string) {
    word != "" && forall i :: 0 <= i < |word| ==> !IsSpace(word[i])
  }

  // The maximal runs of characters that are not white space.
  function Words(text: string): (words: seq<string>)
    ensures forall word :: word in words ==> IsWord(word)
    ensures words == [] <==> forall i :: 0 <= i < |text| ==> IsSpace(text[i])
  {
    if text == "" then []
    else
      var front, c := text[..|text| - 1], text[|text| - 1];
      var words := Words(front);
      if IsSpace(c) then words
      else if front == "" || IsSpace(front[|front| - 1]) then words + [[c]]
      else
        assert !IsSpace(front[|front| - 1]);
        assert words[|words| - 1] in words && IsWord(words[|words| - 1] + [c]);
        words[|words| - 1 := words[|words| - 1] + [c]]
  }

  function Joined(words: seq<string>): string {
    if words == [] then ""
    else if |words| == 1 then words[0]
    else Joined(words[..|words| - 1]) + " " + words[|words| - 1]
  }

  // The words with one blank between them.
  function Collapse(text: string): string {
    Joined(Words(text))
  }

  lemma WordBegins(front: string, c: char)
    requires !IsSpace(c) && (front == "" || IsSpace(front[|front| - 1]))
    ensures Words(front + [c]) == Words(front) + [[c]]
  {
    assert (front + [c])[..|front|] == front;
  }

  lemma WordGoesOn(front: string, c: char)
    requires !IsSpace(c) && front != "" && !IsSpace(front[|front| - 1])
    ensures Words(front) != []
    ensures var words := Words(front);
      Words(front + [c]) == words[|words| - 1 := words[|words| - 1] + [c]]
  {
    assert (front + [c])[..|front|] == front;
  }

  lemma {:induction false} WordAtEnd(front: string, word: string)
    requires IsWord(word) && (front == "" || IsSpace(front[|front| - 1]))
    ensures Words(front + word) == Words(front) + [word]
    decreases |word|
  {
    hide IsSpace, Words;
    var shorter, c := word[..|word| - 1], word[|word| - 1];
    if shorter == "" {
      WordBegins(front, c);
      assert word == [c];
    } else {
      WordAtEnd(front, shorter);
      assert (front + shorter)[|front + shorter| - 1] == word[|word| - 2];
      WordGoesOn(front + shorter, c);
      assert word == shorter + [c] && front + word == front + shorter + [c];
    }
  }

  lemma BlankChangesNothing(text: string)
    ensures Words(text + " ") == Words(text)
  {
    assert (text + " ")[..|text|] == text;
  }

  /** Splitting undoes joining, so collapsing a text twice is collapsing it once. */
  lemma {:induction false} WordsOfJoined(words: seq<string>)
    requires forall word :: word in words ==> IsWord(word)
    ensures Words(Joined(words)) == words
    decreases |words|
  {
    hide Words;
    assert IsSpace(' ');
    if |words| == 0 {
      NoWords();
    } else if |words| == 1 {
      NoWords();
      WordAtEnd("", words[0]);
      assert "" + words[0] == words[0] && [] + words == words && words == [words[0]];
    } else {
      var front, last := words[..|words| - 1], words[|words| - 1];
      WordsOfJoined(front);
      BlankChangesNothing(Joined(front));
      WordAtEnd(Joined(front) + " ", last);
      assert words == front + [last];
    }
  }

  lemma NoWords()
    ensures Words("") == []
  {
  }

  lemma {:induction false} JoinedStartsWithAWord(words: seq<string>)
    requires words != [] && forall word :: word in words ==> IsWord(word)
    ensures Joined(words) != "" && !IsSpace(Joined(words)[0])
    decreases |words|
  {
    if |words| > 1 {
      JoinedStartsWithAWord(words[..|words| - 1]);
    } else {
      assert IsWord(words[0]) && !IsSpace(words[0][0]);
    }
  }

  predicate ValidTitle(title: string) {
    1 <= |title| <= 100 && exists i :: 0 <= i < |title| && !IsSpace(title[i])
  }

  // The first words of the first user message that has any.
  function AutoTitle(messages: seq<Raw>): (title: string)
    ensures ValidTitle(title) && |title| <= 80
    ensures title == EMPTY_SESSION_TITLE
            || exists raw :: raw in messages && raw.kind == FromUser && title <= Collapse(raw.content)
  {
    if messages == [] then
      assert !IsSpace(EMPTY_SESSION_TITLE[0]);
      EMPTY_SESSION_TITLE
    else
      var text := Collapse(messages[0].content);
      if messages[0].kind == FromUser && text != "" then
        JoinedStartsWithAWord(Words(messages[0].content));
        assert messages[0] in messages;
        if |text| <= 80 then
          assert !IsSpace(text[0]);
          text
        else
          assert !IsSpace(text[..80][0]);
          text[..80]
      else AutoTitle(messages[1..])
  }

  /** The first user message that is not blank names the Session. */
  lemma {:induction false} TitleIsFirstText(messages: seq<Raw>, i: nat)
    requires i < |messages| && messages[i].kind == FromUser && Words(messages[i].content) != []
    requires forall j :: 0 <= j < i && messages[j].kind == FromUser ==> Words(messages[j].content) == []
    ensures var text := Collapse(messages[i].content);
      AutoTitle(messages) == if |text| <= 80 then text else text[..80]
    decreases i
  {
    if i == 0 {
      JoinedStartsWithAWord(Words(messages[0].content));
    } else {
      TitleIsFirstText(messages[1..], i - 1);
    }
  }

  // A Session in memory, possibly much older than its document.
  class Session {
    const id: nat
    var createdAt: int
    var updatedAt: int
    var title: string
    var titleSource: Source
    var metadataVersion: nat
    var messages: seq<Raw>
    var ledger: seq<Entry>
    var origin: Option<Origin>
    var presentations: seq<Ref>
    var outputs: seq<Ref>

    constructor (doc: Doc)
      ensures Value() == doc
    {
      id, createdAt, updatedAt := doc.id, doc.createdAt, doc.updatedAt;
      title, titleSource, metadataVersion := doc.title, doc.titleSource, doc.metadataVersion;
      messages, ledger, origin := doc.messages, doc.ledger, doc.origin;
      presentations, outputs := doc.presentations, doc.outputs;
    }

    function Value(): Doc
      reads this
    {
      Doc(id, createdAt, updatedAt, title, titleSource, metadataVersion, messages, ledger, origin,
          presentations, outputs)
    }
  }

  // ---------------------------------------------------------------------------------------------
  // Extending the ledger from the model-facing history

  datatype Sync = Synced(ledger: seq<Entry>) | IdConflict | NoUser

  function NextEntry(session: nat, raw: Raw, ledger: seq<Entry>): Entry {
    Entry(SessionMessage(session, |ledger|, RoleOf(raw)), RoleOf(raw), None, raw.createdAt,
          if RoleOf(raw) == User then None else LastUser(ledger), raw.content, [], [])
  }

  predicate Known(ledger: seq<Entry>, id: MessageId) {
    exists entry :: entry in ledger && entry.id == id
  }

  // Appends the public messages beyond the ledger, one by one.
  function AppendPublic(session: nat, public: seq<Raw>, ledger: seq<Entry>): Sync
    requires |ledger| <= |public|
    decreases |public| - |ledger|
  {
    if |ledger| == |public| then Synced(ledger)
    else
      var entry := NextEntry(session, public[|ledger|], ledger);
      if Known(ledger, entry.id) then IdConflict
      else if entry.role == Assistant && entry.replyTo == None then NoUser
      else AppendPublic(session, public, ledger + [entry])
  }

  /** A ledger that is not a prefix of the history is authoritative and stays as it is. */
  function Synchronize(session: nat, messages: seq<Raw>, ledger: seq<Entry>): Sync {
    var public := Public(messages);
    if ledger != [] && !(Projection(ledger) <= Lines(public)) then Synced(ledger)
    else AppendPublic(session, public, ledger)
  }

  lemma ProjectionOfAppend(ledger: seq<Entry>, entry: Entry)
    ensures Projection(ledger + [entry]) == Projection(ledger) + [Line(entry.role, entry.content)]
  {
  }

  lemma KnownIsHasId(ledger: seq<Entry>, id: MessageId)
    ensures Known(ledger, id) <==> HasId(ledger, id)
  {
    if Known(ledger, id) {
      var entry :| entry in ledger && entry.id == id;
      var i :| 0 <= i < |ledger| && ledger[i] == entry;
    }
    if HasId(ledger, id) {
      var i :| 0 <= i < |ledger| && ledger[i].id == id;
      assert ledger[i] in ledger;
    }
  }

  lemma {:induction false} AppendPublicExtends(session: nat, public: seq<Raw>, ledger: seq<Entry>)
    requires |ledger| <= |public| && Projection(ledger) <= Lines(public)
    ensures var r := AppendPublic(session, public, ledger);
      r.Synced? ==> ledger <= r.ledger && Projection(r.ledger) == Lines(public)
    decreases |public| - |ledger|
  {
    if |ledger| < |public| {
      var entry := NextEntry(session, public[|ledger|], ledger);
      ProjectionOfAppend(ledger, entry);
      AppendPublicExtends(session, public, ledger + [entry]);
    } else {
      assert Projection(ledger) == Lines(public);
    }
  }

  lemma {:induction false} AppendPublicKeepsSound(session: nat, public: seq<Raw>, ledger: seq<Entry>)
    requires |ledger| <= |public| && Sound(session, ledger)
    ensures var r := AppendPublic(session, public, ledger); r.Synced? ==> Sound(session, r.ledger)
    decreases |public| - |ledger|
  {
    if |ledger| < |public| {
      var entry := NextEntry(session, public[|ledger|], ledger);
      KnownIsHasId(ledger, entry.id);
      if !Known(ledger, entry.id) && !(entry.role == Assistant && entry.replyTo == None) {
        AppendKeepsWellFormed(ledger, entry);
        AppendPublicKeepsSound(session, public, ledger + [entry]);
      }
    }
  }

  /** The ledger only grows, and only into the public history; it stays sound; and doing the same
      again changes nothing. */
  lemma SynchronizeIsSafe(session: nat, messages: seq<Raw>, ledger: seq<Entry>)
    ensures var r := Synchronize(session, messages, ledger);
      r.Synced? ==>
        && ledger <= r.ledger
        && (r.ledger == ledger || Projection(r.ledger) == Lines(Public(messages)))
        && Synchronize(session, messages, r.ledger) == r
        && (Sound(session, ledger) ==> Sound(session, r.ledger))
  {
    var public := Public(messages);
    if ledger == [] || Projection(ledger) <= Lines(public) {
      assert Projection([]) == [];
      AppendPublicExtends(session, public, ledger);
      if Sound(session, ledger) {
        AppendPublicKeepsSound(session, public, ledger);
      }
      var r := AppendPublic(session, public, ledger);
      if r.Synced? {
        assert |Projection(r.ledger)| == |r.ledger| && |Lines(public)| == |public|;
      }
    }
  }

  // The ledger is empty or shows a prefix of the public history.
  predicate ShowsPrefix(public: seq<Raw>, ledger: seq<Entry>) {
    && |ledger| <= |public|
    && forall i :: 0 <= i < |ledger| ==>
         ledger[i].role == RoleOf(public[i]) && ledger[i].content == public[i].content
  }

  // The message at this position can be appended: its id is not used, and an answer has a user message
  // before it.
  ghost predicate CanAppend(session: nat, public: seq<Raw>, ledger: seq<Entry>, i: nat)
    requires |ledger| <= i < |public|
  {
    && !HasId(ledger, SessionMessage(session, i, RoleOf(public[i])))
    && (RoleOf(public[i]) == Assistant ==> HasUserBefore(public, ledger, i))
  }

  ghost predicate HasUserBefore(public: seq<Raw>, ledger: seq<Entry>, i: nat)
    requires |ledger| <= i <= |public|
  {
    || (exists k :: 0 <= k < |ledger| && ledger[k].role == User)
    || (exists k :: |ledger| <= k < i && RoleOf(public[k]) == User)
  }

  // The entry for the i-th public message: its own id, role, time and content, no Run and nothing shown;
  // an answer replies to the latest user message before it.
  ghost predicate IsEntryFor(session: nat, public: seq<Raw>, ledger: seq<Entry>, i: nat)
    requires i < |public| && i < |ledger|
  {
    var entry := ledger[i];
    && entry.id == SessionMessage(session, i, entry.role)
    && entry.role == (if public[i].kind == FromUser then User else Assistant)
    && entry.run == None && entry.createdAt == public[i].createdAt && entry.content == public[i].content
    && entry.artifacts == [] && entry.outputs == []
    && (entry.role == User ==> entry.replyTo == None)
    && (entry.role == Assistant ==>
          exists u: nat :: IsLatestUser(ledger, i, u) && entry.replyTo == Some(ledger[u].id))
  }

  // The part of the result that has been appended so far.
  ghost predicate AppendedSoFar(session: nat, public: seq<Raw>, start: seq<Entry>, ledger: seq<Entry>) {
    && start <= ledger && |ledger| <= |public|
    && forall i :: |start| <= i < |ledger| ==> IsEntryFor(session, public, ledger, i)
  }

  lemma NextCanAppend(session: nat, public: seq<Raw>, start: seq<Entry>, ledger: seq<Entry>)
    requires AppendedSoFar(session, public, start, ledger) && |ledger| < |public|
    ensures var entry := NextEntry(session, public[|ledger|], ledger);
      && (Known(ledger, entry.id) <==> HasId(start, entry.id))
      && (entry.role == Assistant && entry.replyTo == None <==>
            RoleOf(public[|ledger|]) == Assistant && !HasUserBefore(public, start, |ledger|))
  {
    var entry := NextEntry(session, public[|ledger|], ledger);
    KnownIsHasId(ledger, entry.id);
    forall i | 0 <= i < |ledger| ensures i < |start| ==> ledger[i] == start[i] {
    }
    forall i | |start| <= i < |ledger| ensures ledger[i].id != entry.id && ledger[i].role == RoleOf(public[i]) {
      assert IsEntryFor(session, public, ledger, i);
    }
  }

  lemma NextIsEntry(session: nat, public: seq<Raw>, start: seq<Entry>, ledger: seq<Entry>)
    requires AppendedSoFar(session, public, start, ledger) && |ledger| < |public|
    requires RoleOf(public[|ledger|]) == User || LastUser(ledger).Some?
    ensures AppendedSoFar(session, public, start, ledger + [NextEntry(session, public[|ledger|], ledger)])
  {
    hide IsEntryFor, LastUser, IsLatestUser;
    var n, entry := |ledger|, NextEntry(session, public[|ledger|], ledger);
    forall i | |start| <= i < n + 1 ensures IsEntryFor(session, public, ledger + [entry], i) {
      if i < n {
        EntryStays(session, public, ledger, entry, i);
      } else {
        NextItself(session, public, ledger);
      }
    }
  }

  lemma EntryStays(session: nat, public: seq<Raw>, ledger: seq<Entry>, entry: Entry, i: nat)
    requires i < |ledger| && i < |public| && IsEntryFor(session, public, ledger, i)
    ensures IsEntryFor(session, public, ledger + [entry], i)
  {
    var longer := ledger + [entry];
    if ledger[i].role == Assistant {
      var u: nat :| IsLatestUser(ledger, i, u) && ledger[i].replyTo == Some(ledger[u].id);
      assert IsLatestUser(longer, i, u);
    }
  }

  lemma NextItself(session: nat, public: seq<Raw>, ledger: seq<Entry>)
    requires |ledger| < |public| && (RoleOf(public[|ledger|]) == User || LastUser(ledger).Some?)
    ensures IsEntryFor(session, public, ledger + [NextEntry(session, public[|ledger|], ledger)], |ledger|)
  {
    var longer := ledger + [NextEntry(session, public[|ledger|], ledger)];
    if RoleOf(public[|ledger|]) == Assistant {
      var u := LastUserIsLatest(ledger);
      assert IsLatestUser(longer, |ledger|, u);
    }
  }

  lemma {:induction false} AppendPublicExactly(session: nat, public: seq<Raw>, start: seq<Entry>, ledger: seq<Entry>)
    requires AppendedSoFar(session, public, start, ledger)
    requires forall i :: |start| <= i < |ledger| ==> CanAppend(session, public, start, i)
    ensures var r := AppendPublic(session, public, ledger);
      && (r.Synced? ==>
            && (forall i :: |start| <= i < |public| ==> CanAppend(session, public, start, i))
            && AppendedSoFar(session, public, start, r.ledger) && |r.ledger| == |public|)
      && (!r.Synced? ==> exists i :: FirstRefused(session, public, start, i, r))
    decreases |public| - |ledger|
  {
    hide LastUser, HasId, HasUserBefore, IsEntryFor;
    if |ledger| < |public| {
      var entry := NextEntry(session, public[|ledger|], ledger);
      NextCanAppend(session, public, start, ledger);
      if Known(ledger, entry.id) || (entry.role == Assistant && entry.replyTo == None) {
        assert FirstRefused(session, public, start, |ledger|, AppendPublic(session, public, ledger));
      } else {
        NextIsEntry(session, public, start, ledger);
        AppendPublicExactly(session, public, start, ledger + [entry]);
      }
    }
  }

  // The first position that cannot be appended, and why.
  ghost predicate FirstRefused(session: nat, public: seq<Raw>, ledger: seq<Entry>, i: nat, why: Sync) {
    && |ledger| <= i < |public| && !CanAppend(session, public, ledger, i)
    && (forall k :: |ledger| <= k < i ==> CanAppend(session, public, ledger, k))
    && why == if HasId(ledger, SessionMessage(session, i, RoleOf(public[i]))) then IdConflict else NoUser
  }

  /** A ledger that does not show a prefix of the history stays as it is.  Any other is completed, entry by
      entry, exactly if every missing message can be appended; otherwise the first one that cannot is
      refused. */
  lemma SynchronizeExactly(session: nat, messages: seq<Raw>, ledger: seq<Entry>)
    ensures var public, r := Public(messages), Synchronize(session, messages, ledger);
      if !ShowsPrefix(public, ledger) then r == Synced(ledger)
      else
        && (r.Synced? <==> forall i :: |ledger| <= i < |public| ==> CanAppend(session, public, ledger, i))
        && (r.Synced? ==>
              && ledger <= r.ledger && |r.ledger| == |public| && ShowsPrefix(public, r.ledger)
              && forall i :: |ledger| <= i < |public| ==> IsEntryFor(session, public, r.ledger, i))
        && (!r.Synced? ==> exists i :: FirstRefused(session, public, ledger, i, r))
  {
    hide AppendPublic, IsEntryFor, CanAppend;
    var public := Public(messages);
    assert |Projection(ledger)| == |ledger| && |Lines(public)| == |public|;
    ShowsPrefixIsProjection(public, ledger);
    if ShowsPrefix(public, ledger) {
      AppendPublicExactly(session, public, ledger, ledger);
      var r := AppendPublic(session, public, ledger);
      if r.Synced? {
        EntriesShowTheirMessages(session, public, ledger, r.ledger);
      }
    }
  }

  lemma EntriesShowTheirMessages(session: nat, public: seq<Raw>, start: seq<Entry>, ledger: seq<Entry>)
    requires ShowsPrefix(public, start) && AppendedSoFar(session, public, start, ledger)
    ensures ShowsPrefix(public, ledger)
  {
    forall i | 0 <= i < |ledger|
      ensures ledger[i].role == RoleOf(public[i]) && ledger[i].content == public[i].content
    {
      if i < |start| {
        assert ledger[i] == start[i];
      } else {
        assert IsEntryFor(session, public, ledger, i);
      }
    }
  }

  lemma ShowsPrefixIsProjection(public: seq<Raw>, ledger: seq<Entry>)
    ensures ShowsPrefix(public, ledger) <==> Projection(ledger) <= Lines(public)
  {
    if Projection(ledger) <= Lines(public) {
      forall i | 0 <= i < |ledger|
        ensures i < |public| && ledger[i].role == RoleOf(public[i]) && ledger[i].content == public[i].content
      {
        assert Projection(ledger)[i] == Lines(public)[i];
      }
      assert |Projection(ledger)| <= |Lines(public)|;
    }
    if ShowsPrefix(public, ledger) {
      assert Lines(public)[..|ledger|] == Projection(ledger);
    }
  }

  /** A ledger that already shows the whole history stays as it is. */
  lemma NothingToAppend(session: nat, messages: seq<Raw>, ledger: seq<Entry>)
    requires Projection(ledger) == Lines(Public(messages))
    ensures Synchronize(session, messages, ledger) == Synced(ledger)
  {
    assert |Projection(ledger)| == |ledger| && |Lines(Public(messages))| == |Public(messages)|;
  }
}
