/** Writing the text a provider streams into a draft, in chunks cut at character boundaries. */
module ArtifactCapture {
  import opened Options
  import opened Utf8
  import opened OutputStore

  // ---------------------------------------------------------------------------------------------
  // Where a text is cut

  // The length of the longest prefix whose encoding fits.
  function Longest(s: string, limit: int): (k: nat)
    ensures k <= |s|
  {
    if s == "" || |EncodeChar(s[0])| > limit then 0
    else 1 + Longest(s[1..], limit - |EncodeChar(s[0])|)
  }

  /** It fits, every longer prefix does not, and no other length is like that. */
  lemma {:induction false} LongestFits(s: string, limit: nat, k: nat)
    requires k <= |s|
    ensures |Encode(s[..k])| <= limit <==> k <= Longest(s, limit)
    decreases |s|
  {
    if k > 0 {
      assert s[..k][1..] == s[1..][..k - 1];
      if |EncodeChar(s[0])| <= limit {
        LongestFits(s[1..], limit - |EncodeChar(s[0])|, k - 1);
      }
    }
  }

  // The pieces cut off as long as the text does not fit, and what is left.
  function Cuts(limit: nat, s: string): (seq<string>, string)
    decreases |s|
  {
    var k := Longest(s, limit);
    if |Encode(s)| <= limit || k == 0 then ([], s)
    else
      var (pieces, rest) := Cuts(limit, s[k..]);
      ([s[..k]] + pieces, rest)
  }

  function Concat(pieces: seq<string>): string {
    if pieces == [] then "" else pieces[0] + Concat(pieces[1..])
  }

  function EncodeAll(pieces: seq<string>): seq<bytes> {
    seq(|pieces|, i requires 0 <= i < |pieces| => Encode(pieces[i]))
  }

  predicate Piece(limit: nat, piece: string) {
    piece != "" && |Encode(piece)| <= limit
  }

  lemma CutOnce(limit: nat, s: string)
    requires |Encode(s)| > limit && Longest(s, limit) > 0
    ensures var k := Longest(s, limit);
      && k < |s| && Piece(limit, s[..k])
      && Cuts(limit, s) == ([s[..k]] + Cuts(limit, s[k..]).0, Cuts(limit, s[k..]).1)
  {
    var k := Longest(s, limit);
    LongestFits(s, limit, k);
    LongestFits(s, limit, |s|);
    assert s[..|s|] == s;
  }

  lemma NoCut(limit: nat, s: string)
    requires |Encode(s)| <= limit || Longest(s, limit) == 0
    ensures Cuts(limit, s) == ([], s) && Concat([]) == ""
    ensures limit >= 4 ==> |Encode(s)| <= limit
  {
  }

  lemma ConcatOfFirst(first: string, pieces: seq<string>)
    ensures Concat([first] + pieces) == first + Concat(pieces) && Concat([]) == ""
  {
    assert ([first] + pieces)[1..] == pieces;
  }

  /** The pieces and the rest are the text, no piece is empty or too long, and with a limit of at
      least four bytes, the longest encoding of a character, the rest fits as well. */
  lemma {:induction false} CutsAreTheText(limit: nat, s: string)
    ensures var (pieces, rest) := Cuts(limit, s);
      && s == Concat(pieces) + rest
      && (forall piece :: piece in pieces ==> Piece(limit, piece))
      && (limit >= 4 ==> |Encode(rest)| <= limit)
      && (pieces != [] ==> rest != "")
    decreases |s|
  {
    hide Encode, EncodeChar, Cuts, Concat;
    var k := Longest(s, limit);
    if |Encode(s)| > limit && k > 0 {
      CutOnce(limit, s);
      CutsAreTheText(limit, s[k..]);
      var (pieces, rest) := Cuts(limit, s[k..]);
      ConcatOfFirst(s[..k], pieces);
      assert s == s[..k] + s[k..];
      assert s[..k] + (Concat(pieces) + rest) == s[..k] + Concat(pieces) + rest;
    } else {
      NoCut(limit, s);
    }
  }

  lemma {:induction false} LongestOfConcat(s: string, t: string, limit: int)
    requires Longest(s, limit) < |s|
    ensures Longest(s + t, limit) == Longest(s, limit)
    decreases |s|
  {
    assert (s + t)[0] == s[0] && (s + t)[1..] == s[1..] + t;
    if |EncodeChar(s[0])| <= limit {
      LongestOfConcat(s[1..], t, limit - |EncodeChar(s[0])|);
    }
  }

  /** Cutting a text that arrives in two parts cuts it as if it had arrived in one. */
  lemma {:induction false} CutsOfConcat(limit: nat, s: string, t: string)
    ensures var (pieces, rest) := Cuts(limit, s); var (more, last) := Cuts(limit, rest + t);
      Cuts(limit, s + t) == (pieces + more, last)
    decreases |s|
  {
    hide Encode, Cuts, Longest;
    var k := Longest(s, limit);
    if |Encode(s)| > limit && k > 0 {
      CutOnce(limit, s);
      LongestOfConcat(s, t, limit);
      EncodeOfConcat(s, t);
      CutOnce(limit, s + t);
      assert (s + t)[k..] == s[k..] + t && (s + t)[..k] == s[..k];
      CutsOfConcat(limit, s[k..], t);
      var (pieces, rest) := Cuts(limit, s[k..]);
      var more := Cuts(limit, rest + t).0;
      assert [s[..k]] + (pieces + more) == ([s[..k]] + pieces) + more;
    } else {
      NoCut(limit, s);
      assert [] + Cuts(limit, s + t).0 == Cuts(limit, s + t).0;
    }
  }

  lemma {:induction false} JoinOfEncodeAll(pieces: seq<string>)
    ensures Join(EncodeAll(pieces)) == Encode(Concat(pieces))
    decreases |pieces|
  {
    if pieces != [] {
      var init, last := pieces[..|pieces| - 1], pieces[|pieces| - 1];
      JoinOfEncodeAll(init);
      assert EncodeAll(pieces)[..|pieces| - 1] == EncodeAll(init);
      ConcatOfLast(init, last);
      assert init + [last] == pieces;
      EncodeOfConcat(Concat(init), last);
    }
  }

  lemma {:induction false} ConcatOfLast(pieces: seq<string>, last: string)
    ensures Concat(pieces + [last]) == Concat(pieces) + last
    decreases |pieces|
  {
    if pieces == [] {
      assert [last][1..] == [];
      assert last + "" == last;
    } else {
      assert (pieces + [last])[1..] == pieces[1..] + [last];
      ConcatOfLast(pieces[1..], last);
      assert pieces[0] + (Concat(pieces[1..]) + last) == pieces[0] + Concat(pieces[1..]) + last;
    }
  }

  // ---------------------------------------------------------------------------------------------
  // The writer

  lemma {:induction false} FindAfterUpdate(drafts: seq<Draft>, draft: Draft)
    requires FindDraft(drafts, draft.session, draft.id).Some?
    ensures var at := FindDraft(drafts, draft.session, draft.id).value;
      FindDraft(drafts[at := draft], draft.session, draft.id) == Some(at)
    decreases |drafts|
  {
    var at := FindDraft(drafts, draft.session, draft.id).value;
    if at < |drafts| - 1 {
      assert drafts[at := draft][..|drafts| - 1] == drafts[..|drafts| - 1][at := draft];
      FindAfterUpdate(drafts[..|drafts| - 1], draft);
    }
  }

  datatype WriteError = TooWide | Refused(error: Error)

  class ArtifactCaptureWriter {
    const store: OutputStore
    const session: nat
    const id: OutputId
    const limit: nat
    var buffer: string
    var chunkIndex: nat
    var sizeBytes: nat
    // Everything that has arrived.
    ghost var written: string

    // The draft holds exactly these pieces.
    ghost predicate Holds(pieces: seq<string>)
      reads this`chunkIndex, this`sizeBytes, store`drafts
    {
      && Load(store.drafts, session, id).Ok?
      && var draft := store.drafts[Load(store.drafts, session, id).value];
         !draft.finalized && !Damaged(draft) && draft.chunks == EncodeAll(pieces)
         && chunkIndex == |pieces| && sizeBytes == Size(draft.chunks)
    }

    // Draft and buffer depend only on what has arrived, not on how it was split.
    ghost predicate Valid()
      reads this, store
    {
      Holds(Cuts(limit, written).0) && buffer == Cuts(limit, written).1
    }

    constructor (store: OutputStore, session: nat, id: OutputId, limit: nat)
      ensures this.store == store && this.session == session && this.id == id && this.limit == limit
    {
      this.store, this.session, this.id, this.limit := store, session, id, limit;
      buffer, chunkIndex, sizeBytes, written := "", 0, 0, "";
    }

    // Throws away what an earlier attempt has left.
    method Start() returns (error: Option<Error>)
      requires buffer == "" && chunkIndex == sizeBytes == 0
      modifies this`written, store
      ensures error == None ==> Valid() && written == ""
    {
      ghost var before := store.drafts;
      error := ResetAll();
      written := "";
      if error == None {
        var at := Load(before, session, id).value;
        FindAfterUpdate(before, Reset(before[at], |before[at].chunks|).value);
        assert EncodeAll([]) == [];
      }
    }

    // A reset nothing interrupts.
    method ResetAll() returns (error: Option<Error>)
      modifies store
      ensures var at := Load(old(store.drafts), session, id);
        if at.Err? then error.Some?
        else
          var draft := old(store.drafts)[at.value];
          if draft.finalized || Damaged(draft) then error.Some?
          else error == None && store.drafts == old(store.drafts)[at.value := Reset(draft, |draft.chunks|).value]
    {
      var at := Load(store.drafts, session, id);
      var all := if at.Ok? then |store.drafts[at.value].chunks| else 0;
      error := store.ResetTextDraft(session, id, all);
    }

    /** Takes more text.  The only failures are a refusal by the store and, with a limit below four
        bytes, a character that fits into no chunk. */
    method Write(text: string) returns (error: Option<WriteError>)
      requires Valid()
      modifies this`buffer, this`chunkIndex, this`sizeBytes, this`written, store
      ensures error == None ==> Valid() && written == old(written) + text
      ensures error == Some(TooWide) ==> limit < 4
    {
      hide Encode, Cuts, Holds, Longest;
      if text == "" {
        assert written + text == written;
        return None;
      }
      CutsOfConcat(limit, written, text);
      ghost var pieces := Cuts(limit, written).0;
      ghost var all := Cuts(limit, written + text);
      written := written + text;
      buffer := buffer + text;
      while |Encode(buffer)| > limit
        invariant Holds(pieces) && written == old(written) + text
        invariant all == (pieces + Cuts(limit, buffer).0, Cuts(limit, buffer).1)
        decreases |buffer|
      {
        var split := LargestPrefix(limit);
        if split == 0 {
          NoCut(limit, buffer);
          return Some(TooWide);
        }
        CutOnce(limit, buffer);
        error := AppendPiece(buffer[..split], pieces);
        if error.Some? {
          return;
        }
        ghost var piece, later := [buffer[..split]], Cuts(limit, buffer[split..]).0;
        assert pieces + (piece + later) == pieces + piece + later;
        pieces := pieces + piece;
        buffer := buffer[split..];
      }
      NoCut(limit, buffer);
      assert pieces + [] == pieces;
      return None;
    }

    // The binary search for the longest prefix of the buffer that fits.
    method LargestPrefix(maxBytes: nat) returns (split: nat)
      ensures split == Longest(buffer, maxBytes)
    {
      var low, high := 0, |buffer|;
      while low < high
        invariant low <= Longest(buffer, maxBytes) <= high <= |buffer|
      {
        var mid := (low + high + 1) / 2;
        LongestFits(buffer, maxBytes, mid);
        if |Encode(buffer[..mid])| <= maxBytes {
          low := mid;
        } else {
          high := mid - 1;
        }
      }
      return low;
    }

    method AppendPiece(content: string, ghost pieces: seq<string>) returns (error: Option<WriteError>)
      requires Holds(pieces)
      modifies this`chunkIndex, this`sizeBytes, store
      ensures error == None ==> Holds(pieces + [content])
      ensures error != Some(TooWide)
    {
      ghost var before := store.drafts;
      ghost var at := Load(before, session, id).value;
      var size := store.AppendTextDraft(session, id, chunkIndex, Encode(content));
      if size.Err? {
        return Some(Refused(size.error));
      }
      assert EncodeAll(pieces + [content]) == EncodeAll(pieces) + [Encode(content)];
      FindAfterUpdate(before, Append(store.config, before, session, id, chunkIndex, Encode(content)).value);
      sizeBytes := size.value;
      chunkIndex := chunkIndex + 1;
      return None;
    }

    /** Publishes exactly what has arrived.  `accepted` is the verdict of the content check. */
    method Finalize(accepted: bool, crash: bool) returns (result: Outcome<Artifact>)
      requires Valid()
      modifies this`buffer, this`chunkIndex, this`sizeBytes, store
      ensures result.Ok? ==>
                && result.value.content == Encode(written) && result.value.session == session && result.value.id == id
                && result.value in store.artifacts && written != ""
    {
      hide Encode, Decode, Cuts, Concat, Join;
      CutsAreTheText(limit, written);
      ghost var pieces := Cuts(limit, written).0;
      if buffer != "" {
        var error := AppendPiece(buffer, pieces);
        if error.Some? {
          return Err(LimitExceeded);
        }
        ConcatOfLast(pieces, buffer);
        pieces := pieces + [buffer];
        buffer := "";
      } else {
        assert written == Concat(pieces) + "";
      }
      if sizeBytes == 0 {
        return Err(LimitExceeded);
      }
      HeldTextIsPublished(store.config, store.Value(), session, id, pieces, crash);
      var content := store.ReadTextDraft(session, id);
      if content.Err? {
        return Err(content.error);
      }
      if !accepted {
        return Err(Invalid);
      }
      result := store.FinalizeTextDraft(session, id, crash);
    }
  }

  // Finalizing a draft of encoded pieces publishes the encoding of their text.
  lemma HeldTextIsPublished(config: Config, files: Files, session: nat, id: OutputId, pieces: seq<string>, crash: bool)
    requires Load(files.drafts, session, id).Ok?
    requires var draft := files.drafts[Load(files.drafts, session, id).value];
      !draft.finalized && draft.chunks == EncodeAll(pieces)
    ensures Finalize(config, files, session, id).Ok? ==>
              var a := Finalize(config, files, session, id).value;
              && a.content == Encode(Concat(pieces)) && a.session == session && a.id == id
              && a in Finalized(config, files, session, id, crash).artifacts
  {
    hide Encode, Decode, Join, Concat, EncodeAll, ArtifactCount, ArtifactBytes, FindDraft;
    JoinOfEncodeAll(pieces);
    DecodeOfEncode(Concat(pieces));
  }
}
