/** Keeping the beginning and the end of a process stream of any length in bounded memory. */
module BoundedCollector {
  import opened Decimals
  import opened Utf8

  // The last n bytes, or all of them.
  function Last(s: bytes, n: nat): (last: bytes)
    ensures |last| == if |s| <= n then |s| else n
  {
    if |s| <= n then s else s[|s| - n..]
  }

  function First(s: bytes, n: nat): (first: bytes)
    ensures |first| == if |s| <= n then |s| else n
  {
    if |s| <= n then s else s[..n]
  }

  lemma LastOfConcat(s: bytes, more: bytes, n: nat)
    ensures Last(Last(s, n) + more, n) == Last(s + more, n)
  {
  }

  // Trimming the tail after adding to it, or leaving it if nothing is added.
  lemma LastOfLast(s: bytes, more: bytes, n: nat, tail: bytes)
    requires n > 0
    requires var longer := Last(s, n) + more; tail == if |longer| > n then longer[|longer| - n..] else longer
    ensures tail == Last(s + more, n) && |tail| <= n
  {
    LastOfConcat(s, more, n);
  }

  // What goes into the head, and what is left for the tail.
  lemma FirstOfConcat(s: bytes, chunk: bytes, n: nat, taken: nat)
    requires taken == if n - |First(s, n)| < |chunk| then n - |First(s, n)| else |chunk|
    ensures First(s + chunk, n) == First(s, n) + chunk[..taken]
    ensures (s + chunk)[|First(s + chunk, n)|..] == s[|First(s, n)|..] + chunk[taken..]
  {
    if |s| < n {
      assert s[|First(s, n)|..] == [] && s + chunk == s + chunk[..taken] + chunk[taken..];
    }
  }

  function Marker(omitted: nat): bytes {
    Encode("\n[…省略 " + Decimal(omitted) + " bytes…]\n")
  }

  // What is kept of a stream: everything, or the beginning and the end with a count between them.
  function Kept(stream: bytes, limit: nat): bytes {
    if |stream| <= limit then stream
    else
      var head, tail := First(stream, limit / 2), Last(stream, limit - limit / 2);
      head + Marker(|stream| - |head| - |tail|) + tail
  }

  class Collector {
    const limit: nat
    const headLimit: nat
    const tailLimit: nat
    var head: bytes
    var tail: bytes
    var total: nat
    ghost var stream: bytes

    ghost predicate Valid()
      reads this
    {
      && limit >= 1 && headLimit == limit / 2 && tailLimit == limit - headLimit
      && total == |stream| && head == First(stream, headLimit)
      && tail == Last(stream[|head|..], tailLimit)
    }

    constructor (limit: int)
      ensures Valid() && stream == [] && this.limit == if limit < 1 then 1 else limit
    {
      var atLeastOne: nat := if limit < 1 then 1 else limit;
      this.limit := atLeastOne;
      headLimit, tailLimit := atLeastOne / 2, atLeastOne - atLeastOne / 2;
      head, tail, total, stream := [], [], 0, [];
    }

    /** Takes one chunk of any size; memory stays within the limit plus the chunk. */
    method Add(chunk: bytes)
      requires Valid()
      modifies this
      ensures Valid() && stream == old(stream) + chunk
      ensures |head| + |tail| <= limit
    {
      hide First, Last;
      ghost var before, behind := stream, stream[|head|..];
      var rest := chunk;
      stream := stream + chunk;
      total := total + |chunk|;
      var remainingHead := headLimit - |head|;
      var taken := if remainingHead < |chunk| then remainingHead else |chunk|;
      FirstOfConcat(before, chunk, headLimit, taken);
      if remainingHead > 0 {
        head := head + chunk[..taken];
        rest := chunk[taken..];
      }
      if rest != [] && tailLimit > 0 {
        tail := tail + rest;
        if |tail| > tailLimit {
          tail := tail[|tail| - tailLimit..];
        }
      }
      assert Last(behind, tailLimit) + [] == Last(behind, tailLimit);
      LastOfLast(behind, rest, tailLimit, tail);
    }

    /** A short stream comes back unchanged; of a long one the beginning, the exact number of omitted
        bytes, and the end. */
    method Finish() returns (raw: bytes, complete: bool)
      requires Valid()
      ensures raw == Kept(stream, limit)
      ensures complete <==> |stream| <= limit
    {
      complete := total <= limit;
      if complete {
        raw := head + tail;
        assert stream == First(stream, headLimit) + stream[|head|..];
      } else {
        var omitted := total - |head| - |tail|;
        raw := head + Marker(omitted) + tail;
        assert Last(stream[|head|..], tailLimit) == Last(stream, tailLimit);
      }
    }
  }
}
