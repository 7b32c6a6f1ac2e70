/** The tool budget of one Run, and the limiting of tool output against it. */
module ToolBudgets {
  import opened Options

  datatype Reason = MaxToolCalls | MaxTotalOutput

  // A cap of zero characters means that the output cap is off.
  datatype Budget = Budget(maxCalls: nat, maxTotalChars: nat, usedCalls: nat, usedChars: nat)

  predicate WithinCaps(b: Budget) {
    b.usedCalls <= b.maxCalls && (b.maxTotalChars > 0 ==> b.usedChars <= b.maxTotalChars)
  }

  function ExhaustedReason(b: Budget): Option<Reason> {
    if b.usedCalls >= b.maxCalls then Some(MaxToolCalls)
    else if b.maxTotalChars > 0 && b.usedChars >= b.maxTotalChars then Some(MaxTotalOutput)
    else None
  }

  function RemainingChars(b: Budget): Option<nat> {
    if b.maxTotalChars == 0 then None
    else Some(if b.maxTotalChars < b.usedChars then 0 else b.maxTotalChars - b.usedChars)
  }

  const TRUNCATION_SUFFIX := "\n…（输出已截断，可缩小范围重试）"

  /** Cuts the output to the limit; the marker that says so counts as well. */
  function TruncateOutput(output: string, limit: int): (returned: string)
    ensures |returned| == if limit <= 0 then 0 else if |output| <= limit then |output| else limit
    ensures 0 < limit && |output| <= limit ==> returned == output
    ensures 0 < limit < |output| && limit <= |TRUNCATION_SUFFIX| ==> returned == TRUNCATION_SUFFIX[..limit]
    ensures |TRUNCATION_SUFFIX| < limit < |output| ==>
              exists kept :: 0 <= kept < |output| && returned == output[..kept] + TRUNCATION_SUFFIX
  {
    if limit <= 0 then ""
    else if |output| <= limit then output
    else if limit <= |TRUNCATION_SUFFIX| then TRUNCATION_SUFFIX[..limit]
    else output[..limit - |TRUNCATION_SUFFIX|] + TRUNCATION_SUFFIX
  }

  // The smaller of the limit of one call (if any) and what is left of the total (if capped).
  function EffectiveLimit(b: Budget, maxOutputChars: int): Option<nat> {
    var remaining := RemainingChars(b);
    if maxOutputChars <= 0 then remaining
    else if remaining.Some? && remaining.value < maxOutputChars then remaining
    else Some(maxOutputChars)
  }

  datatype Limited = Limited(output: string, exhausted: bool, truncated: bool)

  /** What a tool's output is cut to, and whether the total cap was what cut it.  `Consume` charges
      exactly the returned characters, so a budget within its caps stays within them. */
  function LimitOutput(b: Budget, maxOutputChars: int, output: string): (r: Limited)
    ensures |r.output| <= |output|
    ensures WithinCaps(b) ==> WithinCaps(Consume(b, |r.output|))
    ensures r.truncated <==> r.output != output
    ensures r.exhausted ==> Consume(b, |r.output|).usedChars >= b.maxTotalChars > 0
  {
    var limit := EffectiveLimit(b, maxOutputChars);
    if limit.Some? && |output| > limit.value then
      Limited(TruncateOutput(output, limit.value), RemainingChars(b) == limit, true)
    else Limited(output, false, false)
  }

  function Consume(b: Budget, chars: nat): Budget {
    b.(usedChars := b.usedChars + chars)
  }

  // What this many characters meet: the limit of one call, if there is one, and the total, if it is capped.
  predicate FitsCall(maxOutputChars: int, chars: nat) {
    maxOutputChars <= 0 || chars <= maxOutputChars
  }

  predicate FitsTotal(b: Budget, chars: nat) {
    b.maxTotalChars == 0 || chars == 0 || b.usedChars + chars <= b.maxTotalChars
  }

  /** Output that meets both limits is returned as it is.  Any other is cut to the longest length that meets
      both; and the total counts as exhausted exactly if no longer output would have met it. */
  lemma OutputMeetsBothLimits(b: Budget, maxOutputChars: int, output: string)
    ensures var r := LimitOutput(b, maxOutputChars, output); var n := |r.output|;
      && FitsCall(maxOutputChars, n) && FitsTotal(b, n)
      && (FitsCall(maxOutputChars, |output|) && FitsTotal(b, |output|) <==> r.output == output && !r.truncated)
      && (r.truncated ==>
            && n < |output| && !(FitsCall(maxOutputChars, n + 1) && FitsTotal(b, n + 1))
            && (r.exhausted <==> !FitsTotal(b, n + 1)))
      && (!r.truncated ==> !r.exhausted)
  {
  }

  class ToolBudget {
    var maxCalls: nat
    var maxTotalChars: nat
    var usedCalls: nat
    var usedChars: nat

    function Value(): Budget
      reads this
    {
      Budget(maxCalls, maxTotalChars, usedCalls, usedChars)
    }

    constructor (b: Budget)
      ensures Value() == b
    {
      maxCalls, maxTotalChars, usedCalls, usedChars :=
        b.maxCalls, b.maxTotalChars, b.usedCalls, b.usedChars;
    }

    /** Takes one call unit, or says why not and takes nothing. */
    method TryConsumeCall() returns (reason: Option<Reason>)
      modifies this
      ensures reason == ExhaustedReason(old(Value()))
      ensures reason == Some(MaxToolCalls) <==> old(usedCalls) >= maxCalls
      ensures reason == None <==> old(usedCalls) < maxCalls && (maxTotalChars == 0 || usedChars < maxTotalChars)
      ensures Value() == if reason == None then old(Value()).(usedCalls := old(usedCalls) + 1)
                         else old(Value())
      ensures old(WithinCaps(Value())) ==> WithinCaps(Value())
    {
      if usedCalls >= maxCalls {
        return Some(MaxToolCalls);
      }
      if maxTotalChars > 0 && usedChars >= maxTotalChars {
        return Some(MaxTotalOutput);
      }
      usedCalls := usedCalls + 1;
      return None;
    }

    /** Charges these characters: that many fewer remain, down to none. */
    method ConsumeOutput(chars: int)
      modifies this
      ensures Value() == Consume(old(Value()), if chars < 0 then 0 else chars)
      ensures var charged := if chars < 0 then 0 else chars;
        RemainingChars(Value()) == match RemainingChars(old(Value()))
                                   case None => None
                                   case Some(left) => Some(if left < charged then 0 else left - charged)
    {
      usedChars := usedChars + if chars < 0 then 0 else chars;
    }

    /** What can still be charged: exactly so many characters keep a budget within its caps. */
    method RemainingOutputChars() returns (remaining: Option<nat>)
      ensures remaining == RemainingChars(Value())
      ensures WithinCaps(Value()) ==>
                forall chars: nat :: WithinCaps(Consume(Value(), chars))
                                     <==> remaining == None || chars <= remaining.value
    {
      if maxTotalChars == 0 {
        return None;
      }
      return Some(if maxTotalChars < usedChars then 0 else maxTotalChars - usedChars);
    }

    /** Limits one result and charges what is left of it. */
    method LimitResultOutput(maxOutputChars: int, output: string) returns (r: Limited)
      modifies this
      ensures r == LimitOutput(old(Value()), maxOutputChars, output)
      ensures Value() == Consume(old(Value()), |r.output|)
      ensures old(WithinCaps(Value())) ==> WithinCaps(Value())
    {
      var remaining := RemainingOutputChars();
      var limit: Option<nat> := if maxOutputChars > 0 then Some(maxOutputChars) else None;
      if remaining.Some? && (limit == None || remaining.value < limit.value) {
        limit := remaining;
      }
      var returned, truncated := output, false;
      if limit.Some? && |output| > limit.value {
        returned, truncated := TruncateOutput(output, limit.value), true;
      }
      r := Limited(returned, truncated && remaining.Some? && limit == remaining, truncated);
      ConsumeOutput(|returned|);
    }
  }
}
