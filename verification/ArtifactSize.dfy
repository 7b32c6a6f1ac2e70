/** The size an artifact states about itself, as part of the payload it measures. */
module ArtifactSize {
  import opened Decimals
  import opened Options
  import opened Utf8

  const MAX_ARTIFACT_BYTES := 512 * 1024

  // The canonical bytes around the number.
  datatype Frame = Frame(before: bytes, after: bytes)

  function Payload(frame: Frame, size: nat): bytes {
    frame.before + Encode(Decimal(size)) + frame.after
  }

  // The size of the payload that states this size.
  function Measured(frame: Frame, size: nat): (measured: nat)
    ensures measured == |frame.before| + |Decimal(size)| + |frame.after|
  {
    DigitsOnly(size);
    AsciiIsOneByte(Decimal(size));
    |Payload(frame, size)|
  }

  predicate Truthful(frame: Frame, size: nat) {
    size == Measured(frame, size)
  }

  lemma MeasuredGrows(frame: Frame, a: nat, b: nat)
    requires a <= b
    ensures Measured(frame, a) <= Measured(frame, b)
  {
    LengthIsMonotone(a, b);
  }

  /** From any size that is not too large, the third measurement is truthful: the number of digits
      grows at most once. */
  lemma ThirdMeasurementIsTruthful(frame: Frame)
    ensures var first := Measured(frame, 1); var second := Measured(frame, first);
      Truthful(frame, Measured(frame, second))
  {
    var around := |frame.before| + |frame.after|;
    var first := Measured(frame, 1);
    var second := Measured(frame, first);
    var third := Measured(frame, second);
    LengthIsMonotone(1, first);
    LengthIsMonotone(first, second);
    LengthGrowsSlowly(first, second);
    if |Decimal(second)| > |Decimal(first)| {
      assert third == second + 1;
      CarryHappensOnce(first, second);
    }
  }

  // If the digits grow between a and b, they do not grow again right after b.
  lemma {:induction false} CarryHappensOnce(a: nat, b: nat)
    requires a <= b <= a + |Decimal(a)| && |Decimal(b)| > |Decimal(a)|
    ensures |Decimal(b + 1)| == |Decimal(b)|
    decreases b
  {
    if a >= 10 {
      CarryHappensOnce(a / 10, b / 10);
      assert (b + 1) / 10 == b / 10 || (b + 1) / 10 == b / 10 + 1;
    }
  }

  /** No smaller size is truthful. */
  lemma ThirdMeasurementIsLeast(frame: Frame, size: nat)
    requires Truthful(frame, size)
    ensures Measured(frame, Measured(frame, Measured(frame, 1))) <= size
  {
    MeasuredGrows(frame, 1, if size < 1 then 1 else size);
    MeasuredGrows(frame, Measured(frame, 1), size);
    MeasuredGrows(frame, Measured(frame, Measured(frame, 1)), size);
  }

  /** Two measurements are not enough. */
  lemma SecondMeasurementCanBeWrong(frame: Frame)
    requires |frame.before| + |frame.after| == 98
    ensures !Truthful(frame, Measured(frame, Measured(frame, 1)))
  {
    assert Measured(frame, 1) == 99 && Measured(frame, 99) == 100 && Measured(frame, 100) == 101;
  }

  /** Four measurements, as the builder takes them: the stated size is the least truthful one, so the
      integrity check on it holds; too large an artifact is refused. */
  method StateSize(frame: Frame) returns (size: Option<nat>)
    ensures size.Some? ==> Truthful(frame, size.value) && size.value <= MAX_ARTIFACT_BYTES
    ensures size.Some? ==> forall other: nat :: Truthful(frame, other) ==> size.value <= other
    ensures size == None ==> forall other: nat :: Truthful(frame, other) ==> other > MAX_ARTIFACT_BYTES
  {
    var stated := 1;
    var round := 0;
    while round < 4
      invariant round <= 4
      invariant stated == Rounds(frame, round)
    {
      stated := Measured(frame, stated);
      round := round + 1;
    }
    ThirdMeasurementIsTruthful(frame);
    FourRounds(frame);
    forall other: nat | Truthful(frame, other) ensures stated <= other {
      ThirdMeasurementIsLeast(frame, other);
    }
    return if stated > MAX_ARTIFACT_BYTES then None else Some(stated);
  }

  function Rounds(frame: Frame, round: nat): nat {
    if round == 0 then 1 else Measured(frame, Rounds(frame, round - 1))
  }

  lemma FourRounds(frame: Frame)
    ensures Rounds(frame, 4) == Measured(frame, Measured(frame, Measured(frame, Measured(frame, 1))))
  {
    assert Rounds(frame, 1) == Measured(frame, 1);
    assert Rounds(frame, 2) == Measured(frame, Rounds(frame, 1));
    assert Rounds(frame, 3) == Measured(frame, Rounds(frame, 2));
  }
}
