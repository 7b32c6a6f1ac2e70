/** Histogram and boxplot over exact numbers. */
module ChartTransforms {
  import opened Options

  predicate IsSorted(s: seq<real>) {
    forall i, j :: 0 <= i < j < |s| ==> s[i] <= s[j]
  }

  function Insert(x: real, s: seq<real>): (r: seq<real>)
    ensures |r| == |s| + 1
  {
    if s == [] || x <= s[0] then [x] + s else [s[0]] + Insert(x, s[1..])
  }

  // The built-in sort.
  function Sorted(s: seq<real>): (r: seq<real>)
    ensures |r| == |s|
  {
    if s == [] then [] else Insert(s[0], Sorted(s[1..]))
  }

  lemma {:induction false} InsertAdds(x: real, s: seq<real>)
    ensures multiset(Insert(x, s)) == multiset(s) + multiset{x} && |Insert(x, s)| == |s| + 1
    decreases |s|
  {
    if s != [] && x > s[0] {
      assert s == [s[0]] + s[1..];
      InsertAdds(x, s[1..]);
    }
  }

  lemma {:induction false} InsertKeepsSorted(x: real, s: seq<real>)
    requires IsSorted(s)
    ensures IsSorted(Insert(x, s)) && |Insert(x, s)| == |s| + 1
    ensures Insert(x, s)[0] == if s == [] || x <= s[0] then x else s[0]
    decreases |s|
  {
    if s != [] && x > s[0] {
      InsertKeepsSorted(x, s[1..]);
      PrependKeepsSorted(s[0], Insert(x, s[1..]));
    } else {
      PrependKeepsSorted(x, s);
    }
  }

  lemma PrependKeepsSorted(x: real, s: seq<real>)
    requires IsSorted(s) && (s == [] || x <= s[0])
    ensures IsSorted([x] + s)
  {
    var r := [x] + s;
    forall i, j | 0 <= i < j < |r| ensures r[i] <= r[j] {
      assert r[j] == s[j - 1] && s[0] <= s[j - 1];
    }
  }

  lemma {:induction false} SortedIsSorted(s: seq<real>)
    ensures IsSorted(Sorted(s)) && multiset(Sorted(s)) == multiset(s) && |Sorted(s)| == |s|
    decreases |s|
  {
    if s != [] {
      assert s == [s[0]] + s[1..];
      SortedIsSorted(s[1..]);
      InsertAdds(s[0], Sorted(s[1..]));
      InsertKeepsSorted(s[0], Sorted(s[1..]));
    }
  }

  // ---------------------------------------------------------------------------------------------
  // Histogram

  // Bins are closed on the left and open on the right; the last one is closed.
  predicate InBin(edges: seq<real>, k: nat, v: real)
    requires k + 1 < |edges|
  {
    edges[k] <= v && (v < edges[k + 1] || (k + 2 == |edges| && v == edges[k + 1]))
  }

  function CountIn(edges: seq<real>, k: nat, values: seq<real>): nat
    requires k + 1 < |edges|
  {
    if values == [] then 0
    else
      CountIn(edges, k, values[..|values| - 1]) + if InBin(edges, k, values[|values| - 1]) then 1 else 0
  }

  function Total(counts: seq<nat>): nat {
    if counts == [] then 0 else Total(counts[..|counts| - 1]) + counts[|counts| - 1]
  }

  lemma {:induction false} TotalOfIncrement(counts: seq<nat>, k: nat)
    requires k < |counts|
    ensures Total(counts[k := counts[k] + 1]) == Total(counts) + 1
    decreases |counts|
  {
    var last := |counts| - 1;
    if k < last {
      assert counts[k := counts[k] + 1][..last] == counts[..last][k := counts[..last][k] + 1];
      TotalOfIncrement(counts[..last], k);
    } else {
      assert counts[k := counts[k] + 1][..last] == counts[..last];
    }
  }

  lemma {:induction false} TotalOfZeros(counts: seq<nat>)
    requires forall k :: 0 <= k < |counts| ==> counts[k] == 0
    ensures Total(counts) == 0
    decreases |counts|
  {
    if counts != [] {
      TotalOfZeros(counts[..|counts| - 1]);
    }
  }

  predicate Increasing(edges: seq<real>) {
    forall i, j :: 0 <= i < j < |edges| ==> edges[i] < edges[j]
  }

  /** No value lies in two bins. */
  lemma BinsAreDisjoint(edges: seq<real>, i: nat, j: nat, v: real)
    requires Increasing(edges) && i + 1 < |edges| && j + 1 < |edges|
    requires InBin(edges, i, v) && InBin(edges, j, v)
    ensures i == j
  {
  }

  function Edge(minimum: real, width: real, k: int): real {
    minimum + width * k as real
  }

  function Edges(minimum: real, maximum: real, count: nat): (edges: seq<real>)
    requires count > 0
    ensures |edges| == count + 1 && edges[count] == maximum
    ensures forall k :: 0 <= k < count ==> edges[k] == Edge(minimum, (maximum - minimum) / count as real, k)
  {
    seq(count, k => Edge(minimum, (maximum - minimum) / count as real, k)) + [maximum]
  }

  lemma ProductGrows(width: real, a: real, b: real)
    requires width > 0.0 && a < b
    ensures width * a < width * b
  {
  }

  lemma ProductOrdered(d: real, a: real, b: real)
    requires d >= 0.0 && a <= b
    ensures d * a <= d * b
  {
  }

  lemma EdgeGrows(minimum: real, width: real, i: int, j: int)
    requires width > 0.0 && i < j
    ensures Edge(minimum, width, i) < Edge(minimum, width, j)
  {
    ProductGrows(width, i as real, j as real);
  }

  lemma OuterEdges(minimum: real, range: real, count: nat)
    requires range > 0.0 && count > 0
    ensures range / count as real > 0.0
    ensures Edge(minimum, range / count as real, 0) == minimum
    ensures Edge(minimum, range / count as real, count) == minimum + range
  {
    WidthTimesCount(range, count as real);
  }

  lemma WidthTimesCount(range: real, count: real)
    requires range > 0.0 && count > 0.0
    ensures range / count > 0.0 && range / count * count == range
  {
  }

  lemma EdgesIncrease(minimum: real, maximum: real, count: nat)
    requires minimum < maximum && count > 0
    ensures Increasing(Edges(minimum, maximum, count)) && Edges(minimum, maximum, count)[0] == minimum
  {
    hide Edge;
    var width, edges := (maximum - minimum) / count as real, Edges(minimum, maximum, count);
    OuterEdges(minimum, maximum - minimum, count);
    forall i, j | 0 <= i < j <= count ensures edges[i] < edges[j] {
      EdgeGrows(minimum, width, i, j);
    }
  }

  // The bin the code computes for a value below the maximum.
  function BinIndex(minimum: real, maximum: real, count: nat, v: real): int
    requires minimum < maximum && count > 0
  {
    ((v - minimum) / (maximum - minimum) * count as real).Floor
  }

  // A share of the range, measured in bins, and the width of a bin.
  lemma ShareTimesWidth(share: real, range: real, count: real)
    requires range > 0.0 && count > 0.0
    ensures range / count * (share / range * count) == share
  {
    var a, b := share / range, range / count;
    assert a * range == share && b * count == range;
    assert b * (a * count) == a * (b * count);
  }

  lemma ShareInRange(width: real, t: real, count: real, share: real)
    requires width > 0.0 && width * t == share && 0.0 <= share < width * count
    ensures 0.0 <= t < count
  {
    if t >= count {
      ProductOrdered(width, count, t);
    }
  }

  lemma ShareAbove(width: real, t: real, share: real, k: int)
    requires width > 0.0 && width * t == share && k as real <= t
    ensures width * k as real <= share
  {
    ProductOrdered(width, k as real, t);
  }

  lemma ShareBelow(width: real, t: real, share: real, k: int)
    requires width > 0.0 && width * t == share && t < k as real
    ensures share < width * k as real
  {
    ProductGrows(width, t, k as real);
  }

  lemma EdgesAreBins(minimum: real, maximum: real, count: nat, k: nat, v: real)
    requires k < count && v < maximum
    requires var width := (maximum - minimum) / count as real;
      Edge(minimum, width, k) <= v < Edge(minimum, width, k + 1)
    ensures InBin(Edges(minimum, maximum, count), k, v)
  {
    hide Edge;
    var edges := Edges(minimum, maximum, count);
    assert edges[k] <= v;
    if k + 1 < count {
      assert v < edges[k + 1];
    }
  }

  /** It is in range, and it is the bin whose interval contains the value. */
  lemma BinIndexIsRight(minimum: real, maximum: real, count: nat, v: real)
    requires minimum <= v < maximum && count > 0
    ensures var k := BinIndex(minimum, maximum, count, v);
      0 <= k < count && InBin(Edges(minimum, maximum, count), k, v)
  {
    var t := (v - minimum) / (maximum - minimum) * count as real;
    ShareOfBins(minimum, maximum, count, v, t);
    EdgesAreBins(minimum, maximum, count, t.Floor, v);
  }

  lemma ShareOfBins(minimum: real, maximum: real, count: nat, v: real, t: real)
    requires minimum <= v < maximum && count > 0 && t == (v - minimum) / (maximum - minimum) * count as real
    ensures var width := (maximum - minimum) / count as real;
      && 0 <= t.Floor < count
      && Edge(minimum, width, t.Floor) <= v < Edge(minimum, width, t.Floor + 1)
  {
    var range, width := maximum - minimum, (maximum - minimum) / count as real;
    ShareTimesWidth(v - minimum, range, count as real);
    WidthTimesCount(range, count as real);
    ShareInRange(width, t, count as real, v - minimum);
    ShareAbove(width, t, v - minimum, t.Floor);
    ShareBelow(width, t, v - minimum, t.Floor + 1);
  }

  lemma NothingCounted(edges: seq<real>)
    ensures forall k: nat :: k + 1 < |edges| ==> CountIn(edges, k, []) == 0
  {
  }

  lemma CountInMore(edges: seq<real>, k: nat, values: seq<real>, i: nat)
    requires k + 1 < |edges| && i < |values|
    ensures CountIn(edges, k, values[..i + 1])
            == CountIn(edges, k, values[..i]) + if InBin(edges, k, values[i]) then 1 else 0
  {
    assert values[..i + 1][..i] == values[..i];
  }

  datatype Bars = Bars(edges: seq<real>, counts: seq<nat>)

  /** Counts every value in exactly the bin that contains it; nothing is lost.  There are as many bins of
      equal width as asked for, or a single one around values that are all equal.  Refused without values
      or with an explicit number of bins out of range. */
  method Histogram(raw: seq<real>, bins: int) returns (bars: Option<Bars>)
    ensures bars == None <==> raw == [] || !(1 <= bins <= 100)
    ensures bars.Some? ==>
              var edges, counts := bars.value.edges, bars.value.counts;
              var minimum, maximum := Sorted(raw)[0], Sorted(raw)[|raw| - 1];
              && (if minimum == maximum then |counts| == 1 && edges == [minimum - 0.5, maximum + 0.5]
                  else |counts| == bins && edges == Edges(minimum, maximum, bins))
              && |edges| == |counts| + 1 && Increasing(edges)
              && (forall v :: v in raw ==> edges[0] <= v <= edges[|counts|])
              && (forall k :: 0 <= k < |counts| ==> counts[k] == CountIn(edges, k, Sorted(raw)))
              && Total(counts) == |raw|
  {
    hide Sorted, CountIn, Edges, BinIndex, Total;
    if raw == [] || !(1 <= bins <= 100) {
      return None;
    }
    var values := Sorted(raw);
    SortedIsSorted(raw);
    SortedRange(raw);
    var count: nat := bins;
    var edges: seq<real>;
    var minimum, maximum := values[0], values[|values| - 1];
    if minimum == maximum {
      edges := [minimum - 0.5, maximum + 0.5];
      count := 1;
    } else {
      edges := Edges(minimum, maximum, count);
      EdgesIncrease(minimum, maximum, count);
    }
    var counts: seq<nat> := seq(count, _ => 0);
    TotalOfZeros(counts);
    NothingCounted(edges);
    var i := 0;
    while i < |values|
      invariant i <= |values| && |counts| == count
      invariant forall k :: 0 <= k < count ==> counts[k] == CountIn(edges, k, values[..i])
      invariant Total(counts) == i
    {
      var index := count - 1;
      if values[i] != maximum {
        var computed := BinIndex(minimum, maximum, count, values[i]);
        BinIndexIsRight(minimum, maximum, count, values[i]);
        index := if computed < count - 1 then computed else count - 1;
      }
      assert InBin(edges, index, values[i]);
      forall k | 0 <= k < count ensures CountIn(edges, k, values[..i + 1]) == counts[k] + if k == index then 1 else 0 {
        CountInMore(edges, k, values, i);
        if InBin(edges, k, values[i]) {
          BinsAreDisjoint(edges, k, index, values[i]);
        }
      }
      TotalOfIncrement(counts, index);
      counts := counts[index := counts[index] + 1];
      i := i + 1;
    }
    assert values[..i] == values;
    return Some(Bars(edges, counts));
  }

  lemma SortedRange(raw: seq<real>)
    requires raw != []
    ensures |Sorted(raw)| == |raw|
    ensures forall v :: v in raw ==> Sorted(raw)[0] <= v <= Sorted(raw)[|raw| - 1]
    ensures forall v :: v in Sorted(raw) ==> v in raw
  {
    hide Sorted;
    SortedIsSorted(raw);
    var s := Sorted(raw);
    forall v | v in raw ensures s[0] <= v <= s[|raw| - 1] {
      assert v in multiset(raw) && v in multiset(s);
      var i :| 0 <= i < |s| && s[i] == v;
    }
    forall v | v in s ensures v in raw {
      assert v in multiset(s) && v in multiset(raw);
    }
  }

  // ---------------------------------------------------------------------------------------------
  // Quantiles

  function Position(n: nat, probability: real): real {
    (n - 1) as real * probability
  }

  function Blend(low: real, step: real, fraction: real): real {
    low + fraction * step
  }

  function Quantile(values: seq<real>, probability: real): real
    requires values != [] && 0.0 <= probability <= 1.0
  {
    var position := Position(|values|, probability);
    var lower := position.Floor;
    var fraction := position - lower as real;
    LowerInRange(|values|, probability);
    if lower + 1 >= |values| then values[|values| - 1]
    else Blend(values[lower], values[lower + 1] - values[lower], fraction)
  }

  lemma LowerInRange(n: nat, probability: real)
    requires n > 0 && 0.0 <= probability <= 1.0
    ensures 0 <= Position(n, probability).Floor <= n - 1
  {
    hide Position;
    PositionEnds(n);
    PositionGrows(n, 0.0, probability);
    PositionGrows(n, probability, 1.0);
  }

  lemma PositionEnds(n: nat)
    requires n > 0
    ensures Position(n, 0.0) == 0.0 && Position(n, 1.0) == (n - 1) as real
  {
  }

  // The two neighbours a quantile lies between.
  lemma QuantileBetween(values: seq<real>, probability: real)
    requires values != [] && IsSorted(values) && 0.0 <= probability <= 1.0
    ensures var lower := Position(|values|, probability).Floor;
      && 0 <= lower < |values|
      && values[lower] <= Quantile(values, probability)
      && (lower + 1 < |values| ==> Quantile(values, probability) <= values[lower + 1])
  {
    hide Blend, Position;
    LowerInRange(|values|, probability);
    var position := Position(|values|, probability);
    var lower := position.Floor;
    if lower + 1 < |values| {
      BlendBetween(values[lower], values[lower + 1] - values[lower], position - lower as real);
    }
  }

  lemma BlendGrows(low: real, step: real, x: real, y: real)
    requires step >= 0.0 && x <= y
    ensures Blend(low, step, x) <= Blend(low, step, y)
  {
    assert (y - x) * step == y * step - x * step;
  }

  lemma BlendBetween(low: real, step: real, fraction: real)
    requires step >= 0.0 && 0.0 <= fraction <= 1.0
    ensures low <= Blend(low, step, fraction) <= low + step
  {
    BlendGrows(low, step, 0.0, fraction);
    BlendGrows(low, step, fraction, 1.0);
  }

  lemma BlendBelow(low: real, step: real, fraction: real)
    requires step >= 0.0 && fraction < 1.0
    ensures if step == 0.0 then Blend(low, step, fraction) == low else Blend(low, step, fraction) < low + step
  {
    if step > 0.0 {
      ProductGrows(step, fraction, 1.0);
      assert step * fraction == fraction * step && step * 1.0 == step;
    }
  }

  lemma PositionGrows(n: nat, p: real, q: real)
    requires n > 0 && p <= q
    ensures Position(n, p) <= Position(n, q)
  {
    ProductOrdered((n - 1) as real, p, q);
  }

  lemma FloorIsMonotone(x: real, y: real)
    requires x <= y
    ensures x.Floor <= y.Floor
  {
  }

  // Between equal neighbours a quantile is their value; otherwise it stays below the upper one.
  lemma QuantileBelowNext(values: seq<real>, probability: real)
    requires values != [] && IsSorted(values) && 0.0 <= probability <= 1.0
    requires Position(|values|, probability).Floor + 1 < |values|
    ensures var lower := Position(|values|, probability).Floor;
      && 0 <= lower
      && if values[lower] == values[lower + 1] then Quantile(values, probability) == values[lower]
         else Quantile(values, probability) < values[lower + 1]
  {
    hide Blend, Position;
    LowerInRange(|values|, probability);
    var position := Position(|values|, probability);
    var lower := position.Floor;
    BlendBelow(values[lower], values[lower + 1] - values[lower], position - lower as real);
  }

  // Two quantiles between the same neighbours.
  lemma QuantilesInOneStep(values: seq<real>, p: real, q: real)
    requires values != [] && IsSorted(values) && 0.0 <= p <= q <= 1.0
    requires Position(|values|, p) <= Position(|values|, q)
    requires Position(|values|, p).Floor == Position(|values|, q).Floor
    ensures Quantile(values, p) <= Quantile(values, q)
  {
    hide Blend, Position;
    LowerInRange(|values|, p);
    var a := Position(|values|, p).Floor;
    if a + 1 < |values| {
      BlendGrows(values[a], values[a + 1] - values[a], Position(|values|, p) - a as real,
                 Position(|values|, q) - a as real);
    }
  }

  /** A larger probability never gives a smaller quantile. */
  lemma QuantileIsMonotone(values: seq<real>, p: real, q: real)
    requires values != [] && IsSorted(values) && 0.0 <= p <= q <= 1.0
    ensures Quantile(values, p) <= Quantile(values, q)
  {
    hide Quantile, Position;
    QuantileBetween(values, p);
    QuantileBetween(values, q);
    PositionGrows(|values|, p, q);
    FloorIsMonotone(Position(|values|, p), Position(|values|, q));
    var a, b := Position(|values|, p).Floor, Position(|values|, q).Floor;
    if a == b {
      QuantilesInOneStep(values, p, q);
    } else if a + 1 < b {
      assert values[a + 1] <= values[b];
    }
  }

  // ---------------------------------------------------------------------------------------------
  // Boxplot

  function Q1(values: seq<real>): real
    requires values != []
  {
    Quantile(values, 0.25)
  }

  function Q3(values: seq<real>): real
    requires values != []
  {
    Quantile(values, 0.75)
  }

  function LowFence(values: seq<real>): real
    requires values != []
  {
    Q1(values) - 1.5 * (Q3(values) - Q1(values))
  }

  function HighFence(values: seq<real>): real
    requires values != []
  {
    Q3(values) + 1.5 * (Q3(values) - Q1(values))
  }

  predicate Inside(values: seq<real>, v: real)
    requires values != []
  {
    LowFence(values) <= v <= HighFence(values)
  }

  /** Some value lies between the fences. */
  lemma SomeValueInside(values: seq<real>) returns (k: nat)
    requires values != [] && IsSorted(values)
    ensures k < |values| && Inside(values, values[k])
  {
    QuantileIsMonotone(values, 0.25, 0.75);
    QuantileBetween(values, 0.25);
    QuantileBetween(values, 0.75);
    var low, high := Position(|values|, 0.25).Floor, Position(|values|, 0.75).Floor;
    if |values| >= 3 {
      assert low + 1 <= high;
      k := low + 1;
      assert values[k] <= values[high];
    } else {
      k := 0;
      assert low == 0 && high == 0;
    }
  }

  datatype Box = Box(low: real, q1: real, median: real, q3: real, high: real, outliers: seq<real>)

  function Outside(values: seq<real>, some: seq<real>): seq<real>
    requires values != []
  {
    if some == [] then []
    else
      Outside(values, some[..|some| - 1])
      + if Inside(values, some[|some| - 1]) then [] else [some[|some| - 1]]
  }

  lemma NothingOutside(values: seq<real>)
    requires values != []
    ensures Outside(values, []) == []
  {
  }

  lemma OutsideMore(values: seq<real>, i: nat)
    requires i < |values|
    ensures Outside(values, values[..i + 1])
            == Outside(values, values[..i]) + if Inside(values, values[i]) then [] else [values[i]]
  {
    assert values[..i + 1][..i] == values[..i];
  }

  function CountInside(values: seq<real>, some: seq<real>): nat
    requires values != []
  {
    if some == [] then 0
    else CountInside(values, some[..|some| - 1]) + if Inside(values, some[|some| - 1]) then 1 else 0
  }

  /** Every value is inside the fences or an outlier. */
  lemma {:induction false} InsideAndOutside(values: seq<real>, some: seq<real>)
    requires values != []
    ensures CountInside(values, some) + |Outside(values, some)| == |some|
    decreases |some|
  {
    if some != [] {
      InsideAndOutside(values, some[..|some| - 1]);
    }
  }

  /** Both searches for a whisker succeed, the quartiles and the whiskers are ordered, and the outliers
      are exactly the values outside the fences. */
  method Boxplot(raw: seq<real>) returns (box: Box)
    requires raw != []
    ensures var values := Sorted(raw);
      && box.q1 == Q1(values) && box.median == Quantile(values, 0.5) && box.q3 == Q3(values)
      && box.q1 <= box.median <= box.q3 && box.low <= box.high
      && box.low in values && Inside(values, box.low) && box.high in values && Inside(values, box.high)
      && (forall v :: v in values && Inside(values, v) ==> box.low <= v <= box.high)
      && box.outliers == Outside(values, values)
      && CountInside(values, values) + |box.outliers| == |raw|
  {
    hide Quantile, Sorted, Position, Outside, CountInside;
    var values := Sorted(raw);
    SortedIsSorted(raw);
    QuantileIsMonotone(values, 0.25, 0.5);
    QuantileIsMonotone(values, 0.5, 0.75);
    var q1, median, q3 := Quantile(values, 0.25), Quantile(values, 0.5), Quantile(values, 0.75);
    var iqr := q3 - q1;
    var lowFence, highFence := q1 - 1.5 * iqr, q3 + 1.5 * iqr;
    ghost var inside := SomeValueInside(values);
    var l := 0;
    while values[l] < lowFence
      invariant l <= inside && forall j :: 0 <= j < l ==> values[j] < lowFence
      decreases |values| - l
    {
      l := l + 1;
    }
    var h := |values| - 1;
    while values[h] > highFence
      invariant inside <= h < |values| && forall j :: h < j < |values| ==> values[j] > highFence
      decreases h
    {
      h := h - 1;
    }
    assert values[l] <= values[inside] <= values[h];
    var outliers: seq<real> := [];
    NothingOutside(values);
    var i := 0;
    while i < |values|
      invariant i <= |values| && outliers == Outside(values, values[..i])
    {
      OutsideMore(values, i);
      assert values[i] < values[l] <==> values[i] < lowFence;
      assert values[i] > values[h] <==> values[i] > highFence;
      if values[i] < values[l] || values[i] > values[h] {
        outliers := outliers + [values[i]];
      }
      i := i + 1;
    }
    assert values[..i] == values;
    InsideAndOutside(values, values);
    box := Box(values[l], q1, median, q3, values[h], outliers);
  }

  // The first value that is not below the lower fence.
  predicate IsLowWhisker(values: seq<real>, v: real)
    requires values != []
  {
    v in values && LowFence(values) <= v && forall u :: u in values && LowFence(values) <= u ==> v <= u
  }

  /** The lower whisker can lie above the first quartile, exactly if the value just below the quartile
      is itself outside the fence. */
  lemma WhiskerBelowQuartileExactlyIf(values: seq<real>, v: real)
    requires values != [] && IsSorted(values) && IsLowWhisker(values, v)
    ensures v <= Q1(values) <==> LowFence(values) <= values[(|values| - 1) / 4]
  {
    var lower := (|values| - 1) / 4;
    assert Position(|values|, 0.25).Floor == lower;
    QuantileBetween(values, 0.25);
    QuantileIsMonotone(values, 0.25, 0.75);
    hide Quantile;
    assert values[lower] in values;
    if LowFence(values) > values[lower] {
      QuantileBelowNext(values, 0.25);
      var k :| 0 <= k < |values| && values[k] == v;
      assert k > lower;
      assert values[lower + 1] <= v by {
        if lower + 1 < k {
          assert values[lower + 1] <= values[k];
        }
      }
    }
  }

  // The last value that is not above the upper fence.
  predicate IsHighWhisker(values: seq<real>, v: real)
    requires values != []
  {
    v in values && v <= HighFence(values) && forall u :: u in values && u <= HighFence(values) ==> u <= v
  }

  lemma BlendAbove(low: real, step: real, fraction: real)
    requires step > 0.0 && fraction > 0.0
    ensures Blend(low, step, fraction) > low
  {
  }

  // Between different neighbours a quantile lies above the lower one, unless it is that very value.
  lemma QuantileAboveLower(values: seq<real>, probability: real)
    requires values != [] && IsSorted(values) && 0.0 <= probability <= 1.0
    requires Position(|values|, probability).Floor + 1 < |values|
    requires Position(|values|, probability) > Position(|values|, probability).Floor as real
    ensures var lower := Position(|values|, probability).Floor;
      && 0 <= lower
      && if values[lower] == values[lower + 1] then Quantile(values, probability) == values[lower]
         else Quantile(values, probability) > values[lower]
  {
    hide Blend, Position;
    LowerInRange(|values|, probability);
    var position := Position(|values|, probability);
    var lower := position.Floor;
    if values[lower] < values[lower + 1] {
      BlendAbove(values[lower], values[lower + 1] - values[lower], position - lower as real);
    } else {
      QuantileBetween(values, probability);
    }
  }

  /** The upper whisker can lie below the third quartile, exactly if the value at or just above the
      quartile is itself outside the fence. */
  lemma WhiskerAboveQuartileExactlyIf(values: seq<real>, v: real)
    requires values != [] && IsSorted(values) && IsHighWhisker(values, v)
    ensures v >= Q3(values) <==> values[(3 * (|values| - 1) + 3) / 4] <= HighFence(values)
  {
    hide Quantile;
    var lower, upper := 3 * (|values| - 1) / 4, (3 * (|values| - 1) + 3) / 4;
    assert Position(|values|, 0.75).Floor == lower;
    QuantileBetween(values, 0.75);
    QuantileIsMonotone(values, 0.25, 0.75);
    assert values[lower] in values && values[upper] in values;
    if upper == lower {
      QuantileIsValue(values, lower);
    } else {
      QuantileAboveLower(values, 0.75);
      if values[upper] > HighFence(values) {
        var k :| 0 <= k < |values| && values[k] == v;
        assert k < upper;
        assert v <= values[lower] by {
          if k < lower {
            assert values[k] <= values[lower];
          }
        }
      }
    }
  }

  // A third quartile that falls on a value is that value.
  lemma QuantileIsValue(values: seq<real>, lower: nat)
    requires values != [] && 4 * lower == 3 * (|values| - 1)
    ensures Q3(values) == values[lower]
  {
    assert Position(|values|, 0.75) == lower as real;
  }

  /** Values whose upper whisker does. */
  lemma WhiskerCanFallBelowQuartile()
    ensures var values := [0.0, 0.0, 0.0, 10.0];
      IsSorted(values) && IsHighWhisker(values, 0.0) && Q3(values) == 2.5
  {
    var values := [0.0, 0.0, 0.0, 10.0];
    assert Position(4, 0.25) == 0.75 && (0.75 as real).Floor == 0;
    assert Position(4, 0.75) == 2.25 && (2.25 as real).Floor == 2;
    assert values[0] == 0.0;
  }

  /** Values whose lower whisker lies above the first quartile. */
  lemma WhiskerCanExceedQuartile()
    ensures var values := [0.0, 10.0, 10.0, 10.0];
      IsSorted(values) && IsLowWhisker(values, 10.0) && Q1(values) == 7.5
  {
    var values := [0.0, 10.0, 10.0, 10.0];
    assert Position(4, 0.25) == 0.75 && (0.75 as real).Floor == 0;
    assert Position(4, 0.75) == 2.25 && (2.25 as real).Floor == 2;
    assert values[1] == 10.0;
  }

  // ---------------------------------------------------------------------------------------------
  // Percentages

  function Sum(values: seq<real>): real {
    if values == [] then 0.0 else Sum(values[..|values| - 1]) + values[|values| - 1]
  }

  function Percent(values: seq<real>, total: real): seq<real>
    requires total > 0.0
  {
    seq(|values|, i requires 0 <= i < |values| => values[i] / total * 100.0)
  }

  lemma {:induction false} SumOfPercent(values: seq<real>, total: real)
    requires total > 0.0
    ensures Sum(Percent(values, total)) == Sum(values) / total * 100.0
    decreases |values|
  {
    if values != [] {
      var init, last := values[..|values| - 1], values[|values| - 1];
      SumOfPercent(init, total);
      assert Percent(values, total)[..|values| - 1] == Percent(init, total);
      assert (Sum(init) + last) / total == Sum(init) / total + last / total;
    }
  }

  /** The percentages of a category add up to one hundred. */
  lemma PercentIsWhole(values: seq<real>)
    requires Sum(values) > 0.0
    ensures Sum(Percent(values, Sum(values))) == 100.0
  {
    SumOfPercent(values, Sum(values));
    assert Sum(values) / Sum(values) == 1.0;
  }
}
