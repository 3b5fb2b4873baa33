/** The two percentile implementations, over the reals. */
module Percentile {
  import opened Values
  import opened Reals

  // ---------------------------------------------------------------- sorting

  predicate IsSorted(s: seq<real>) { forall i, j :: 0 <= i <= j < |s| ==> s[i] <= s[j] }

  function Insert(x: real, s: seq<real>): (r: seq<real>)
    ensures |r| == |s| + 1
  {
    if s == [] || x <= s[0] then [x] + s else [s[0]] + Insert(x, s[1..])
  }

  /** Python's `sorted`. */
  function Sort(s: seq<real>): (r: seq<real>)
    ensures |r| == |s|
  {
    if s == [] then [] else Insert(s[0], Sort(s[1..]))
  }

  lemma {:induction false} InsertSorted(x: real, s: seq<real>)
    requires IsSorted(s)
    ensures IsSorted(Insert(x, s))
  {
    if s != [] && x > s[0] {
      InsertSorted(x, s[1..]);
      AtLeast(s[0], x, s[1..]);
    }
  }

  lemma {:induction false} InsertKeeps(x: real, s: seq<real>)
    ensures multiset(Insert(x, s)) == multiset(s) + multiset{x}
  {
    if s != [] && x > s[0] {
      InsertKeeps(x, s[1..]);
      assert s == [s[0]] + s[1..];
    }
  }

  lemma {:induction false} AtLeast(low: real, x: real, s: seq<real>)
    requires low <= x && forall i :: 0 <= i < |s| ==> low <= s[i]
    ensures forall i :: 0 <= i < |Insert(x, s)| ==> low <= Insert(x, s)[i]
  {
    if s != [] && x > s[0] { AtLeast(low, x, s[1..]); }
  }

  lemma {:induction false} SortSorts(s: seq<real>)
    ensures IsSorted(Sort(s)) && multiset(Sort(s)) == multiset(s)
  {
    if s != [] {
      SortSorts(s[1..]);
      InsertSorted(s[0], Sort(s[1..]));
      InsertKeeps(s[0], Sort(s[1..]));
      assert s == [s[0]] + s[1..];
    }
  }

  lemma TailSorted(s: seq<real>)
    requires IsSorted(s) && s != []
    ensures IsSorted(s[1..])
  {
  }

  lemma SameLeast(s: seq<real>, t: seq<real>)
    requires IsSorted(s) && IsSorted(t) && multiset(s) == multiset(t) && s != [] && t != []
    ensures s[0] == t[0]
  {
    assert s[0] in multiset(s) && t[0] in multiset(t);
    var i :| 0 <= i < |t| && t[i] == s[0];
    var j :| 0 <= j < |s| && s[j] == t[0];
  }

  /** A sorted list is determined by its elements. */
  lemma {:induction false} SortedUnique(s: seq<real>, t: seq<real>)
    requires IsSorted(s) && IsSorted(t) && multiset(s) == multiset(t)
    ensures s == t
  {
    hide IsSorted;
    assert |s| == |multiset(s)| == |multiset(t)| == |t|;
    if s != [] {
      TailSorted(s);
      TailSorted(t);
      SameLeast(s, t);
      assert s == [s[0]] + s[1..] && t == [t[0]] + t[1..];
      assert multiset(s[1..]) == multiset(s) - multiset{s[0]};
      assert multiset(t[1..]) == multiset(t) - multiset{t[0]};
      SortedUnique(s[1..], t[1..]);
    }
  }

  // ---------------------------------------------------------------- the two functions

  function Floor(x: real): int { x.Floor }

  function Ceil(x: real): int { if x == x.Floor as real then x.Floor else x.Floor + 1 }

  /** Position of the percentile in the sorted list. */
  function Position(n: nat, fraction: real): real { Mul((n - 1) as real, fraction) }

  lemma PositionInRange(n: nat, fraction: real)
    requires n > 0 && 0.0 <= fraction <= 1.0
    ensures 0.0 <= Position(n, fraction) <= (n - 1) as real
    ensures 0 <= Floor(Position(n, fraction)) <= Ceil(Position(n, fraction)) <= n - 1
  {
    hide Mul;
    var m := (n - 1) as real;
    MulOrder(m, 0.0, fraction);
    MulOrder(m, fraction, 1.0);
    MulSign(m, 0.0);
    MulOne(m);
  }

  /** The cost model's percentile; it has no answer for an empty list. */
  function CostPercentile(values: seq<real>, fraction: real): real
    requires values != [] && 0.0 <= fraction <= 1.0
  {
    var s, position := Sort(values), Position(|values|, fraction);
    PositionInRange(|values|, fraction);
    var low, high := Floor(position), Ceil(position);
    s[low] + Mul(s[high] - s[low], position - low as real)
  }

  /** The monitor's percentile. */
  function MonitorPercentile(values: seq<real>, fraction: real): Option<real>
    requires 0.0 <= fraction <= 1.0
  {
    if values == [] then None
    else
      var s := Sort(values);
      if |s| == 1 then Some(s[0])
      else
        var position := Position(|values|, fraction);
        PositionInRange(|values|, fraction);
        var lower := Floor(position);
        var upper := if lower + 1 < |s| - 1 then lower + 1 else |s| - 1;
        var weight := position - lower as real;
        Some(Mul(s[lower], 1.0 - weight) + Mul(s[upper], weight))
  }

  /** Linear interpolation in a list at a real position. */
  function At(s: seq<real>, t: real): real
    requires 0.0 <= t <= (|s| - 1) as real
  {
    var k := Floor(t);
    if k == |s| - 1 then s[k] else s[k] + Mul(s[k + 1] - s[k], t - k as real)
  }

  /** Both implementations are interpolation in the sorted list, hence agree. */
  lemma PercentilesAgree(values: seq<real>, fraction: real)
    requires values != [] && 0.0 <= fraction <= 1.0
    ensures Position(|values|, fraction) <= (|Sort(values)| - 1) as real && Position(|values|, fraction) >= 0.0
    ensures CostPercentile(values, fraction) == At(Sort(values), Position(|values|, fraction))
    ensures MonitorPercentile(values, fraction) == Some(CostPercentile(values, fraction))
  {
    hide CostPercentile, MonitorPercentile, At;
    PositionInRange(|values|, fraction);
    CostInterpolates(values, fraction);
    MonitorInterpolates(values, fraction);
  }

  lemma CostInterpolates(values: seq<real>, fraction: real)
    requires values != [] && 0.0 <= fraction <= 1.0
    ensures 0.0 <= Position(|values|, fraction) <= (|Sort(values)| - 1) as real
    ensures CostPercentile(values, fraction) == At(Sort(values), Position(|values|, fraction))
  {
    hide Mul, Sort, Position;
    var s, t := Sort(values), Position(|values|, fraction);
    PositionInRange(|values|, fraction);
    var k := Floor(t);
    var w := t - k as real;
    MulSign(s[k] - s[k], w);
    if k < |s| - 1 { MulSign(s[k + 1] - s[k], w); }
  }

  lemma MonitorInterpolates(values: seq<real>, fraction: real)
    requires values != [] && 0.0 <= fraction <= 1.0
    ensures 0.0 <= Position(|values|, fraction) <= (|Sort(values)| - 1) as real
    ensures MonitorPercentile(values, fraction) == Some(At(Sort(values), Position(|values|, fraction)))
  {
    hide Mul, Sort, Position;
    var s, t := Sort(values), Position(|values|, fraction);
    PositionInRange(|values|, fraction);
    var k := Floor(t);
    var w := t - k as real;
    if k < |s| - 1 {
      Blend(s[k], s[k + 1], w);
    } else {
      MulSign(s[k] - s[k], w);
      Blend(s[k], s[k], w);
    }
  }

  lemma Blend(a: real, b: real, w: real)
    ensures Mul(a, 1.0 - w) + Mul(b, w) == a + Mul(b - a, w)
  {
    hide Mul;
    MulSub(a, 1.0, w);
    MulOne(a);
    MulComm(b - a, w);
    MulSub(w, b, a);
    MulComm(w, b);
    MulComm(w, a);
  }

  // ---------------------------------------------------------------- what a percentile promises

  lemma AtBetween(s: seq<real>, t: real)
    requires IsSorted(s) && 0.0 <= t <= (|s| - 1) as real
    ensures var k := Floor(t); s[k] <= At(s, t) && (k < |s| - 1 ==> At(s, t) <= s[k + 1])
  {
    hide Mul;
    var k := Floor(t);
    if k < |s| - 1 {
      var w, d := t - k as real, s[k + 1] - s[k];
      MulOrder(d, 0.0, w);
      MulOrder(d, w, 1.0);
      MulSign(d, 0.0);
      MulOne(d);
    }
  }

  lemma AtMonotone(s: seq<real>, t: real, u: real)
    requires IsSorted(s) && 0.0 <= t <= u <= (|s| - 1) as real
    ensures At(s, t) <= At(s, u)
  {
    hide Mul;
    AtBetween(s, t);
    AtBetween(s, u);
    var k, l := Floor(t), Floor(u);
    if k == l {
      if k < |s| - 1 {
        MulOrder(s[k + 1] - s[k], t - k as real, u - k as real);
      }
    } else {
      assert s[k + 1] <= s[l];
    }
  }

  /** The percentile lies between the least and the greatest value. */
  lemma PercentileBounds(values: seq<real>, fraction: real, i: int)
    requires values != [] && 0.0 <= fraction <= 1.0
    ensures var s := Sort(values); s[0] <= CostPercentile(values, fraction) <= s[|s| - 1]
    ensures 0 <= i < |values| ==> Sort(values)[0] <= values[i] <= Sort(values)[|values| - 1]
    ensures Sort(values)[0] in values && Sort(values)[|values| - 1] in values
  {
    hide Sort, CostPercentile, At, Position;
    var s := Sort(values);
    SortSorts(values);
    PercentilesAgree(values, fraction);
    PositionInRange(|values|, fraction);
    AtBetween(s, Position(|values|, fraction));
    assert s[0] in multiset(s) && s[|s| - 1] in multiset(s);
    if 0 <= i < |values| {
      assert values[i] in multiset(values);
      var k :| 0 <= k < |s| && s[k] == values[i];
    }
  }

  /** A larger fraction never gives a smaller percentile. */
  lemma PercentileMonotone(values: seq<real>, f: real, g: real)
    requires values != [] && 0.0 <= f <= g <= 1.0
    ensures CostPercentile(values, f) <= CostPercentile(values, g)
  {
    hide Mul, Sort, CostPercentile, MonitorPercentile, At;
    SortSorts(values);
    PercentilesAgree(values, f);
    PercentilesAgree(values, g);
    MulOrder((|values| - 1) as real, f, g);
    AtMonotone(Sort(values), Position(|values|, f), Position(|values|, g));
  }

  /** The percentile does not depend on the order of the values. */
  lemma PercentileOrderFree(values: seq<real>, others: seq<real>, fraction: real)
    requires values != [] && multiset(values) == multiset(others) && 0.0 <= fraction <= 1.0
    ensures others != [] && CostPercentile(values, fraction) == CostPercentile(others, fraction)
  {
    hide Sort, At, Position;
    assert |values| == |multiset(values)| == |others|;
    SortSorts(values);
    SortSorts(others);
    PercentilesAgree(values, fraction);
    PercentilesAgree(others, fraction);
    SortedUnique(Sort(values), Sort(others));
  }

  // ---------------------------------------------------------------- ranks

  /** The fraction that falls between the ranks `k` and `k + 1`, a part `w` of
      the way. */
  function Between(n: nat, k: nat, w: real): real
    requires n > 1
  {
    (k as real + w) / (n - 1) as real
  }

  /** Every fraction falls between two consecutive ranks. */
  lemma EveryFraction(n: nat, fraction: real) returns (k: nat, w: real)
    requires n > 1 && 0.0 <= fraction <= 1.0
    ensures k < n - 1 && 0.0 <= w <= 1.0 && fraction == Between(n, k, w)
  {
    var m := (n - 1) as real;
    PositionInRange(n, fraction);
    var t := Position(n, fraction);
    k := if Floor(t) == n - 1 then n - 2 else Floor(t);
    w := t - k as real;
    assert fraction * m == t;
    assert fraction == t / m;
  }

  lemma PositionBetween(n: nat, k: nat, w: real)
    requires n > 1 && k < n - 1 && 0.0 <= w <= 1.0
    ensures 0.0 <= Between(n, k, w) <= 1.0 && Position(n, Between(n, k, w)) == k as real + w
  {
    var m, u := (n - 1) as real, k as real + w;
    assert u <= m;
    assert m * (u / m) == u;
    QuotientInRange(u, m);
  }

  lemma QuotientInRange(u: real, m: real)
    requires 0.0 <= u <= m && m > 0.0
    ensures 0.0 <= u / m <= 1.0
  {
  }

  /** Between two consecutive ranks both percentiles blend the two order
      statistics with the fraction's own weight; so at a rank they are the order
      statistic, at 0 the minimum and at 1 the maximum. */
  lemma PercentileBlends(values: seq<real>, k: nat, w: real)
    requires |values| > 1 && k < |values| - 1 && 0.0 <= w <= 1.0
    ensures 0.0 <= Between(|values|, k, w) <= 1.0
    ensures var s := Sort(values);
            && CostPercentile(values, Between(|values|, k, w)) == Weighted(s[k], s[k + 1], w)
            && MonitorPercentile(values, Between(|values|, k, w)) == Some(Weighted(s[k], s[k + 1], w))
  {
    hide Sort, Position, CostPercentile, MonitorPercentile, Between, Weighted, At;
    var s, f := Sort(values), Between(|values|, k, w);
    PositionBetween(|values|, k, w);
    PercentilesAgree(values, f);
    AtBlend(s, k, w);
  }

  lemma AtBlend(s: seq<real>, k: nat, w: real)
    requires k + 1 < |s| && 0.0 <= w <= 1.0
    ensures At(s, k as real + w) == Weighted(s[k], s[k + 1], w)
  {
    hide Mul, Weighted;
    WeightedIs(s[k], s[k + 1], w);
    if w < 1.0 {
      assert Floor(k as real + w) == k;
    } else {
      assert Floor(k as real + w) == k + 1;
      if k + 2 < |s| { MulSign(s[k + 2] - s[k + 1], 0.0); }
    }
  }

  /** Two values blended with weight `w` on the second. */
  function Weighted(x: real, y: real, w: real): real { (1.0 - w) * x + w * y }

  lemma WeightedIs(x: real, y: real, w: real)
    ensures Weighted(x, y, w) == x + Mul(y - x, w)
    ensures w == 0.0 ==> Weighted(x, y, w) == x
    ensures w == 1.0 ==> Weighted(x, y, w) == y
  {
  }

  /** The percentile at the k-th of n - 1 equal steps is the k-th smallest value. */
  lemma PercentileAtRank(values: seq<real>, k: nat)
    requires |values| > 1 && k < |values|
    ensures 0.0 <= k as real / (|values| - 1) as real <= 1.0
    ensures CostPercentile(values, k as real / (|values| - 1) as real) == Sort(values)[k]
    ensures MonitorPercentile(values, k as real / (|values| - 1) as real) == Some(Sort(values)[k])
  {
    hide Sort, Position, CostPercentile, MonitorPercentile, Between, Weighted, Mul;
    var n, s := |values|, Sort(values);
    if k < n - 1 {
      RankFraction(n, k, 0.0);
      PercentileBlends(values, k, 0.0);
      WeightedIs(s[k], s[k + 1], 0.0);
    } else {
      RankFraction(n, k - 1, 1.0);
      PercentileBlends(values, k - 1, 1.0);
      WeightedIs(s[k - 1], s[k], 1.0);
    }
  }

  lemma RankFraction(n: nat, k: nat, w: real)
    requires n > 1
    ensures w == 0.0 ==> Between(n, k, w) == k as real / (n - 1) as real
    ensures w == 1.0 ==> Between(n, k, w) == (k + 1) as real / (n - 1) as real
  {
  }

  /** A single value is every percentile. */
  lemma PercentileOfOne(v: real, fraction: real)
    requires 0.0 <= fraction <= 1.0
    ensures CostPercentile([v], fraction) == v && MonitorPercentile([v], fraction) == Some(v)
  {
    hide CostPercentile, MonitorPercentile, Sort;
    SortSorts([v]);
    assert Sort([v])[0] in multiset([v]);
    PercentileBounds([v], fraction, 0);
    PercentilesAgree([v], fraction);
  }
}
