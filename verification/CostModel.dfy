/** The offline cost model: a least-squares line through per-size medians, and
    interpolated percentiles, over the reals. */
module CostModel {
  import opened Reals

  type Point = (real, real)

  // ---------------------------------------------------------------- least squares

  function Size(ps: seq<Point>): real { |ps| as real }

  function SumX(ps: seq<Point>): real {
    if ps == [] then 0.0 else SumX(ps[..|ps| - 1]) + ps[|ps| - 1].0
  }

  function SumY(ps: seq<Point>): real {
    if ps == [] then 0.0 else SumY(ps[..|ps| - 1]) + ps[|ps| - 1].1
  }

  function MeanX(ps: seq<Point>): real
    requires ps != []
  {
    SumX(ps) / Size(ps)
  }

  function MeanY(ps: seq<Point>): real
    requires ps != []
  {
    SumY(ps) / Size(ps)
  }

  function Square(x: real): real { Mul(x, x) }

  /** Sum of squared x deviations from `c`. */
  function Spread(ps: seq<Point>, c: real): real {
    if ps == [] then 0.0 else Spread(ps[..|ps| - 1], c) + Square(ps[|ps| - 1].0 - c)
  }

  /** Sum of products of deviations from `(c, d)`. */
  function CoSpread(ps: seq<Point>, c: real, d: real): real {
    if ps == [] then 0.0
    else CoSpread(ps[..|ps| - 1], c, d) + Mul(ps[|ps| - 1].0 - c, ps[|ps| - 1].1 - d)
  }

  /** The reported fit; NoFit is a raised error. */
  datatype Fit = Line(setupSeconds: real, bytesPerSecond: real) | Nonphysical(intercept: real, slope: real) | NoFit

  function Slope(ps: seq<Point>): real
    requires ps != [] && Spread(ps, MeanX(ps)) != 0.0
  {
    CoSpread(ps, MeanX(ps), MeanY(ps)) / Spread(ps, MeanX(ps))
  }

  function Intercept(ps: seq<Point>): real
    requires ps != [] && Spread(ps, MeanX(ps)) != 0.0
  {
    MeanY(ps) - Mul(Slope(ps), MeanX(ps))
  }

  function Linear(ps: seq<Point>): Fit {
    if ps == [] || Spread(ps, MeanX(ps)) == 0.0 then NoFit
    else if Slope(ps) <= 0.0 || Intercept(ps) < 0.0 then Nonphysical(Intercept(ps), Slope(ps))
    else Line(Intercept(ps), 1.0 / Slope(ps))
  }

  /** Sum of squared residuals of the line y = m x + b. */
  function Residuals(ps: seq<Point>, m: real, b: real): real {
    if ps == [] then 0.0 else Residuals(ps[..|ps| - 1], m, b) + Square(ps[|ps| - 1].1 - (Mul(m, ps[|ps| - 1].0) + b))
  }

  /** The fit exists exactly when two points differ in x. */
  lemma FitExists(ps: seq<Point>)
    ensures Linear(ps) != NoFit <==> exists i, j :: 0 <= i < |ps| && 0 <= j < |ps| && ps[i].0 != ps[j].0
  {
    if ps != [] {
      var c := MeanX(ps);
      SpreadZero(ps, c);
      if forall i :: 0 <= i < |ps| ==> ps[i].0 == c {
      } else if forall i, j :: 0 <= i < |ps| && 0 <= j < |ps| ==> ps[i].0 == ps[j].0 {
        ConstantMean(ps, ps[0].0);
      }
    }
  }

  lemma {:induction false} SpreadZero(ps: seq<Point>, c: real)
    ensures Spread(ps, c) >= 0.0
    ensures Spread(ps, c) == 0.0 <==> forall i :: 0 <= i < |ps| ==> ps[i].0 == c
  {
    if ps != [] {
      var n := |ps| - 1;
      SpreadZero(ps[..n], c);
      SquareZero(ps[n].0 - c);
      assert forall i :: 0 <= i < n ==> ps[..n][i] == ps[i];
    }
  }

  lemma SquareZero(x: real)
    ensures Square(x) >= 0.0 && (Square(x) == 0.0 <==> x == 0.0)
  {
    hide Mul;
    MulSign(x, x);
  }

  lemma ConstantMean(ps: seq<Point>, x: real)
    requires ps != [] && forall i :: 0 <= i < |ps| ==> ps[i].0 == x
    ensures MeanX(ps) == x
  {
    ConstantSum(ps, x);
    MulDiv(SumX(ps), Size(ps));
    MulCancel(MeanX(ps), x, Size(ps));
  }

  lemma MulCancel(x: real, y: real, n: real)
    requires n > 0.0 && Mul(x, n) == Mul(n, y)
    ensures x == y
  {
    hide Mul;
    MulComm(n, y);
    MulComm(n, x);
    MulSub(n, x, y);
    MulSign(n, x - y);
    MulSign(n, y - x);
    MulSub(n, y, x);
  }

  lemma {:induction false} ConstantSum(ps: seq<Point>, x: real)
    requires forall i :: 0 <= i < |ps| ==> ps[i].0 == x
    ensures SumX(ps) == Mul(Size(ps), x)
  {
    hide Mul;
    if ps == [] {
      MulSign(Size(ps), x);
    } else {
      ConstantSum(ps[..|ps| - 1], x);
      Grows(Size(ps[..|ps| - 1]), x);
    }
  }

  // Sums over the residuals e = (y - d) - s (x - c) of the line of slope s
  // through (c, d), and over u = x - c.

  function Res(p: Point, s: real, c: real, d: real): real { (p.1 - d) - Mul(s, p.0 - c) }

  function SumRes(ps: seq<Point>, s: real, c: real, d: real): real {
    if ps == [] then 0.0 else SumRes(ps[..|ps| - 1], s, c, d) + Res(ps[|ps| - 1], s, c, d)
  }

  function SumResDev(ps: seq<Point>, s: real, c: real, d: real): real {
    if ps == [] then 0.0 else SumResDev(ps[..|ps| - 1], s, c, d) + Mul(Res(ps[|ps| - 1], s, c, d), ps[|ps| - 1].0 - c)
  }

  function SumResSquare(ps: seq<Point>, s: real, c: real, d: real): real {
    if ps == [] then 0.0 else SumResSquare(ps[..|ps| - 1], s, c, d) + Square(Res(ps[|ps| - 1], s, c, d))
  }

  function SumDev(ps: seq<Point>, c: real): real {
    if ps == [] then 0.0 else SumDev(ps[..|ps| - 1], c) + (ps[|ps| - 1].0 - c)
  }

  lemma SquareSum(x: real, y: real)
    ensures Square(x + y) == Square(x) + Square(y) + 2.0 * Mul(x, y)
  {
    hide Mul;
    MulAdd(x + y, x, y);
    MulComm(x + y, x);
    MulComm(x + y, y);
    MulAdd(x, x, y);
    MulAdd(y, x, y);
    MulComm(x, y);
  }

  lemma OnePoint(e: real, u: real, al: real, be: real)
    ensures Square(e + Mul(al, u) + be)
            == Square(e) + Mul(Square(al), Square(u)) + Square(be)
               + 2.0 * Mul(al, Mul(e, u)) + 2.0 * Mul(be, e) + 2.0 * Mul(Mul(al, be), u)
  {
    hide Mul;
    var v := Mul(al, u);
    SquareSum(e + v, be);
    SquareSum(e, v);
    assert Square(v) == Mul(Square(al), Square(u)) by { SquareOfProduct(al, u); }
    assert Mul(e, v) == Mul(al, Mul(e, u)) by { Swap(e, al, u); }
    assert Mul(e + v, be) == Mul(be, e) + Mul(be, v) by { MulComm(e + v, be); MulAdd(be, e, v); }
    assert Mul(be, v) == Mul(Mul(al, be), u) by { Swap(be, al, u); MulAssoc(al, be, u); }
  }

  lemma Swap(x: real, y: real, z: real)
    ensures Mul(x, Mul(y, z)) == Mul(y, Mul(x, z))
  {
    hide Mul;
    MulAssoc(x, y, z);
    MulComm(x, y);
    MulAssoc(y, x, z);
  }

  lemma SquareOfProduct(x: real, y: real)
    ensures Square(Mul(x, y)) == Mul(Square(x), Square(y))
  {
    hide Mul;
    MulAssoc(x, y, Mul(x, y));
    Swap(y, x, y);
    MulAssoc(x, x, Mul(y, y));
  }

  lemma ShiftedResidual(p: Point, s: real, c: real, d: real, m: real, b: real)
    ensures p.1 - (Mul(m, p.0) + b) == Res(p, s, c, d) + Mul(s - m, p.0 - c) + (d - Mul(m, c) - b)
  {
    hide Mul;
    var u := p.0 - c;
    assert Mul(s - m, u) == Mul(s, u) - Mul(m, u) by {
      MulComm(s - m, u);
      MulSub(u, s, m);
      MulComm(u, s);
      MulComm(u, m);
    }
    MulSub(m, p.0, c);
  }

  /** Any line's error, expanded around the line of slope `s` through `(c, d)`. */
  lemma {:induction false} Expand(ps: seq<Point>, s: real, c: real, d: real, m: real, b: real)
    ensures var al, be := s - m, d - Mul(m, c) - b;
            Residuals(ps, m, b) == SumResSquare(ps, s, c, d) + Mul(Square(al), Spread(ps, c)) + Mul(Square(be), Size(ps))
              + 2.0 * Mul(al, SumResDev(ps, s, c, d)) + 2.0 * Mul(be, SumRes(ps, s, c, d)) + 2.0 * Mul(Mul(al, be), SumDev(ps, c))
  {
    hide Mul, Square, Res;
    var al, be := s - m, d - Mul(m, c) - b;
    if ps == [] {
      MulSign(Square(al), 0.0);
      MulSign(Square(be), 0.0);
      MulSign(al, 0.0);
      MulSign(be, 0.0);
      MulSign(Mul(al, be), 0.0);
    } else {
      var n := |ps| - 1;
      Expand(ps[..n], s, c, d, m, b);
      var e, u := Res(ps[n], s, c, d), ps[n].0 - c;
      ShiftedResidual(ps[n], s, c, d, m, b);
      OnePoint(e, u, al, be);
      MulAdd(Square(al), Spread(ps[..n], c), Square(u));
      MulAdd(al, SumResDev(ps[..n], s, c, d), Mul(e, u));
      MulAdd(be, SumRes(ps[..n], s, c, d), e);
      MulAdd(Mul(al, be), SumDev(ps[..n], c), u);
      MulAdd(Square(be), Size(ps[..n]), 1.0);
      MulOne(Square(be));
    }
  }

  lemma Grows(n: real, c: real)
    ensures Mul(n + 1.0, c) == Mul(n, c) + c
  {
  }

  lemma {:induction false} SumDevIs(ps: seq<Point>, c: real)
    ensures SumDev(ps, c) == SumX(ps) - Mul(Size(ps), c)
  {
    hide Mul;
    if ps == [] {
      MulSign(0.0, c);
    } else {
      SumDevIs(ps[..|ps| - 1], c);
      Grows(Size(ps[..|ps| - 1]), c);
    }
  }

  lemma {:induction false} SumResIs(ps: seq<Point>, s: real, c: real, d: real)
    ensures SumRes(ps, s, c, d) == (SumY(ps) - Mul(Size(ps), d)) - Mul(s, SumDev(ps, c))
  {
    hide Mul;
    if ps == [] {
      MulSign(0.0, d);
      MulSign(s, 0.0);
    } else {
      var n := |ps| - 1;
      SumResIs(ps[..n], s, c, d);
      Grows(Size(ps[..n]), d);
      MulAdd(s, SumDev(ps[..n], c), ps[n].0 - c);
    }
  }

  lemma {:induction false} SumResDevIs(ps: seq<Point>, s: real, c: real, d: real)
    ensures SumResDev(ps, s, c, d) == CoSpread(ps, c, d) - Mul(s, Spread(ps, c))
  {
    hide Mul, Res, Square;
    if ps == [] {
      MulSign(s, 0.0);
    } else {
      var n := |ps| - 1;
      SumResDevIs(ps[..n], s, c, d);
      MulAdd(s, Spread(ps[..n], c), Square(ps[n].0 - c));
      ResTimesDev(ps[n], s, c, d);
    }
  }

  lemma ResTimesDev(p: Point, s: real, c: real, d: real)
    ensures Mul(Res(p, s, c, d), p.0 - c) == Mul(p.0 - c, p.1 - d) - Mul(s, Square(p.0 - c))
  {
    hide Mul;
    var u, v := p.0 - c, p.1 - d;
    MulComm(v - Mul(s, u), u);
    MulSub(u, v, Mul(s, u));
    Swap(u, s, u);
  }

  /** The slope and intercept computed by the fit are the unique minimiser of
      the squared error over all real lines. */
  lemma LeastSquares(ps: seq<Point>, m: real, b: real)
    requires ps != [] && Spread(ps, MeanX(ps)) != 0.0
    ensures Residuals(ps, Slope(ps), Intercept(ps)) <= Residuals(ps, m, b)
    ensures Residuals(ps, m, b) == Residuals(ps, Slope(ps), Intercept(ps)) <==> m == Slope(ps) && b == Intercept(ps)
  {
    hide Spread, CoSpread, SumX, SumY, Residuals, SumRes, SumResDev, SumResSquare, SumDev, Square, Mul;
    var c, d, s, n := MeanX(ps), MeanY(ps), Slope(ps), Size(ps);
    var a, dd := Intercept(ps), Spread(ps, c);
    SumDevIs(ps, c);
    SumResIs(ps, s, c, d);
    SumResDevIs(ps, s, c, d);
    Expand(ps, s, c, d, m, b);
    Expand(ps, s, c, d, s, a);
    SpreadZero(ps, c);
    assert Mul(n, c) == SumX(ps) by { MulDiv(SumX(ps), n); MulComm(n, c); }
    assert Mul(n, d) == SumY(ps) by { MulDiv(SumY(ps), n); MulComm(n, d); }
    assert Mul(s, dd) == CoSpread(ps, c, d) by { MulDiv(CoSpread(ps, c, d), dd); }
    var al, be := s - m, d - Mul(m, c) - b;
    MulSign(s, 0.0);
    assert SumDev(ps, c) == 0.0 && SumRes(ps, s, c, d) == 0.0 && SumResDev(ps, s, c, d) == 0.0;
    NoCrossTerms(al, be);
    NoCrossTerms(0.0, 0.0);
    SquareZero(0.0);
    MulSign(0.0, dd);
    MulSign(0.0, n);
    Excess(al, be, dd, n);
    assert Residuals(ps, m, b) == Residuals(ps, s, a) + (Mul(Square(al), dd) + Mul(Square(be), n));
  }

  lemma NoCrossTerms(al: real, be: real)
    ensures Mul(al, 0.0) == 0.0 && Mul(be, 0.0) == 0.0 && Mul(Mul(al, be), 0.0) == 0.0
  {
  }

  lemma Excess(al: real, be: real, dd: real, n: real)
    requires dd > 0.0 && n > 0.0
    ensures Mul(Square(al), dd) + Mul(Square(be), n) >= 0.0
    ensures Mul(Square(al), dd) + Mul(Square(be), n) == 0.0 <==> al == 0.0 && be == 0.0
  {
    hide Mul, Square;
    SquareZero(al);
    SquareZero(be);
    MulSign(Square(al), dd);
    MulSign(Square(be), n);
  }

  /** What is reported is physical, and is the best of all real lines. */
  lemma ReportedFit(ps: seq<Point>, m: real, b: real)
    requires Linear(ps).Line?
    ensures Linear(ps).setupSeconds >= 0.0 && Linear(ps).bytesPerSecond > 0.0
    ensures Residuals(ps, 1.0 / Linear(ps).bytesPerSecond, Linear(ps).setupSeconds) <= Residuals(ps, m, b)
  {
    hide Residuals, Spread, CoSpread, MeanX, MeanY;
    LeastSquares(ps, m, b);
    Inverse(Slope(ps));
  }

  lemma Inverse(x: real)
    requires x > 0.0
    ensures 1.0 / x > 0.0 && 1.0 / (1.0 / x) == x
  {
  }

  /** Points on a line are recovered exactly. */
  lemma ExactRecovery(ps: seq<Point>, m: real, b: real)
    requires ps != [] && Spread(ps, MeanX(ps)) != 0.0
    requires forall i :: 0 <= i < |ps| ==> ps[i].1 == Mul(m, ps[i].0) + b
    ensures Slope(ps) == m && Intercept(ps) == b
  {
    hide Residuals;
    NoResidual(ps, m, b);
    ResidualsNonNegative(ps, Slope(ps), Intercept(ps));
    LeastSquares(ps, m, b);
  }

  lemma {:induction false} NoResidual(ps: seq<Point>, m: real, b: real)
    requires forall i :: 0 <= i < |ps| ==> ps[i].1 == Mul(m, ps[i].0) + b
    ensures Residuals(ps, m, b) == 0.0
  {
    hide Mul, Square;
    if ps != [] {
      NoResidual(ps[..|ps| - 1], m, b);
      SquareZero(0.0);
    }
  }

  lemma {:induction false} ResidualsNonNegative(ps: seq<Point>, m: real, b: real)
    ensures Residuals(ps, m, b) >= 0.0
  {
    if ps != [] {
      ResidualsNonNegative(ps[..|ps| - 1], m, b);
      SquareZero(ps[|ps| - 1].1 - (Mul(m, ps[|ps| - 1].0) + b));
    }
  }

  ghost predicate Minimises(ps: seq<Point>, m: real, b: real) {
    forall m', b' :: Residuals(ps, m, b) <= Residuals(ps, m', b')
  }

  /** What is reported, in terms of the best line alone: its intercept and rate
      if its slope is positive and its intercept not negative, and otherwise
      that line as nonphysical. */
  lemma ReportedWhen(ps: seq<Point>, m: real, b: real)
    requires Linear(ps) != NoFit && Minimises(ps, m, b)
    ensures Linear(ps) == if m > 0.0 && b >= 0.0 then Line(b, 1.0 / m) else Nonphysical(b, m)
  {
    hide Residuals, Slope, Intercept, Spread;
    LeastSquares(ps, m, b);
    assert Residuals(ps, m, b) <= Residuals(ps, Slope(ps), Intercept(ps));
  }

  /** There is a best line whenever there is a fit. */
  lemma BestLineExists(ps: seq<Point>) returns (m: real, b: real)
    requires Linear(ps) != NoFit
    ensures Minimises(ps, m, b)
  {
    hide Residuals, Spread;
    m, b := Slope(ps), Intercept(ps);
    forall m', b' ensures Residuals(ps, m, b) <= Residuals(ps, m', b') { LeastSquares(ps, m', b'); }
  }
}
