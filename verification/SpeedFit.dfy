/** The line fitted to CPU speed measurements (`get_cpu_core_speed_poly` in wotemu/topology/cpu.py),
    over exact reals. */
module SpeedFit {
  import opened Collections
  import opened PolyProtocol

  datatype Point = Point(x: real, y: real)

  /** Sum over the points of a real value. */
  function Total(ps: seq<Point>, f: Point -> real): real {
    if ps == [] then 0.0 else f(ps[0]) + Total(ps[1..], f)
  }

  /** Products are named so that proofs about sums need only the laws below. */
  function Times(a: real, b: real): real { a * b }

  lemma TimesSign(a: real, b: real)
    ensures a > 0.0 && b > 0.0 ==> Times(a, b) > 0.0
    ensures a < 0.0 && b < 0.0 ==> Times(a, b) > 0.0
    ensures a == 0.0 || b == 0.0 ==> Times(a, b) == 0.0
  {
    if a > 0.0 && b > 0.0 {
      assert a * b > 0.0;
    }
    if a < 0.0 && b < 0.0 {
      assert (-a) * (-b) > 0.0;
      assert (-a) * (-b) == a * b;
    }
  }

  function One(p: Point): real { 1.0 }
  function Zero(p: Point): real { 0.0 }
  function X(p: Point): real { p.x }
  function Y(p: Point): real { p.y }
  function XX(p: Point): real { Times(p.x, p.x) }
  function XY(p: Point): real { Times(p.x, p.y) }

  function Combine(a: real, w: real, b: real, x: real, c: real, y: real, d: real, z: real): real {
    Times(a, w) + Times(b, x) + Times(c, y) + Times(d, z)
  }

  lemma TimesAdds(a: real, w: real, w': real)
    ensures Times(a, w + w') == Times(a, w) + Times(a, w')
  {
  }

  /** A linear combination of values sums to the combination of the sums. */
  lemma {:induction false} TotalLinear(ps: seq<Point>, v: Point -> real, a: real, f: Point -> real, b: real, g: Point -> real,
                                       c: real, h: Point -> real, d: real, k: Point -> real)
    requires forall p :: v(p) == Combine(a, f(p), b, g(p), c, h(p), d, k(p))
    ensures Total(ps, v) == Combine(a, Total(ps, f), b, Total(ps, g), c, Total(ps, h), d, Total(ps, k))
  {
    if ps == [] {
      TimesSign(a, 0.0);
      TimesSign(b, 0.0);
      TimesSign(c, 0.0);
      TimesSign(d, 0.0);
    } else {
      hide Times;
      var p, t := ps[0], ps[1..];
      TotalLinear(t, v, a, f, b, g, c, h, d, k);
      TimesAdds(a, f(p), Total(t, f));
      TimesAdds(b, g(p), Total(t, g));
      TimesAdds(c, h(p), Total(t, h));
      TimesAdds(d, k(p), Total(t, k));
    }
  }

  lemma {:induction false} TotalOne(ps: seq<Point>)
    ensures Total(ps, One) == |ps| as real && Total(ps, Zero) == 0.0
  {
    if ps != [] {
      TotalOne(ps[1..]);
    }
  }

  function Count(ps: seq<Point>): real { |ps| as real }
  function SumX(ps: seq<Point>): real { Total(ps, X) }
  function SumY(ps: seq<Point>): real { Total(ps, Y) }
  function SumXX(ps: seq<Point>): real { Total(ps, XX) }
  function SumXY(ps: seq<Point>): real { Total(ps, XY) }

  /** Determinant of the normal equations. */
  function Spread(ps: seq<Point>): real { Times(Count(ps), SumXX(ps)) - Times(SumX(ps), SumX(ps)) }

  function Covariance(ps: seq<Point>): real { Times(Count(ps), SumXY(ps)) - Times(SumX(ps), SumY(ps)) }

  ghost predicate TwoShares(ps: seq<Point>) {
    exists i, j | 0 <= i < |ps| && 0 <= j < |ps| :: ps[i].x != ps[j].x
  }

  /** `polyfit` of degree one: the solution of the normal equations. */
  function Fit(ps: seq<Point>): Poly
    requires |ps| > 0 && Spread(ps) != 0.0
  {
    var slope := Covariance(ps) / Spread(ps);
    Poly(slope, (SumY(ps) - slope * SumX(ps)) / Count(ps))
  }

  function Value(p: Poly, x: real): real { p.slope * x + p.intercept }

  function Residual(q: Point, p: Poly): real { q.y - Value(p, q.x) }

  function ErrorAt(p: Poly): Point -> real { (q: Point) => Times(Residual(q, p), Residual(q, p)) }
  function ResidualAt(p: Poly): Point -> real { (q: Point) => Residual(q, p) }
  function ResidualXAt(p: Poly): Point -> real { (q: Point) => Times(Residual(q, p), q.x) }
  function NormAt(d: Poly): Point -> real { (q: Point) => Times(Value(d, q.x), Value(d, q.x)) }

  /** Squared error of a line. */
  function Error(ps: seq<Point>, p: Poly): real { Total(ps, ErrorAt(p)) }

  function Residuals(ps: seq<Point>, p: Poly): real { Total(ps, ResidualAt(p)) }

  function ResidualsX(ps: seq<Point>, p: Poly): real { Total(ps, ResidualXAt(p)) }

  /** Sum of squares of the values of a line. */
  function Norm(ps: seq<Point>, d: Poly): real { Total(ps, NormAt(d)) }

  function Plus(p: Poly, d: Poly): Poly { Poly(p.slope + d.slope, p.intercept + d.intercept) }

  lemma ResidualPlus(q: Point, p: Poly, d: Poly)
    ensures Residual(q, Plus(p, d)) == Residual(q, p) - Value(d, q.x)
  {
    assert (p.slope + d.slope) * q.x == p.slope * q.x + d.slope * q.x;
  }

  lemma DifferenceSquared(r: real, w: real)
    ensures Times(r - w, r - w) == Combine(1.0, Times(r, r), -2.0, Times(r, w), 1.0, Times(w, w), 0.0, 0.0)
  {
  }

  lemma ProductSplits(r: real, d: Poly, x: real)
    ensures Times(r, Value(d, x)) == Combine(d.slope, Times(r, x), d.intercept, r, 0.0, 0.0, 0.0, 0.0)
  {
    var u, v := d.slope, d.intercept;
    assert r * (u * x + v) == r * (u * x) + r * v;
    assert r * (u * x) == u * (r * x);
  }

  lemma CombineTwice(u: real, v: real, rx: real, r: real, before: real, move: real)
    ensures Combine(1.0, before, -2.0, Combine(u, rx, v, r, 0.0, 0.0, 0.0, 0.0), 1.0, move, 0.0, 0.0)
         == before - 2.0 * (Times(u, rx) + Times(v, r)) + move
  {
  }

  /** Moving a line changes its error by a linear term in the residuals and the norm of the move. */
  lemma ErrorExpands(ps: seq<Point>, p: Poly, d: Poly)
    ensures Error(ps, Plus(p, d)) ==
            Error(ps, p) - 2.0 * (Times(d.slope, ResidualsX(ps, p)) + Times(d.intercept, Residuals(ps, p))) + Norm(ps, d)
  {
    hide Times, Residual, Value, Combine, Total, Plus;
    var rw := (q: Point) => Times(Residual(q, p), Value(d, q.x));
    var r, rx, before, move, moved := ResidualAt(p), ResidualXAt(p), ErrorAt(p), NormAt(d), ErrorAt(Plus(p, d));
    forall q: Point
      ensures rw(q) == Combine(d.slope, rx(q), d.intercept, r(q), 0.0, Zero(q), 0.0, Zero(q))
      ensures moved(q) == Combine(1.0, before(q), -2.0, rw(q), 1.0, move(q), 0.0, Zero(q))
    {
      ResidualPlus(q, p, d);
      DifferenceSquared(Residual(q, p), Value(d, q.x));
      ProductSplits(Residual(q, p), d, q.x);
    }
    TotalOne(ps);
    TotalLinear(ps, rw, d.slope, rx, d.intercept, r, 0.0, Zero, 0.0, Zero);
    TotalLinear(ps, moved, 1.0, before, -2.0, rw, 1.0, move, 0.0, Zero);
    CombineTwice(d.slope, d.intercept, ResidualsX(ps, p), Residuals(ps, p), Error(ps, p), Norm(ps, d));
  }

  lemma PointResidual(q: Point, p: Poly)
    ensures Residual(q, p) == Combine(1.0, Y(q), -p.slope, X(q), -p.intercept, One(q), 0.0, 0.0)
    ensures Times(Residual(q, p), q.x) == Combine(1.0, XY(q), -p.slope, XX(q), -p.intercept, X(q), 0.0, 0.0)
  {
    var x, y, u, v := q.x, q.y, p.slope, p.intercept;
    assert (y - (u * x + v)) * x == x * y - (u * x) * x - v * x;
    assert (u * x) * x == u * (x * x);
  }

  lemma ResidualSums(ps: seq<Point>, p: Poly)
    ensures Residuals(ps, p) == Combine(1.0, SumY(ps), -p.slope, SumX(ps), -p.intercept, Count(ps), 0.0, 0.0)
    ensures ResidualsX(ps, p) == Combine(1.0, SumXY(ps), -p.slope, SumXX(ps), -p.intercept, SumX(ps), 0.0, 0.0)
  {
    hide Times, Residual, Combine, Total;
    var r, rx := ResidualAt(p), ResidualXAt(p);
    forall q: Point
      ensures r(q) == Combine(1.0, Y(q), -p.slope, X(q), -p.intercept, One(q), 0.0, Zero(q))
      ensures rx(q) == Combine(1.0, XY(q), -p.slope, XX(q), -p.intercept, X(q), 0.0, Zero(q))
    {
      PointResidual(q, p);
    }
    TotalOne(ps);
    TotalLinear(ps, r, 1.0, Y, -p.slope, X, -p.intercept, One, 0.0, Zero);
    TotalLinear(ps, rx, 1.0, XY, -p.slope, XX, -p.intercept, X, 0.0, Zero);
  }

  lemma ValueSquared(d: Poly, x: real)
    ensures Times(Value(d, x), Value(d, x)) ==
            Combine(d.slope * d.slope, Times(x, x), 2.0 * (d.slope * d.intercept), x, d.intercept * d.intercept, 1.0, 0.0, 0.0)
  {
    var u, v := d.slope, d.intercept;
    var a := u * x;
    assert Times(a + v, a + v) == a * a + 2.0 * (a * v) + v * v;
    assert a * a == (u * u) * (x * x);
    assert a * v == (u * v) * x;
  }

  lemma NormExpands(ps: seq<Point>, d: Poly)
    ensures Norm(ps, d) == Combine(d.slope * d.slope, SumXX(ps), 2.0 * (d.slope * d.intercept), SumX(ps),
                                   d.intercept * d.intercept, Count(ps), 0.0, 0.0)
  {
    hide Times, Value, Combine, Total;
    var f, uu, uv, vv := NormAt(d), d.slope * d.slope, 2.0 * (d.slope * d.intercept), d.intercept * d.intercept;
    forall q: Point
      ensures f(q) == Combine(uu, XX(q), uv, X(q), vv, One(q), 0.0, Zero(q))
    {
      ValueSquared(d, q.x);
    }
    TotalOne(ps);
    TotalLinear(ps, f, uu, XX, uv, X, vv, One, 0.0, Zero);
  }

  lemma {:induction false} NormZero(ps: seq<Point>, d: Poly)
    ensures Norm(ps, d) >= 0.0
    ensures Norm(ps, d) == 0.0 <==> forall i | 0 <= i < |ps| :: Value(d, ps[i].x) == 0.0
  {
    if ps != [] {
      hide Times, Value;
      NormZero(ps[1..], d);
      var w := Value(d, ps[0].x);
      TimesSign(w, w);
      assert Norm(ps, d) == Times(w, w) + Norm(ps[1..], d);
      assert forall i | 0 < i < |ps| :: ps[i] == ps[1..][i - 1];
      assert forall i | 0 <= i < |ps[1..]| :: ps[1..][i] == ps[i + 1];
    }
  }

  lemma SpreadIsNorm(d: Poly, n: real, sx: real, sxx: real)
    requires d == Poly(n, -sx)
    ensures Combine(d.slope * d.slope, sxx, 2.0 * (d.slope * d.intercept), sx, d.intercept * d.intercept, n, 0.0, 0.0)
         == Times(n, Times(n, sxx) - Times(sx, sx))
  {
    assert n * (n * sxx - sx * sx) == n * (n * sxx) - n * (sx * sx);
    assert n * (n * sxx) == (n * n) * sxx;
    assert 2.0 * (n * -sx) * sx == -2.0 * (n * (sx * sx));
    assert (-sx) * (-sx) * n == n * (sx * sx);
  }

  lemma LineIsFlat(u: real, v: real, a: real, b: real)
    requires a != b && u * a + v == 0.0 && u * b + v == 0.0
    ensures u == 0.0 && v == 0.0
  {
    assert u * (a - b) == 0.0;
  }

  /** A line other than zero has a positive norm when two measurements are at different shares. */
  lemma NormPositive(ps: seq<Point>, d: Poly)
    requires TwoShares(ps)
    ensures Norm(ps, d) >= 0.0
    ensures Norm(ps, d) == 0.0 <==> d == Poly(0.0, 0.0)
  {
    NormZero(ps, d);
    var i, j :| 0 <= i < |ps| && 0 <= j < |ps| && ps[i].x != ps[j].x;
    if Norm(ps, d) == 0.0 {
      hide Norm;
      assert Value(d, ps[i].x) == 0.0 && Value(d, ps[j].x) == 0.0;
      LineIsFlat(d.slope, d.intercept, ps[i].x, ps[j].x);
    }
  }

  lemma FactorSign(n: real, s: real)
    requires n > 0.0 && Times(n, s) > 0.0
    ensures s > 0.0
  {
    hide Times;
    TimesSign(n, -s);
    TimesNegates(n, s);
    TimesSign(n, s);
  }

  lemma TimesNegates(a: real, b: real)
    ensures Times(a, -b) == -Times(a, b) && Times(-a, b) == -Times(a, b)
  {
  }

  /** The normal equations have one solution when two measurements are at different shares. */
  lemma SpreadPositive(ps: seq<Point>)
    requires TwoShares(ps)
    ensures Spread(ps) > 0.0
  {
    hide Times, Combine, Norm, SumX, SumXX;
    var d := Poly(Count(ps), -SumX(ps));
    NormExpands(ps, d);
    SpreadIsNorm(d, Count(ps), SumX(ps), SumXX(ps));
    NormPositive(ps, d);
    FactorSign(Count(ps), Spread(ps));
  }

  lemma CrossProducts(n: real, sx: real, sy: real, sxx: real, sxy: real, m: real, b: real)
    requires n != 0.0 && Times(n, sxx) - Times(sx, sx) != 0.0
    requires m == (Times(n, sxy) - Times(sx, sy)) / (Times(n, sxx) - Times(sx, sx)) && b == (sy - m * sx) / n
    ensures Combine(1.0, sy, -m, sx, -b, n, 0.0, 0.0) == 0.0
    ensures Combine(1.0, sxy, -m, sxx, -b, sx, 0.0, 0.0) == 0.0
  {
    assert b * n == sy - m * sx;
    assert m * (n * sxx - sx * sx) == n * sxy - sx * sy;
    var e := sxy - m * sxx - b * sx;
    assert n * e == n * sxy - m * (n * sxx) - (b * n) * sx;
    assert n * e == n * sxy - m * (n * sxx) - sy * sx + m * (sx * sx);
    assert n * e == 0.0;
  }

  lemma FitNormalEquations(ps: seq<Point>)
    requires TwoShares(ps)
    ensures Spread(ps) > 0.0 && Residuals(ps, Fit(ps)) == 0.0 && ResidualsX(ps, Fit(ps)) == 0.0
  {
    hide Times, Combine, Residuals, ResidualsX, SumX, SumY, SumXX, SumXY;
    SpreadPositive(ps);
    ResidualSums(ps, Fit(ps));
    CrossProducts(Count(ps), SumX(ps), SumY(ps), SumXX(ps), SumXY(ps), Fit(ps).slope, Fit(ps).intercept);
  }

  /** The fitted line is the one and only line of least squared error. */
  lemma FitIsBest(ps: seq<Point>, q: Poly)
    requires TwoShares(ps)
    ensures Spread(ps) > 0.0 && Error(ps, Fit(ps)) <= Error(ps, q)
    ensures Error(ps, Fit(ps)) == Error(ps, q) <==> q == Fit(ps)
  {
    FitNormalEquations(ps);
    hide Times, Fit, Spread, Error, Residuals, ResidualsX, Norm;
    var p := Fit(ps);
    var d := Poly(q.slope - p.slope, q.intercept - p.intercept);
    assert Plus(p, d) == q;
    ErrorExpands(ps, p, d);
    TimesSign(d.slope, 0.0);
    TimesSign(d.intercept, 0.0);
    NormPositive(ps, d);
  }

  /********** Chebyshev's sum inequality **********/

  function CrossAt(p: Point): Point -> real { (q: Point) => Times(q.x - p.x, q.y - p.y) }

  /** Sum over later points of the products of their differences to a first point. */
  function Cross(p: Point, qs: seq<Point>): real { Total(qs, CrossAt(p)) }

  lemma PointCross(q: Point, p: Point)
    ensures Times(q.x - p.x, q.y - p.y) == Combine(1.0, XY(q), -p.x, Y(q), -p.y, X(q), Times(p.x, p.y), 1.0)
  {
    var a, b, x, y := p.x, p.y, q.x, q.y;
    assert (x - a) * (y - b) == x * y - a * y - b * x + a * b;
  }

  lemma CrossExpands(p: Point, qs: seq<Point>)
    ensures Cross(p, qs) == Combine(1.0, SumXY(qs), -p.x, SumY(qs), -p.y, SumX(qs), Times(p.x, p.y), Count(qs))
  {
    hide Times, Combine, Total;
    var f := CrossAt(p);
    forall q: Point
      ensures f(q) == Combine(1.0, XY(q), -p.x, Y(q), -p.y, X(q), Times(p.x, p.y), One(q))
    {
      PointCross(q, p);
    }
    TotalLinear(qs, f, 1.0, XY, -p.x, Y, -p.y, X, Times(p.x, p.y), One);
    TotalOne(qs);
  }

  lemma CovarianceStep(n: real, px: real, py: real, sx: real, sy: real, sxy: real)
    ensures Times(1.0 + n, Times(px, py) + sxy) - Times(px + sx, py + sy)
         == Times(n, sxy) - Times(sx, sy) + Combine(1.0, sxy, -px, sy, -py, sx, Times(px, py), n)
  {
    assert (1.0 + n) * (px * py + sxy) == px * py + sxy + n * (px * py) + n * sxy;
    assert (px + sx) * (py + sy) == px * py + px * sy + sx * py + sx * sy;
  }

  lemma CovarianceOfCons(ps: seq<Point>)
    requires ps != []
    ensures Covariance(ps) == Covariance(ps[1..]) + Cross(ps[0], ps[1..])
  {
    hide Times, Combine, Cross;
    var p, qs := ps[0], ps[1..];
    CrossExpands(p, qs);
    assert Count(ps) == 1.0 + Count(qs) && SumX(ps) == p.x + SumX(qs) && SumY(ps) == p.y + SumY(qs);
    assert SumXY(ps) == Times(p.x, p.y) + SumXY(qs);
    CovarianceStep(Count(qs), p.x, p.y, SumX(qs), SumY(qs), SumXY(qs));
  }

  /** Shares strictly increase and speeds never drop. */
  predicate Rising(ps: seq<Point>) {
    forall i, j | 0 <= i < j < |ps| :: ps[i].x < ps[j].x && ps[i].y <= ps[j].y
  }

  /** Some speed is above a first one. */
  predicate Above(y: real, qs: seq<Point>) { exists i | 0 <= i < |qs| :: y < qs[i].y }

  lemma AboveOfCons(y: real, qs: seq<Point>)
    requires qs != []
    ensures Above(y, qs) <==> y < qs[0].y || Above(y, qs[1..])
  {
    var t := qs[1..];
    if Above(y, qs) && y >= qs[0].y {
      var i :| 0 <= i < |qs| && y < qs[i].y;
      assert t[i - 1] == qs[i];
    }
    if Above(y, t) {
      var i :| 0 <= i < |t| && y < t[i].y;
      assert qs[i + 1] == t[i];
    }
  }

  lemma {:induction false} CrossSign(p: Point, qs: seq<Point>)
    requires forall i | 0 <= i < |qs| :: p.x < qs[i].x && p.y <= qs[i].y
    ensures Cross(p, qs) >= 0.0
    ensures Above(p.y, qs) <==> Cross(p, qs) > 0.0
  {
    if qs != [] {
      assert forall i | 0 <= i < |qs[1..]| :: qs[1..][i] == qs[i + 1];
      CrossSign(p, qs[1..]);
      hide Times;
      TimesSign(qs[0].x - p.x, qs[0].y - p.y);
      assert Cross(p, qs) == Times(qs[0].x - p.x, qs[0].y - p.y) + Cross(p, qs[1..]);
      AboveOfCons(p.y, qs);
    }
  }

  /** Measurements that rise have nonnegative covariance, positive exactly when the speeds differ. */
  lemma {:induction false} RisingCovariance(ps: seq<Point>)
    requires Rising(ps) && ps != []
    ensures Covariance(ps) >= 0.0
    ensures Above(ps[0].y, ps) <==> Covariance(ps) > 0.0
  {
    var qs := ps[1..];
    assert forall i | 0 <= i < |qs| :: qs[i] == ps[i + 1];
    CovarianceOfCons(ps);
    CrossSign(ps[0], qs);
    AboveOfCons(ps[0].y, ps);
    if qs == [] {
      hide Times;
      TimesSign(Count(qs), 0.0);
      TimesSign(0.0, 0.0);
    } else {
      hide Covariance, Cross;
      RisingCovariance(qs);
      if Above(qs[0].y, qs) {
        var i :| 0 <= i < |qs| && qs[0].y < qs[i].y;
        assert ps[0].y < qs[i].y;
      }
    }
  }

  lemma QuotientSign(a: real, b: real)
    requires b > 0.0
    ensures a / b > 0.0 <==> a > 0.0
    ensures a / b >= 0.0 <==> a >= 0.0
  {
    var c := a / b;
    assert c * b == a;
    if c > 0.0 {
      assert c * b > 0.0;
    } else {
      assert c * b <= 0.0;
    }
    if c < 0.0 {
      assert c * b < 0.0;
    }
  }

  /** With rising measurements at two shares or more, the fitted speed never falls with the CPU share,
      and it grows exactly when the measured speeds are not all equal. */
  lemma SlopeSign(ps: seq<Point>)
    requires Rising(ps) && |ps| > 1
    ensures Spread(ps) > 0.0 && Fit(ps).slope >= 0.0
    ensures Fit(ps).slope > 0.0 <==> exists i, j | 0 <= i < |ps| && 0 <= j < |ps| :: ps[i].y != ps[j].y
  {
    hide Covariance, Spread, SumX, SumY;
    assert ps[0].x != ps[1].x;
    SpreadPositive(ps);
    RisingCovariance(ps);
    QuotientSign(Covariance(ps), Spread(ps));
    if i, j :| 0 <= i < |ps| && 0 <= j < |ps| && ps[i].y != ps[j].y {
      var k := if ps[i].y < ps[j].y then j else i;
      assert ps[0].y < ps[k].y;
    }
  }

  /********** Sampling **********/

  /** Share number `i` of `linspace(start, stop, num)`. */
  function Share(start: real, stop: real, num: nat, i: nat): real {
    if num <= 1 then start else start + Times(i as real, (stop - start) / ((num - 1) as real))
  }

  /** The dataset: the origin, then a measured speed for every share. */
  function Dataset(start: real, stop: real, speeds: seq<real>): (ps: seq<Point>)
    ensures |ps| == |speeds| + 1 && ps[0] == Point(0.0, 0.0)
    ensures forall k | 0 < k < |ps| :: ps[k] == Point(Share(start, stop, |speeds|, k - 1), speeds[k - 1])
  {
    [Point(0.0, 0.0)] + seq(|speeds|, i requires 0 <= i < |speeds| => Point(Share(start, stop, |speeds|, i), speeds[i]))
  }

  lemma TimesRises(a: real, b: real, c: real)
    requires a < b && c > 0.0
    ensures Times(a, c) < Times(b, c)
  {
    TimesSign(b - a, c);
  }

  lemma SharesRise(start: real, stop: real, num: nat, i: nat, j: nat)
    requires i < j < num && start < stop
    ensures Share(start, stop, num, i) < Share(start, stop, num, j)
  {
    hide Times;
    QuotientSign(stop - start, (num - 1) as real);
    TimesRises(i as real, j as real, (stop - start) / ((num - 1) as real));
  }

  lemma FirstShare(start: real, stop: real, num: nat)
    ensures Share(start, stop, num, 0) == start
  {
    hide Times;
    if num > 1 {
      TimesSign(0.0, (stop - start) / ((num - 1) as real));
    }
  }

  lemma DatasetRises(start: real, stop: real, speeds: seq<real>)
    requires 0.0 < start && (|speeds| > 1 ==> start < stop)
    requires forall i | 0 <= i < |speeds| :: speeds[i] >= 0.0
    requires forall i, j | 0 <= i < j < |speeds| :: speeds[i] <= speeds[j]
    ensures Rising(Dataset(start, stop, speeds))
  {
    var ps, num := Dataset(start, stop, speeds), |speeds|;
    forall i, j | 0 <= i < j < |ps| ensures ps[i].x < ps[j].x && ps[i].y <= ps[j].y {
      FirstShare(start, stop, num);
      hide Share, Dataset;
      if j > 1 {
        SharesRise(start, stop, num, 0, j - 1);
      }
      if i > 0 {
        SharesRise(start, stop, num, i - 1, j - 1);
      }
    }
  }

  lemma DatasetSpread(start: real, stop: real, speeds: seq<real>)
    requires 0.0 < start && |speeds| > 0
    ensures Spread(Dataset(start, stop, speeds)) > 0.0
  {
    var ps := Dataset(start, stop, speeds);
    FirstShare(start, stop, |speeds|);
    assert ps[0].x != ps[1].x;
    SpreadPositive(ps);
  }

  datatype Benchmark = Line(poly: Poly) | ValueError

  /** The line of a benchmark; without samples only the origin is left, and the fit is zero. */
  function FitOf(start: real, stop: real, speeds: seq<real>): Poly
    requires 0.0 < start
  {
    if speeds == [] then Poly(0.0, 0.0)
    else
      DatasetSpread(start, stop, speeds);
      Fit(Dataset(start, stop, speeds))
  }

  /** The line of a benchmark is the one and only line of least squared error over its dataset. */
  lemma BenchmarkIsBest(start: real, stop: real, speeds: seq<real>, q: Poly)
    requires 0.0 < start && speeds != []
    ensures Error(Dataset(start, stop, speeds), FitOf(start, stop, speeds)) <= Error(Dataset(start, stop, speeds), q)
    ensures Error(Dataset(start, stop, speeds), FitOf(start, stop, speeds)) == Error(Dataset(start, stop, speeds), q)
            <==> q == FitOf(start, stop, speeds)
  {
    hide Error, Dataset, Share, Fit;
    var ps := Dataset(start, stop, speeds);
    FirstShare(start, stop, |speeds|);
    assert ps[0].x != ps[1].x;
    FitIsBest(ps, q);
  }

  lemma OnlyOrigin(start: real, stop: real)
    ensures Dataset(start, stop, []) == [Point(0.0, 0.0)]
  {
  }

  /** Without samples the line is zero: it meets the origin and counts as a constant. */
  lemma NoSamples(start: real, stop: real)
    requires 0.0 < start
    ensures Error(Dataset(start, stop, []), FitOf(start, stop, [])) == 0.0 && !Truthy(FitOf(start, stop, []))
  {
    hide Dataset, Error, Fit, Share;
    OnlyOrigin(start, stop);
    ErrorOfCons(Point(0.0, 0.0), [], FitOf(start, stop, []));
    assert [Point(0.0, 0.0)] + [] == [Point(0.0, 0.0)];
  }

  /** The shares run from the first to the last in equal steps. */
  lemma SharesAreEven(start: real, stop: real, speeds: seq<real>)
    requires speeds != []
    ensures var ps := Dataset(start, stop, speeds);
            && ps[0] == Point(0.0, 0.0) && ps[1].x == start && (|speeds| > 1 ==> ps[|speeds|].x == stop)
            && (forall i | 0 < i < |speeds| - 1 :: ps[i + 1].x - ps[i].x == ps[i + 2].x - ps[i + 1].x)
            && forall i | 0 < i <= |speeds| :: ps[i].y == speeds[i - 1]
  {
    hide Share, Times;
    var ps, num := Dataset(start, stop, speeds), |speeds|;
    FirstShare(start, stop, num);
    if num > 1 {
      LastShare(start, stop, num);
    }
    forall i | 0 < i < num - 1 ensures ps[i + 1].x - ps[i].x == ps[i + 2].x - ps[i + 1].x {
      NextShare(start, stop, num, i - 1);
      NextShare(start, stop, num, i);
    }
  }

  lemma LastShare(start: real, stop: real, num: nat)
    requires num > 1
    ensures Share(start, stop, num, num - 1) == stop
  {
    var n, d := (num - 1) as real, stop - start;
    assert n * (d / n) == d;
  }

  lemma NextShare(start: real, stop: real, num: nat, i: nat)
    requires num > 1
    ensures Share(start, stop, num, i + 1) == Share(start, stop, num, i) + (stop - start) / ((num - 1) as real)
  {
    hide Times;
    var step := (stop - start) / ((num - 1) as real);
    TimesOne(step);
    TimesAddsLeft(i as real, 1.0, step);
  }

  lemma TimesOne(c: real)
    ensures Times(1.0, c) == c
  {
  }

  lemma TimesAddsLeft(a: real, b: real, c: real)
    ensures Times(a + b, c) == Times(a, c) + Times(b, c)
  {
  }

  /** The squared error is the sum of the squared distances to the line. */
  lemma {:induction false} ErrorOfCons(q: Point, ps: seq<Point>, p: Poly)
    ensures Error([], p) == 0.0
    ensures Error([q] + ps, p) == (q.y - (p.slope * q.x + p.intercept)) * (q.y - (p.slope * q.x + p.intercept)) + Error(ps, p)
  {
    assert ([q] + ps)[1..] == ps;
  }

  lemma DatasetDiffers(start: real, stop: real, speeds: seq<real>)
    requires forall i | 0 <= i < |speeds| :: speeds[i] >= 0.0
    ensures var ps := Dataset(start, stop, speeds);
            (exists i, j | 0 <= i < |ps| && 0 <= j < |ps| :: ps[i].y != ps[j].y)
            <==> exists i | 0 <= i < |speeds| :: speeds[i] > 0.0
  {
    hide Dataset, Share;
    var ps := Dataset(start, stop, speeds);
    if i :| 0 <= i < |speeds| && speeds[i] > 0.0 {
      assert ps[0].y != ps[i + 1].y;
    }
    if i, j :| 0 <= i < |ps| && 0 <= j < |ps| && ps[i].y != ps[j].y {
      var k := if ps[i].y != 0.0 then i else j;
      assert ps[k].y == speeds[k - 1];
    }
  }

  /** At the sample shares of the benchmark, speeds that never drop give a line that can be solved for a
      target speed exactly when some speed is above zero. */
  lemma BenchmarkIsSolvable(start: real, stop: real, speeds: seq<real>)
    requires 0.0 < start && speeds != [] && (|speeds| > 1 ==> start < stop)
    requires forall i | 0 <= i < |speeds| :: speeds[i] >= 0.0
    requires forall i, j | 0 <= i < j < |speeds| :: speeds[i] <= speeds[j]
    ensures FitOf(start, stop, speeds).slope >= 0.0
    ensures FitOf(start, stop, speeds).slope > 0.0 <==> exists i | 0 <= i < |speeds| :: speeds[i] > 0.0
  {
    hide Fit, Dataset, Rising, Spread;
    DatasetRises(start, stop, speeds);
    SlopeSign(Dataset(start, stop, speeds));
    DatasetDiffers(start, stop, speeds);
  }

  /** The module-level cache of fitted lines. */
  class SpeedCache {
    var cache: map<(nat, real, real), Poly>

    constructor ()
      ensures cache == map[]
    {
      cache := map[];
    }

    /** `get_cpu_core_speed_poly`; `speeds` are the speeds the benchmark would measure. A cached constant
        counts as missing and is measured again. */
    method GetSpeedPoly(start: real, stop: real, useCache: bool, speeds: seq<real>) returns (r: Benchmark)
      modifies this
      ensures start <= 0.0 ==> r == ValueError && cache == old(cache)
      ensures start > 0.0 ==>
                var key := (|speeds|, start, stop);
                if useCache && key in old(cache) && Truthy(old(cache)[key])
                then r == Line(old(cache)[key]) && cache == old(cache)
                else r == Line(FitOf(start, stop, speeds)) && cache == old(cache)[key := r.poly]
    {
      var key := (|speeds|, start, stop);
      if start <= 0.0 {
        return ValueError;
      }
      if useCache && key in cache && Truthy(cache[key]) {
        return Line(cache[key]);
      }
      var poly := FitOf(start, stop, speeds);
      cache := cache[key := poly];
      return Line(poly);
    }
  }
}
