/** From a fitted line and a target speed to a CPU quota (`get_cpu_core_scale` in wotemu/topology/cpu.py
    and the end of `update_limits` in wotemu/cli/limits.py), over exact reals. */
module CpuScale {
  import opened Collections
  import opened PolyProtocol
  import opened SpeedFit

  const MIN_SCALE: real := 0.01
  const CPU_PERIOD: real := 100000.0

  /** Coefficients as `poly1d` keeps them, highest power first and trimmed: a constant or a line. */
  predicate IsPoly(coeffs: seq<real>) {
    |coeffs| == 1 || (|coeffs| == 2 && coeffs[0] != 0.0)
  }

  function PolyOf(coeffs: seq<real>): Poly
    requires IsPoly(coeffs)
  {
    if |coeffs| == 1 then Poly(0.0, coeffs[0]) else Poly(coeffs[0], coeffs[1])
  }

  function Max(a: real, b: real): real { if a >= b then a else b }

  /** A constant has no root to take. */
  datatype Scale = Scale(cpus: real) | IndexError

  /** The scale is the share at which the line reaches the target, but no less than the minimum. */
  ghost predicate Solves(p: Poly, target: real, r: Scale) {
    if !Truthy(p) then r == IndexError
    else r.Scale? && exists x :: Value(p, x) == target && r.cpus == Max(x, MIN_SCALE)
  }

  lemma RootUnique(p: Poly, x: real, y: real)
    requires Truthy(p) && Value(p, x) == Value(p, y)
    ensures x == y
  {
    assert p.slope * (x - y) == 0.0;
  }

  /** The scale is determined by the line and the target. */
  lemma SolvesUnique(p: Poly, target: real, r: Scale, s: Scale)
    requires Solves(p, target, r) && Solves(p, target, s)
    ensures r == s
  {
    if Truthy(p) {
      var x :| Value(p, x) == target && r.cpus == Max(x, MIN_SCALE);
      var y :| Value(p, y) == target && s.cpus == Max(y, MIN_SCALE);
      RootUnique(p, x, y);
    }
  }

  lemma RootSolves(a: real, b: real, target: real)
    requires a != 0.0
    ensures Value(Poly(a, b), -(b - target) / a) == target
  {
    var x := -(b - target) / a;
    assert a * x == -(b - target);
  }

  /** `get_cpu_core_scale`. The target is subtracted from a copy of the coefficients, so the polynomial of
      the caller, which may be the cached one, keeps its own. */
  method GetCoreScale(target: real, core: array?<real>, benchmark: array<real>) returns (r: Scale, warned: bool)
    requires IsPoly(benchmark[..]) && (core != null ==> IsPoly(core[..]))
    ensures var p := if core != null && Truthy(PolyOf(core[..])) then PolyOf(core[..]) else PolyOf(benchmark[..]);
            Solves(p, target, r) && (warned <==> target > Value(p, 1.0))
  {
    var poly := if core != null && core.Length > 1 then core else benchmark;
    var max := if poly.Length == 1 then poly[0] else poly[0] * 1.0 + poly[1];
    warned := target > max;
    var coeffs := new real[poly.Length](i requires 0 <= i < poly.Length reads poly => poly[i]);
    coeffs[coeffs.Length - 1] := coeffs[coeffs.Length - 1] - target;
    if coeffs.Length == 1 {
      r := IndexError;
    } else {
      var root := -coeffs[1] / coeffs[0];
      RootSolves(poly[0], poly[1], target);
      r := Scale(if root >= MIN_SCALE then root else MIN_SCALE);
    }
  }

  /** `int(_CPU_PERIOD * speed_scale)`; the scale is positive, so truncation is the floor. */
  function Quota(cpus: real): int { (CPU_PERIOD * cpus).Floor }

  function SpeedAt(p: Poly, quota: int): real { Value(p, quota as real / CPU_PERIOD) }

  lemma ValueRises(p: Poly, x: real, y: real)
    requires p.slope > 0.0
    ensures x < y <==> Value(p, x) < Value(p, y)
  {
    assert Value(p, y) - Value(p, x) == p.slope * (y - x);
    hide Value;
    var s, d := p.slope, y - x;
    if d > 0.0 {
      assert s * d > 0.0;
    } else {
      assert s * d <= 0.0;
    }
  }

  /** On a rising line a higher target never gets a smaller scale, and the user is warned exactly when
      the scale exceeds one core. */
  lemma ScaleMonotone(p: Poly, low: real, high: real, r: Scale, s: Scale)
    requires p.slope > 0.0 && low <= high && Solves(p, low, r) && Solves(p, high, s)
    ensures r.cpus <= s.cpus
    ensures low > Value(p, 1.0) <==> r.cpus > 1.0
  {
    var x :| Value(p, x) == low && r.cpus == Max(x, MIN_SCALE);
    var y :| Value(p, y) == high && s.cpus == Max(y, MIN_SCALE);
    ValueRises(p, y, x);
    ValueRises(p, 1.0, x);
  }

  /** On a rising line the scale meets the target exactly, unless the minimum already exceeds it. */
  lemma ScaleMeetsTarget(p: Poly, target: real, r: Scale)
    requires p.slope > 0.0 && Solves(p, target, r)
    ensures r.cpus >= MIN_SCALE && Value(p, r.cpus) >= target
    ensures Value(p, r.cpus) == target <==> Value(p, MIN_SCALE) <= target
    ensures Value(p, MIN_SCALE) > target ==> r.cpus == MIN_SCALE
  {
    var x :| Value(p, x) == target && r.cpus == Max(x, MIN_SCALE);
    ValueRises(p, x, MIN_SCALE);
  }

  lemma FloorIs(cpus: real, n: int)
    ensures n <= Quota(cpus) <==> n as real / CPU_PERIOD <= cpus
  {
    var c := CPU_PERIOD * cpus;
    assert c.Floor as real <= c < c.Floor as real + 1.0;
    assert n as real / CPU_PERIOD <= cpus <==> n as real <= c;
  }

  /** On a rising line the quota is the largest one, from 1000 up, at which the speed stays within the
      target; only the minimum quota may exceed it. */
  lemma QuotaIsLargest(p: Poly, target: real, r: Scale, n: int)
    requires p.slope > 0.0 && Solves(p, target, r)
    ensures Quota(r.cpus) >= 1000
    ensures n > 1000 ==> (n <= Quota(r.cpus) <==> SpeedAt(p, n) <= target)
  {
    var x :| Value(p, x) == target && r.cpus == Max(x, MIN_SCALE);
    FloorIs(r.cpus, 1000);
    FloorIs(r.cpus, n);
    ValueRises(p, x, n as real / CPU_PERIOD);
  }

  lemma OneStep(p: Poly, n: int)
    ensures SpeedAt(p, n + 1) == SpeedAt(p, n) + p.slope / CPU_PERIOD
  {
    var x, y := n as real / CPU_PERIOD, (n + 1) as real / CPU_PERIOD;
    assert y == x + 1.0 / CPU_PERIOD;
    assert p.slope * y == p.slope * x + p.slope * (1.0 / CPU_PERIOD);
  }

  /** The speed at the quota is short of the target by less than one quota step exactly when the minimum
      scale does not exceed the target; otherwise the quota is the minimum. */
  lemma QuotaWithinOneStep(p: Poly, target: real, r: Scale)
    requires p.slope > 0.0 && Solves(p, target, r)
    ensures target - p.slope / CPU_PERIOD < SpeedAt(p, Quota(r.cpus)) <= target <==> Value(p, MIN_SCALE) <= target
    ensures Value(p, MIN_SCALE) > target ==> Quota(r.cpus) == 1000 && SpeedAt(p, 1000) > target
  {
    var q := Quota(r.cpus);
    QuotaIsLargest(p, target, r, q);
    QuotaIsLargest(p, target, r, q + 1);
    OneStep(p, q);
    assert SpeedAt(p, 1000) == Value(p, MIN_SCALE);
    hide Quota, SpeedAt;
    assert SpeedAt(p, q + 1) > target;
    if Value(p, MIN_SCALE) > target && q > 1000 {
      QuotaIsLargest(p, target, r, 1001);
      ValueRises(p, MIN_SCALE, 1001.0 / CPU_PERIOD);
    }
  }

  /** `update_limits`: `shared` is what the Redis protocol returned, null when it raised. A missing or
      constant polynomial is replaced by the local benchmark. */
  method UpdateLimits(local: bool, speed: real, shared: array?<real>, benchmark: array<real>) returns (quota: Option<int>)
    requires IsPoly(benchmark[..]) && (shared != null ==> IsPoly(shared[..]))
    ensures var p := if !local && shared != null && Truthy(PolyOf(shared[..])) then PolyOf(shared[..]) else PolyOf(benchmark[..]);
            && (quota == None <==> !Truthy(p))
            && (quota.Some? ==> exists r :: Solves(p, speed, r) && quota.value == Quota(r.cpus))
  {
    var poly: array?<real> := null;
    if !local {
      poly := shared;
    }
    if poly == null || poly.Length == 1 {
      poly := benchmark;
    }
    var scale, warned := GetCoreScale(speed, poly, benchmark);
    quota := if scale.IndexError? then None else Some(Quota(scale.cpus));
  }

  /** From measurements to the quota: with a benchmark that never slows down and is not all zero, any
      target above the speed at the minimum scale is met from below to within one quota step. */
  lemma MeasuredQuota(start: real, stop: real, speeds: seq<real>, target: real, r: Scale)
    requires 0.0 < start && (|speeds| > 1 ==> start < stop)
    requires forall i | 0 <= i < |speeds| :: speeds[i] >= 0.0
    requires forall i, j | 0 <= i < j < |speeds| :: speeds[i] <= speeds[j]
    requires exists i | 0 <= i < |speeds| :: speeds[i] > 0.0
    requires Solves(FitOf(start, stop, speeds), target, r)
    requires Value(FitOf(start, stop, speeds), MIN_SCALE) <= target
    ensures var p := FitOf(start, stop, speeds);
            r.Scale? && target - p.slope / CPU_PERIOD < SpeedAt(p, Quota(r.cpus)) <= target
  {
    BenchmarkIsSolvable(start, stop, speeds);
    QuotaWithinOneStep(FitOf(start, stop, speeds), target, r);
  }
}
