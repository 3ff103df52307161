/**
 * The sub-step arithmetic of the blade sweep: how many swept queries one motion
 * segment is split into, and which part of the segment each of them covers.
 * Distances and fractions are exact reals; the engine computes them in single
 * precision.
 */
module SweepSteps {
  import opened Geometry

  function MaxReal(a: real, b: real): real
  {
    if a >= b then a else b
  }

  function MaxInt(a: int, b: int): int
  {
    if a >= b then a else b
  }

  /** The engine's ceiling-to-integer: the least integer that is not below x. */
  function Ceil(x: real): (n: int)
    ensures x <= n as real < x + 1.0
  {
    -((-x).Floor)
  }

  /** The sub-segment length cap in use: the configured maximum step, never below one unit. */
  function StepLength(maxStepDistance: real): (len: real)
    ensures len >= 1.0 && len >= maxStepDistance
    ensures len == 1.0 || len == maxStepDistance
  {
    MaxReal(1.0, maxStepDistance)
  }

  /**
   * Steps needed so that no step is longer than the cap: the fewest (at least
   * one) whose combined length covers the distance.
   */
  function StepsByDistance(dist: real, maxStepDistance: real): (n: int)
    ensures n >= 1
    ensures dist <= n as real * StepLength(maxStepDistance)
    ensures n > 1 ==> (n - 1) as real * StepLength(maxStepDistance) < dist
  {
    var len := StepLength(maxStepDistance);
    var c := Ceil(dist / len);
    CeilSteps(dist, len);
    MaxInt(1, c)
  }

  /** Sub-steps issued for one motion segment: the distance steps times the extra subdivisions, at least one. */
  function TotalSteps(dist: real, maxStepDistance: real, extraSubdivisions: int): (n: int)
    ensures n >= StepsByDistance(dist, maxStepDistance) >= 1
    ensures extraSubdivisions <= 1 ==> n == StepsByDistance(dist, maxStepDistance)
  {
    var k := StepsByDistance(dist, maxStepDistance);
    var m := MaxInt(1, extraSubdivisions);
    assert k * m >= k * 1;
    MaxInt(1, k * m)
  }

  /** Start point of sub-step s of n: the segment point at fraction s/n. */
  function SubStepStart(start: Vec3, end: Vec3, s: nat, n: nat): Vec3
    requires s < n
  {
    Lerp(start, end, s as real / n as real)
  }

  /** End point of sub-step s of n: the segment point at fraction (s+1)/n. */
  function SubStepEnd(start: Vec3, end: Vec3, s: nat, n: nat): Vec3
    requires s < n
  {
    Lerp(start, end, (s + 1) as real / n as real)
  }

  /**
   * Anti-tunnelling: whatever the distance travelled between two frames, each of
   * the sub-steps covers at most the step cap.
   */
  lemma SubStepLengthBounded(dist: real, maxStepDistance: real, extraSubdivisions: int)
    requires dist >= 0.0
    ensures dist / TotalSteps(dist, maxStepDistance, extraSubdivisions) as real <= StepLength(maxStepDistance)
  {
    var len := StepLength(maxStepDistance);
    var k := StepsByDistance(dist, maxStepDistance);
    var n := TotalSteps(dist, maxStepDistance, extraSubdivisions);
    assert dist <= k as real * len;
    assert k as real <= n as real;
    ScaleBy(k as real, n as real, len);
    assert k as real * len <= n as real * len;
    assert dist <= n as real * len;
    DivideBelow(dist, n as real, len);
  }

  /** Ceil(d / len) steps of length len cover d, and one fewer would not. */
  lemma CeilSteps(d: real, len: real)
    requires len > 0.0
    ensures d <= Ceil(d / len) as real * len
    ensures (Ceil(d / len) - 1) as real * len < d
  {
    var q := d / len;
    var c := Ceil(q);
    assert q * len == d;
    assert (c - 1) as real < q <= c as real;
    ScaleByStrict((c - 1) as real, q, len);
    assert (c - 1) as real * len < d;
    ScaleBy(q, c as real, len);
    assert d <= c as real * len;
  }

  lemma ScaleBy(a: real, b: real, k: real)
    requires a <= b && k > 0.0
    ensures a * k <= b * k
  {
  }

  lemma ScaleByStrict(a: real, b: real, k: real)
    requires a < b && k > 0.0
    ensures a * k < b * k
  {
  }

  lemma DivideBelow(d: real, n: real, len: real)
    requires n > 0.0 && d <= n * len
    ensures d / n <= len
  {
    assert d / n * n == d;
    assert n * len / n == len;
  }

  /** A segment of length zero (or an oracle distance below zero) is still swept once per extra subdivision. */
  lemma DegenerateSegmentSweptOnce(dist: real, maxStepDistance: real, extraSubdivisions: int)
    requires dist <= 0.0
    ensures TotalSteps(dist, maxStepDistance, extraSubdivisions) == MaxInt(1, extraSubdivisions)
  {
    var len := StepLength(maxStepDistance);
    assert dist / len <= 0.0;
  }

  /** The worked numbers: 100 units at a 25-unit cap is 4 sub-steps, and 8 with two extra subdivisions. */
  lemma TotalStepsExamples()
    ensures TotalSteps(100.0, 25.0, 1) == 4
    ensures TotalSteps(100.0, 25.0, 2) == 8
  {
    assert Ceil(100.0 / 25.0) == 4;
  }

  /**
   * The n sub-steps tile the segment: the first starts at its start, the last
   * ends at its end, and each one starts where the previous one ended.
   */
  lemma SubStepsTile(start: Vec3, end: Vec3, n: nat)
    requires n >= 1
    ensures SubStepStart(start, end, 0, n) == start
    ensures SubStepEnd(start, end, n - 1, n) == end
    ensures forall s :: 0 <= s < n - 1 ==> SubStepEnd(start, end, s, n) == SubStepStart(start, end, s + 1, n)
  {
    assert (n - 1 + 1) as real / n as real == 1.0;
  }
}
