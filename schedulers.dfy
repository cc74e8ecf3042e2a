/** Scheduling functions of the LaProp optimizer: the piecewise-linear warmup of a
    coefficient from a start value to an end value, in idealised real arithmetic. */
module Schedulers {

  /** The only failure the scheduler can raise: dividing by a warmup length of zero. */
  datatype Fault = ZeroDivision

  datatype Result<T> = Success(value: T) | Failure(fault: Fault)

  function Min(x: real, y: real): (m: real) { if x <= y then x else y }

  function Max(x: real, y: real): (m: real) { if x <= y then y else x }

  /** `linear_warmup_scheduler`: while `step` is below `warmup` the result moves linearly
      from `alphaStart` (at step 0) towards `alphaEnd`; from `warmup` on it is clamped to
      `alphaEnd` exactly. The quotient `step / warmup` is only taken inside the ramp, so the
      division fails only for a step below a warmup of zero, that is, for a negative step. */
  function LinearWarmup(step: real, alphaEnd: real, alphaStart: real := 0.0, warmup: real := 1.0): (r: Result<real>)
    ensures r.Failure? <==> step < warmup && warmup == 0.0
    ensures warmup <= step ==> r == Success(alphaEnd)
    ensures 0.0 <= step ==> r.Success?
  {
    if step < warmup then
      if warmup == 0.0 then Failure(ZeroDivision)
      else
        var a := step / warmup;
        Success((1.0 - a) * alphaStart + a * alphaEnd)
    else
      Success(alphaEnd)
  }

  /** The warmup as a textbook formula: `start + (end - start) * min(1, step / warmup)`. */
  function ReferenceWarmup(step: real, alphaEnd: real, alphaStart: real, warmup: real): (r: real)
    requires warmup > 0.0
  {
    alphaStart + (alphaEnd - alphaStart) * Min(1.0, step / warmup)
  }

  /** For every positive warmup length and every step, the scheduler agrees with the
      textbook formula, both on the ramp and after the clamp. */
  lemma LinearWarmupMatchesReference(step: real, alphaEnd: real, alphaStart: real, warmup: real)
    requires warmup > 0.0
    ensures LinearWarmup(step, alphaEnd, alphaStart, warmup) == Success(ReferenceWarmup(step, alphaEnd, alphaStart, warmup))
  {
    if step < warmup {
      RampMatchesReference(step, alphaEnd, alphaStart, warmup);
    } else {
      ClampMatchesReference(step, alphaEnd, alphaStart, warmup);
    }
  }

  lemma RampMatchesReference(step: real, alphaEnd: real, alphaStart: real, warmup: real)
    requires 0.0 < warmup && step < warmup
    ensures LinearWarmup(step, alphaEnd, alphaStart, warmup) == Success(ReferenceWarmup(step, alphaEnd, alphaStart, warmup))
  {
    var a := step / warmup;
    RampValue(step, alphaEnd, alphaStart, warmup);
    DivBelowOne(step, warmup);
    assert Min(1.0, a) == a;
    assert ReferenceWarmup(step, alphaEnd, alphaStart, warmup) == alphaStart + (alphaEnd - alphaStart) * a;
    Affine(a, alphaStart, alphaEnd);
    assert LinearWarmup(step, alphaEnd, alphaStart, warmup).value == (1.0 - a) * alphaStart + a * alphaEnd;
    assert LinearWarmup(step, alphaEnd, alphaStart, warmup).value == ReferenceWarmup(step, alphaEnd, alphaStart, warmup);
  }

  lemma ClampMatchesReference(step: real, alphaEnd: real, alphaStart: real, warmup: real)
    requires 0.0 < warmup <= step
    ensures ReferenceWarmup(step, alphaEnd, alphaStart, warmup) == alphaEnd
  {
    DivAtLeastOne(step, warmup);
    var m := Min(1.0, step / warmup);
    assert m == 1.0;
    assert ReferenceWarmup(step, alphaEnd, alphaStart, warmup) == alphaStart + (alphaEnd - alphaStart) * m;
  }

  /** The value on the ramp, with the quotient named. */
  lemma RampValue(step: real, alphaEnd: real, alphaStart: real, warmup: real)
    requires 0.0 < warmup && step < warmup
    ensures LinearWarmup(step, alphaEnd, alphaStart, warmup) == Success((1.0 - step / warmup) * alphaStart + step / warmup * alphaEnd)
  {
  }

  lemma Affine(a: real, s: real, e: real)
    ensures (1.0 - a) * s + a * e == s + (e - s) * a
  {
  }

  lemma DivBelowOne(x: real, y: real)
    requires y > 0.0 && x < y
    ensures x / y < 1.0
  {
    assert x / y * y == x;
  }

  lemma DivAtLeastOne(x: real, y: real)
    requires y > 0.0 && x >= y
    ensures x / y >= 1.0
  {
    assert x / y * y == x;
  }

  lemma DivNonNegative(x: real, y: real)
    requires y > 0.0 && x >= 0.0
    ensures x / y >= 0.0
  {
    assert x / y * y == x;
  }

  lemma DivMonotone(x1: real, x2: real, y: real)
    requires y > 0.0 && x1 <= x2
    ensures x1 / y <= x2 / y
  {
    assert x2 / y - x1 / y == (x2 - x1) / y;
  }

  /** The ramp starts exactly at `alphaStart`. */
  lemma LinearWarmupAtZero(alphaEnd: real, alphaStart: real, warmup: real)
    requires warmup > 0.0
    ensures LinearWarmup(0.0, alphaEnd, alphaStart, warmup) == Success(alphaStart)
  {
  }

  /** On the ramp `0 <= step < warmup` the result is the convex combination of the two
      end points with weight `a = step / warmup` in `[0, 1)`, so it lies between them. */
  lemma LinearWarmupBetween(step: real, alphaEnd: real, alphaStart: real, warmup: real)
    requires 0.0 <= step < warmup
    ensures var a := step / warmup;
            0.0 <= a < 1.0 &&
            LinearWarmup(step, alphaEnd, alphaStart, warmup) == Success((1.0 - a) * alphaStart + a * alphaEnd)
    ensures Min(alphaStart, alphaEnd) <= LinearWarmup(step, alphaEnd, alphaStart, warmup).value <= Max(alphaStart, alphaEnd)
  {
    var a := step / warmup;
    RampValue(step, alphaEnd, alphaStart, warmup);
    DivNonNegative(step, warmup);
    DivBelowOne(step, warmup);
    ConvexBetween(a, alphaStart, alphaEnd);
  }

  lemma ConvexBetween(a: real, s: real, e: real)
    requires 0.0 <= a <= 1.0
    ensures Min(s, e) <= (1.0 - a) * s + a * e <= Max(s, e)
  {
    var v := (1.0 - a) * s + a * e;
    assert v == s + a * (e - s);
    if s <= e {
      MulBounds(a, e - s);
    } else {
      MulBounds(a, s - e);
      assert v == s - a * (s - e);
    }
  }

  lemma ScaleMonotone(a1: real, a2: real, d: real)
    requires a1 <= a2 && 0.0 <= d
    ensures a1 * d <= a2 * d
  {
    assert a2 * d - a1 * d == (a2 - a1) * d;
  }

  lemma MulBounds(a: real, d: real)
    requires 0.0 <= a <= 1.0 && 0.0 <= d
    ensures 0.0 <= a * d <= d
  {
    assert d - a * d == (1.0 - a) * d;
  }

  /** When the warmup rises (`alphaStart <= alphaEnd`) the schedule never decreases with
      the step, from step 0 through the clamp. */
  lemma LinearWarmupMonotone(s1: real, s2: real, alphaEnd: real, alphaStart: real, warmup: real)
    requires 0.0 <= s1 <= s2
    requires alphaStart <= alphaEnd
    ensures LinearWarmup(s1, alphaEnd, alphaStart, warmup).value <= LinearWarmup(s2, alphaEnd, alphaStart, warmup).value
  {
    if s1 < warmup {
      LinearWarmupBetween(s1, alphaEnd, alphaStart, warmup);
      if s2 < warmup {
        var a1, a2 := s1 / warmup, s2 / warmup;
        DivMonotone(s1, s2, warmup);
        RampValue(s2, alphaEnd, alphaStart, warmup);
        ScaleMonotone(a1, a2, alphaEnd - alphaStart);
        Affine(a1, alphaStart, alphaEnd);
        Affine(a2, alphaStart, alphaEnd);
      }
    }
  }
}
