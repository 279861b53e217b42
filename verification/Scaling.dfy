/** apiserver/pkg/scaling/scaling.go: the queue-length curve and the forced scale-up timer.
    The curve is over real numbers; times and durations are integer nanoseconds. */
module Scaling {
  import opened Wrappers

  const SECOND: int := 1_000_000_000
  const DAY_IN_SECONDS: int := 60 * 60 * 24

  /** `decay` is e to the power of minus the scale factor: 1 for factor 0, in (0, 1) for a positive factor. */
  datatype Scaling = Scaling(
    minWorkers: int, maxWorkers: int, decay: real, linear: bool, window: int, frequency: int)
  {
    /** Whatever a configuration holds: the factor and the bounds may be negative, and the wrong way round. */
    predicate Computable() {
      decay > 0.0
    }

    /** What the properties of the curve are about. */
    predicate Valid() {
      0 <= minWorkers <= maxWorkers && 0.0 < decay <= 1.0
    }
  }

  function Power(b: real, n: nat): (p: real)
    ensures b > 0.0 ==> p > 0.0
  {
    if n == 0 then 1.0 else b * Power(b, n - 1)
  }

  /** With a negative `a` the denominator can be zero, where the quotient is minus infinity (AtPole). */
  function Logistic(c: real, a: real, b: real, x: nat): real
    requires b > 0.0
  {
    var d := 1.0 + a * Power(b, x);
    if d == 0.0 then 0.0 else c / d
  }

  /** math.Round: the nearest integer, halves away from zero. */
  function Round(x: real): (r: int)
    ensures x >= 0.0 ==> r as real - 0.5 <= x < r as real + 0.5
    ensures x < 0.0 ==> r as real - 0.5 < x <= r as real + 0.5
  {
    if x >= 0.0 then (x + 0.5).Floor else -((-x + 0.5).Floor)
  }

  /** The curve before any clamping. */
  function Curve(s: Scaling, q: nat): real
    requires s.Computable()
  {
    if s.linear then q as real else Logistic(s.maxWorkers as real, s.maxWorkers as real, s.decay, q)
  }

  predicate AtPole(s: Scaling, q: nat)
    requires s.Computable()
  {
    !s.linear && 1.0 + s.maxWorkers as real * Power(s.decay, q) == 0.0
  }

  /** The upper bound first: a lower bound above it wins. */
  function Clamp(x: int, lo: int, hi: int): int {
    var y := if x > hi then hi else x;
    if y < lo then lo else y
  }

  /** What GetOutput answers, said in integers: the nearest integer to the curve, kept inside
      [minWorkers, maxWorkers], except that one is asked for where the bounds leave nothing but zero. */
  function Output(s: Scaling, queueLength: int): int
    requires s.Computable()
  {
    if queueLength <= 0 then s.minWorkers
    else if BoundToZero(s) then 1
    else if AtPole(s, queueLength) then s.minWorkers
    else Clamp(Round(Curve(s, queueLength)), s.minWorkers, s.maxWorkers)
  }

  predicate BoundToZero(s: Scaling) {
    (s.maxWorkers == 0 && s.minWorkers <= 0) || (s.maxWorkers < 0 && s.minWorkers == 0)
  }

  /** The code clamps the real value first and rounds last. */
  method GetOutput(s: Scaling, queueLength: int) returns (r: int)
    requires s.Computable()
    ensures r == Output(s, queueLength)
  {
    var minWorkers, maxWorkers := s.minWorkers as real, s.maxWorkers as real;
    var result := minWorkers;
    if queueLength > 0 {
      if AtPole(s, queueLength) {
        // minus infinity is raised to the minimum
      } else {
        if s.linear {
          result := queueLength as real;
        } else {
          result := Logistic(maxWorkers, maxWorkers, s.decay, queueLength);
          if s.maxWorkers >= 0 {
            LogisticRange(maxWorkers, s.decay, queueLength);
          }
        }
        if result > maxWorkers {
          result := maxWorkers;
        }
        if result < minWorkers {
          result := minWorkers;
        }
      }
      if result == 0.0 && queueLength > 0 {
        result := 1.0;
      }
    }
    r := Round(result);
  }

  // Real arithmetic, one product at a time

  lemma MulMonotone(x: real, y: real, z: real)
    requires x <= y && z >= 0.0
    ensures x * z <= y * z
  {
  }

  lemma MulNonNegative(x: real, y: real)
    requires x >= 0.0 && y >= 0.0
    ensures x * y >= 0.0
  {
  }

  lemma Regroup(x: real, y: real, z: real)
    ensures (x * y) * z == (x * z) * y
  {
  }

  lemma QuotientAtLeast(m: real, c: real, d: real)
    requires d > 0.0
    ensures m <= c / d <==> m * d <= c
  {
  }

  lemma QuotientTimes(c: real, d: real)
    requires d > 0.0
    ensures c / d * d == c
  {
  }

  lemma DivAntitone(c: real, d: real, e: real)
    requires c >= 0.0 && 0.0 < d <= e
    ensures 0.0 <= c / e <= c / d
  {
  }

  /** Away from the pole, as it is for every bound that is not negative. */
  lemma LogisticIsQuotient(n: real, b: real, x: nat)
    requires n >= 0.0 && b > 0.0
    ensures 1.0 + n * Power(b, x) >= 1.0 && Logistic(n, n, b, x) == n / (1.0 + n * Power(b, x))
  {
    MulNonNegative(n, Power(b, x));
  }

  lemma LogisticRange(n: real, b: real, x: nat)
    requires n >= 0.0 && b > 0.0
    ensures 0.0 <= Logistic(n, n, b, x) <= n
    ensures n > 0.0 ==> Logistic(n, n, b, x) > 0.0
  {
  }

  lemma {:induction false} PowerDecreases(b: real, m: nat, n: nat)
    requires 0.0 < b <= 1.0 && m <= n
    ensures Power(b, n) <= Power(b, m)
    decreases n
  {
    if m < n {
      calc {
        Power(b, n);
      ==
        b * Power(b, n - 1);
      <=  { MulMonotone(b, 1.0, Power(b, n - 1)); }
        Power(b, n - 1);
      <=  { PowerDecreases(b, m, n - 1); }
        Power(b, m);
      }
    }
  }

  lemma LogisticIncreases(n: real, b: real, x: nat, y: nat)
    requires n >= 0.0 && 0.0 < b <= 1.0 && x <= y
    ensures Logistic(n, n, b, x) <= Logistic(n, n, b, y)
  {
    PowerDecreases(b, x, y);
    MulMonotone(Power(b, y), Power(b, x), n);
    LogisticIsQuotient(n, b, x);
    LogisticIsQuotient(n, b, y);
    Denominators(n, Power(b, y), Power(b, x));
    DivAntitone(n, 1.0 + n * Power(b, y), 1.0 + n * Power(b, x));
  }

  lemma Denominators(n: real, p: real, q: real)
    requires n >= 0.0 && 0.0 <= p <= q
    ensures 1.0 <= 1.0 + n * p <= 1.0 + n * q
  {
  }

  lemma CurveIncreases(s: Scaling, q: nat, q': nat)
    requires s.Valid() && q <= q'
    ensures Curve(s, q) <= Curve(s, q')
  {
    if !s.linear {
      LogisticIncreases(s.maxWorkers as real, s.decay, q, q');
    }
  }

  /** A longer queue never asks for fewer workers. */
  lemma OutputMonotone(s: Scaling, q: int, q': int)
    requires s.Valid() && q <= q'
    ensures Output(s, q) <= Output(s, q')
  {
    if 0 < q && s.maxWorkers > 0 {
      CurveIncreases(s, q, q');
    }
  }

  lemma LogisticAtLeastHalf(n: real, b: real, x: nat)
    requires n >= 1.0 && 0.0 < b <= 1.0
    ensures Logistic(n, n, b, x) >= 0.5
  {
    PowerDecreases(b, 0, x);
    Denominators(n, Power(b, x), 1.0);
    QuotientAtLeast(0.5, n, 1.0 + n * Power(b, x));
  }

  /** A non-empty queue is always given at least one worker: with N >= 1 the logistic value is at
      least N / (N + 1) >= 1/2, which rounds up because halves go away from zero. */
  lemma OutputServesQueue(s: Scaling, q: int)
    requires s.Valid() && q > 0
    ensures Output(s, q) >= 1
  {
    if s.maxWorkers >= 1 && !s.linear {
      LogisticAtLeastHalf(s.maxWorkers as real, s.decay, q);
    }
  }

  /** The answer stays inside [minWorkers, maxWorkers] exactly when there is a worker to give
      or no queue: a runner type with maxWorkers 0 answers 1 as soon as a job is queued. */
  lemma OutputInRangeIff(s: Scaling, q: int)
    requires s.Valid()
    ensures s.minWorkers <= Output(s, q) <= s.maxWorkers <==> (s.maxWorkers >= 1 || q <= 0)
    ensures q <= 0 ==> Output(s, q) == s.minWorkers
  {
  }

  /** b + n * (1 - b), term by term. */
  function Grow(b: real, n: nat): real {
    if n == 0 then b else Grow(b, n - 1) + (1.0 - b)
  }

  lemma {:induction false} GrowIs(b: real, n: nat)
    ensures Grow(b, n) == b + n as real * (1.0 - b)
  {
    if n == 0 {
    } else {
      GrowIs(b, n - 1);
      assert (n - 1) as real * (1.0 - b) + (1.0 - b) == n as real * (1.0 - b);
    }
  }

  lemma {:induction false} GrowAtLeast(b: real, n: nat)
    requires b <= 1.0
    ensures b <= Grow(b, n)
  {
    if n == 0 {
    } else {
      GrowAtLeast(b, n - 1);
    }
  }

  lemma GrowStep(b: real, x: real)
    requires 0.0 < b <= 1.0 && b <= x
    ensures b * (x + (1.0 - b)) <= x
  {
  }

  lemma TimesBelow(b: real, p: real, x: real, w: real)
    requires p > 0.0 && p * x <= b && b * w <= x
    ensures (b * p) * w <= b
  {
    calc {
      (b * p) * w;
    ==  { Regroup(b, p, w); }
      (b * w) * p;
    <=  { MulMonotone(b * w, x, p); }
      x * p;
    <=
      b;
    }
  }

  /** Bernoulli's inequality for the reciprocal of the decay, cleared of division. */
  lemma {:induction false} Bernoulli(b: real, n: nat)
    requires 0.0 < b <= 1.0
    ensures Power(b, n) * Grow(b, n) <= b
  {
    if n == 0 {
    } else {
      Bernoulli(b, n - 1);
      GrowAtLeast(b, n - 1);
      GrowStep(b, Grow(b, n - 1));
      TimesBelow(b, Power(b, n - 1), Grow(b, n - 1), Grow(b, n));
    }
  }

  function Threshold(c: real): real {
    c * (2.0 * c - 1.0)
  }

  lemma NearTop(c: real, p: real)
    ensures (c - 0.5) * (1.0 + c * p) <= c <==> Threshold(c) * p <= 1.0
  {
  }

  lemma LogisticNearTopIff(c: real, b: real, x: nat)
    requires c >= 1.0 && b > 0.0
    ensures c - 0.5 <= Logistic(c, c, b, x) <==> Threshold(c) * Power(b, x) <= 1.0
  {
    LogisticIsQuotient(c, b, x);
    QuotientAtLeast(c - 0.5, c, 1.0 + c * Power(b, x));
    NearTop(c, Power(b, x));
  }

  lemma QuotientBelow(m: real, c: real, d: real)
    requires d > 0.0
    ensures c / d < m <==> c < m * d
  {
    QuotientAtLeast(m, c, d);
  }

  lemma BetweenIff(s: Scaling, q: nat, k: int)
    requires s.Valid() && q > 0 && s.minWorkers < k < s.maxWorkers
    ensures Output(s, q) == k <==> k as real - 0.5 <= Curve(s, q) < k as real + 0.5
  {
    if !s.linear {
      LogisticRange(s.maxWorkers as real, s.decay, q);
      LogisticIsQuotient(s.maxWorkers as real, s.decay, q);
    }
  }

  lemma RoundsIff(n: real, d: real, k: int)
    requires d > 0.0
    ensures k as real - 0.5 <= n / d < k as real + 0.5 <==> (k as real - 0.5) * d <= n < (k as real + 0.5) * d
  {
    QuotientAtLeast(k as real - 0.5, n, d);
    QuotientBelow(k as real + 0.5, n, d);
  }

  lemma CurveIsQuotient(s: Scaling, q: nat) returns (d: real)
    requires s.Valid() && !s.linear
    ensures d == 1.0 + s.maxWorkers as real * Power(s.decay, q)
    ensures d > 0.0 && Curve(s, q) == s.maxWorkers as real / d
  {
    d := 1.0 + s.maxWorkers as real * Power(s.decay, q);
    LogisticIsQuotient(s.maxWorkers as real, s.decay, q);
  }

  /** The logistic answer strictly between the bounds: the k that N / (1 + N b^q) rounds to. */
  lemma LogisticOutputIff(s: Scaling, q: int, k: int) returns (d: real)
    requires s.Valid() && !s.linear && q > 0 && s.minWorkers < k < s.maxWorkers
    ensures d == 1.0 + s.maxWorkers as real * Power(s.decay, q)
    ensures Output(s, q) == k <==> (k as real - 0.5) * d <= s.maxWorkers as real < (k as real + 0.5) * d
  {
    d := CurveIsQuotient(s, q);
    BetweenIff(s, q, k);
    RoundsIff(s.maxWorkers as real, d, k);
  }

  /** The linear answer is the queue itself, within the bounds. */
  lemma LinearOutput(s: Scaling, q: int)
    requires s.Valid() && s.linear && s.maxWorkers >= 1 && q > 0
    ensures s.minWorkers <= q <= s.maxWorkers ==> Output(s, q) == q
    ensures q > s.maxWorkers ==> Output(s, q) == s.maxWorkers
    ensures q < s.minWorkers ==> Output(s, q) == s.minWorkers
  {
  }

  /** Power is the power: the laws that fix it. */
  lemma {:induction false} PowerLaws(b: real, m: nat, n: nat)
    ensures Power(b, 0) == 1.0 && Power(b, 1) == b
    ensures Power(b, m + n) == Power(b, m) * Power(b, n)
  {
    if n > 0 {
      PowerLaws(b, m, n - 1);
      Regroup(Power(b, m), Power(b, n - 1), b);
    }
  }

  /** Exactly when the logistic curve is saturated. */
  lemma {:induction false} SaturatesIff(s: Scaling, q: int)
    requires s.Valid() && !s.linear && s.maxWorkers >= 1 && q > 0
    ensures Output(s, q) == s.maxWorkers <==>
            s.minWorkers == s.maxWorkers || Threshold(s.maxWorkers as real) * Power(s.decay, q) <= 1.0
  {
    LogisticNearTopIff(s.maxWorkers as real, s.decay, q);
    AtTopIff(s, q);
  }

  lemma AtTopIff(s: Scaling, q: nat)
    requires s.Valid() && q > 0 && s.maxWorkers >= 1
    ensures Output(s, q) == s.maxWorkers <==>
            s.minWorkers == s.maxWorkers || s.maxWorkers as real - 0.5 <= Curve(s, q)
  {
  }

  lemma PowerBelow(k: real, b: real, p: real, x: real)
    requires 0.0 < b && p > 0.0 && k * b <= x && p * x <= b
    ensures k * p <= 1.0
  {
  }

  lemma GrowAtBound(k: real, b: real, q: nat)
    requires 0.0 < b < 1.0 && q as real >= (k - 1.0) * b / (1.0 - b)
    ensures k * b <= Grow(b, q)
  {
    var bound := (k - 1.0) * b / (1.0 - b);
    QuotientTimes((k - 1.0) * b, 1.0 - b);
    MulMonotone(bound, q as real, 1.0 - b);
    GrowIs(b, q);
  }

  lemma PowerAtBound(k: real, b: real, q: nat)
    requires 0.0 < b < 1.0 && q as real >= (k - 1.0) * b / (1.0 - b)
    ensures k * Power(b, q) <= 1.0
  {
    GrowAtBound(k, b, q);
    Bernoulli(b, q);
    PowerBelow(k, b, Power(b, q), Grow(b, q));
  }

  /** Saturation at an explicit queue length: (N(2N-1) - 1) * b / (1 - b) for N workers and decay b. */
  lemma Saturates(s: Scaling, q: int)
    requires s.Valid() && !s.linear && s.maxWorkers >= 1 && s.decay < 1.0 && q > 0
    requires q as real >= (Threshold(s.maxWorkers as real) - 1.0) * s.decay / (1.0 - s.decay)
    ensures Output(s, q) == s.maxWorkers
  {
    PowerAtBound(Threshold(s.maxWorkers as real), s.decay, q);
    SaturatesIff(s, q);
  }

  // ---------------------------------------------------------------------------------------------
  // The forced scale-up timer

  /** NilDereference: with a zero window the code reads through the timer pointer unconditionally. */
  datatype ForcedScale = NilDereference | Answer(now: bool, next: int)

  /** One call, with one reading of the clock and `rnd` drawn from [0, DAY_IN_SECONDS). */
  function CalculateForcedScale(s: Scaling, next: Option<int>, now: int, rnd: int): ForcedScale {
    if s.window == 0 then
      if next.None? then NilDereference else Answer(false, next.value)
    else if next.None? then
      Answer(false, now + SECOND * rnd)
    else if next.value + s.window < now then
      Answer(false, now + s.frequency + rnd)
    else
      Answer(next.value < now, next.value)
  }

  /** With a positive window, "force now" is answered exactly inside (next, next + window], and the
      timer moves exactly when it is unarmed or its window has passed. */
  lemma ForcedExactlyInWindow(s: Scaling, next: Option<int>, now: int, rnd: int)
    requires s.window > 0
    ensures CalculateForcedScale(s, next, now, rnd).Answer?
    ensures
      var a := CalculateForcedScale(s, next, now, rnd);
      && (a.now <==> next.Some? && next.value < now <= next.value + s.window)
      && (next == Some(a.next) <== next.Some? && now <= next.value + s.window)
      && (a.now ==> next == Some(a.next))
  {
  }

  /** The documented way to disable forced scale-up, a zero window, dereferences nil exactly on an unarmed timer. */
  lemma NilDereferenceIff(s: Scaling, next: Option<int>, now: int, rnd: int)
    ensures CalculateForcedScale(s, next, now, rnd).NilDereference? <==> s.window == 0 && next.None?
  {
  }
}
