/**
 * The frame-clock smoother shared by the preloader and the custom cursor:
 * every frame the displayed value moves a fixed fraction t of the way to its
 * target, `current := current + (target - current) * t`.
 */
module Smoothing {

  /** `a + (b - a) * t`. */
  function Lerp(a: real, b: real, t: real): real {
    a + (b - a) * t
  }

  /** One step shrinks the remaining gap by the factor 1 - t, keeping its sign. */
  lemma LerpGap(a: real, b: real, t: real)
    ensures b - Lerp(a, b, t) == (1.0 - t) * (b - a)
  {
  }

  /** With 0 <= t <= 1 the step lands between the value and its target: no overshoot. */
  lemma LerpBetween(a: real, b: real, t: real)
    requires 0.0 <= t <= 1.0
    ensures a <= b ==> a <= Lerp(a, b, t) <= b
    ensures b <= a ==> b <= Lerp(a, b, t) <= a
  {
    LerpGap(a, b, t);
    if a <= b {
      assert (b - a) * t >= 0.0;
      assert (1.0 - t) * (b - a) >= 0.0;
    } else {
      assert (a - b) * t >= 0.0;
      assert (1.0 - t) * (a - b) >= 0.0;
    }
  }

  /** n frames of smoothing towards a fixed target b. */
  function Iterate(a: real, b: real, t: real, n: nat): real {
    if n == 0 then a else Lerp(Iterate(a, b, t, n - 1), b, t)
  }

  function Abs(x: real): real {
    if x < 0.0 then -x else x
  }

  lemma ScaleLess(x: real, y: real, k: real)
    requires k > 0.0 && x * k < y * k
    ensures x < y
  {
    assert y * k - x * k == (y - x) * k;
  }

  /** Enough frames to bring a gap d under eps / (1 + n t). */
  lemma EnoughFrames(d: real, t: real, eps: real) returns (n: nat)
    requires d >= 0.0 && t > 0.0 && eps > 0.0
    ensures d < (1.0 + (n as real) * t) * eps
  {
    var te := t * eps;
    assert te > 0.0;
    var q := d / te;
    n := q.Floor as nat + 1;
    var nr := n as real;
    assert nr > q;
    assert q * te == d;
    assert (nr - q) * te > 0.0;
    assert nr * te > d;
    assert (1.0 + nr * t) * eps == eps + nr * te;
  }

  /** One frame on plain reals: if gx k0 <= d and the gap shrinks to gy == (1 - t) gx,
      then gy k1 <= d for k1 == k0 + t, as long as k0 >= 1. */
  lemma StepBound(gx: real, gy: real, t: real, k0: real, k1: real, d: real)
    requires gx >= 0.0 && 0.0 <= t <= 1.0 && k0 >= 1.0 && k1 == k0 + t
    requires gx * k0 <= d && gy == (1.0 - t) * gx
    ensures gy * k1 <= d
  {
    assert (1.0 - t) * (k0 + t) == k0 - t * (k0 + t - 1.0);
    assert t * (k0 + t - 1.0) >= 0.0;
    assert gy * (k0 + t) == gx * ((1.0 - t) * (k0 + t));
    assert gx * (t * (k0 + t - 1.0)) >= 0.0;
  }

  lemma AbsScale(d: real, c: real)
    requires c >= 0.0
    ensures Abs(c * d) == c * Abs(d)
  {
    if d < 0.0 {
      assert c * d == -(c * -d);
    }
  }

  /** The factor 1 + n t grows by t per frame and never drops below 1. */
  lemma Factor(n: nat, t: real)
    requires n > 0 && t >= 0.0
    ensures 1.0 + (n as real) * t == (1.0 + ((n - 1) as real) * t) + t
    ensures 1.0 + ((n - 1) as real) * t >= 1.0
  {
    var m := (n - 1) as real;
    assert n as real == m + 1.0;
    assert m * t >= 0.0;
  }

  /** The gap after one frame, in absolute value. */
  lemma AbsStep(x: real, b: real, t: real)
    requires 0.0 <= t <= 1.0
    ensures Abs(b - Lerp(x, b, t)) == (1.0 - t) * Abs(b - x)
  {
    LerpGap(x, b, t);
    AbsScale(b - x, 1.0 - t);
  }

  /** One frame of the induction below, on a plain value x: if the gap at x,
      times 1 + (n - 1) t, is at most d, the gap one frame later, times 1 + n t, is too. */
  lemma GapStep(x: real, b: real, t: real, d: real, n: nat)
    requires 0.0 <= t <= 1.0 && n > 0
    requires Abs(b - x) * (1.0 + ((n - 1) as real) * t) <= d
    ensures Abs(b - Lerp(x, b, t)) * (1.0 + (n as real) * t) <= d
  {
    var gx, gy := Abs(b - x), Abs(b - Lerp(x, b, t));
    var k0, k1 := 1.0 + ((n - 1) as real) * t, 1.0 + (n as real) * t;
    assert k1 == k0 + t && k0 >= 1.0 by {
      Factor(n, t);
    }
    assert gy == (1.0 - t) * gx by {
      AbsStep(x, b, t);
    }
    StepBound(gx, gy, t, k0, k1, d);
  }

  /** After n frames the gap, times 1 + n t, is at most the first gap. */
  lemma {:induction false} GapAfter(a: real, b: real, t: real, n: nat)
    requires 0.0 <= t <= 1.0
    ensures Abs(b - Iterate(a, b, t, n)) * (1.0 + (n as real) * t) <= Abs(b - a)
  {
    if n > 0 {
      GapAfter(a, b, t, n - 1);
      GapStep(Iterate(a, b, t, n - 1), b, t, Abs(b - a), n);
    }
  }

  /** With a fixed target and 0 < t <= 1, the displayed value gets as close to the
      target as asked: the smoother converges. */
  lemma Converges(a: real, b: real, t: real, eps: real) returns (n: nat)
    requires 0.0 < t <= 1.0 && eps > 0.0
    ensures Abs(b - Iterate(a, b, t, n)) < eps
  {
    n := EnoughFrames(Abs(b - a), t, eps);
    GapAfter(a, b, t, n);
    var k := 1.0 + (n as real) * t;
    ScaleLess(Abs(b - Iterate(a, b, t, n)), eps, k);
  }
}
