/**
 * The easing arithmetic of the animation loop, over the reals: one frame
 * moves the rendered position a fraction `s` (the smoothing factor) of the
 * way to the target, and the loop stops once both coordinates are within
 * half a pixel, snapping to the target.
 */
module Easing {

  function Abs(x: real): real {
    if x < 0.0 then -x else x
  }

  /** The threshold test of one frame: both offsets below half a pixel. */
  predicate Settled(dx: real, dy: real) {
    Abs(dx) < 0.5 && Abs(dy) < 0.5
  }

  /** One easing frame on one coordinate: `current += (target - current) * s`.
      For s in (0,1] the remaining distance shrinks by the factor 1 - s and the
      new position lies between the old one and the target: no overshoot. */
  function Ease(current: real, target: real, s: real): (r: real)
    ensures 0.0 < s <= 1.0 ==> Abs(target - r) == (1.0 - s) * Abs(target - current)
    ensures 0.0 < s <= 1.0 && current <= target ==> current <= r <= target
    ensures 0.0 < s <= 1.0 && target <= current ==> target <= r <= current
    ensures 0.0 < s < 1.0 && current < target ==> current < r < target
    ensures 0.0 < s < 1.0 && target < current ==> target < r < current
  {
    var d := target - current;
    var r := current + d * s;
    assert target - r == d * (1.0 - s);
    if 0.0 < s <= 1.0 then
      var m := Abs(d);
      ScaledBetween(m, s);
      ScaledBetween(m, 1.0 - s);
      assert d * s == if d >= 0.0 then m * s else -(m * s);
      assert d * (1.0 - s) == if d >= 0.0 then m * (1.0 - s) else -(m * (1.0 - s));
      r
    else r
  }

  /** Scaling a non-negative amount by a fraction in [0,1] keeps it within [0, d],
      strictly inside when both are positive and the fraction is below 1. */
  lemma ScaledBetween(d: real, f: real)
    requires 0.0 <= d && 0.0 <= f <= 1.0
    ensures 0.0 <= d * f <= d
    ensures 0.0 < d && 0.0 < f ==> 0.0 < d * f
    ensures 0.0 < d && f < 1.0 ==> d * f < d
  {
    assert d - d * f == d * (1.0 - f);
  }

  /** The position after n easing frames, with no snapping in between. */
  function Glide(current: real, target: real, s: real, n: nat): real
    decreases n
  {
    if n == 0 then current else Glide(Ease(current, target, s), target, s, n - 1)
  }

  /** An upper bound on the frames still to run: twice the sum of the two
      distances, divided by the smoothing factor, rounded down. */
  function Budget(dx: real, dy: real, s: real): int
    requires 0.0 < s
  {
    ((Abs(dx) + Abs(dy)) * 2.0 / s).Floor
  }

  /** An easing frame that is not the final one lowers the budget by at least one. */
  lemma BudgetDrops(cx: real, cy: real, tx: real, ty: real, s: real)
    requires 0.0 < s <= 1.0
    requires !Settled(tx - cx, ty - cy)
    ensures 0 <= Budget(tx - Ease(cx, tx, s), ty - Ease(cy, ty, s), s) < Budget(tx - cx, ty - cy, s)
  {
    var ax, ay := Abs(tx - cx), Abs(ty - cy);
    var ax', ay' := Abs(tx - Ease(cx, tx, s)), Abs(ty - Ease(cy, ty, s));
    assert ax + ay >= 0.5;
    assert ax' + ay' == (1.0 - s) * (ax + ay) by {
      assert ax' == (1.0 - s) * ax && ay' == (1.0 - s) * ay;
      Distribute(1.0 - s, ax, ay);
    }
    DropByOne(ax + ay, ax' + ay', s);
  }

  lemma Distribute(q: real, a: real, b: real)
    ensures q * a + q * b == q * (a + b)
  {
  }

  /** Dividing by s turns a drop of s * sum in the distance into a drop of
      2 * sum >= 1 in the budget, which survives rounding down. */
  lemma DropByOne(sum: real, sum': real, s: real)
    requires 0.0 < s <= 1.0 && sum >= 0.5 && sum' == (1.0 - s) * sum
    ensures 0 <= (sum' * 2.0 / s).Floor < (sum * 2.0 / s).Floor
  {
    var a, b := sum * 2.0 / s, sum' * 2.0 / s;
    assert sum' >= 0.0 by { ScaledBetween(sum, 1.0 - s); }
    assert b >= 0.0;
    assert a - b == sum * 2.0 by {
      assert sum - sum' == s * sum;
      assert a - b == (sum - sum') * 2.0 / s;
    }
    assert b.Floor as real <= b <= a - 1.0 < a.Floor as real;
  }

  /** The number of easing frames the loop runs, with the target held still,
      before the frame that snaps to the target and stops. */
  function EasingFrames(cx: real, cy: real, tx: real, ty: real, s: real): (n: nat)
    requires 0.0 < s <= 1.0
    ensures n == 0 <==> Settled(tx - cx, ty - cy)
    ensures n <= Budget(tx - cx, ty - cy, s)
    decreases Budget(tx - cx, ty - cy, s)
  {
    if Settled(tx - cx, ty - cy) then 0
    else
      BudgetDrops(cx, cy, tx, ty, s);
      EasingFrames(Ease(cx, tx, s), Ease(cy, ty, s), tx, ty, s) + 1
  }

  /** With the target held still and s in (0,1], the loop settles: after
      EasingFrames easing frames both offsets are below half a pixel, and
      before that they were not, so exactly that many frames are rescheduled. */
  lemma {:induction false} GlideSettles(cx: real, cy: real, tx: real, ty: real, s: real)
    requires 0.0 < s <= 1.0
    ensures var n := EasingFrames(cx, cy, tx, ty, s);
      Settled(tx - Glide(cx, tx, s, n), ty - Glide(cy, ty, s, n))
    ensures forall k: nat :: k < EasingFrames(cx, cy, tx, ty, s) ==>
      !Settled(tx - Glide(cx, tx, s, k), ty - Glide(cy, ty, s, k))
    decreases Budget(tx - cx, ty - cy, s)
  {
    if !Settled(tx - cx, ty - cy) {
      BudgetDrops(cx, cy, tx, ty, s);
      var cx', cy' := Ease(cx, tx, s), Ease(cy, ty, s);
      GlideSettles(cx', cy', tx, ty, s);
      forall k: nat | k < EasingFrames(cx, cy, tx, ty, s)
        ensures !Settled(tx - Glide(cx, tx, s, k), ty - Glide(cy, ty, s, k))
      {
        if k > 0 {
          assert Glide(cx, tx, s, k) == Glide(cx', tx, s, k - 1);
          assert Glide(cy, ty, s, k) == Glide(cy', ty, s, k - 1);
        }
      }
    }
  }

  /** Moving toward a target above, the positions frame after frame are
      strictly increasing and stay below the target when s is in (0,1). */
  lemma {:induction false} GlideIncreasesBelowTarget(c: real, t: real, s: real, n: nat)
    requires 0.0 < s < 1.0 && c < t
    ensures c <= Glide(c, t, s, n) < Glide(c, t, s, n + 1) < t
    decreases n
  {
    if n > 0 {
      GlideIncreasesBelowTarget(Ease(c, t, s), t, s, n - 1);
    }
  }

  /** The mirrored case: moving toward a target below, the positions frame
      after frame are strictly decreasing and stay above the target. */
  lemma {:induction false} GlideDecreasesAboveTarget(c: real, t: real, s: real, n: nat)
    requires 0.0 < s < 1.0 && t < c
    ensures t < Glide(c, t, s, n + 1) < Glide(c, t, s, n) <= c
    decreases n
  {
    if n > 0 {
      GlideDecreasesAboveTarget(Ease(c, t, s), t, s, n - 1);
    }
  }

  /** With smoothing 0 a frame does not move the position, so a loop that has
      not settled never does, and reschedules itself forever. */
  lemma {:induction false} ZeroSmoothingStalls(c: real, t: real, n: nat)
    ensures Glide(c, t, 0.0, n) == c
    decreases n
  {
    if n > 0 {
      ZeroSmoothingStalls(Ease(c, t, 0.0), t, n - 1);
    }
  }
}
