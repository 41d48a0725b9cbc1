/**
 The polar hit test of OnMouseMove: the pointer is on the centre disc when
 its distance from the control's centre is at most (CenterSize +
 CenterBorder) / 2, and otherwise on wedge
 (int)(n * (2 pi + atan2(dy, dx)) / (2 pi)) % n.

 Math.Atan2 is not computed: its result enters as a `Turn`, the angle
 measured in full turns, so that n * (2 pi + atan2) / (2 pi) = n * (1 + turn).
 */
module HitTest {
  import opened RealArith

  /** Math.Atan2's result divided by 2 pi: it lies in [-pi, pi], so this lies in [-1/2, 1/2]. */
  type Turn = t: real | -0.5 <= t <= 0.5 witness 0.0

  /** What the pointer is over. */
  datatype Hit = CenterHit | WedgeHit(index: int)

  function Abs(b: int): int {
    if b < 0 then -b else b
  }

  /** C#'s (int) conversion of a floating value: truncation toward zero. */
  function Truncate(x: real): (r: int)
    ensures 0.0 <= x ==> 0 <= r && r as real <= x < r as real + 1.0
    ensures x < 0.0 ==> r <= 0 && r as real - 1.0 < x <= r as real
  {
    if 0.0 <= x then x.Floor else -((-x).Floor)
  }

  /** C#'s integer division, which truncates toward zero. */
  function TruncatedQuotient(a: int, b: int): int
    requires b != 0
  {
    if 0 <= a then a / b else -((-a) / b)
  }

  /** C#'s % on int: the remainder of truncated division, taking the dividend's sign. */
  function Remainder(a: int, b: int): (r: int)
    requires b != 0
    ensures a == TruncatedQuotient(a, b) * b + r
    ensures 0 <= a ==> 0 <= r < Abs(b)
    ensures a < 0 ==> -Abs(b) < r <= 0
  {
    if 0 <= a then a % b else -((-a) % b)
  }

  /**
   The centre test `Math.Sqrt(dx*dx + dy*dy) <= radius`, stated without the
   square root; CenterTestMatchesDistance shows the two agree.
   */
  predicate InCenter(radius: real, dx: real, dy: real) {
    0.0 <= radius && dx * dx + dy * dy <= radius * radius
  }

  /** The pointer direction as a fraction of a turn counter-clockwise from the x-axis, in [0, 1). */
  function NormalizedTurn(t: Turn): (u: real)
    ensures 0.0 <= u < 1.0
    ensures u == t || u == t + 1.0
  {
    if t < 0.0 then t + 1.0 else t
  }

  /** Wedge i covers the directions [i/n, (i+1)/n) of a turn. */
  predicate InSector(n: int, i: int, u: real) {
    i as real <= n as real * u < (i + 1) as real
  }

  /** n * (2 pi + atan2) / (2 pi): the pointer's direction measured in wedge widths, from one turn back. */
  function TurnsScaled(n: int, t: Turn): (x: real)
    requires 1 <= n
    ensures n as real * 0.5 <= x <= n as real * 1.5
  {
    MulMonotone(n as real, 0.5, 1.0 + t);
    MulMonotone(n as real, 1.0 + t, 1.5);
    n as real * (1.0 + t)
  }

  /** The wedge index of RadialMenuControl's expression, in exact arithmetic, with C# truncation and remainder. */
  function WedgeIndex(n: int, t: Turn): (i: int)
    requires 1 <= n
    ensures 0 <= i < n
  {
    Remainder(Truncate(TurnsScaled(n, t)), n)
  }

  /** Classification of a pointer offset (dx, dy) whose direction is t. */
  function Classify(n: int, radius: real, dx: real, dy: real, t: Turn): (h: Hit)
    requires 1 <= n
    ensures h.CenterHit? <==> InCenter(radius, dx, dy)
    ensures h.WedgeHit? ==> 0 <= h.index < n && InSector(n, h.index, NormalizedTurn(t))
  {
    if InCenter(radius, dx, dy) then CenterHit
    else
      WedgeIndexInSector(n, t);
      WedgeHit(WedgeIndex(n, t))
  }

  lemma ModOfSmall(k: int, n: int)
    requires 0 <= k < n
    ensures k % n == k
  {
  }

  lemma ModOfShifted(k: int, n: int)
    requires 1 <= n <= k < 2 * n
    ensures k % n == k - n
  {
  }

  /**
   RadialMenuControl's truncate-then-remainder expression lands the pointer's
   direction in the wedge whose sector contains it: truncation equals floor
   because 2 pi + atan2 lies in [pi, 3 pi], and the remainder only folds
   the second turn back onto the first.
   */
  lemma {:induction false} WedgeIndexInSector(n: int, t: Turn)
    requires 1 <= n
    ensures InSector(n, WedgeIndex(n, t), NormalizedTurn(t))
  {
    var nr := n as real;
    // Everything below is linear in nr, p, x and k.
    var p := nr * t;
    Distribute(nr, t);
    MulMonotone(nr, -0.5, t);
    MulMonotone(nr, t, 0.5);
    var x := TurnsScaled(n, t);
    assert x == nr + p;
    var k := Truncate(x);
    assert k as real <= nr + p < k as real + 1.0;
    assert WedgeIndex(n, t) == Remainder(k, n);
    if t < 0.0 {
      // atan2 < 0: 2 pi + atan2 is within the first turn.
      MulStrictMonotone(nr, t, 0.0);
      assert 0 <= k < n;
      ModOfSmall(k, n);
      assert nr * NormalizedTurn(t) == nr + p by {
        Distribute(nr, t);
      }
      assert InSector(n, k, NormalizedTurn(t));
    } else {
      // atan2 >= 0: 2 pi + atan2 is in the second turn, which the remainder folds back.
      assert n <= k < 2 * n;
      ModOfShifted(k, n);
      assert InSector(n, k - n, NormalizedTurn(t));
    }
  }

  /**
   The C# `(int)` and `%` of RadialMenuControl's wedge expression agree with the floor-then-modulo
   formula floor(n * (2 pi + atan2) / 2 pi) mod n on every direction atan2
   can report.
   */
  lemma WedgeIndexIsFloorMod(n: int, t: Turn)
    requires 1 <= n
    ensures WedgeIndex(n, t) == TurnsScaled(n, t).Floor % n
  {
  }

  /** The sectors do not overlap: a wedge whose sector holds the direction is the computed one. */
  lemma {:induction false} WedgeIndexUnique(n: int, t: Turn, j: int)
    requires 1 <= n
    requires InSector(n, j, NormalizedTurn(t))
    ensures j == WedgeIndex(n, t)
  {
    WedgeIndexInSector(n, t);
  }

  /**
   The sectors leave no gap: every direction lies in exactly one wedge, and a
   direction on the boundary i/n between two wedges belongs to the higher one.
   */
  lemma {:induction false} SectorsPartitionTurn(n: int, t: Turn)
    requires 1 <= n
    ensures exists i :: 0 <= i < n && InSector(n, i, NormalizedTurn(t))
    ensures forall i, j :: InSector(n, i, NormalizedTurn(t)) && InSector(n, j, NormalizedTurn(t)) ==> i == j
  {
    WedgeIndexInSector(n, t);
  }

  /** At a boundary direction i/n the pointer is in wedge i. */
  lemma {:induction false} BoundaryGoesToHigherWedge(n: int, i: int, t: Turn)
    requires 1 <= n && 0 <= i < n
    requires NormalizedTurn(t) * n as real == i as real
    ensures WedgeIndex(n, t) == i
  {
    WedgeIndexUnique(n, t, i);
  }

  /** Both sides of atan2's branch cut (the negative x-axis, +-pi) give the same wedge. */
  lemma {:induction false} BranchCutConsistent(n: int)
    requires 1 <= n
    ensures WedgeIndex(n, -0.5) == WedgeIndex(n, 0.5)
  {
    WedgeIndexInSector(n, 0.5);
    WedgeIndexUnique(n, -0.5, WedgeIndex(n, 0.5));
  }

  /**
   The squared comparison agrees with RadialMenuControl's `Math.Sqrt(d2) <= radius`
   for every radius, negative ones included: `dist` is the square root of the
   squared distance.
   */
  lemma {:induction false} CenterTestMatchesDistance(radius: real, dx: real, dy: real, dist: real)
    requires 0.0 <= dist && dist * dist == dx * dx + dy * dy
    ensures dist <= radius <==> InCenter(radius, dx, dy)
  {
    if dist <= radius {
      MulMonotone(dist, dist, radius);
      MulMonotone(radius, dist, radius);
      assert dist * dist <= radius * radius;
    } else if 0.0 <= radius {
      MulMonotone(radius, radius, dist);
      MulStrictMonotone(dist, radius, dist);
      calc {
        radius * radius;
      <= radius * dist;
      == dist * radius;
      <  dist * dist;
      }
    }
  }
}
