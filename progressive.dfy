/** Geometry of the progressive-pass rule.

    Coordinates are on the 0..100 x 0..100 (Opta) pitch, the attacked goal
    lies on the line x = 100 and its mouth spans y in [50 - 7.32/2, 50 + 7.32/2].
    A pass from (x, y) to (endX, endY) is progressive when it starts beyond
    the first third of the pitch, moves forward, and ends at most 75% as far
    from the goal mouth as it started. Distances are compared squared, since
    both are non-negative (see ProgressiveIffDistancesClose). */
module ProgressivePass {

  const PitchLength: real := 100.0
  const GoalWidth: real := 7.32
  const GoalCentreY: real := 50.0
  const GoalLowY: real := GoalCentreY - GoalWidth / 2.0
  const GoalHighY: real := GoalCentreY + GoalWidth / 2.0
  /** The start of the attacking two-thirds: exactly one third of the pitch. */
  const AttackingStart: real := PitchLength / 3.0
  /** The end distance may be at most this fraction of the start distance. */
  const CloserFactor: real := 0.75

  function Sq(v: real): real { v * v }

  /** Python's max(a, b) and min(a, b) on numbers. */
  function Max(a: real, b: real): real { if b > a then b else a }
  function Min(a: real, b: real): real { if b < a then b else a }

  /** The point of the goal mouth nearest to height y: y clamped into the mouth. */
  function ClosestYOnGoal(y: real): (c: real)
    ensures GoalLowY <= c <= GoalHighY
    ensures GoalLowY <= y <= GoalHighY ==> c == y
  {
    Min(Max(y, GoalLowY), GoalHighY)
  }

  /** Squared distance from (x, y) to its nearest point on the goal mouth.
      It is zero exactly on the mouth itself. */
  function SqDistanceToGoal(x: real, y: real): (d: real)
    ensures d >= 0.0
    ensures d == 0.0 <==> x == PitchLength && GoalLowY <= y <= GoalHighY
  {
    SqSign(PitchLength - x);
    SqSign(ClosestYOnGoal(y) - y);
    Sq(PitchLength - x) + Sq(ClosestYOnGoal(y) - y)
  }

  /** A progressive pass ends strictly nearer the goal mouth than it starts. */
  predicate IsProgressive(x: real, y: real, endX: real, endY: real)
    ensures IsProgressive(x, y, endX, endY) ==> SqDistanceToGoal(endX, endY) < SqDistanceToGoal(x, y)
  {
    && x > AttackingStart
    && endX > x
    && SqDistanceToGoal(endX, endY) <= Sq(CloserFactor) * SqDistanceToGoal(x, y)
  }

  lemma SqMonotone(a: real, b: real)
    requires 0.0 <= a <= b
    ensures Sq(a) <= Sq(b)
  {
    assert a * a <= a * b;
    assert a * b <= b * b;
  }

  lemma SqStrictlyMonotone(a: real, b: real)
    requires 0.0 <= a < b
    ensures Sq(a) < Sq(b)
  {
    var aa, ab, bb := a * a, a * b, b * b;
    assert aa <= ab;
    assert ab < bb by { assert bb - ab == b * (b - a); }
  }

  /** The one-third threshold is 100/3, strictly between 33.33 and 33.34. */
  lemma AttackingStartValue()
    ensures 33.33 < AttackingStart < 33.34
    ensures 3.0 * AttackingStart == PitchLength
  {
  }

  /** The mouth spans [46.34, 53.66]. */
  lemma GoalMouthBounds()
    ensures GoalLowY == 46.34 && GoalHighY == 53.66
  {
  }

  /** The clamped height is the nearest point of the mouth to y. */
  lemma ClosestYIsNearest(y: real, w: real)
    requires GoalLowY <= w <= GoalHighY
    ensures Sq(ClosestYOnGoal(y) - y) <= Sq(w - y)
  {
    var c := ClosestYOnGoal(y);
    if y < GoalLowY {
      SqMonotone(c - y, w - y);
    } else if y > GoalHighY {
      SqMonotone(y - c, y - w);
      assert Sq(c - y) == Sq(y - c) && Sq(w - y) == Sq(y - w);
    } else {
      assert Sq(c - y) == 0.0;
      SqSign(w - y);
    }
  }

  /** SqDistanceToGoal is the least squared distance from (x, y) to any point
      (100, w) of the goal mouth. */
  lemma GoalDistanceIsMinimal(x: real, y: real, w: real)
    requires GoalLowY <= w <= GoalHighY
    ensures SqDistanceToGoal(x, y) <= Sq(PitchLength - x) + Sq(w - y)
  {
    ClosestYIsNearest(y, w);
  }

  /** A square is never negative, and is zero only for zero. */
  lemma SqSign(v: real)
    ensures Sq(v) >= 0.0
    ensures Sq(v) == 0.0 <==> v == 0.0
  {
    if v < 0.0 {
      SqStrictlyMonotone(0.0, -v);
      assert Sq(v) == Sq(-v);
    } else if v > 0.0 {
      SqStrictlyMonotone(0.0, v);
    }
  }

  /** For non-negative a and b, comparing a with 0.75 * b is the same as
      comparing their squares. */
  lemma ScaledDistanceTest(a: real, b: real)
    requires a >= 0.0 && b >= 0.0
    ensures a <= CloserFactor * b <==> Sq(a) <= Sq(CloserFactor) * Sq(b)
  {
    var s := CloserFactor * b;
    assert Sq(s) == Sq(CloserFactor) * Sq(b);
    if a <= s {
      SqMonotone(a, s);
    } else {
      SqStrictlyMonotone(s, a);
    }
  }

  /** The squared form agrees with the Euclidean rule: for the (non-negative)
      distances initial and final from start and end to the goal mouth, the
      pass is progressive exactly when it starts past the first third, moves
      forward and final <= 0.75 * initial (inclusive). */
  lemma ProgressiveIffDistancesClose(x: real, y: real, endX: real, endY: real, initial: real, final: real)
    requires initial >= 0.0 && Sq(initial) == SqDistanceToGoal(x, y)
    requires final >= 0.0 && Sq(final) == SqDistanceToGoal(endX, endY)
    ensures IsProgressive(x, y, endX, endY)
        <==> x > AttackingStart && endX > x && final <= CloserFactor * initial
  {
    ScaledDistanceTest(final, initial);
  }

  /** A pass that starts in the first third is never progressive. */
  lemma NotProgressiveFromFirstThird(x: real, y: real, endX: real, endY: real)
    requires x <= AttackingStart
    ensures !IsProgressive(x, y, endX, endY)
  {
  }

  /** A pass that does not move towards the goal line is never progressive. */
  lemma NotProgressiveUnlessForward(x: real, y: real, endX: real, endY: real)
    requires endX <= x
    ensures !IsProgressive(x, y, endX, endY)
  {
  }

  /** Passes along the centre line y = 50 from x = 40: to 90 and to 60 are
      progressive, to 55 is too (the boundary 45 = 0.75 * 60 is inclusive),
      backwards to 35 is not. */
  lemma CentralPassExamples()
    ensures IsProgressive(40.0, 50.0, 90.0, 50.0)
    ensures IsProgressive(40.0, 50.0, 60.0, 50.0)
    ensures IsProgressive(40.0, 50.0, 55.0, 50.0)
    ensures SqDistanceToGoal(55.0, 50.0) == Sq(CloserFactor) * SqDistanceToGoal(40.0, 50.0)
    ensures !IsProgressive(40.0, 50.0, 54.5, 50.0)
    ensures !IsProgressive(40.0, 50.0, 35.0, 50.0)
  {
  }

  /** The start and end are measured to their own nearest mouth points: a
      pass along the touchline y = 0 from x = 40 to x = 65 is not progressive,
      although it covers 25 of the 60 units to the goal line, while one from
      x = 40 to x = 80 is. */
  lemma FlankPassExample()
    ensures !IsProgressive(40.0, 0.0, 65.0, 0.0)
    ensures IsProgressive(40.0, 0.0, 80.0, 0.0)
  {
  }
}
