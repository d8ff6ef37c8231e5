/** The per-tick motion arithmetic of a shell, shared by both versions of InteractShell:
    Unity's MoveTowards, Clamp and Lerp over exact reals, and the parabolic arc with the
    source's guard that replaces a NaN by 0. */
module Motion {

  /** A position on the play plane; the engine's z coordinate is always 0 and is not kept. */
  datatype Vec2 = Vec2(x: real, y: real)

  function Abs(r: real): (a: real)
    ensures a >= 0.0 && (a == r || a == -r)
  {
    if r < 0.0 then -r else r
  }

  /** Mathf.Sign: 1 for zero and for positive values, -1 otherwise. */
  function Sign(r: real): (s: real)
    ensures s * r == Abs(r)
  {
    if r >= 0.0 then 1.0 else -1.0
  }

  /** Mathf.Clamp: the low bound is tested first, so an empty range yields the low bound. */
  function Clamp(v: real, lo: real, hi: real): (r: real)
    ensures lo <= hi ==> lo <= r <= hi
    ensures lo <= v <= hi ==> r == v
    ensures v < lo ==> r == lo
    ensures lo <= hi < v ==> r == hi
  {
    if v < lo then lo else if v > hi then hi else v
  }

  /** Mathf.Clamp01 */
  function Clamp01(t: real): (r: real)
    ensures 0.0 <= r <= 1.0
  {
    Clamp(t, 0.0, 1.0)
  }

  /** Mathf.Lerp: the fraction is clamped to [0, 1] before it is applied. */
  function Lerp(a: real, b: real, t: real): (r: real)
    ensures a <= b ==> a <= r <= b
    ensures b <= a ==> b <= r <= a
    ensures t <= 0.0 ==> r == a
    ensures t >= 1.0 ==> r == b
  {
    a + Portion(b - a, Clamp01(t))
  }

  /** Mathf.MoveTowards: steps from current to target by maxDelta, landing on the target once it
      is no further than maxDelta away. */
  function MoveTowards(current: real, target: real, maxDelta: real): (r: real)
    // with a non-negative step the result never overshoots the target
    ensures maxDelta >= 0.0 ==> (current <= r <= target) || (target <= r <= current)
    ensures maxDelta >= 0.0 ==> Abs(r - current) <= maxDelta
    ensures maxDelta >= 0.0 ==> (r == target <==> Abs(target - current) <= maxDelta)
    ensures r != target ==> Abs(target - r) == Abs(target - current) - maxDelta
  {
    if Abs(target - current) <= maxDelta then target
    else current + Sign(target - current) * maxDelta
  }

  /** Vertical baseline of a step: Lerp between the start and target heights by the horizontal
      fraction, followed by the NaN guard. With a zero horizontal span the fraction is 0/0 = NaN
      when nextX is still start.x (the guard gives 0); otherwise it is an infinity that Lerp's
      clamp turns into 1 or 0. */
  function BaseY(start: Vec2, target: Vec2, nextX: real): (r: real)
    // on a real horizontal move the baseline runs from start.y at start.x to target.y at
    // target.x and never leaves the band between the two heights
    ensures target.x != start.x ==>
      (start.y <= target.y ==> start.y <= r <= target.y) && (target.y <= start.y ==> target.y <= r <= start.y)
    ensures target.x != start.x && nextX == start.x ==> r == start.y
    ensures target.x != start.x && nextX == target.x ==> r == target.y
    // the NaN guard: a zero span still at start.x gives height 0, not start.y
    ensures target.x == start.x && nextX == start.x ==> r == 0.0
  {
    var xDiff := target.x - start.x;
    if xDiff != 0.0 then MulDiv(1.0, xDiff); Lerp(start.y, target.y, (nextX - start.x) / xDiff)
    else if nextX == start.x then 0.0
    else if nextX > start.x then target.y
    else start.y
  }

  /** Parabolic arc offset, scaled so that it equals arcHeight half-way. With a zero horizontal
      span it is 0: the engine gets NaN from 0/0 while nextX is still start.x, which the guard
      turns into 0, and an infinity once nextX has left start.x, which this model does not
      follow (unlike BaseY). That second case cannot arise: a shell moving along a zero span
      starts at start.x and, its x target being start.x, never leaves it. */
  function Arc(start: Vec2, target: Vec2, arcHeight: real, nextX: real): (r: real)
    ensures target.x == start.x ==> r == 0.0
    // between the two ends the offset lies between the baseline and arcHeight
    ensures Within(nextX, start.x, target.x) && arcHeight >= 0.0 ==> 0.0 <= r <= arcHeight
    ensures Within(nextX, start.x, target.x) && arcHeight <= 0.0 ==> arcHeight <= r <= 0.0
  {
    var xDiff := target.x - start.x;
    if xDiff == 0.0 then 0.0
    else
      ArcScaleNegative(xDiff);
      ArcFraction(arcHeight, nextX, start.x, target.x);
      arcHeight * (nextX - start.x) * (nextX - target.x) / ArcScale(xDiff)
  }

  /** x lies on the closed segment between a and b, whichever way round they are. */
  predicate Within(x: real, a: real, b: real)
  {
    (a <= x <= b) || (b <= x <= a)
  }

  /** For an x and the two ends a and b of a span, the arc's fraction
      (x - a) * (x - b) / ArcScale(b - a) is at most 1, and at least 0 when x lies between the
      ends, so the offset h times it stays between 0 and h there. */
  lemma ArcFraction(h: real, x: real, a: real, b: real)
    requires b - a != 0.0
    ensures ArcScale(b - a) < 0.0
    ensures Within(x, a, b) && h >= 0.0 ==> 0.0 <= h * (x - a) * (x - b) / ArcScale(b - a) <= h
    ensures Within(x, a, b) && h <= 0.0 ==> h <= h * (x - a) * (x - b) / ArcScale(b - a) <= 0.0
  {
    var u := x - a;
    var w := x - b;
    var S := ArcScale(b - a);
    ArcScaleNegative(b - a);
    ProductAtLeastScale(u, w, b - a);
    if Within(x, a, b) {
      BetweenProduct(x, a, b);
      DivNegative(u * w, S);
      var q := u * w / S;
      ScaleWithin(h, q);
      calc {
        h * (x - a) * (x - b) / ArcScale(b - a);
        h * u * w / S;
        { MulDivAssoc(h, u, w, S); }
        h * q;
      }
    }
  }

  /** Offsets u and w from the two ends of a span d: their product is at least ArcScale(d),
      the value it takes half-way. */
  lemma ProductAtLeastScale(u: real, w: real, d: real)
    requires u - w == d
    ensures u * w >= ArcScale(d)
  {
    SquareNonNegative(u + w);
    assert (u + w) * (u + w) - d * d == 4.0 * (u * w);
  }

  /** Between the two ends, the offsets from them have opposite signs. */
  lemma BetweenProduct(x: real, a: real, b: real)
    requires Within(x, a, b)
    ensures (x - a) * (x - b) <= 0.0
  {
    if a <= x <= b {
      MulNonNegative(x - a, b - x);
      assert (x - a) * (x - b) == -((x - a) * (b - x));
    } else {
      MulNonNegative(a - x, x - b);
      assert (x - a) * (x - b) == -((a - x) * (x - b));
    }
  }

  lemma MulDivAssoc(h: real, u: real, w: real, S: real)
    requires S != 0.0
    ensures h * u * w / S == h * (u * w / S)
  {
    assert h * u * w == h * (u * w);
  }

  /** A fraction q in [0, 1] of h lies between 0 and h. */
  lemma ScaleWithin(h: real, q: real)
    requires 0.0 <= q <= 1.0
    ensures h >= 0.0 ==> 0.0 <= h * q <= h
    ensures h <= 0.0 ==> h <= h * q <= 0.0
  {
    if h >= 0.0 {
      MulNonNegative(h, q);
      MulNonNegative(h, 1.0 - q);
    } else {
      MulNonNegative(-h, q);
      MulNonNegative(-h, 1.0 - q);
    }
  }

  /** Dividing by a negative S: a value at least S gives at most 1, and a value at most 0
      gives at least 0. */
  lemma DivNegative(p: real, S: real)
    requires S < 0.0
    ensures p >= S ==> p / S <= 1.0
    ensures p <= 0.0 ==> p / S >= 0.0
  {
  }

  /** The arc's divisor -0.25 * xDiff * xDiff: minus the square of half the span. */
  function ArcScale(xDiff: real): real
  {
    -0.25 * xDiff * xDiff
  }

  /** The position a moving shell takes on one tick of length dt. */
  function NextPosition(position: Vec2, start: Vec2, target: Vec2, speed: real, arcHeight: real, dt: real): (r: Vec2)
    // x moves towards the target by at most the step and never past it
    ensures StepLength(speed, dt) >= 0.0 ==>
      Abs(r.x - position.x) <= StepLength(speed, dt) && Within(r.x, position.x, target.x)
    ensures StepLength(speed, dt) >= 0.0 ==> (r.x == target.x <==> Abs(target.x - position.x) <= StepLength(speed, dt))
  {
    var nextX := MoveTowards(position.x, target.x, StepLength(speed, dt));
    Vec2(nextX, BaseY(start, target, nextX) + Arc(start, target, arcHeight, nextX))
  }

  /** How far a shell of the given speed may travel in one tick of length dt. */
  function StepLength(speed: real, dt: real): real
  {
    speed * dt
  }

  /** A positive speed over a tick of positive length makes a positive step. */
  lemma StepPositive(speed: real, dt: real)
    requires speed > 0.0 && dt > 0.0
    ensures StepLength(speed, dt) > 0.0
  {
    MulNonNegative(speed, dt);
    assert speed * dt != 0.0;
  }

  /** Whole ticks still needed before x lands on targetX, at step length d. */
  function StepsLeft(x: real, targetX: real, d: real): (n: int)
    requires d > 0.0
    ensures n >= 0
    ensures n as real <= Abs(targetX - x) / d < n as real + 1.0
  {
    (Abs(targetX - x) / d).Floor
  }

  /** The arc leaves the start and lands on the target at height 0, and peaks at arcHeight
      half-way between them. */
  lemma ArcShape(start: Vec2, target: Vec2, arcHeight: real)
    requires target.x != start.x
    ensures Arc(start, target, arcHeight, start.x) == 0.0
    ensures Arc(start, target, arcHeight, target.x) == 0.0
    ensures Arc(start, target, arcHeight, (start.x + target.x) / 2.0) == arcHeight
  {
    ArcAtEnd(start, target, arcHeight, start.x);
    ArcAtEnd(start, target, arcHeight, target.x);
    var d := target.x - start.x;
    var m := (start.x + target.x) / 2.0;
    var u := m - start.x;
    var w := m - target.x;
    assert u == 0.5 * d && w == -0.5 * d;
    assert ArcScale(d) == u * w;
    assert arcHeight * u * w == arcHeight * ArcScale(d);
    ArcScaleNegative(d);
    MulDiv(arcHeight, ArcScale(d));
  }

  lemma ArcAtEnd(start: Vec2, target: Vec2, arcHeight: real, x: real)
    requires x == start.x || x == target.x
    ensures Arc(start, target, arcHeight, x) == 0.0
  {
    var d := target.x - start.x;
    if d != 0.0 {
      ArcScaleNegative(d);
      assert arcHeight * (x - start.x) * (x - target.x) == 0.0 * ArcScale(d);
      MulDiv(0.0, ArcScale(d));
    }
  }

  /** On a non-degenerate move, the tick whose x reaches the target puts the shell exactly on
      the target, and a tick whose x falls short leaves it off the target. */
  lemma ArrivesExactly(position: Vec2, start: Vec2, target: Vec2, speed: real, arcHeight: real, dt: real)
    requires target.x != start.x
    ensures NextPosition(position, start, target, speed, arcHeight, dt) == target
        <==> MoveTowards(position.x, target.x, StepLength(speed, dt)) == target.x
  {
    var nextX := MoveTowards(position.x, target.x, StepLength(speed, dt));
    if nextX == target.x {
      var d := target.x - start.x;
      MulDiv(1.0, d);
      assert (nextX - start.x) / d == 1.0;
      ArcAtEnd(start, target, arcHeight, nextX);
    }
  }

  /** Each tick of a non-degenerate move either lands on the target or is one whole step closer
      to it: the measure that makes waiting for a swap terminate. */
  lemma StepProgress(position: Vec2, start: Vec2, target: Vec2, speed: real, arcHeight: real, dt: real)
    requires target.x != start.x
    requires StepLength(speed, dt) > 0.0
    ensures var p := NextPosition(position, start, target, speed, arcHeight, dt);
            p == target || StepsLeft(p.x, target.x, StepLength(speed, dt)) == StepsLeft(position.x, target.x, StepLength(speed, dt)) - 1
  {
    var d := StepLength(speed, dt);
    var p := NextPosition(position, start, target, speed, arcHeight, dt);
    ArrivesExactly(position, start, target, speed, arcHeight, dt);
    if p != target {
      var a := Abs(target.x - position.x);
      assert Abs(target.x - p.x) == a - d;
      DivShift(a, d);
      FloorShift(a / d);
    }
  }

  /** The fraction c of the span w: between 0 and w. */
  function Portion(w: real, c: real): (r: real)
    requires 0.0 <= c <= 1.0
    ensures w >= 0.0 ==> 0.0 <= r <= w
    ensures w <= 0.0 ==> w <= r <= 0.0
    ensures c == 0.0 ==> r == 0.0
    ensures c == 1.0 ==> r == w
  {
    assert w - w * c == w * (1.0 - c);
    if w >= 0.0 then MulNonNegative(w, c); MulNonNegative(w, 1.0 - c); w * c
    else MulNonNegative(-w, c); MulNonNegative(-w, 1.0 - c); w * c
  }

  lemma MulDiv(h: real, d: real)
    requires d != 0.0
    ensures (h * d) / d == h
  {
  }

  lemma DivShift(a: real, d: real)
    requires d != 0.0
    ensures (a - d) / d == a / d - 1.0
  {
    var q := a / d;
    var r := q - 1.0;
    MulDiv(r, d);
    MulDiv(q, d);
    assert a - d == r * d;
  }

  lemma FloorShift(r: real)
    ensures (r - 1.0).Floor == r.Floor - 1
  {
  }

  /** The guard for a purely vertical move: the shell is put at height 0, not at start.y. */
  lemma VerticalMoveFlattens(position: Vec2, start: Vec2, target: Vec2, speed: real, arcHeight: real, dt: real)
    requires target.x == start.x && position.x == start.x
    requires StepLength(speed, dt) >= 0.0
    ensures NextPosition(position, start, target, speed, arcHeight, dt) == Vec2(target.x, 0.0)
    ensures BaseY(start, target, target.x) == 0.0 && Arc(start, target, arcHeight, target.x) == 0.0
  {
  }

  /** A purely vertical move to a target off height 0 never ends: after its first tick the shell
      sits at (target.x, 0), which is not the target, and every later tick keeps it there. */
  lemma VerticalMoveStalls(position: Vec2, start: Vec2, target: Vec2, speed: real, arcHeight: real, dt: real)
    requires target.x == start.x && position.x == start.x && target.y != 0.0
    requires StepLength(speed, dt) >= 0.0
    ensures var p := NextPosition(position, start, target, speed, arcHeight, dt);
            p != target && NextPosition(p, start, target, speed, arcHeight, dt) == p
  {
    VerticalMoveFlattens(position, start, target, speed, arcHeight, dt);
    VerticalMoveFlattens(Vec2(target.x, 0.0), start, target, speed, arcHeight, dt);
  }

  /** One Lerp by a fraction s in [0, 1] scales the distance left to the goal by (1 - s). */
  lemma LerpShrinks(v: real, goal: real, s: real)
    requires 0.0 <= s <= 1.0
    ensures Abs(goal - Lerp(v, goal, s)) == Abs(goal - v) * (1.0 - s)
  {
    assert goal - Lerp(v, goal, s) == (goal - v) * (1.0 - s);
    if goal - v < 0.0 {
      assert (goal - v) * (1.0 - s) <= 0.0;
    } else {
      assert (goal - v) * (1.0 - s) >= 0.0;
    }
  }

  /** A light fade with transition speed at least 0.001 that is still 0.1 or more from its goal
      loses at least a ten-thousandth of distance on its next Lerp: the measure that makes waiting
      for a chest animation terminate. */
  lemma FadeProgress(v: real, goal: real, s: real)
    requires 0.001 <= s <= 1.0
    requires Abs(goal - v) >= 0.1
    ensures (Abs(goal - Lerp(v, goal, s)) * 10000.0).Floor < (Abs(goal - v) * 10000.0).Floor
  {
    var a := Abs(goal - v);
    LerpShrinks(v, goal, s);
    var t := Abs(goal - Lerp(v, goal, s));
    assert t == a - a * s;
    ShareAtLeast(a, s);
    assert t <= a - 0.0001;
    var next := t * 10000.0;
    assert next <= a * 10000.0 - 1.0;
    FloorShift(a * 10000.0);
    FloorMonotonic(next, a * 10000.0 - 1.0);
  }

  lemma ArcScaleNegative(d: real)
    requires d != 0.0
    ensures ArcScale(d) < 0.0
  {
    var h := -0.25 * d;
    assert ArcScale(d) == h * d;
    if d > 0.0 {
      assert h < 0.0;
      assert h * d < 0.0;
    } else {
      assert h > 0.0;
      assert h * d < 0.0;
    }
  }

  lemma ShareAtLeast(a: real, s: real)
    requires a >= 0.1 && s >= 0.001
    ensures a * s >= 0.0001
  {
    MulNonNegative(a - 0.1, s);
    assert a * s == (a - 0.1) * s + 0.1 * s;
  }

  lemma SquareNonNegative(x: real)
    ensures x * x >= 0.0
  {
    if x < 0.0 {
      MulNonNegative(-x, -x);
    } else {
      MulNonNegative(x, x);
    }
  }

  lemma MulNonNegative(x: real, y: real)
    requires x >= 0.0 && y >= 0.0
    ensures x * y >= 0.0
  {
  }

  lemma FloorMonotonic(r: real, q: real)
    requires r <= q
    ensures r.Floor <= q.Floor
  {
  }

}
