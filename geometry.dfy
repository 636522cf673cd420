/** Arc geometry of the path editor: the chord midpoint, the quadrant sign `y_f`
    and the centre computed by `calcCenter`, the snap applied when an arc centre
    is dragged, and the two sign factors `makeArc` chooses for the sweep.

    The library results the source takes from three.js and `Math`
    (`Vector3.angleTo`, `Math.cos`, `Math.sqrt`, `Vector3.distanceTo`) are not
    computed here: they enter as real parameters that satisfy their defining
    equations (`IsSqrt`, `IsDistance`, `ExactCosine`). */
module Geometry {
  import opened Wrappers

  /** A `THREE.Vector3` whose coordinates are finite numbers. */
  datatype Point = Point(x: real, y: real, z: real)

  /** The `Vector3` that `calcCenter` returns. Its `y` is `None` where JavaScript
      computes NaN: the quadrant sign `y_f` is left undefined there. */
  datatype CenterPoint = CenterPoint(x: real, y: Option<real>, z: real)

  /** The two factors `makeArc` multiplies into the start angle (`positive`)
      and into the sweep (`positiveS`). */
  datatype Signs = Signs(positive: int, positiveS: int)

  function Sq(a: real): real { a * a }

  lemma MulNonNegative(a: real, b: real)
    requires 0.0 <= a && 0.0 <= b
    ensures 0.0 <= a * b
  {
  }

  /** A product with a non-zero factor vanishes only if the other factor does. */
  lemma ZeroFactor(a: real, b: real)
    requires a * b == 0.0 && b != 0.0
    ensures a == 0.0
  {
  }

  function Abs(a: real): real { if a >= 0.0 then a else -a }

  /** Squared Euclidean distance, the square of `Vector3.distanceTo`. */
  function SqDist(p: Point, q: Point): real
  {
    Sq(p.x - q.x) + Sq(p.y - q.y) + Sq(p.z - q.z)
  }

  /** Squared distance in the x/y plane from `(ax, ay)` to `p`. */
  function SqDistXY(ax: real, ay: real, p: Point): real
  {
    Sq(ax - p.x) + Sq(ay - p.y)
  }

  /** `root` is what `Math.sqrt(v)` returns. */
  predicate IsSqrt(root: real, v: real)
  {
    0.0 <= root && root * root == v
  }

  /** `d` is what `p.distanceTo(q)` returns. */
  predicate IsDistance(d: real, p: Point, q: Point)
  {
    IsSqrt(d, SqDist(p, q))
  }

  /** `c` is the value `calcCenter` computes as
      `Math.cos(ang2Rad(90 - rad2Ang(lineA.angleTo(lineB))))` with
      `lineA = start - mid` and `lineB` pointing along +y: the sine of the angle
      between `lineA` and the y axis. `angleTo` returns a right angle for a
      zero-length vector, whose cosine of complement is 1. */
  predicate ExactCosine(c: real, start: Point, mid: Point)
  {
    var dx, dy, dz := start.x - mid.x, start.y - mid.y, start.z - mid.z;
    0.0 <= c <= 1.0 &&
    c * c * (Sq(dx) + Sq(dy) + Sq(dz)) == Sq(dx) + Sq(dz) &&
    (Sq(dx) + Sq(dy) + Sq(dz) == 0.0 ==> c == 1.0)
  }

  /** `new THREE.Vector3().lerpVectors(a, b, 0.5)`: the point halfway along the chord. */
  function Midpoint(a: Point, b: Point): (m: Point)
    ensures m.x - a.x == b.x - m.x && m.y - a.y == b.y - m.y && m.z - a.z == b.z - m.z
  {
    Point(a.x + (b.x - a.x) * 0.5, a.y + (b.y - a.y) * 0.5, a.z + (b.z - a.z) * 0.5)
  }

  /** The quadrant sign `y_f` of `calcCenter`: two independent conditional
      assignments, the second one winning, and no assignment at all when
      `start` lies on a horizontal or vertical line through `mid`. */
  function YFactor(start: Point, mid: Point, xf: real): (yf: Option<real>)
    ensures yf.Some? <==> start.x != mid.x && start.y != mid.y
    ensures (start.x - mid.x) * (start.y - mid.y) > 0.0 ==> yf == Some(-xf)
    ensures (start.x - mid.x) * (start.y - mid.y) < 0.0 ==> yf == Some(xf)
  {
    var first :=
      if (start.y > mid.y && start.x > mid.x) || (start.y < mid.y && start.x < mid.x)
      then Some(-xf) else None;
    if (start.y < mid.y && start.x > mid.x) || (start.y > mid.y && start.x < mid.x)
    then Some(xf) else first
  }

  /** `calcCenter(start, end, dis, x_f)`: the chord midpoint moved by
      `x_f * offsetX` along x and `y_f * offsetY` along y, where
      `offsetY = dis * cosine` and `offsetX = sqrt(dis^2 - offsetY^2)`. */
  function CalcCenter(start: Point, end: Point, dis: real, xf: real, cosine: real, root: real): (c: CenterPoint)
    requires -1.0 <= cosine <= 1.0
    requires IsSqrt(root, dis * dis - (dis * cosine) * (dis * cosine))
    ensures c.z == Midpoint(start, end).z
    ensures c.y.Some? <==> start.x != end.x && start.y != end.y
    ensures xf * (c.x - Midpoint(start, end).x) >= 0.0
  {
    var center := Midpoint(start, end);
    var yf := YFactor(start, center, xf);
    var offsetY := dis * cosine;
    var offsetX := root;
    assert xf * (xf * offsetX) == Sq(xf) * offsetX;
    MulNonNegative(Sq(xf), offsetX);
    CenterPoint(
      center.x + xf * offsetX,
      if yf.Some? then Some(center.y + yf.value * offsetY) else None,
      center.z)
  }

  /** The radicand of `calcCenter`'s square root is never negative, so
      `Math.sqrt` always has a real result there. */
  lemma RadicandNonNegative(dis: real, cosine: real)
    requires -1.0 <= cosine <= 1.0
    ensures dis * dis - (dis * cosine) * (dis * cosine) >= 0.0
  {
    assert (dis * cosine) * (dis * cosine) == (dis * dis) * (cosine * cosine);
    assert cosine * cosine <= 1.0 by {
      if cosine >= 0.0 { assert cosine * cosine <= cosine * 1.0; }
      else { assert cosine * cosine <= (-cosine) * 1.0; }
    }
    assert (dis * dis) * (cosine * cosine) <= dis * dis * 1.0;
  }

  /** When `y_f` is defined and `x_f` is a unit sign, the centre lies at
      distance `dis` from the chord midpoint. */
  lemma CenterAtDistance(start: Point, end: Point, dis: real, xf: real, cosine: real, root: real)
    requires xf == 1.0 || xf == -1.0
    requires -1.0 <= cosine <= 1.0
    requires IsSqrt(root, dis * dis - (dis * cosine) * (dis * cosine))
    ensures var c := CalcCenter(start, end, dis, xf, cosine, root);
            c.y.Some? ==> SqDistXY(c.x, c.y.value, Midpoint(start, end)) == dis * dis
  {
    var c := CalcCenter(start, end, dis, xf, cosine, root);
    var m := Midpoint(start, end);
    if c.y.Some? {
      var yf := YFactor(start, m, xf);
      assert yf.value == xf || yf.value == -xf;
      assert Sq(c.x - m.x) == Sq(xf) * Sq(root);
      assert Sq(c.y.value - m.y) == Sq(yf.value) * Sq(dis * cosine);
    }
  }

  /** `calcCenter(start, end, 0, 1)`, the call the endpoint drag and the
      line-to-arc toggle make: the chord midpoint where `y_f` is defined, with
      a NaN y otherwise. At distance 0 the cosine and the square root play no
      part (`ZeroDistanceIgnoresTrig`), so they are fixed here. */
  function ChordMidCenter(start: Point, end: Point): (c: CenterPoint)
    ensures var m := Midpoint(start, end);
            c.x == m.x && c.z == m.z &&
            c.y == (if start.x != end.x && start.y != end.y then Some(m.y) else None)
  {
    CalcCenter(start, end, 0.0, 1.0, 0.0, 0.0)
  }

  /** With `dis = 0` the result of `calcCenter` depends neither on `x_f` nor on
      the library values. */
  lemma ZeroDistanceIgnoresTrig(start: Point, end: Point, xf: real, cosine: real, root: real)
    requires -1.0 <= cosine <= 1.0
    requires IsSqrt(root, 0.0 * 0.0 - (0.0 * cosine) * (0.0 * cosine))
    ensures CalcCenter(start, end, 0.0, xf, cosine, root) == ChordMidCenter(start, end)
  {
    assert root * root == 0.0;
    assert root == 0.0;
  }

  /** The side `x_f` a dragged centre chooses: +1 strictly right of the chord
      midpoint, -1 otherwise. */
  function Side(current: Point, mid: Point): (xf: real)
    ensures xf == 1.0 || xf == -1.0
    ensures xf == 1.0 <==> current.x > mid.x
  {
    if current.x > mid.x then 1.0 else -1.0
  }

  /** The centre a dragged arc centre snaps to: `calcCenter(start, end, dis, x_f)`
      with `dis` the drag point's distance to the chord midpoint and `x_f` its
      side. The snapped centre stays on the drag point's side of the midpoint
      and, where its y is a number, keeps the drag point's distance to it. */
  function SnapCenter(start: Point, end: Point, current: Point, dis: real, cosine: real, root: real): (c: CenterPoint)
    requires IsDistance(dis, current, Midpoint(start, end))
    requires -1.0 <= cosine <= 1.0
    requires IsSqrt(root, dis * dis - (dis * cosine) * (dis * cosine))
    ensures var m := Midpoint(start, end);
            (current.x > m.x ==> c.x >= m.x) && (current.x <= m.x ==> c.x <= m.x)
    ensures c.y.Some? ==> SqDistXY(c.x, c.y.value, Midpoint(start, end)) == SqDist(current, Midpoint(start, end))
  {
    var m := Midpoint(start, end);
    var xf := Side(current, m);
    CenterAtDistance(start, end, dis, xf, cosine, root);
    CalcCenter(start, end, dis, xf, cosine, root)
  }

  /** Two non-negative reals with equal squares are equal. */
  lemma SquareRootUnique(a: real, b: real)
    requires 0.0 <= a && 0.0 <= b && a * a == b * b
    ensures a == b
  {
    assert (a - b) * (a + b) == 0.0;
    if a + b == 0.0 {
    } else {
      assert a - b == 0.0;
    }
  }

  /** With the library values exact, the two offsets of `calcCenter` are in
      the proportion of the half-chord `(dx, dy) = start - mid` of a chord
      whose endpoints share z: `offsetX^2 * dx^2 == offsetY^2 * dy^2`. */
  lemma OffsetsProportional(start: Point, end: Point, dis: real, cosine: real, root: real)
    requires start.z == end.z
    requires ExactCosine(cosine, start, Midpoint(start, end))
    requires IsSqrt(root, dis * dis - (dis * cosine) * (dis * cosine))
    ensures var m := Midpoint(start, end);
            Sq(root) * Sq(start.x - m.x) == Sq(dis * cosine) * Sq(start.y - m.y)
  {
    var m := Midpoint(start, end);
    var dx, dy := start.x - m.x, start.y - m.y;
    assert start.z - m.z == 0.0;
    var k := Sq(cosine);
    assert k * (Sq(dx) + Sq(dy)) == Sq(dx);
    assert Sq(root) == Sq(dis) * (1.0 - k);
    calc {
      Sq(root) * Sq(dx);
      Sq(dis) * (1.0 - k) * Sq(dx);
      Sq(dis) * (Sq(dx) - k * Sq(dx));
      { assert Sq(dx) - k * Sq(dx) == k * Sq(dy); }
      Sq(dis) * (k * Sq(dy));
      Sq(dis * cosine) * Sq(dy);
    }
  }

  /** Unsquared form of the proportion: `offsetX * |dx| == offsetY * |dy|`. */
  lemma OffsetsBalanced(dx: real, dy: real, root: real, dc: real)
    requires 0.0 <= root && 0.0 <= dc
    requires Sq(root) * Sq(dx) == Sq(dc) * Sq(dy)
    ensures root * Abs(dx) == dc * Abs(dy)
  {
    assert Sq(Abs(dx)) == Sq(dx) && Sq(Abs(dy)) == Sq(dy);
    assert Sq(root * Abs(dx)) == Sq(root) * Sq(Abs(dx));
    assert Sq(dc * Abs(dy)) == Sq(dc) * Sq(Abs(dy));
    MulNonNegative(root, Abs(dx));
    MulNonNegative(dc, Abs(dy));
    SquareRootUnique(root * Abs(dx), dc * Abs(dy));
  }

  /** The x/y offset `(ux, uy)` of a centre from the chord midpoint is
      perpendicular to the half-chord `(dx, dy)` when the offsets are in the
      proportion `calcCenter` gives them and `y_f` follows the quadrant rule. */
  lemma PerpendicularOffset(dx: real, dy: real, xf: real, yf: real, root: real, dc: real)
    requires dx != 0.0 && dy != 0.0
    requires root * Abs(dx) == dc * Abs(dy)
    requires (dx > 0.0 && dy > 0.0) || (dx < 0.0 && dy < 0.0) ==> yf == -xf
    requires (dx > 0.0 && dy < 0.0) || (dx < 0.0 && dy > 0.0) ==> yf == xf
    ensures (xf * root) * dx + (yf * dc) * dy == 0.0
  {
    var adx, ady := Abs(dx), Abs(dy);
    if dx > 0.0 && dy > 0.0 {
      assert (xf * root) * dx + (yf * dc) * dy == xf * (root * adx - dc * ady);
    } else if dx < 0.0 && dy < 0.0 {
      assert (xf * root) * dx + (yf * dc) * dy == xf * (dc * ady - root * adx);
    } else if dx > 0.0 {
      assert (xf * root) * dx + (yf * dc) * dy == xf * (root * adx - dc * ady);
    } else {
      assert (xf * root) * dx + (yf * dc) * dy == xf * (dc * ady - root * adx);
    }
  }

  /** The offsets of `calcCenter`'s result from the chord midpoint. */
  lemma CenterOffsets(start: Point, end: Point, dis: real, xf: real, cosine: real, root: real)
    requires -1.0 <= cosine <= 1.0
    requires IsSqrt(root, dis * dis - (dis * cosine) * (dis * cosine))
    ensures var c := CalcCenter(start, end, dis, xf, cosine, root);
            var m := Midpoint(start, end);
            c.x - m.x == xf * root &&
            (c.y.Some? ==> c.y.value - m.y == YFactor(start, m, xf).value * (dis * cosine))
  {
  }

  /** A point whose offset from the midpoint `(mx, my)` of `s` and `e` is
      perpendicular to the half-chord is equally far from both chord ends. */
  lemma PerpendicularIsEquidistant(cx: real, cy: real, s: Point, e: Point, mx: real, my: real, ux: real, uy: real)
    requires s.x - mx == mx - e.x && s.y - my == my - e.y
    requires cx - mx == ux && cy - my == uy
    requires ux * (s.x - mx) + uy * (s.y - my) == 0.0
    ensures SqDistXY(cx, cy, s) == SqDistXY(cx, cy, e)
  {
    var dx, dy := s.x - mx, s.y - my;
    assert cx - s.x == ux - dx && cy - s.y == uy - dy;
    assert cx - e.x == ux + dx && cy - e.y == uy + dy;
    assert Sq(ux - dx) + Sq(uy - dy) == Sq(ux + dx) + Sq(uy + dy) - 4.0 * (ux * dx + uy * dy);
  }

  /** `OffsetsProportional` for the half-chord of `start` and `end`, unsquared. */
  lemma OffsetsBalancedOnChord(start: Point, end: Point, dis: real, cosine: real, root: real)
    requires start.z == end.z && 0.0 <= dis
    requires ExactCosine(cosine, start, Midpoint(start, end))
    requires IsSqrt(root, dis * dis - (dis * cosine) * (dis * cosine))
    ensures var m := Midpoint(start, end);
            root * Abs(start.x - m.x) == (dis * cosine) * Abs(start.y - m.y)
  {
    var m := Midpoint(start, end);
    MulNonNegative(dis, cosine);
    OffsetsProportional(start, end, dis, cosine, root);
    OffsetsBalanced(start.x - m.x, start.y - m.y, root, dis * cosine);
  }

  /** A centre offset from the midpoint by `(x_f * offsetX, y_f * offsetY)`,
      with the offsets balanced against the half-chord and `y_f` chosen by
      the quadrant rule, is equally far from both chord ends. */
  lemma BalancedCenterIsEquidistant(start: Point, end: Point, cx: real, cy: real,
                                    xf: real, yf: real, root: real, dc: real)
    requires start.x != end.x && start.y != end.y
    requires var m := Midpoint(start, end);
             root * Abs(start.x - m.x) == dc * Abs(start.y - m.y) &&
             cx - m.x == xf * root && cy - m.y == yf * dc
    requires var m := Midpoint(start, end);
             yf == YFactor(start, m, xf).value
    ensures SqDistXY(cx, cy, start) == SqDistXY(cx, cy, end)
  {
    var m := Midpoint(start, end);
    PerpendicularOffset(start.x - m.x, start.y - m.y, xf, yf, root, dc);
    PerpendicularIsEquidistant(cx, cy, start, end, m.x, m.y, xf * root, yf * dc);
  }

  /** The snapped centre lies on the perpendicular bisector of the chord: it
      is equally far, in the x/y plane, from both endpoints. This needs the
      endpoints to share z (the arcs of this editor are planar), a
      non-negative distance and the exact library cosine. */
  lemma SnapOnBisector(start: Point, end: Point, dis: real, xf: real, cosine: real, root: real)
    requires start.z == end.z && 0.0 <= dis
    requires ExactCosine(cosine, start, Midpoint(start, end))
    requires IsSqrt(root, dis * dis - (dis * cosine) * (dis * cosine))
    ensures var c := CalcCenter(start, end, dis, xf, cosine, root);
            c.y.Some? ==> SqDistXY(c.x, c.y.value, start) == SqDistXY(c.x, c.y.value, end)
  {
    var c := CalcCenter(start, end, dis, xf, cosine, root);
    if c.y.Some? {
      var m := Midpoint(start, end);
      OffsetsBalancedOnChord(start, end, dis, cosine, root);
      CenterOffsets(start, end, dis, xf, cosine, root);
      BalancedCenterIsEquidistant(start, end, c.x, c.y.value, xf, YFactor(start, m, xf).value, root, dis * cosine);
    }
  }

  /** Off an axis-aligned chord, a positive distance gives a positive
      `offsetX`: the square root is never zero there. */
  lemma OffsetXPositive(start: Point, end: Point, dis: real, cosine: real, root: real)
    requires start.z == end.z && 0.0 < dis
    requires start.x != end.x && start.y != end.y
    requires ExactCosine(cosine, start, Midpoint(start, end))
    requires IsSqrt(root, dis * dis - (dis * cosine) * (dis * cosine))
    ensures 0.0 < root
  {
    var m := Midpoint(start, end);
    var dx, dy := start.x - m.x, start.y - m.y;
    OffsetsProportional(start, end, dis, cosine, root);
    MulNonNegative(dis, cosine);
    OffsetsBalanced(dx, dy, root, dis * cosine);
    if root == 0.0 {
      assert (dis * cosine) * Abs(dy) == 0.0;
      ZeroFactor(dis * cosine, Abs(dy));
      ZeroFactor(cosine, dis);
      assert root * root == dis * dis;
      SquareRootUnique(root, dis);
      assert false;
    }
  }

  /** Snapping round-trips: from a centre computed with side `x_f` and a
      positive distance `dis`, the centre drag reads back the same side and
      the same distance (the snapped centre has the midpoint's z). */
  lemma SnapRoundTrip(start: Point, end: Point, dis: real, xf: real, cosine: real, root: real)
    requires start.z == end.z && 0.0 < dis
    requires xf == 1.0 || xf == -1.0
    requires ExactCosine(cosine, start, Midpoint(start, end))
    requires IsSqrt(root, dis * dis - (dis * cosine) * (dis * cosine))
    ensures var c := CalcCenter(start, end, dis, xf, cosine, root);
            var m := Midpoint(start, end);
            c.y.Some? ==>
              Side(Point(c.x, c.y.value, c.z), m) == xf &&
              IsDistance(dis, Point(c.x, c.y.value, c.z), m)
  {
    var c := CalcCenter(start, end, dis, xf, cosine, root);
    var m := Midpoint(start, end);
    if c.y.Some? {
      OffsetXPositive(start, end, dis, cosine, root);
      assert c.x - m.x == xf * root;
      CenterAtDistance(start, end, dis, xf, cosine, root);
    }
  }

  /** A centre snapped at distance 0 is the chord midpoint, and snapping the
      midpoint again gives the midpoint. */
  lemma SnapAtMidpointIdempotent(start: Point, end: Point, xf: real, cosine: real, root: real,
                                 dis2: real, root2: real)
    requires -1.0 <= cosine <= 1.0
    requires IsSqrt(root, 0.0 * 0.0 - (0.0 * cosine) * (0.0 * cosine))
    requires CalcCenter(start, end, 0.0, xf, cosine, root).y.Some?
    requires var c := CalcCenter(start, end, 0.0, xf, cosine, root);
             IsDistance(dis2, Point(c.x, c.y.value, c.z), Midpoint(start, end))
    requires IsSqrt(root2, dis2 * dis2 - (dis2 * cosine) * (dis2 * cosine))
    ensures var c := CalcCenter(start, end, 0.0, xf, cosine, root);
            SnapCenter(start, end, Point(c.x, c.y.value, c.z), dis2, cosine, root2) == c
  {
    var m := Midpoint(start, end);
    var c := CalcCenter(start, end, 0.0, xf, cosine, root);
    ZeroDistanceIgnoresTrig(start, end, xf, cosine, root);
    var p := Point(c.x, c.y.value, c.z);
    assert p == m;
    assert SqDist(p, m) == 0.0;
    assert dis2 * dis2 == 0.0 * 0.0;
    SquareRootUnique(dis2, 0.0);
    ZeroDistanceIgnoresTrig(start, end, Side(p, m), cosine, root2);
  }

  /** Dragging an arc centre onto the position it last snapped to leaves it
      there: the snap is a projection. */
  lemma SnapIdempotent(start: Point, end: Point, current: Point, dis: real, cosine: real, root: real,
                       dis2: real, root2: real)
    requires start.z == end.z
    requires ExactCosine(cosine, start, Midpoint(start, end))
    requires IsDistance(dis, current, Midpoint(start, end))
    requires IsSqrt(root, dis * dis - (dis * cosine) * (dis * cosine))
    requires SnapCenter(start, end, current, dis, cosine, root).y.Some?
    requires var c := SnapCenter(start, end, current, dis, cosine, root);
             IsDistance(dis2, Point(c.x, c.y.value, c.z), Midpoint(start, end))
    requires IsSqrt(root2, dis2 * dis2 - (dis2 * cosine) * (dis2 * cosine))
    ensures var c := SnapCenter(start, end, current, dis, cosine, root);
            SnapCenter(start, end, Point(c.x, c.y.value, c.z), dis2, cosine, root2) == c
  {
    var m := Midpoint(start, end);
    var xf := Side(current, m);
    if dis == 0.0 {
      SnapAtMidpointIdempotent(start, end, xf, cosine, root, dis2, root2);
    } else {
      var c := CalcCenter(start, end, dis, xf, cosine, root);
      SnapRoundTrip(start, end, dis, xf, cosine, root);
      assert dis2 * dis2 == dis * dis;
      SquareRootUnique(dis, dis2);
      SquareRootUnique(root, root2);
    }
  }

  /** The sign selection of `makeArc`: `positive` and `positiveS` start at 1
      and are set to -1 by two conditional blocks, one for `start` below the
      chord midpoint and one for `start` above it. A NaN centre y compares
      false. */
  function ArcSigns(center: CenterPoint, start: Point, end: Point): (s: Signs)
    ensures (s.positive == 1 || s.positive == -1) && (s.positiveS == 1 || s.positiveS == -1)
    ensures var mid := Midpoint(start, end);
            start.x == mid.x || start.y == mid.y ==> s == Signs(1, 1)
    ensures var mid := Midpoint(start, end);
            start.x != mid.x && start.y != mid.y ==>
              (s.positive == -1 <==> center.y.Some? && center.y.value > start.y) &&
              (s.positiveS == -1 <==>
                 (start.y < mid.y && center.x > mid.x) || (start.y > mid.y && center.x < mid.x))
  {
    var mid := Midpoint(start, end);
    var above := center.y.Some? && center.y.value > start.y;
    var below :=
      if (start.y < mid.y && start.x > mid.x) || (start.y < mid.y && start.x < mid.x)
      then Signs(if above then -1 else 1, if center.x > mid.x then -1 else 1)
      else Signs(1, 1);
    if (start.y > mid.y && start.x > mid.x) || (start.y > mid.y && start.x < mid.x)
    then Signs(if above then -1 else below.positive, if center.x < mid.x then -1 else below.positiveS)
    else below
  }

  /** For a centre produced by `calcCenter` off the midpoint, the sweep sign
      `positiveS` of `makeArc` is fixed by the side `x_f` the centre was put on
      and by whether `start` lies below the midpoint. */
  lemma SweepSignFollowsSide(start: Point, end: Point, dis: real, xf: real, cosine: real, root: real)
    requires xf == 1.0 || xf == -1.0
    requires -1.0 <= cosine <= 1.0
    requires IsSqrt(root, dis * dis - (dis * cosine) * (dis * cosine)) && 0.0 < root
    requires start.x != end.x && start.y != end.y
    ensures var m := Midpoint(start, end);
            var s := ArcSigns(CalcCenter(start, end, dis, xf, cosine, root), start, end);
            (s.positiveS == -1) <==> ((start.y < m.y) <==> xf == 1.0)
  {
    var c := CalcCenter(start, end, dis, xf, cosine, root);
    var m := Midpoint(start, end);
    assert c.x - m.x == xf * root;
    if xf == 1.0 { assert c.x > m.x; } else { assert c.x < m.x; }
  }
}
