/** The angle and vector kernel of utils/math.ts: normalisation into [0, 360),
    nearest-axis binning, the wrap-aware "too close" test, lenient parsing of
    editor fields, component resolution and rectangle collision.
 */
module Angles {
  import opened Numeric
  import opened Oracle

  /** `normalizeAngle`: JavaScript's `% 360`, then lifted out of the negatives.
      The result differs from the input by a whole number of turns. */
  function NormalizeAngle(a: real): (r: real)
    ensures 0.0 <= r < 360.0
    ensures a - r == 360.0 * Turns(a) as real
  {
    var m := JsRem360(a);
    if m < 0.0 then m + 360.0 else m
  }

  /** The number of whole turns `NormalizeAngle` removes. */
  function Turns(a: real): int {
    var t := Trunc(a / 360.0);
    if JsRem360(a) < 0.0 then t - 1 else t
  }

  /** `NormalizeAngle` is the only value in [0, 360) a whole number of turns away
      from its input. */
  lemma NormalizeUnique(a: real, r: real, k: int)
    requires 0.0 <= r < 360.0 && a - r == 360.0 * k as real
    ensures r == NormalizeAngle(a)
  {
    var n := NormalizeAngle(a);
    var j := Turns(a);
    assert n - r == 360.0 * (k - j) as real;
    if k - j >= 1 {
      assert false;
    } else if k - j <= -1 {
      assert false;
    }
  }

  /** Normalising twice is normalising once. */
  lemma NormalizeIdempotent(a: real)
    ensures NormalizeAngle(NormalizeAngle(a)) == NormalizeAngle(a)
  {
    var n := NormalizeAngle(a);
    NormalizeUnique(n, n, 0);
  }

  /** The result depends only on the angle modulo 360. */
  lemma NormalizePeriodic(a: real, k: int)
    ensures NormalizeAngle(a + 360.0 * k as real) == NormalizeAngle(a)
  {
    var n := NormalizeAngle(a);
    NormalizeUnique(a + 360.0 * k as real, n, Turns(a) + k);
  }

  /** The circular distance between two directions, in [0, 180]. */
  function AngularSeparation(a: real, b: real): (r: real)
    ensures 0.0 <= r <= 180.0
  {
    var diff := Abs(NormalizeAngle(a) - NormalizeAngle(b));
    if diff > 180.0 then 360.0 - diff else diff
  }

  lemma AngularSeparationSymmetric(a: real, b: real)
    ensures AngularSeparation(a, b) == AngularSeparation(b, a)
  {
  }

  /** `getNearestAxis`: the axis whose half-open 90° bin holds the angle. */
  function NearestAxis(a: real): (r: int)
    ensures r == 0 || r == 90 || r == 180 || r == 270
    ensures r == 0 <==> NormalizeAngle(a) >= 315.0 || NormalizeAngle(a) < 45.0
    ensures r == 90 <==> 45.0 <= NormalizeAngle(a) < 135.0
    ensures r == 180 <==> 135.0 <= NormalizeAngle(a) < 225.0
    ensures r == 270 <==> 225.0 <= NormalizeAngle(a) < 315.0
  {
    var n := NormalizeAngle(a);
    if n >= 315.0 || n < 45.0 then 0
    else if n >= 45.0 && n < 135.0 then 90
    else if n >= 135.0 && n < 225.0 then 180
    else 270
  }

  /** The nearest axis is never more than 45° away. */
  lemma NearestAxisWithin45(a: real)
    ensures AngularSeparation(a, NearestAxis(a) as real) <= 45.0
  {
    var ax := NearestAxis(a) as real;
    NormalizeUnique(ax, ax, 0);
  }

  /** Angles that agree modulo 360 share their nearest axis. */
  lemma NearestAxisPeriodic(a: real, k: int)
    ensures NearestAxis(a + 360.0 * k as real) == NearestAxis(a)
  {
    NormalizePeriodic(a, k);
  }

  /** `isAngleTooClose`: some existing angle lies strictly closer than `minSep`,
      measured around the circle. */
  function IsAngleTooClose(newAngle: real, existing: seq<real>, minSep: real): (r: bool)
    ensures r <==> exists i :: 0 <= i < |existing| && AngularSeparation(newAngle, existing[i]) < minSep
    ensures |existing| == 0 ==> !r
  {
    if |existing| == 0 then false
    else if AngularSeparation(newAngle, existing[0]) < minSep then true
    else
      var rest := IsAngleTooClose(newAngle, existing[1..], minSep);
      assert forall i :: 1 <= i < |existing| ==> existing[i] == existing[1..][i - 1];
      rest
  }

  /** A numeric editor field: a number, text being typed, or empty. */
  datatype Param = PNum(v: real) | PStr(s: string) | PNull

  /** `safeFloat`: a lenient reading of an editor field where anything that is not
      a number reads as 0. */
  function SafeFloat(o: Oracle, p: Param): (r: real)
    ensures p == PNull ==> r == 0.0
    ensures p.PNum? ==> r == p.v
    ensures p == PStr("") || p == PStr("-") ==> r == 0.0
    ensures p.PStr? && o.parse(p.s) == NaN ==> r == 0.0
    ensures p.PStr? && p.s != "" && p.s != "-" && o.parse(p.s).Val? ==> r == o.parse(p.s).v
  {
    match p
    case PNull => 0.0
    case PNum(v) => v
    case PStr(s) =>
      if s == "" || s == "-" then 0.0
      else match o.parse(s)
        case NaN => 0.0
        case Val(v) => v
  }

  /** `calculateComponents`: the (x, y) a vector's fields describe. Cartesian
      fields are read directly; polar fields go through the runtime's trig; any
      other input type gives the zero vector. */
  function Components(o: Oracle, kind: string, p1: Param, p2: Param, p3: Param): (r: Point)
    ensures kind == "cartesian" ==> r == Point(SafeFloat(o, p1), SafeFloat(o, p2))
    ensures kind != "cartesian" && kind != "angle" && kind != "triangle" ==> r == Point(0.0, 0.0)
    ensures kind == "angle" ==> r == Point(SafeFloat(o, p1) * o.cos(SafeFloat(o, p2)), SafeFloat(o, p1) * o.sin(SafeFloat(o, p2)))
  {
    var v1 := SafeFloat(o, p1);
    var v2 := SafeFloat(o, p2);
    var v3 := SafeFloat(o, p3);
    if kind == "cartesian" then Point(v1, v2)
    else if kind == "angle" then Point(v1 * o.cos(v2), v1 * o.sin(v2))
    else if kind == "triangle" then
      var theta := o.atan2(v3, v2);
      Point(v1 * o.cos(theta), v1 * o.sin(theta))
    else Point(0.0, 0.0)
  }

  /** An axis-aligned rectangle: top-left corner, width and height. */
  datatype Rect = Rect(x: real, y: real, w: real, h: real)

  /** `checkCollision`: strict overlap on both axes. */
  function CheckCollision(r1: Rect, r2: Rect): (c: bool)
  {
    r1.x < r2.x + r2.w && r1.x + r1.w > r2.x &&
    r1.y < r2.y + r2.h && r1.y + r1.h > r2.y
  }

  /** True of points strictly inside a rectangle. */
  predicate Inside(r: Rect, px: real, py: real) {
    r.x < px < r.x + r.w && r.y < py < r.y + r.h
  }

  /** For rectangles of positive size, a collision is exactly a shared interior
      point: edges that only touch do not collide. */
  lemma CollisionIffSharedPoint(r1: Rect, r2: Rect)
    requires r1.w > 0.0 && r1.h > 0.0 && r2.w > 0.0 && r2.h > 0.0
    ensures CheckCollision(r1, r2) <==> exists px, py :: Inside(r1, px, py) && Inside(r2, px, py)
  {
    if CheckCollision(r1, r2) {
      var px := (Max(r1.x, r2.x) + Min(r1.x + r1.w, r2.x + r2.w)) / 2.0;
      var py := (Max(r1.y, r2.y) + Min(r1.y + r1.h, r2.y + r2.h)) / 2.0;
      assert Inside(r1, px, py) && Inside(r2, px, py);
    }
  }

  lemma CollisionSymmetric(r1: Rect, r2: Rect)
    ensures CheckCollision(r1, r2) == CheckCollision(r2, r1)
  {
  }

  /** A rectangle of positive size collides with itself; one placed edge to edge
      beside it does not. */
  lemma CollisionSelfAndTouching(r: Rect)
    requires r.w > 0.0 && r.h > 0.0
    ensures CheckCollision(r, r)
    ensures !CheckCollision(r, r.(x := r.x + r.w))
    ensures !CheckCollision(r, r.(y := r.y + r.h))
  {
  }
}
