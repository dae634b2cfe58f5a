/** Fitting a triangle's bounding box into a target box, as `drawTriangleInPDF`
    (utils/trigoPdf.ts) and the `draw` routine of components/TriangleCanvas.tsx
    both do: scale by the tighter of the two ratios, put the box centre on the
    target centre, and flip y because page and canvas y grow downwards.
 */
module BoxFit {
  import opened Numeric

  /** The axis-aligned bounding box of some points. */
  datatype Bounds = Bounds(minX: real, maxX: real, minY: real, maxY: real)

  predicate Covers(b: Bounds, p: Point) {
    b.minX <= p.x <= b.maxX && b.minY <= p.y <= b.maxY
  }

  /** `Math.min` of three numbers. */
  function Min3(a: real, b: real, c: real): (r: real)
    ensures r <= a && r <= b && r <= c
    ensures r == a || r == b || r == c
  {
    Min(a, Min(b, c))
  }

  /** `Math.max` of three numbers. */
  function Max3(a: real, b: real, c: real): (r: real)
    ensures r >= a && r >= b && r >= c
    ensures r == a || r == b || r == c
  {
    Max(a, Max(b, c))
  }

  /** The smallest box holding three vertices: every vertex is inside, and each
      side of the box touches a vertex. */
  function BoundsOf(p: Point, q: Point, r: Point): (b: Bounds)
    ensures Covers(b, p) && Covers(b, q) && Covers(b, r)
    ensures b.minX == p.x || b.minX == q.x || b.minX == r.x
    ensures b.maxX == p.x || b.maxX == q.x || b.maxX == r.x
    ensures b.minY == p.y || b.minY == q.y || b.minY == r.y
    ensures b.maxY == p.y || b.maxY == q.y || b.maxY == r.y
  {
    Bounds(Min3(p.x, q.x, r.x), Max3(p.x, q.x, r.x), Min3(p.y, q.y, r.y), Max3(p.y, q.y, r.y))
  }

  function Width(b: Bounds): real {
    b.maxX - b.minX
  }

  function Height(b: Bounds): real {
    b.maxY - b.minY
  }

  /** The centre of the box. The PDF code writes it `minX + w / 2`, the canvas
      code `(minX + maxX) / 2`; the two are the same number. */
  function Centre(b: Bounds): (c: Point)
    ensures c.x == (b.minX + b.maxX) / 2.0 && c.y == (b.minY + b.maxY) / 2.0
  {
    Point(b.minX + Width(b) / 2.0, b.minY + Height(b) / 2.0)
  }

  /** `w || 1`: a zero extent is falsy in JavaScript and is replaced by 1. */
  function OrOne(w: real): (r: real)
    ensures r != 0.0
    ensures w != 0.0 ==> r == w
  {
    if w == 0.0 then 1.0 else w
  }

  /** `Math.min(availW / (w || 1), availH / (h || 1))`. */
  function FitScale(b: Bounds, availW: real, availH: real): real {
    Min(availW / OrOne(Width(b)), availH / OrOne(Height(b)))
  }

  /** The transform both callers apply to a vertex: offset from the box centre,
      scaled, then placed around (cx, cy) with y flipped. */
  function Place(b: Bounds, s: real, cx: real, cy: real, p: Point): Point {
    Point(Along(cx, p.x - Centre(b).x, s), Against(cy, p.y - Centre(b).y, s))
  }

  /** An offset scaled along an axis that points the same way. */
  function Along(base: real, offset: real, s: real): real {
    base + offset * s
  }

  /** An offset scaled along an axis that points the other way. */
  function Against(base: real, offset: real, s: real): real {
    base - offset * s
  }

  /** The box centre lands on (cx, cy). */
  lemma PlaceCentre(b: Bounds, s: real, cx: real, cy: real)
    ensures Place(b, s, cx, cy, Centre(b)) == Point(cx, cy)
  {
    assert Centre(b).x - Centre(b).x == 0.0;
    assert Centre(b).y - Centre(b).y == 0.0;
  }

  /** With a positive scale, x keeps its order and y reverses it. */
  lemma PlaceOrientation(b: Bounds, s: real, cx: real, cy: real, p: Point, q: Point)
    requires s > 0.0
    ensures p.x < q.x ==> Place(b, s, cx, cy, p).x < Place(b, s, cx, cy, q).x
    ensures p.y < q.y ==> Place(b, s, cx, cy, p).y > Place(b, s, cx, cy, q).y
  {
    AxisOrder(cx, p.x - Centre(b).x, q.x - Centre(b).x, s);
    AxisOrder(cy, p.y - Centre(b).y, q.y - Centre(b).y, s);
  }

  /** One axis of `PlaceOrientation`, in either direction. */
  lemma AxisOrder(base: real, u: real, v: real, s: real)
    requires s > 0.0
    ensures u < v ==> Along(base, u, s) < Along(base, v, s)
    ensures u < v ==> Against(base, u, s) > Against(base, v, s)
  {
    MulMono(s, u, v);
  }

  /** A non-negative number over a positive one is non-negative. */
  lemma QuotNonNegative(a: real, d: real)
    requires a >= 0.0 && d > 0.0
    ensures a / d >= 0.0
  {
    var q := a / d;
    assert q * d == a;
    MulMono(d, q, 0.0);
  }

  /** When the scale is at most avail / (w || 1), an offset from the centre of
      an interval of width w stays within avail / 2 after scaling. */
  lemma AxisWithin(lo: real, hi: real, v: real, s: real, avail: real, base: real)
    requires lo <= v <= hi && avail >= 0.0 && 0.0 <= s <= avail / OrOne(hi - lo)
    ensures base - avail / 2.0 <= Along(base, v - (lo + hi) / 2.0, s) <= base + avail / 2.0
    ensures base - avail / 2.0 <= Against(base, v - (lo + hi) / 2.0, s) <= base + avail / 2.0
  {
    if hi - lo == 0.0 {
      assert v - (lo + hi) / 2.0 == 0.0;
    } else {
      var q := avail / (hi - lo);
      assert q * (hi - lo) == avail;
      MulMono(hi - lo, s, q);
      MulMono(s, v - (lo + hi) / 2.0, (hi - lo) / 2.0);
      MulMono(s, -(hi - lo) / 2.0, v - (lo + hi) / 2.0);
      HalfProducts(s * (hi - lo), s * ((hi - lo) / 2.0), avail);
    }
  }

  lemma HalfProducts(sw: real, sh: real, avail: real)
    requires sh == sw / 2.0 && sw <= avail
    ensures sh <= avail / 2.0 && -sh >= -avail / 2.0
  {
  }

  /** With non-negative target extents, the fitted scale is non-negative, and
      every point of the box lands within availW / 2 of cx and availH / 2 of cy. */
  lemma FitWithin(b: Bounds, availW: real, availH: real, cx: real, cy: real, p: Point)
    requires availW >= 0.0 && availH >= 0.0 && Covers(b, p)
    ensures FitScale(b, availW, availH) >= 0.0
    ensures var q := Place(b, FitScale(b, availW, availH), cx, cy, p);
      && cx - availW / 2.0 <= q.x <= cx + availW / 2.0
      && cy - availH / 2.0 <= q.y <= cy + availH / 2.0
  {
    var s := FitScale(b, availW, availH);
    QuotNonNegative(availW, OrOne(Width(b)));
    QuotNonNegative(availH, OrOne(Height(b)));
    AxisWithin(b.minX, b.maxX, p.x, s, availW, cx);
    AxisWithin(b.minY, b.maxY, p.y, s, availH, cy);
  }

  /** Three vertices fitted into a target box of extents availW × availH around
      (cx, cy). */
  function FitTriangle(p: Point, q: Point, r: Point, availW: real, availH: real, cx: real, cy: real): (v: (Point, Point, Point)) {
    var b := BoundsOf(p, q, r);
    var s := FitScale(b, availW, availH);
    (Place(b, s, cx, cy, p), Place(b, s, cx, cy, q), Place(b, s, cx, cy, r))
  }

  predicate InBox(p: Point, xlo: real, xhi: real, ylo: real, yhi: real) {
    xlo <= p.x <= xhi && ylo <= p.y <= yhi
  }

  /** All three vertices lie in the box [xlo, xhi] × [ylo, yhi]. */
  predicate AllInBox(v: (Point, Point, Point), xlo: real, xhi: real, ylo: real, yhi: real) {
    InBox(v.0, xlo, xhi, ylo, yhi) && InBox(v.1, xlo, xhi, ylo, yhi) && InBox(v.2, xlo, xhi, ylo, yhi)
  }

  /** All three vertices lie in the box of extents w × h centred on (cx, cy). */
  predicate FitsIn(v: (Point, Point, Point), cx: real, cy: real, w: real, h: real) {
    var (xlo, xhi, ylo, yhi) := (cx - w / 2.0, cx + w / 2.0, cy - h / 2.0, cy + h / 2.0);
    InBox(v.0, xlo, xhi, ylo, yhi) && InBox(v.1, xlo, xhi, ylo, yhi) && InBox(v.2, xlo, xhi, ylo, yhi)
  }

  /** All three fitted vertices lie inside the target box. */
  lemma FitTriangleWithin(p: Point, q: Point, r: Point, availW: real, availH: real, cx: real, cy: real)
    requires availW >= 0.0 && availH >= 0.0
    ensures FitsIn(FitTriangle(p, q, r, availW, availH, cx, cy), cx, cy, availW, availH)
  {
    var b := BoundsOf(p, q, r);
    FitWithin(b, availW, availH, cx, cy, p);
    FitWithin(b, availW, availH, cx, cy, q);
    FitWithin(b, availW, availH, cx, cy, r);
  }
}
