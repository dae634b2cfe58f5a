/** The triangle preview canvas (components/TriangleCanvas.tsx) without the
    drawing calls: whether a triangle is drawn at all, and where its three
    vertices land once the triangle's bounding box is fitted into the canvas
    with a 40-pixel padding. The canvas size is the container's size in CSS
    pixels.
 */
module TriangleCanvas {
  import opened Numeric
  import opened Oracle
  import opened BoxFit
  import opened TriangleSolver

  /** The padding kept free on every side of the canvas. */
  const Padding: real := 40.0

  /** The three vertices on a canvas of `w` × `h`, or none when there is no
      valid triangle (the placeholder text is drawn instead). */
  function CanvasVertices(o: Oracle, data: Option<Triangle>, w: real, h: real): (r: Option<(Point, Point, Point)>)
    ensures r.None? <==> data.None? || !data.value.valid
  {
    if data.None? || !data.value.valid then None
    else Some(Fitted(o, data.value, w - 2.0 * Padding, h - 2.0 * Padding, w / 2.0, h / 2.0))
  }

  /** The vertices of `getTriangleCoords` fitted into a box of extents
      availW × availH centred on (cx, cy). */
  function Fitted(o: Oracle, t: Triangle, availW: real, availH: real, cx: real, cy: real): (v: (Point, Point, Point)) {
    var c := Coords(o, t);
    FitTriangle(c.0, c.1, c.2, availW, availH, cx, cy)
  }

  lemma FittedWithin(o: Oracle, t: Triangle, availW: real, availH: real, cx: real, cy: real)
    requires availW >= 0.0 && availH >= 0.0
    ensures FitsIn(Fitted(o, t, availW, availH, cx, cy), cx, cy, availW, availH)
  {
    var c := Coords(o, t);
    FitTriangleWithin(c.0, c.1, c.2, availW, availH, cx, cy);
  }

  /** On a canvas at least 80 pixels each way, every vertex keeps the 40-pixel
      padding clear. */
  lemma VerticesInsidePadding(o: Oracle, data: Option<Triangle>, w: real, h: real)
    requires w >= 2.0 * Padding && h >= 2.0 * Padding
    ensures var r := CanvasVertices(o, data, w, h);
      r.Some? ==> AllInBox(r.value, Padding, w - Padding, Padding, h - Padding)
  {
    if data.Some? && data.value.valid {
      var (aw, ah, cx, cy) := (w - 2.0 * Padding, h - 2.0 * Padding, w / 2.0, h / 2.0);
      FittedWithin(o, data.value, aw, ah, cx, cy);
      PaddedBox(Fitted(o, data.value, aw, ah, cx, cy), w, h);
    }
  }

  /** The box of extents (w - 80) × (h - 80) around the canvas centre is the
      canvas less its padding. */
  lemma PaddedBox(v: (Point, Point, Point), w: real, h: real)
    requires FitsIn(v, w / 2.0, h / 2.0, w - 2.0 * Padding, h - 2.0 * Padding)
    ensures AllInBox(v, Padding, w - Padding, Padding, h - Padding)
  {
  }

  /** With room left inside the padding, the fitted scale is positive. */
  lemma FitScalePositive(b: Bounds, availW: real, availH: real)
    requires availW > 0.0 && availH > 0.0 && Width(b) >= 0.0 && BoxFit.Height(b) >= 0.0
    ensures FitScale(b, availW, availH) > 0.0
  {
    QuotPositive(availW, OrOne(Width(b)));
    QuotPositive(availH, OrOne(BoxFit.Height(b)));
  }

  /** A proper triangle is drawn the right way up: side AB is horizontal with
      B to the right of A, and C is above it (smaller canvas y). */
  lemma DrawnUpright(o: Oracle, t: Triangle, w: real, h: real)
    requires Sound(o) && t.valid
    requires w > 2.0 * Padding && h > 2.0 * Padding
    requires t.b > 0.0 && t.c > 0.0 && 0.0 < t.A < 180.0
    ensures var v := CanvasVertices(o, Some(t), w, h).value;
      v.0.y == v.1.y && v.0.x < v.1.x && v.2.y < v.0.y
  {
    var v := Coords(o, t);
    var (p, q, c) := (v.0, v.1, v.2);
    var b := BoundsOf(p, q, c);
    CoordsSpec(o, t);
    FitScalePositive(b, w - 2.0 * Padding, h - 2.0 * Padding);
    var s := FitScale(b, w - 2.0 * Padding, h - 2.0 * Padding);
    PlaceOrientation(b, s, w / 2.0, h / 2.0, p, q);
    PlaceOrientation(b, s, w / 2.0, h / 2.0, p, c);
  }
}
