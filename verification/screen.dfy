/** The map between math coordinates (y up) and page or canvas coordinates
    (y down) around an origin (cx, cy) with s units per math unit. The PDF
    diagrams draw with it (`toPDFCoords`, utils/pdfGenerator.ts), the vector
    canvas places arrow heads with it and reads the pointer back with its
    inverse (components/VectorCanvas.tsx).
 */
module ScreenMap {
  import opened Numeric

  /** `toPDFCoords` / the head position `(cx + x·s, cy - y·s)`. */
  function ToScreen(cx: real, cy: real, s: real, p: Point): Point {
    Point(cx + p.x * s, cy - p.y * s)
  }

  /** The pointer read back: `((mouseX - cx) / s, (cy - mouseY) / s)`. */
  function FromScreen(cx: real, cy: real, s: real, q: Point): Point
    requires s != 0.0
  {
    Point((q.x - cx) / s, (cy - q.y) / s)
  }

  lemma ScaleCancels(a: real, s: real)
    requires s != 0.0
    ensures (a * s) / s == a
    ensures (a / s) * s == a
  {
  }

  /** Reading back a drawn point gives the math point. */
  lemma FromToScreen(cx: real, cy: real, s: real, p: Point)
    requires s != 0.0
    ensures FromScreen(cx, cy, s, ToScreen(cx, cy, s, p)) == p
  {
    ScaleCancels(p.x, s);
    ScaleCancels(p.y, s);
    assert cx + p.x * s - cx == p.x * s;
    assert cy - (cy - p.y * s) == p.y * s;
  }

  /** Drawing a point read from the pointer puts it under the pointer. */
  lemma ToFromScreen(cx: real, cy: real, s: real, q: Point)
    requires s != 0.0
    ensures ToScreen(cx, cy, s, FromScreen(cx, cy, s, q)) == q
  {
    ScaleCancels(q.x - cx, s);
    ScaleCancels(cy - q.y, s);
  }

  /** With a positive scale, the origin lands on (cx, cy), x keeps its order
      and y reverses it. */
  lemma ToScreenOrientation(cx: real, cy: real, s: real, p: Point, q: Point)
    requires s > 0.0
    ensures ToScreen(cx, cy, s, Point(0.0, 0.0)) == Point(cx, cy)
    ensures p.x < q.x ==> ToScreen(cx, cy, s, p).x < ToScreen(cx, cy, s, q).x
    ensures p.y < q.y ==> ToScreen(cx, cy, s, p).y > ToScreen(cx, cy, s, q).y
  {
    MulMono(s, p.x, q.x);
    MulMono(s, p.y, q.y);
  }
}
