/** The interactive vector canvas (components/VectorCanvas.tsx) without the
    drawing calls: which vector head a press grabs, where a drag moves it (with
    the half-unit grid snap), when a vector gets an angle arc, and how that arc
    is sized. The browser events arrive as plain pointer positions in CSS
    pixels relative to the canvas.
 */
module VectorCanvas {
  import opened Numeric
  import opened Oracle
  import opened Angles
  import opened ScreenMap
  import opened Records
  import VectorDiagram

  /** The grab radius: a press further than this from every head grabs none. */
  const GrabRadius: real := 20.0

  /** The canvas's default scale, in pixels per unit. */
  const DefaultScale: real := 30.0

  /** `drawAngleArc`'s default radius, in pixels. */
  const DefaultArcRadius: real := 25.0

  // ---------------------------------------------------------------------------
  // Hit test

  /** The distance in pixels from the pointer to a vector's head on screen. */
  function HeadDistance(o: Oracle, cx: real, cy: real, s: real, v: Vector, mouse: Point): real {
    var head := ToScreen(cx, cy, s, Point(v.x, v.y));
    Magnitude(o, mouse.x - head.x, mouse.y - head.y)
  }

  /** Vector `i` is the one a press grabs: its head is within the grab radius,
      strictly closer than every earlier head and no further than every later
      one (on a tie the first in the list wins). */
  predicate IsHit(o: Oracle, vs: seq<Vector>, cx: real, cy: real, s: real, mouse: Point, i: nat) {
    && i < |vs|
    && HeadDistance(o, cx, cy, s, vs[i], mouse) < GrabRadius
    && (forall j :: 0 <= j < i ==>
          HeadDistance(o, cx, cy, s, vs[j], mouse) > HeadDistance(o, cx, cy, s, vs[i], mouse))
    && (forall j :: i < j < |vs| ==>
          HeadDistance(o, cx, cy, s, vs[j], mouse) >= HeadDistance(o, cx, cy, s, vs[i], mouse))
  }

  /** No head lies within the grab radius of the pointer. */
  predicate NoHeadNear(o: Oracle, vs: seq<Vector>, cx: real, cy: real, s: real, mouse: Point) {
    forall j :: 0 <= j < |vs| ==> HeadDistance(o, cx, cy, s, vs[j], mouse) >= GrabRadius
  }

  /** What the scan has established after looking at the first `k` vectors:
      either nothing within the radius so far, or the best so far with its
      distance as the running minimum. */
  predicate ScanState(o: Oracle, vs: seq<Vector>, cx: real, cy: real, s: real, mouse: Point,
                      k: nat, best: Option<nat>, minDist: real) {
    && k <= |vs|
    && (best.None? ==> minDist == GrabRadius && forall j :: 0 <= j < k ==>
          HeadDistance(o, cx, cy, s, vs[j], mouse) >= GrabRadius)
    && (best.Some? ==>
          && best.value < k
          && minDist == HeadDistance(o, cx, cy, s, vs[best.value], mouse) < GrabRadius
          && (forall j :: 0 <= j < best.value ==> HeadDistance(o, cx, cy, s, vs[j], mouse) > minDist)
          && (forall j :: best.value < j < k ==> HeadDistance(o, cx, cy, s, vs[j], mouse) >= minDist))
  }

  /** The `forEach` of `handlePointerDown` from vector `k` on: a head strictly
      closer than the running minimum takes over. */
  function HitScan(o: Oracle, vs: seq<Vector>, cx: real, cy: real, s: real, mouse: Point,
                   k: nat, best: Option<nat>, minDist: real): (r: Option<nat>)
    requires ScanState(o, vs, cx, cy, s, mouse, k, best, minDist)
    ensures r.None? <==> NoHeadNear(o, vs, cx, cy, s, mouse)
    ensures r.Some? ==> IsHit(o, vs, cx, cy, s, mouse, r.value)
    decreases |vs| - k
  {
    if k == |vs| then best
    else
      var dist := HeadDistance(o, cx, cy, s, vs[k], mouse);
      if dist < minDist then HitScan(o, vs, cx, cy, s, mouse, k + 1, Some(k), dist)
      else HitScan(o, vs, cx, cy, s, mouse, k + 1, best, minDist)
  }

  /** The index of the vector whose head a press at `mouse` grabs, if any. */
  function HitTest(o: Oracle, vs: seq<Vector>, cx: real, cy: real, s: real, mouse: Point): (r: Option<nat>)
    ensures r.None? <==> NoHeadNear(o, vs, cx, cy, s, mouse)
    ensures r.Some? ==> IsHit(o, vs, cx, cy, s, mouse, r.value)
  {
    HitScan(o, vs, cx, cy, s, mouse, 0, None, GrabRadius)
  }

  /** The grab rule picks at most one vector. */
  lemma HitUnique(o: Oracle, vs: seq<Vector>, cx: real, cy: real, s: real, mouse: Point, i: nat, j: nat)
    requires IsHit(o, vs, cx, cy, s, mouse, i) && IsHit(o, vs, cx, cy, s, mouse, j)
    ensures i == j
  {
  }

  /** With a sound square root, a head is within the grab radius exactly when
      its squared offset from the pointer is below 400 square pixels. */
  lemma WithinRadiusSquared(o: Oracle, cx: real, cy: real, s: real, v: Vector, mouse: Point)
    requires Sound(o)
    ensures var head := ToScreen(cx, cy, s, Point(v.x, v.y));
      (HeadDistance(o, cx, cy, s, v, mouse) < GrabRadius
       <==> Sq(mouse.x - head.x) + Sq(mouse.y - head.y) < 400.0)
  {
    var head := ToScreen(cx, cy, s, Point(v.x, v.y));
    var d := HeadDistance(o, cx, cy, s, v, mouse);
    MagnitudeSquared(o, mouse.x - head.x, mouse.y - head.y);
    assert Sq(GrabRadius) == 400.0;
    SqLess(d, GrabRadius);
    SqLess(GrabRadius, d);
  }

  /** With a sound square root, no head is at a negative distance, and a head
      exactly under the pointer is at distance 0. */
  lemma HeadDistanceNonNegative(o: Oracle, cx: real, cy: real, s: real, v: Vector, mouse: Point)
    requires Sound(o)
    ensures HeadDistance(o, cx, cy, s, v, mouse) >= 0.0
    ensures mouse == ToScreen(cx, cy, s, Point(v.x, v.y)) ==> HeadDistance(o, cx, cy, s, v, mouse) == 0.0
  {
    var head := ToScreen(cx, cy, s, Point(v.x, v.y));
    var d := HeadDistance(o, cx, cy, s, v, mouse);
    MagnitudeSquared(o, mouse.x - head.x, mouse.y - head.y);
    if mouse == head {
      SqNonNegative(0.0);
      SqNonNegative(d);
    }
  }

  /** A press exactly on a vector's head always grabs a vector, and the one it
      grabs also has its head under the pointer. */
  lemma PressOnHeadGrabs(o: Oracle, vs: seq<Vector>, cx: real, cy: real, s: real, i: nat)
    requires Sound(o) && i < |vs|
    ensures var mouse := ToScreen(cx, cy, s, Point(vs[i].x, vs[i].y));
      var r := HitTest(o, vs, cx, cy, s, mouse);
      r.Some? && HeadDistance(o, cx, cy, s, vs[r.value], mouse) == 0.0
  {
    var mouse := ToScreen(cx, cy, s, Point(vs[i].x, vs[i].y));
    HeadDistanceNonNegative(o, cx, cy, s, vs[i], mouse);
    assert !NoHeadNear(o, vs, cx, cy, s, mouse);
    var w := HitTest(o, vs, cx, cy, s, mouse).value;
    HeadDistanceNonNegative(o, cx, cy, s, vs[w], mouse);
    if w < i {
      assert HeadDistance(o, cx, cy, s, vs[i], mouse) >= HeadDistance(o, cx, cy, s, vs[w], mouse);
    } else if w > i {
      assert HeadDistance(o, cx, cy, s, vs[i], mouse) > HeadDistance(o, cx, cy, s, vs[w], mouse);
    }
  }

  // ---------------------------------------------------------------------------
  // Pointer events

  /** The canvas's drag state: `isDragging` and `dragId`. */
  datatype Drag = Drag(isDragging: bool, dragId: Option<int>)

  /** What a pointer event reports to the page: nothing, a selection change
      (`onSelectVector`, possibly to none) or a new head position
      (`onVectorChange`). */
  datatype Notify = Silent | Selected(id: Option<int>) | Moved(vectorId: int, x: real, y: real)

  /** JavaScript truthiness of an id that may be null: 0 counts as absent. */
  predicate Truthy(id: Option<int>) {
    id.Some? && id.value != 0
  }

  /** `handlePointerDown`: ignored in read-only mode; otherwise the grabbed
      vector (if its id is truthy) starts dragging and is selected, and a
      press on empty canvas clears the selection. */
  function PointerDown(o: Oracle, readOnly: bool, drag: Drag, vs: seq<Vector>,
                       cx: real, cy: real, s: real, mouse: Point): (r: (Drag, Notify))
    ensures readOnly ==> r == (drag, Silent)
    ensures !readOnly && NoHeadNear(o, vs, cx, cy, s, mouse) ==> r == (drag, Selected(None))
    ensures !readOnly ==> forall i: nat :: IsHit(o, vs, cx, cy, s, mouse, i) ==>
      (vs[i].id != 0 ==> r == (Drag(true, Some(vs[i].id)), Selected(Some(vs[i].id)))) &&
      (vs[i].id == 0 ==> r == (drag, Selected(None)))
  {
    if readOnly then (drag, Silent)
    else
      var hit := HitTest(o, vs, cx, cy, s, mouse);
      if hit.Some? && vs[hit.value].id != 0 then
        var id := vs[hit.value].id;
        (Drag(true, Some(id)), Selected(Some(id)))
      else (drag, Selected(None))
  }

  /** `Math.round(n / 0.5) * 0.5`: the grid snap. */
  function Snap(n: real): real {
    JsRound(n / 0.5) as real * 0.5
  }

  /** A multiple of one half. */
  predicate OnHalfGrid(x: real) {
    (x * 2.0).Floor as real == x * 2.0
  }

  /** The snap lands on the half-unit grid, at most a quarter unit away. */
  lemma SnapOnGrid(n: real)
    ensures OnHalfGrid(Snap(n))
    ensures Abs(Snap(n) - n) <= 0.25
  {
    var k := JsRound(n / 0.5);
    assert n / 0.5 == n * 2.0;
    assert Snap(n) * 2.0 == k as real;
  }

  /** No point of the half-unit grid is closer to a value than its snap. */
  lemma SnapNearest(n: real, m: real)
    requires OnHalfGrid(m)
    ensures Abs(Snap(n) - n) <= Abs(m - n)
  {
    var k := JsRound(n / 0.5);
    assert n / 0.5 == n * 2.0;
    var j := (m * 2.0).Floor;
    assert Snap(n) == k as real * 0.5 && m == j as real * 0.5;
    if j < k {
      assert m <= Snap(n) - 0.5;
    } else if j > k {
      assert m >= Snap(n) + 0.5;
    }
  }

  /** Snapping a value already on the grid leaves it where it is. */
  lemma SnapIdempotent(n: real)
    requires OnHalfGrid(n)
    ensures Snap(n) == n
  {
    var j := (n * 2.0).Floor;
    assert n / 0.5 == j as real;
    assert JsRound(j as real) == j;
  }

  /** `handlePointerMove`: while a truthy id is being dragged on an editable
      canvas, the pointer is converted back to vector coordinates, snapped to
      the half-unit grid unless the grid is off, and reported. */
  function PointerMove(readOnly: bool, drag: Drag, gridMode: string,
                       cx: real, cy: real, s: real, mouse: Point): (r: Notify)
    requires s != 0.0
    ensures r.Moved? <==> drag.isDragging && Truthy(drag.dragId) && !readOnly
    ensures !r.Moved? ==> r == Silent
    ensures r.Moved? ==> r.vectorId == drag.dragId.value
    ensures r.Moved? && gridMode != "none" ==> OnHalfGrid(r.x) && OnHalfGrid(r.y)
    ensures r.Moved? && gridMode != "none" ==>
      var p := FromScreen(cx, cy, s, mouse);
      Abs(r.x - p.x) <= 0.25 && Abs(r.y - p.y) <= 0.25
  {
    if !drag.isDragging || !Truthy(drag.dragId) || readOnly then Silent
    else
      var p := FromScreen(cx, cy, s, mouse);
      if gridMode != "none" then
        SnapOnGrid(p.x);
        SnapOnGrid(p.y);
        Moved(drag.dragId.value, Snap(p.x), Snap(p.y))
      else Moved(drag.dragId.value, p.x, p.y)
  }

  /** `handlePointerUp`: the drag ends. */
  function PointerUp(): (r: Drag)
    ensures !r.isDragging && !Truthy(r.dragId)
  {
    Drag(false, None)
  }

  /** With the grid off, dragging to the screen position of a point moves the
      head exactly to that point; with the grid on, dragging to a grid point
      moves it there too. */
  lemma DragFollowsPointer(readOnly: bool, drag: Drag, gridMode: string,
                           cx: real, cy: real, s: real, p: Point)
    requires s != 0.0 && drag.isDragging && Truthy(drag.dragId) && !readOnly
    requires gridMode == "none" || (OnHalfGrid(p.x) && OnHalfGrid(p.y))
    ensures PointerMove(readOnly, drag, gridMode, cx, cy, s, ToScreen(cx, cy, s, p))
      == Moved(drag.dragId.value, p.x, p.y)
  {
    FromToScreen(cx, cy, s, p);
    if gridMode != "none" {
      SnapIdempotent(p.x);
      SnapIdempotent(p.y);
    }
  }

  /** A press that grabs a vector starts a drag of that very vector: the next
      move reports its id. After the pointer is released, moves report
      nothing. */
  lemma PressDragRelease(o: Oracle, drag: Drag, vs: seq<Vector>, gridMode: string,
                         cx: real, cy: real, s: real, press: Point, move: Point)
    requires s != 0.0
    ensures var (d, n) := PointerDown(o, false, drag, vs, cx, cy, s, press);
      n.Selected? && Truthy(n.id) ==>
        && PointerMove(false, d, gridMode, cx, cy, s, move).Moved?
        && PointerMove(false, d, gridMode, cx, cy, s, move).vectorId == n.id.value
    ensures PointerMove(false, PointerUp(), gridMode, cx, cy, s, move) == Silent
  {
  }

  // ---------------------------------------------------------------------------
  // Angle arcs

  /** A vector gets an arc when it is selected or entered by angle. */
  predicate ArcVisible(v: Vector, selected: Option<int>) {
    selected == Some(v.id) || v.inputType == "angle"
  }

  /** The positions, in drawing order, of the vectors that get an arc. */
  function ArcVectors(vs: seq<Vector>, selected: Option<int>): (r: seq<nat>)
    ensures forall k :: 0 <= k < |r| ==> r[k] < |vs| && ArcVisible(vs[r[k]], selected)
    ensures forall i :: 0 <= i < |vs| && ArcVisible(vs[i], selected) ==> i in r
    ensures forall k, l :: 0 <= k < l < |r| ==> r[k] < r[l]
  {
    if vs == [] then []
    else
      var rest := ArcVectors(vs[..|vs| - 1], selected);
      if ArcVisible(vs[|vs| - 1], selected) then rest + [|vs| - 1] else rest
  }

  /** With nothing selected, exactly the angle-entered vectors get arcs; a
      selection adds only vectors carrying the selected id. */
  lemma ArcsBeyondAngleInputs(vs: seq<Vector>, selected: Option<int>, i: nat)
    requires i < |vs|
    ensures selected.None? ==> (i in ArcVectors(vs, None) <==> vs[i].inputType == "angle")
    ensures i in ArcVectors(vs, selected) && vs[i].inputType != "angle" ==> selected == Some(vs[i].id)
  {
  }

  /** An arc as the canvas draws it. */
  datatype CanvasArc = CanvasArc(
    nearest: int, sweep: real, radius: real, labelDistance: real,
    text: string, counterClockwise: bool)

  /** The canvas's sweep: `(angle - nearest + 360) % 360`, then the short way
      round. */
  function CanvasSweep(angle: real): real {
    var d := JsRem360(angle - NearestAxis(angle) as real + 360.0);
    if d > 180.0 then d - 360.0 else d
  }

  /** For the angles `getAngle` yields the canvas's sweep is the same as the
      PDF's, so it too is under 45 degrees either way and leads from the
      nearest axis to the angle. */
  lemma CanvasSweepMatchesPdf(angle: real)
    requires angle >= 0.0
    ensures CanvasSweep(angle) == VectorDiagram.ArcSweep(angle)
    ensures -45.0 <= CanvasSweep(angle) < 45.0
  {
    var ax := NearestAxis(angle) as real;
    var x := angle - ax + 360.0;
    assert x >= 0.0;
    NormalizePeriodic(angle - ax, 1);
    assert NormalizeAngle(x) == JsRem360(x);
    VectorDiagram.ArcSweepSpec(angle);
  }

  /** `drawAngleArc`: a small sweep (under 20 degrees) is pushed 25 pixels out,
      with its label 20 beyond instead of 15, but only on the read-only
      preview canvas. */
  function AngleArc(readOnly: bool, angle: real, radius: real): (r: CanvasArc)
    ensures r.labelDistance - r.radius == 20.0 <==> readOnly && VectorDiagram.SmallArc(r.sweep)
    ensures r.labelDistance - r.radius == 15.0 <==> !(readOnly && VectorDiagram.SmallArc(r.sweep))
    ensures r.radius == radius || r.radius == radius + 25.0
    ensures !readOnly ==> r.radius == radius && r.labelDistance == radius + 15.0
    ensures r.counterClockwise <==> r.sweep > 0.0
  {
    var diff := CanvasSweep(angle);
    var small := readOnly && Abs(diff) < 20.0;
    var effective := if small then radius + 25.0 else radius;
    CanvasArc(NearestAxis(angle), diff, effective,
              effective + if small then 20.0 else 15.0,
              VectorDiagram.ArcLabel(diff), diff > 0.0)
  }

  /** On the preview canvas the arc of a vector agrees with its PDF arc: the
      same sweep, the same text, and it is enlarged exactly when the PDF
      enlarges it. */
  lemma PreviewArcMatchesPdf(o: Oracle, x: real, y: real)
    requires Sound(o)
    ensures var angle := Angle(o, x, y);
      var arc := AngleArc(true, angle, DefaultArcRadius);
      var d := VectorDiagram.ArcSweep(angle);
      && arc.sweep == d
      && arc.text == VectorDiagram.ArcLabel(d)
      && (arc.radius > DefaultArcRadius <==> VectorDiagram.ArcRadii(DefaultArcRadius, d).0 > DefaultArcRadius)
  {
    var angle := Angle(o, x, y);
    AngleRange(o, x, y);
    CanvasSweepMatchesPdf(angle);
  }
}
