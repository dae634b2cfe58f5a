/** The vector diagram of the exercise PDF (`drawArc` and
    `renderVectorDiagramToPDF` in utils/pdfGenerator.ts), with the drawing
    calls taken out: what is computed is where each arrow ends, whether it gets
    an angle arc and how large, and where its magnitude label goes. Text widths
    come from the PDF library and are a parameter here.
 */
module VectorDiagram {
  import opened Numeric
  import opened Oracle
  import opened Text
  import opened Angles
  import opened VisualLayout
  import opened ScreenMap

  /** `DIAGRAM_SIZE`: the side of a diagram's square, in millimetres. */
  const DiagramSize: real := 90.0

  // ---------------------------------------------------------------------------
  // drawArc

  /** The signed sweep from the nearest axis to the angle: the normalised
      difference, taken the short way round. */
  function ArcSweep(angle: real): real {
    var diff := NormalizeAngle(angle - NearestAxis(angle) as real);
    if diff > 180.0 then diff - 360.0 else diff
  }

  /** The sweep is at most 45 degrees either way, and sweeping it from the
      nearest axis arrives at the angle itself, up to whole turns. */
  lemma ArcSweepSpec(angle: real)
    ensures -45.0 <= ArcSweep(angle) < 45.0
    ensures NormalizeAngle(NearestAxis(angle) as real + ArcSweep(angle)) == NormalizeAngle(angle)
  {
    var n := NormalizeAngle(angle);
    var ax := NearestAxis(angle) as real;
    var t := Turns(angle);
    assert angle - ax == (n - ax) + 360.0 * t as real;
    NormalizePeriodic(n - ax, t);
    var d := ArcSweep(angle);
    if n - ax >= 0.0 {
      NormalizeUnique(n - ax, n - ax, 0);
      if n - ax > 180.0 {
        assert d == n - 360.0;
        NormalizeUnique(ax + d, n, -1);
      } else {
        assert d == n - ax;
        NormalizeUnique(ax + d, n, 0);
      }
    } else {
      NormalizeUnique(n - ax, n - ax + 360.0, -1);
      assert d == n - ax;
      NormalizeUnique(ax + d, n, 0);
    }
  }

  /** A sweep under 20 degrees counts as small. */
  predicate SmallArc(d: real) {
    Abs(d) < 20.0
  }

  /** The arc's radius and the distance of its label from the centre: a small
      arc is drawn 2.5 times further out and its label 8 beyond it instead of 3. */
  function ArcRadii(radius: real, d: real): (r: (real, real))
    ensures radius >= 0.0 ==> r.0 >= radius
    ensures r.1 - r.0 == 8.0 <==> SmallArc(d)
    ensures r.1 - r.0 == 3.0 <==> !SmallArc(d)
    ensures SmallArc(d) ==> r.0 == 2.5 * radius
    ensures !SmallArc(d) ==> r.0 == radius
  {
    var effective := if SmallArc(d) then radius * 2.5 else radius;
    (effective, effective + if SmallArc(d) then 8.0 else 3.0)
  }

  /** The angles the arc's twelve segments are drawn between: starting at the
      axis and stepping by a twelfth of the sweep. */
  method ArcSteps(start: real, diff: real) returns (angles: seq<real>)
    ensures |angles| == 13 && angles[0] == start && angles[12] == start + diff
    ensures forall i :: 0 < i < 13 ==> angles[i] - angles[i - 1] == diff / 12.0
  {
    var step := diff / 12.0;
    var currA := start;
    angles := [start];
    var i := 1;
    while i <= 12
      invariant 1 <= i <= 13 && |angles| == i
      invariant currA == start + (i - 1) as real * step
      invariant angles[0] == start && angles[i - 1] == currA
      invariant forall k :: 0 < k < i ==> angles[k] - angles[k - 1] == step
    {
      currA := currA + step;
      angles := angles + [currA];
      i := i + 1;
    }
  }

  /** The arc's text: the sweep's size with no decimals and a degree sign. */
  function ArcLabel(d: real): string {
    ToFixed(Abs(d), 0) + "°"
  }

  /** The arc's text is a whole number of degrees no larger than 45, within half
      a degree of the sweep. */
  lemma ArcLabelReads(angle: real)
    ensures var d := ArcSweep(angle);
      var n := RoundHalfAway(Abs(d));
      && 0 <= n <= 45
      && ArcLabel(d) == NatToString(n) + "°"
      && Abs(n as real - Abs(d)) <= 0.5
  {
    ArcSweepSpec(angle);
    var d := ArcSweep(angle);
    var n := RoundHalfAway(Abs(d));
    ToFixedWhole(Abs(d));
    assert n as real <= 45.5;
  }

  // ---------------------------------------------------------------------------
  // Whether a vector gets an arc

  /** The arc is suppressed when the rounded angle is 0, 90, 180 or 360. */
  predicate ArcSuppressed(angle: real) {
    JsRound(angle) in {0, 90, 180, 360}
  }

  /** An arc is drawn for a vector longer than 0.5 whose angle is not
      suppressed. */
  predicate ArcShown(o: Oracle, x: real, y: real) {
    !ArcSuppressed(Angle(o, x, y)) && Magnitude(o, x, y) > 0.5
  }

  /** Suppression is exactly four half-open bands of width 1 around 0, 90, 180
      and 360; the band around 270 is missing, so a vector pointing straight
      down gets an arc. */
  lemma ArcSuppressedBands(angle: real)
    ensures ArcSuppressed(angle) <==>
      || -0.5 <= angle < 0.5 || 89.5 <= angle < 90.5
      || 179.5 <= angle < 180.5 || 359.5 <= angle < 360.5
    ensures !ArcSuppressed(270.0)
  {
    assert JsRound(270.0) == 270;
  }

  // ---------------------------------------------------------------------------
  // Auto-scale

  /** One entry of the list a diagram is drawn from. */
  datatype Drawn = Drawn(x: real, y: real, name: string)

  /** A desired resultant "Rd" in the list is skipped while the resultant is
      hidden. */
  predicate Hidden(v: Drawn, showResultant: bool) {
    v.name == "Rd" && !showResultant
  }

  /** The largest magnitude among the shown entries, starting from 0. */
  function MaxShown(o: Oracle, vs: seq<Drawn>, showResultant: bool): (m: real)
    ensures m >= 0.0
    ensures forall i :: 0 <= i < |vs| && !Hidden(vs[i], showResultant) ==> Magnitude(o, vs[i].x, vs[i].y) <= m
    ensures m == 0.0 || exists i :: 0 <= i < |vs| && !Hidden(vs[i], showResultant) && Magnitude(o, vs[i].x, vs[i].y) == m
  {
    if |vs| == 0 then 0.0
    else
      var init := vs[..|vs| - 1];
      var last := vs[|vs| - 1];
      var rest := MaxShown(o, init, showResultant);
      assert forall i :: 0 <= i < |init| ==> init[i] == vs[i];
      if Hidden(last, showResultant) then rest else Max(rest, Magnitude(o, last.x, last.y))
  }

  /** `maxMag`: the largest shown magnitude, the resultant's included when it is
      shown, and never below 0.001. */
  function MaxMag(o: Oracle, vs: seq<Drawn>, resultant: Option<Point>, showResultant: bool): (m: real)
    ensures m >= 0.001
    ensures m >= MaxShown(o, vs, showResultant)
    ensures resultant.Some? && showResultant ==> m >= Magnitude(o, resultant.value.x, resultant.value.y)
    ensures m == 0.001 || m == MaxShown(o, vs, showResultant)
      || (resultant.Some? && showResultant && m == Magnitude(o, resultant.value.x, resultant.value.y))
  {
    var shown := MaxShown(o, vs, showResultant);
    var withR := if resultant.Some? && showResultant then Max(shown, Magnitude(o, resultant.value.x, resultant.value.y)) else shown;
    Max(withR, 0.001)
  }

  /** `scaleFactor`: 70% of the diagram's half-width over the largest magnitude. */
  function ScaleFactor(maxMag: real): real
    requires maxMag > 0.0
  {
    (DiagramSize / 2.0 * 0.7) / maxMag
  }

  /** The scale maps the largest magnitude to 31.5 mm. */
  lemma ScaleOfMax(m: real)
    requires m > 0.0
    ensures ScaleFactor(m) > 0.0 && ScaleFactor(m) * m == 31.5
  {
    assert DiagramSize / 2.0 * 0.7 == 31.5;
    var q := 31.5 / m;
    assert q * m == 31.5;
    QuotPositive(31.5, m);
  }

  /** The length, in millimetres, an element of magnitude `len` is drawn at. */
  function DrawnLength(maxMag: real, len: real): real
    requires maxMag > 0.0
  {
    ScaleFactor(maxMag) * len
  }

  /** Anything no longer than the largest magnitude is drawn at most 31.5 mm
      long. */
  lemma ScaledWithin(m: real, x: real)
    requires m > 0.0 && x <= m
    ensures DrawnLength(m, x) <= 31.5
  {
    ScaleOfMax(m);
    MulMono(ScaleFactor(m), x, m);
  }

  /** The largest shown element is drawn exactly 31.5 mm long (when it is
      longer than the 0.001 floor) and no shown element is drawn longer. */
  lemma AutoScaleFits(o: Oracle, vs: seq<Drawn>, resultant: Option<Point>, showResultant: bool)
    ensures var m := MaxMag(o, vs, resultant, showResultant);
      && ScaleFactor(m) > 0.0 && DrawnLength(m, m) == 31.5
      && (forall i :: 0 <= i < |vs| && !Hidden(vs[i], showResultant) ==>
            DrawnLength(m, Magnitude(o, vs[i].x, vs[i].y)) <= 31.5)
      && (resultant.Some? && showResultant ==>
            DrawnLength(m, Magnitude(o, resultant.value.x, resultant.value.y)) <= 31.5)
  {
    var m := MaxMag(o, vs, resultant, showResultant);
    ScaleOfMax(m);
    forall i | 0 <= i < |vs| && !Hidden(vs[i], showResultant)
      ensures DrawnLength(m, Magnitude(o, vs[i].x, vs[i].y)) <= 31.5
    {
      ScaledWithin(m, Magnitude(o, vs[i].x, vs[i].y));
    }
    if resultant.Some? && showResultant {
      ScaledWithin(m, Magnitude(o, resultant.value.x, resultant.value.y));
    }
  }

  // ---------------------------------------------------------------------------
  // Labels

  /** The label's text: "R=" and the rounded magnitude for the resultant, the
      rounded magnitude alone otherwise. */
  function LabelText(isResultant: bool, magVal: int): string {
    if isResultant then "R=" + IntToString(magVal) else IntToString(magVal)
  }

  /** The number is read back from either form of label. */
  lemma LabelTextReads(magVal: int)
    ensures ParseInt(LabelText(false, magVal)) == Some(magVal)
    ensures LabelText(true, magVal)[..2] == "R=" && ParseInt(LabelText(true, magVal)[2..]) == Some(magVal)
  {
    ParseIntRoundTrip(magVal);
    assert LabelText(true, magVal)[2..] == IntToString(magVal);
  }

  /** The box a label occupies: one unit of margin at the sides, three above
      the baseline and four below. */
  function LabelBox(x: real, y: real, textW: real): Rect {
    Rect(x - 1.0, y - 3.0, textW + 2.0, 3.0 + 4.0)
  }

  /** Above the tip when the vector points up, below it otherwise. */
  function PreferredY(tip: Point, vy: real): real {
    if vy > 0.0 then tip.y - 4.0 else tip.y + 3.0 + 4.0
  }

  /** The candidate box overlaps an already placed one. */
  predicate HitsAny(r: Rect, placed: seq<Rect>) {
    exists i :: 0 <= i < |placed| && CheckCollision(r, placed[i])
  }

  /** The `for (const p of placedLabels)` scan with its early exit. */
  method Collides(r: Rect, placed: seq<Rect>) returns (c: bool)
    ensures c <==> HitsAny(r, placed)
  {
    c := false;
    var i := 0;
    while i < |placed|
      invariant 0 <= i <= |placed|
      invariant !c
      invariant forall k :: 0 <= k < i ==> !CheckCollision(r, placed[k])
    {
      if CheckCollision(r, placed[i]) {
        c := true;
        return;
      }
      i := i + 1;
    }
  }

  /** Placing one label: centred on the tip, on its preferred side, pushed 4
      further that way when its box overlaps a placed one, and its final box
      appended to the placed list. */
  function PlaceLabel(tip: Point, textW: real, vy: real, placed: seq<Rect>): (r: (Point, seq<Rect>))
    ensures r.0.x + textW / 2.0 == tip.x
    ensures vy > 0.0 ==> r.0.y < tip.y
    ensures vy <= 0.0 ==> r.0.y > tip.y
    ensures r.1 == placed + [LabelBox(r.0.x, r.0.y, textW)]
    ensures var first := LabelBox(tip.x - textW / 2.0, PreferredY(tip, vy), textW);
      Abs(r.0.y - tip.y) == Abs(PreferredY(tip, vy) - tip.y) + (if HitsAny(first, placed) then 4.0 else 0.0)
  {
    var bestX := tip.x - textW / 2.0;
    var y0 := PreferredY(tip, vy);
    var bestY := if HitsAny(LabelBox(bestX, y0, textW), placed) then (if vy > 0.0 then y0 - 4.0 else y0 + 4.0) else y0;
    (Point(bestX, bestY), placed + [LabelBox(bestX, bestY, textW)])
  }

  /** The nudge is one step and no search: a label can end up overlapping a
      placed box after it. */
  lemma NudgeIsOneStep()
    ensures var placed := [Rect(-100.0, -100.0, 200.0, 200.0)];
      var r := PlaceLabel(Point(0.0, 0.0), 2.0, 1.0, placed);
      HitsAny(LabelBox(r.0.x, r.0.y, 2.0), placed)
  {
    var placed := [Rect(-100.0, -100.0, 200.0, 200.0)];
    assert CheckCollision(LabelBox(-1.0, -4.0, 2.0), placed[0]);
    assert CheckCollision(LabelBox(-1.0, -8.0, 2.0), placed[0]);
  }

  /** The two boxes placed before any label: a strip along each axis. */
  function AxisStrips(offsetX: real, offsetY: real): (s: seq<Rect>)
    ensures |s| == 2
  {
    var cx := offsetX + DiagramSize / 2.0;
    var cy := offsetY + DiagramSize / 2.0;
    [Rect(cx - 5.0, offsetY, 10.0, DiagramSize), Rect(offsetX, cy - 3.0, DiagramSize, 6.0)]
  }

  // ---------------------------------------------------------------------------
  // Where each arrow ends

  /** The list handed to the layout: the entries by index and the resultant as
      "R". */
  function RawList(vs: seq<Drawn>, resultant: Option<Point>): (raw: seq<Input>)
    ensures |raw| == |vs| + (if resultant.Some? then 1 else 0)
    ensures forall i :: 0 <= i < |vs| ==> raw[i] == Input(Index(i), vs[i].x, vs[i].y)
    ensures resultant.Some? ==> raw[|vs|] == Input(Named("R"), resultant.value.x, resultant.value.y)
  {
    seq(|vs|, i requires 0 <= i < |vs| => Input(Index(i), vs[i].x, vs[i].y))
      + (if resultant.Some? then [Input(Named("R"), resultant.value.x, resultant.value.y)] else [])
  }

  /** `find`: the position of the first item with the id, or the length of
      the list when there is none. */
  function FirstWith(items: seq<Item>, id: Key): (k: nat)
    ensures k <= |items|
    ensures forall j :: 0 <= j < k ==> items[j].id != id
    ensures k < |items| ==> items[k].id == id
  {
    if |items| == 0 then 0
    else if items[0].id == id then 0
    else 1 + FirstWith(items[1..], id)
  }

  /** `getVisual`: the drawn components of the first laid-out item with the
      id, or (0, 0) when there is none. */
  function FindVisual(items: seq<Item>, id: Key): (p: Point)
    ensures (forall k :: 0 <= k < |items| ==> items[k].id != id) ==> p == Point(0.0, 0.0)
    ensures forall k :: 0 <= k < |items| && items[k].id == id ==>
      exists j :: 0 <= j <= k && items[j].id == id && p == Point(items[j].vx, items[j].vy)
  {
    var k := FirstWith(items, id);
    if k < |items| then Point(items[k].vx, items[k].vy) else Point(0.0, 0.0)
  }

  /** Ids are never shared in the list handed to the layout. */
  lemma RawListIds(vs: seq<Drawn>, resultant: Option<Point>, i: nat, j: nat)
    requires i < |RawList(vs, resultant)| && j < |RawList(vs, resultant)|
    ensures RawList(vs, resultant)[i].id == RawList(vs, resultant)[j].id ==> i == j
  {
  }

  /** An item found in a permutation of items made from inputs with distinct
      ids carries the components of the input with its id. */
  lemma FoundInPermutation(raw: seq<Input>, made: seq<Item>, sorted: seq<Item>, out: seq<Item>, j: nat)
    requires |made| == |raw| && j < |raw|
    requires forall i :: 0 <= i < |raw| ==> made[i].id == raw[i].id && made[i].x == raw[i].x && made[i].y == raw[i].y
    requires forall i :: 0 <= i < |raw| && raw[i].id == raw[j].id ==> i == j
    requires multiset(sorted) == multiset(made) && |out| == |sorted|
    requires forall p :: 0 <= p < |out| ==> out[p].id == sorted[p].id && out[p].x == sorted[p].x && out[p].y == sorted[p].y
    ensures exists k :: 0 <= k < |out| && out[k].id == raw[j].id
    ensures forall k :: 0 <= k < |out| && out[k].id == raw[j].id ==> out[k].x == raw[j].x && out[k].y == raw[j].y
  {
    assert made[j] in multiset(sorted);
    var k :| 0 <= k < |sorted| && sorted[k] == made[j];
    assert out[k].id == raw[j].id;
    forall k' | 0 <= k' < |out| && out[k'].id == raw[j].id
      ensures out[k'].x == raw[j].x && out[k'].y == raw[j].y
    {
      assert sorted[k'] in multiset(made);
      var j' :| 0 <= j' < |made| && made[j'] == sorted[k'];
    }
  }

  /** Every entry and the resultant are found in the layout, under an item that
      carries their own components: the (0, 0) fallback is never used. */
  lemma LayoutHoldsEveryEntry(o: Oracle, vs: seq<Drawn>, resultant: Option<Point>, key: Key)
    requires key.Index? ==> 0 <= key.i < |vs|
    requires key.Named? ==> key == Named("R") && resultant.Some?
    ensures var out := Layout(o, RawList(vs, resultant), 6.0);
      var src := SourceOf(vs, resultant, key);
      && (exists k :: 0 <= k < |out| && out[k].id == key)
      && forall k :: 0 <= k < |out| && out[k].id == key ==> out[k].x == src.x && out[k].y == src.y
  {
    var raw := RawList(vs, resultant);
    var j := if key.Index? then key.i else |vs|;
    assert raw[j].id == key;
    assert SourceOf(vs, resultant, key) == Point(raw[j].x, raw[j].y);
    MadeFromRaw(o, raw);
    RawIdsDistinct(vs, resultant, j);
    LayoutKeepsItems(o, raw, 6.0);
    FoundInPermutation(raw, MakeItems(o, raw), Sorted(o, raw), Layout(o, raw, 6.0), j);
  }

  /** Each made item carries its input's id and components. */
  lemma MadeFromRaw(o: Oracle, raw: seq<Input>)
    ensures var made := MakeItems(o, raw);
      forall i :: 0 <= i < |raw| ==> made[i].id == raw[i].id && made[i].x == raw[i].x && made[i].y == raw[i].y
  {
    var made := MakeItems(o, raw);
    forall i | 0 <= i < |raw|
      ensures made[i].id == raw[i].id && made[i].x == raw[i].x && made[i].y == raw[i].y
    {
      assert made[i] == MakeItem(o, raw[i]);
    }
  }

  /** Entry j of the list handed to the layout is the only one with its id. */
  lemma RawIdsDistinct(vs: seq<Drawn>, resultant: Option<Point>, j: nat)
    requires j < |RawList(vs, resultant)|
    ensures var raw := RawList(vs, resultant);
      forall i :: 0 <= i < |raw| && raw[i].id == raw[j].id ==> i == j
  {
    var raw := RawList(vs, resultant);
    forall i | 0 <= i < |raw| && raw[i].id == raw[j].id
      ensures i == j
    {
      RawListIds(vs, resultant, i, j);
    }
  }

  // ---------------------------------------------------------------------------
  // The whole diagram

  /** What is drawn for one arrow: where it ends, whether it has an arc, its
      label's text and the label's position. */
  datatype Mark = Mark(tip: Point, arc: bool, text: string, at: Point)

  /** The ids of the entries drawn, in drawing order: the shown entries of the
      first n, by index. */
  function ShownKeys(vs: seq<Drawn>, showResultant: bool, n: nat): (ks: seq<Key>)
    requires n <= |vs|
  {
    if n == 0 then []
    else ShownKeys(vs, showResultant, n - 1) + (if Hidden(vs[n - 1], showResultant) then [] else [Index(n - 1)])
  }

  /** The keys drawn are exactly the shown entries among the first n, by
      increasing index. */
  lemma {:induction false} ShownKeysSpec(vs: seq<Drawn>, showResultant: bool, n: nat)
    requires n <= |vs|
    ensures var ks := ShownKeys(vs, showResultant, n);
      && (forall k :: 0 <= k < |ks| ==> ks[k].Index? && 0 <= ks[k].i < n && !Hidden(vs[ks[k].i], showResultant))
      && (forall i :: 0 <= i < n && !Hidden(vs[i], showResultant) ==> Index(i) in ks)
  {
    if n > 0 {
      ShownKeysSpec(vs, showResultant, n - 1);
      var prev := ShownKeys(vs, showResultant, n - 1);
      var ks := ShownKeys(vs, showResultant, n);
      if !Hidden(vs[n - 1], showResultant) {
        assert ks == prev + [Index(n - 1)];
        assert Index(n - 1) == ks[|prev|];
      } else {
        assert ks == prev;
      }
    }
  }

  /** The keys drawn come by increasing index. */
  lemma {:induction false} ShownKeysOrdered(vs: seq<Drawn>, showResultant: bool, n: nat)
    requires n <= |vs|
    ensures var ks := ShownKeys(vs, showResultant, n);
      forall k, l :: 0 <= k < l < |ks| ==> ks[k].Index? && ks[l].Index? && ks[k].i < ks[l].i
  {
    if n > 0 {
      ShownKeysSpec(vs, showResultant, n - 1);
      ShownKeysOrdered(vs, showResultant, n - 1);
      var prev := ShownKeys(vs, showResultant, n - 1);
      var ks := ShownKeys(vs, showResultant, n);
      if !Hidden(vs[n - 1], showResultant) {
        assert ks == prev + [Index(n - 1)];
      } else {
        assert ks == prev;
      }
    }
  }

  /** All entries drawn: the shown ones, then the resultant when shown. */
  function DrawOrder(vs: seq<Drawn>, resultant: Option<Point>, showResultant: bool): seq<Key> {
    ShownKeys(vs, showResultant, |vs|) + (if resultant.Some? && showResultant then [Named("R")] else [])
  }

  /** The components an id stands for. */
  function SourceOf(vs: seq<Drawn>, resultant: Option<Point>, key: Key): Point {
    match key
    case Index(i) => if 0 <= i < |vs| then Point(vs[i].x, vs[i].y) else Point(0.0, 0.0)
    case Named(_) => if resultant.Some? then resultant.value else Point(0.0, 0.0)
  }

  /** `drawVecItem`: one arrow with its arc decision and its label. */
  function DrawItem(o: Oracle, width: string -> real, cx: real, cy: real, s: real,
                    layout: seq<Item>, v: Point, isResultant: bool, key: Key, placed: seq<Rect>): (r: (Mark, seq<Rect>))
    ensures r.1 == placed + [LabelBox(r.0.at.x, r.0.at.y, width(r.0.text))]
    ensures r.0.tip == ToScreen(cx, cy, s, FindVisual(layout, key))
    ensures r.0.at.x + width(r.0.text) / 2.0 == r.0.tip.x
    ensures v.y > 0.0 ==> r.0.at.y < r.0.tip.y
    ensures v.y <= 0.0 ==> r.0.at.y > r.0.tip.y
  {
    var tip := ToScreen(cx, cy, s, FindVisual(layout, key));
    var text := LabelText(isResultant, JsRound(Magnitude(o, v.x, v.y)));
    var (at, placed') := PlaceLabel(tip, width(text), v.y, placed);
    (Mark(tip, ArcShown(o, v.x, v.y), text, at), placed')
  }

  /** Mark k of a diagram: drawn for the entry `key`, from its own components,
      with its label box the one registered for it. */
  predicate MarkFor(o: Oracle, width: string -> real, cx: real, cy: real, s: real, layout: seq<Item>,
                    vs: seq<Drawn>, resultant: Option<Point>, key: Key, mark: Mark, box: Rect) {
    var src := SourceOf(vs, resultant, key);
    && mark.tip == ToScreen(cx, cy, s, FindVisual(layout, key))
    && mark.arc == ArcShown(o, src.x, src.y)
    && mark.text == LabelText(key.Named?, JsRound(Magnitude(o, src.x, src.y)))
    && box == LabelBox(mark.at.x, mark.at.y, width(mark.text))
    && mark.at.x + width(mark.text) / 2.0 == mark.tip.x
  }

  /** Marks for the keys in order, each passing `fits` with the label box
      registered for it after the given boxes. */
  predicate AllFit(fits: (Key, Mark, Rect) -> bool, strips: seq<Rect>,
                   keys: seq<Key>, marks: seq<Mark>, placed: seq<Rect>) {
    && |marks| == |keys|
    && |placed| == |strips| + |marks| && placed[..|strips|] == strips
    && forall k :: 0 <= k < |marks| ==> fits(keys[k], marks[k], placed[|strips| + k])
  }

  /** One more mark whose box is appended extends a fitting run. */
  lemma AllFitSnoc(fits: (Key, Mark, Rect) -> bool, strips: seq<Rect>,
                   keys: seq<Key>, marks: seq<Mark>, placed: seq<Rect>,
                   key: Key, mark: Mark, placed': seq<Rect>)
    requires AllFit(fits, strips, keys, marks, placed)
    requires |placed'| == |placed| + 1 && placed'[..|placed|] == placed
    requires fits(key, mark, placed'[|placed|])
    ensures AllFit(fits, strips, keys + [key], marks + [mark], placed')
  {
    assert placed'[..|strips|] == placed[..|strips|];
    var keys', marks' := keys + [key], marks + [mark];
    forall k | 0 <= k < |marks'|
      ensures fits(keys'[k], marks'[k], placed'[|strips| + k])
    {
      if k < |marks| {
        assert keys'[k] == keys[k] && marks'[k] == marks[k] && placed'[|strips| + k] == placed[|strips| + k];
      } else {
        assert keys'[k] == key && marks'[k] == mark && |strips| + k == |placed|;
      }
    }
  }

  /** `MarkFor` of one diagram, as a test on (key, mark, box). */
  function MarkTest(o: Oracle, width: string -> real, cx: real, cy: real, s: real, layout: seq<Item>,
                    vs: seq<Drawn>, resultant: Option<Point>): (Key, Mark, Rect) -> bool {
    (key, mark, box) => MarkFor(o, width, cx, cy, s, layout, vs, resultant, key, mark, box)
  }

  /** A finished diagram: one mark per entry of the drawing order, in that
      order, each with the label box registered for it after the given boxes. */
  predicate Rendered(o: Oracle, width: string -> real, cx: real, cy: real, s: real, layout: seq<Item>,
                     vs: seq<Drawn>, resultant: Option<Point>, showResultant: bool, strips: seq<Rect>,
                     marks: seq<Mark>, placed: seq<Rect>) {
    AllFit(MarkTest(o, width, cx, cy, s, layout, vs, resultant), strips, DrawOrder(vs, resultant, showResultant), marks, placed)
  }

  /** `renderVectorDiagramToPDF` at offset (offsetX, offsetY): one mark per
      entry drawn, in drawing order, and one placed label box per mark after
      the two axis strips. */
  method RenderDiagram(o: Oracle, width: string -> real, offsetX: real, offsetY: real,
                       vs: seq<Drawn>, resultant: Option<Point>, showResultant: bool)
    returns (marks: seq<Mark>, placed: seq<Rect>)
    ensures Rendered(o, width, offsetX + DiagramSize / 2.0, offsetY + DiagramSize / 2.0,
                     ScaleFactor(MaxMag(o, vs, resultant, showResultant)), Layout(o, RawList(vs, resultant), 6.0),
                     vs, resultant, showResultant, AxisStrips(offsetX, offsetY), marks, placed)
    ensures |placed| == 2 + |marks| && |marks| == |DrawOrder(vs, resultant, showResultant)|
  {
    var cx := offsetX + DiagramSize / 2.0;
    var cy := offsetY + DiagramSize / 2.0;
    var s := ScaleFactor(MaxMag(o, vs, resultant, showResultant));
    var layout := Layout(o, RawList(vs, resultant), 6.0);
    marks, placed := DrawAll(o, width, cx, cy, s, layout, vs, resultant, showResultant, AxisStrips(offsetX, offsetY));
  }

  /** Every shown entry, then the resultant when shown, after the given boxes. */
  method DrawAll(o: Oracle, width: string -> real, cx: real, cy: real, s: real, layout: seq<Item>,
                 vs: seq<Drawn>, resultant: Option<Point>, showResultant: bool, strips: seq<Rect>)
    returns (marks: seq<Mark>, placed: seq<Rect>)
    ensures Rendered(o, width, cx, cy, s, layout, vs, resultant, showResultant, strips, marks, placed)
  {
    marks, placed := DrawEntries(o, width, cx, cy, s, layout, vs, resultant, showResultant, strips);
    if resultant.Some? && showResultant {
      var r := DrawItem(o, width, cx, cy, s, layout, resultant.value, true, Named("R"), placed);
      assert MarkFor(o, width, cx, cy, s, layout, vs, resultant, Named("R"), r.0, r.1[|placed|]);
      assert r.1[..|placed|] == placed;
      assert MarkTest(o, width, cx, cy, s, layout, vs, resultant)(Named("R"), r.0, r.1[|placed|]);
      AllFitSnoc(MarkTest(o, width, cx, cy, s, layout, vs, resultant), strips,
                 ShownKeys(vs, showResultant, |vs|), marks, placed, Named("R"), r.0, r.1);
      marks := marks + [r.0];
      placed := r.1;
    }
  }

  /** The `vectors.forEach` pass: one mark per shown entry, in order, each
      label box registered after the ones before it. */
  method DrawEntries(o: Oracle, width: string -> real, cx: real, cy: real, s: real, layout: seq<Item>,
                     vs: seq<Drawn>, resultant: Option<Point>, showResultant: bool, strips: seq<Rect>)
    returns (marks: seq<Mark>, placed: seq<Rect>)
    ensures AllFit(MarkTest(o, width, cx, cy, s, layout, vs, resultant), strips, ShownKeys(vs, showResultant, |vs|), marks, placed)
  {
    placed := strips;
    marks := [];
    var i := 0;
    while i < |vs|
      invariant 0 <= i <= |vs|
      invariant AllFit(MarkTest(o, width, cx, cy, s, layout, vs, resultant), strips, ShownKeys(vs, showResultant, i), marks, placed)
    {
      ShownKeysStep(vs, showResultant, i);
      marks, placed := DrawEntry(o, width, cx, cy, s, layout, vs, resultant, showResultant, strips,
                                 ShownKeys(vs, showResultant, i), marks, placed, i);
      i := i + 1;
    }
  }

  /** One step of the pass: a shown entry gets its mark and box, a hidden one
      nothing. */
  method DrawEntry(o: Oracle, width: string -> real, cx: real, cy: real, s: real, layout: seq<Item>,
                   vs: seq<Drawn>, resultant: Option<Point>, showResultant: bool, strips: seq<Rect>,
                   ghost keys: seq<Key>, marks: seq<Mark>, placed: seq<Rect>, i: nat)
    returns (marks': seq<Mark>, placed': seq<Rect>)
    requires i < |vs|
    requires AllFit(MarkTest(o, width, cx, cy, s, layout, vs, resultant), strips, keys, marks, placed)
    ensures AllFit(MarkTest(o, width, cx, cy, s, layout, vs, resultant), strips,
                     keys + (if Hidden(vs[i], showResultant) then [] else [Index(i)]), marks', placed')
  {
    if Hidden(vs[i], showResultant) {
      assert keys + [] == keys;
      return marks, placed;
    }
    var r := DrawItem(o, width, cx, cy, s, layout, Point(vs[i].x, vs[i].y), false, Index(i), placed);
    DrawItemMarks(o, width, cx, cy, s, layout, vs, resultant, i, placed);
    assert MarkTest(o, width, cx, cy, s, layout, vs, resultant)(Index(i), r.0, r.1[|placed|]);
    AllFitSnoc(MarkTest(o, width, cx, cy, s, layout, vs, resultant), strips, keys, marks, placed, Index(i), r.0, r.1);
    marks' := marks + [r.0];
    placed' := r.1;
  }

  /** One more entry either adds its own key or, hidden, adds nothing. */
  lemma ShownKeysStep(vs: seq<Drawn>, showResultant: bool, i: nat)
    requires i < |vs|
    ensures !Hidden(vs[i], showResultant) ==> ShownKeys(vs, showResultant, i + 1) == ShownKeys(vs, showResultant, i) + [Index(i)]
    ensures Hidden(vs[i], showResultant) ==> ShownKeys(vs, showResultant, i + 1) == ShownKeys(vs, showResultant, i)
  {
  }

  /** Drawing entry i appends exactly its own label box and a mark that fits it. */
  lemma DrawItemMarks(o: Oracle, width: string -> real, cx: real, cy: real, s: real, layout: seq<Item>,
                      vs: seq<Drawn>, resultant: Option<Point>, i: nat, placed: seq<Rect>)
    requires i < |vs|
    ensures var r := DrawItem(o, width, cx, cy, s, layout, Point(vs[i].x, vs[i].y), false, Index(i), placed);
      && |r.1| == |placed| + 1 && r.1[..|placed|] == placed
      && MarkFor(o, width, cx, cy, s, layout, vs, resultant, Index(i), r.0, r.1[|placed|])
  {
  }
}
