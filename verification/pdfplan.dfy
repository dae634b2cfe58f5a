/** Page planning of the vector exercise PDF (`generatePDF` in
    utils/pdfGenerator.ts), with the drawing calls taken out: which page and
    which place on it each exercise gets, in full mode (one question block
    under another) and in simple mode (a two-column grid), and what each
    diagram is asked to draw. Lengths are whole millimetres on an A4 page.
 */
module PdfPlan {
  import opened Numeric
  import opened Oracle
  import opened Records
  import opened VectorDiagram
  import opened Pagination

  const PageHeight: int := 297
  const PageWidth: int := 210
  const MarginTop: int := 30
  const MarginBottom: int := 18
  const MarginLeft: int := 15
  const MarginRight: int := 15
  /** `usableHeight`: 249 mm between the margins. */
  const UsableHeight: int := PageHeight - MarginTop - MarginBottom
  const BlockPadding: int := 5
  /** The side of a diagram, `DIAGRAM_SIZE`. */
  const Diagram: int := 90

  /** Where an exercise goes: the page, its position on that page, its
      question number (full mode only) and the top-left corner of its
      diagram. */
  datatype Slot = Slot(page: nat, slot: nat, question: Option<nat>, x: int, y: int)

  /** The diagram's square lies between the page's margins. */
  predicate InsideMargins(s: Slot) {
    MarginLeft <= s.x && s.x + Diagram <= PageWidth - MarginRight
    && MarginTop <= s.y && s.y + Diagram <= PageHeight - MarginBottom
  }

  // ---------------------------------------------------------------------------
  // Full mode

  /** The height one question block is estimated at when deciding how many
      blocks a page holds: header, diagram, padding and 8 mm, plus a 22 mm
      answer block on the teacher's copy. */
  function BlockEstimate(isTeacher: bool): int {
    12 + Diagram + BlockPadding + 8 + (if isTeacher then 22 else 0)
  }

  /** `perPage`: how many estimated blocks fit in the usable height, and at
      least one (`|| 1`). */
  function FullPerPage(isTeacher: bool): (per: nat)
    ensures per >= 1
    ensures per * BlockEstimate(isTeacher) <= UsableHeight
    ensures (per + 1) * BlockEstimate(isTeacher) > UsableHeight
  {
    MaxInt(UsableHeight / BlockEstimate(isTeacher), 1)
  }

  /** Two student blocks a page, one teacher block. */
  lemma FullPerPageValues()
    ensures FullPerPage(false) == 2 && FullPerPage(true) == 1
  {
  }

  /** The parts of one drawn question block whose header line is at y. */
  datatype Block = Block(header: int, diagram: int, answer: Option<int>, divider: int, next: int)

  /** One question block as the full-mode loop lays it out: the header line,
      12 mm lower the diagram, the padding, then the teacher's 15 mm answer
      box and 20 mm, or the student's 6 mm, then the divider and 8 mm. */
  function FullBlock(isTeacher: bool, y: int): (b: Block)
    ensures b.header == y && b.diagram == y + 12
    ensures b.answer.Some? <==> isTeacher
    ensures b.answer.Some? ==> b.answer.value == b.diagram + Diagram + BlockPadding
    ensures b.divider > b.diagram + Diagram && b.next == b.divider + 8
  {
    var diagram := y + 12;
    var afterDiagram := diagram + Diagram + BlockPadding;
    var divider := if isTeacher then afterDiagram + 20 else afterDiagram + 6;
    Block(y, diagram, if isTeacher then Some(afterDiagram) else None, divider, divider + 8)
  }

  /** How far down the page one block moves the cursor. */
  function Advance(isTeacher: bool): (a: int)
    ensures a > 0
    ensures forall y :: FullBlock(isTeacher, y).next == y + a
  {
    if isTeacher then 135 else 121
  }

  /** The header line of the block in position `slot` of a page. */
  function HeaderY(isTeacher: bool, slot: nat): int {
    MarginTop + slot * Advance(isTeacher)
  }

  /** Every block a page is planned to hold ends, divider included, above the
      bottom margin: the diagram, the teacher's answer box and the divider. */
  lemma FullBlockFits(isTeacher: bool, slot: nat)
    requires slot < FullPerPage(isTeacher)
    ensures var b := FullBlock(isTeacher, HeaderY(isTeacher, slot));
      && MarginTop <= b.header
      && b.diagram + Diagram <= PageHeight - MarginBottom
      && (b.answer.Some? ==> b.answer.value + 15 <= PageHeight - MarginBottom)
      && b.divider <= PageHeight - MarginBottom
  {
    FullPerPageValues();
    if isTeacher {
      assert slot == 0;
    } else {
      assert slot == 0 || slot == 1;
    }
  }

  /** Exercise k in full mode: on page k / per at position k % per, numbered
      k + 1, its diagram at the left margin under its header. */
  predicate FullSlotAt(isTeacher: bool, k: nat, s: Slot) {
    var per := FullPerPage(isTeacher);
    && s.page * per + s.slot == k && s.slot < per
    && s.question == Some(k + 1)
    && s.x == MarginLeft
    && s.y == FullBlock(isTeacher, HeaderY(isTeacher, s.slot)).diagram
  }

  /** The full-mode loops: `for (i = 0; i < n; i += perPage)` over pages, each
      starting at the top margin, and the blocks of `slice(i, i + perPage)`
      one under another. */
  method FullLayout(n: nat, isTeacher: bool) returns (slots: seq<Slot>)
    ensures |slots| == n
    ensures forall k :: 0 <= k < n ==> FullSlotAt(isTeacher, k, slots[k])
  {
    var per := FullPerPage(isTeacher);
    slots := [];
    var pageIndex := 0;
    var i := 0;
    while i < n
      invariant i == pageIndex * per
      invariant |slots| == MinInt(n, i)
      invariant forall k :: 0 <= k < |slots| ==> FullSlotAt(isTeacher, k, slots[k])
    {
      var yPos := MarginTop;
      var sliceLen := MinInt(n, i + per) - i;
      var idx := 0;
      while idx < sliceLen
        invariant 0 <= idx <= sliceLen
        invariant |slots| == i + idx
        invariant yPos == HeaderY(isTeacher, idx)
        invariant forall k :: 0 <= k < |slots| ==> FullSlotAt(isTeacher, k, slots[k])
      {
        var b := FullBlock(isTeacher, yPos);
        slots := slots + [Slot(pageIndex, idx, Some(i + idx + 1), MarginLeft, b.diagram)];
        yPos := b.next;
        idx := idx + 1;
      }
      pageIndex := pageIndex + 1;
      i := i + per;
    }
  }

  // ---------------------------------------------------------------------------
  // Simple mode

  const Cols: int := 2
  /** A diagram and 8 mm for its labels. */
  const RowHeight: int := Diagram + 8

  /** `rowsThatFit`: the whole rows that fit in the usable height, and at
      least one (`|| 1`, which the page's constants never need). */
  function RowsThatFit(): (rows: nat)
    ensures rows >= 1
    ensures rows * RowHeight <= UsableHeight < (rows + 1) * RowHeight
  {
    MaxInt(UsableHeight / RowHeight, 1)
  }

  /** `maxItemsPerPage`: two columns of the rows that fit. */
  function MaxItemsPerPage(): nat {
    RowsThatFit() * Cols
  }

  /** `itemsPerPage`: the request clamped to [1, maxItemsPerPage], then set to
      the maximum once more when the request exceeds it. */
  function SimpleItemsPerPage(requested: int): (per: nat)
    ensures 1 <= per <= MaxItemsPerPage()
    ensures 1 <= requested <= MaxItemsPerPage() ==> per == requested
    ensures requested < 1 ==> per == 1
    ensures requested > MaxItemsPerPage() ==> per == MaxItemsPerPage()
  {
    var clamped := MinInt(MaxInt(1, requested), MaxItemsPerPage());
    if requested > MaxItemsPerPage() then MaxItemsPerPage() else clamped
  }

  /** The second correction never changes anything: the clamp alone already
      gives the maximum for a request above it. */
  lemma SecondClampRedundant(requested: int)
    ensures SimpleItemsPerPage(requested) == MinInt(MaxInt(1, requested), MaxItemsPerPage())
  {
  }

  /** Four diagrams a page at most. */
  lemma MaxItemsValue()
    ensures RowsThatFit() == 2 && MaxItemsPerPage() == 4
  {
  }

  /** `colWidth`: the width between the side margins, halved. */
  function ColWidth(): int {
    (PageWidth - MarginLeft - MarginRight) / Cols
  }

  /** The top-left corner of cell `local` of a page: column local % 2, row
      local / 2, the diagram centred in its column. */
  function CellX(local: nat): int {
    MarginLeft + (local % Cols) * ColWidth() + (ColWidth() - Diagram) / 2
  }

  function CellY(local: nat): int {
    MarginTop + (local / Cols) * RowHeight
  }

  /** Every cell a page is planned to hold keeps its diagram, and its row's
      label space, inside the margins. */
  lemma CellFits(requested: int, local: nat)
    requires local < SimpleItemsPerPage(requested)
    ensures MarginLeft <= CellX(local) && CellX(local) + Diagram <= PageWidth - MarginRight
    ensures local / Cols < RowsThatFit()
    ensures MarginTop <= CellY(local) && CellY(local) + RowHeight <= PageHeight - MarginBottom
  {
    MaxItemsValue();
    assert local < 4;
    assert local == 0 || local == 1 || local == 2 || local == 3;
  }

  /** Two different cells of a page never share an inner point. */
  lemma CellsApart(a: nat, b: nat)
    requires a < MaxItemsPerPage() && b < MaxItemsPerPage() && a != b
    ensures Abs((CellX(a) - CellX(b)) as real) >= Diagram as real
         || Abs((CellY(a) - CellY(b)) as real) >= Diagram as real
  {
    MaxItemsValue();
    assert a == 0 || a == 1 || a == 2 || a == 3;
    assert b == 0 || b == 1 || b == 2 || b == 3;
  }

  /** Exercise k in simple mode: on page k / per at cell k % per. */
  predicate SimpleSlotAt(per: nat, k: nat, s: Slot) {
    && s.page * per + s.slot == k && s.slot < per
    && s.question.None?
    && s.x == CellX(s.slot) && s.y == CellY(s.slot)
  }

  /** The simple-mode loops: `Math.ceil(n / itemsPerPage)` pages, each filling
      its cells in order and stopping at the end of the list. */
  method SimpleLayout(n: nat, requested: int) returns (slots: seq<Slot>)
    ensures |slots| == n
    ensures forall k :: 0 <= k < n ==> SimpleSlotAt(SimpleItemsPerPage(requested), k, slots[k])
  {
    var at := GridWalk(n, SimpleItemsPerPage(requested));
    slots := seq(n, k requires 0 <= k < n => Slot(at[k].0, at[k].1, None, CellX(at[k].1), CellY(at[k].1)));
  }

  // ---------------------------------------------------------------------------
  // What each diagram draws

  /** The arguments of `renderVectorDiagramToPDF` for one exercise. */
  datatype DiagramInput = DiagramInput(vectors: seq<Drawn>, resultant: Point, showResultant: bool)

  /** `drawVectors`: each vector redrawn from its editor fields, keeping its
      label. */
  function BaseDrawn(o: Oracle, vs: seq<Vector>): (ds: seq<Drawn>)
    ensures |ds| == |vs|
    ensures forall i :: 0 <= i < |vs| ==>
      ds[i] == Drawn(FieldComponents(o, vs[i]).x, FieldComponents(o, vs[i]).y, vs[i].name)
  {
    seq(|vs|, i requires 0 <= i < |vs| => Drawn(FieldComponents(o, vs[i]).x, FieldComponents(o, vs[i]).y, vs[i].name))
  }

  /** The componentwise sum of drawn arrows. */
  function DrawnSum(ds: seq<Drawn>): (s: Point)
    ensures |ds| == 0 ==> s == Point(0.0, 0.0)
  {
    if |ds| == 0 then Point(0.0, 0.0)
    else
      var rest := DrawnSum(ds[..|ds| - 1]);
      Point(rest.x + ds[|ds| - 1].x, rest.y + ds[|ds| - 1].y)
  }

  lemma DrawnSumSnoc(ds: seq<Drawn>, d: Drawn)
    ensures DrawnSum(ds + [d]) == Point(DrawnSum(ds).x + d.x, DrawnSum(ds).y + d.y)
  {
    assert (ds + [d])[..|ds|] == ds;
  }

  /** One exercise's diagram: the vectors from their fields; the resultant is
      the desired one when there is one, else their sum; the teacher's copy
      of a missing-vector exercise also draws the answer "Vf"; the resultant
      is shown on the teacher's copy and in missing-vector exercises. */
  function DiagramFor(o: Oracle, ex: Exercise, isTeacher: bool): (d: DiagramInput)
    ensures d.showResultant <==> isTeacher || ex.kind == "missing"
    ensures |d.vectors| == |ex.vectors| + (if isTeacher && ex.kind == "missing" then 1 else 0)
    ensures d.vectors[..|ex.vectors|] == BaseDrawn(o, ex.vectors)
    ensures ex.resultantDesired.Some? ==> d.resultant == ex.resultantDesired.value
    ensures ex.resultantDesired.None? ==> d.resultant == DrawnSum(BaseDrawn(o, ex.vectors))
    ensures isTeacher && ex.kind == "missing" ==> d.vectors[|ex.vectors|].name == "Vf"
  {
    var base := BaseDrawn(o, ex.vectors);
    var sum := DrawnSum(base);
    var resultant := if ex.resultantDesired.Some? then ex.resultantDesired.value else sum;
    var vectors :=
      if isTeacher && ex.kind == "missing"
      then base + [Drawn(resultant.x - sum.x, resultant.y - sum.y, "Vf")]
      else base;
    DiagramInput(vectors, resultant, isTeacher || ex.kind == "missing")
  }

  /** On the teacher's copy of a missing-vector exercise the arrows drawn,
      "Vf" included, add up to the resultant drawn. */
  lemma TeacherDiagramCloses(o: Oracle, ex: Exercise)
    requires ex.kind == "missing"
    ensures DrawnSum(DiagramFor(o, ex, true).vectors) == DiagramFor(o, ex, true).resultant
  {
    var base := BaseDrawn(o, ex.vectors);
    var d := DiagramFor(o, ex, true);
    assert d.vectors == base + [d.vectors[|ex.vectors|]];
    DrawnSumSnoc(base, d.vectors[|ex.vectors|]);
  }

  /** Vectors whose components agree with their fields are drawn where they
      are: the sum the diagram computes is the editor's sum. */
  lemma {:induction false} SyncedDrawnSum(o: Oracle, vs: seq<Vector>)
    requires forall i :: 0 <= i < |vs| ==> Synced(o, vs[i])
    ensures DrawnSum(BaseDrawn(o, vs)) == Sum(vs)
  {
    if |vs| > 0 {
      var init := vs[..|vs| - 1];
      var last := BaseDrawn(o, vs)[|vs| - 1];
      assert forall i :: 0 <= i < |init| ==> init[i] == vs[i];
      SyncedDrawnSum(o, init);
      BaseDrawnSnoc(o, vs);
      DrawnSumSnoc(BaseDrawn(o, init), last);
      assert Synced(o, vs[|vs| - 1]);
      assert last.x == vs[|vs| - 1].x && last.y == vs[|vs| - 1].y;
    }
  }

  lemma BaseDrawnSnoc(o: Oracle, vs: seq<Vector>)
    requires |vs| > 0
    ensures BaseDrawn(o, vs) == BaseDrawn(o, vs[..|vs| - 1]) + [BaseDrawn(o, vs)[|vs| - 1]]
  {
    var init := vs[..|vs| - 1];
    assert forall i :: 0 <= i < |init| ==> init[i] == vs[i];
  }

  /** A student's copy of a sum exercise neither shows nor adds anything
      beyond the exercise's own vectors. */
  lemma StudentSumDiagram(o: Oracle, ex: Exercise)
    requires ex.kind != "missing"
    ensures DiagramFor(o, ex, false).vectors == BaseDrawn(o, ex.vectors)
    ensures !DiagramFor(o, ex, false).showResultant
  {
  }

  // ---------------------------------------------------------------------------
  // generatePDF

  datatype Mode = Full | Simple

  /** One exercise placed on the document with the diagram it gets. */
  datatype Placement = Placement(at: Slot, diagram: DiagramInput)

  /** `generatePDF`: every exercise, in order, at its planned place with its
      diagram; every diagram lies inside the page's margins. */
  method GeneratePDF(o: Oracle, exercises: seq<Exercise>, isTeacher: bool, mode: Mode, requested: int)
    returns (plan: seq<Placement>)
    ensures |plan| == |exercises|
    ensures forall k :: 0 <= k < |plan| ==> plan[k].diagram == DiagramFor(o, exercises[k], isTeacher)
    ensures mode == Full ==> forall k :: 0 <= k < |plan| ==> FullSlotAt(isTeacher, k, plan[k].at)
    ensures mode == Simple ==> forall k :: 0 <= k < |plan| ==> SimpleSlotAt(SimpleItemsPerPage(requested), k, plan[k].at)
    ensures forall k :: 0 <= k < |plan| ==> InsideMargins(plan[k].at)
  {
    var slots;
    if mode == Full {
      slots := FullLayout(|exercises|, isTeacher);
      forall k | 0 <= k < |slots|
        ensures InsideMargins(slots[k])
      {
        FullBlockFits(isTeacher, slots[k].slot);
      }
    } else {
      slots := SimpleLayout(|exercises|, requested);
      forall k | 0 <= k < |slots|
        ensures InsideMargins(slots[k])
      {
        CellFits(requested, slots[k].slot);
      }
    }
    plan := seq(|exercises|, k requires 0 <= k < |exercises| => Placement(slots[k], DiagramFor(o, exercises[k], isTeacher)));
  }
}
