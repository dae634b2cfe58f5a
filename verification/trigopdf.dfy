/** The triangle exercise PDF (utils/trigoPdf.ts) with the drawing calls taken
    out: how numbers are written, where each question goes in full mode (a
    running cursor that breaks to a new page) and in simple mode (a grid of
    up to eight cells a page), and where each triangle lands. Lengths are
    millimetres on an A4 page.
 */
module TrigoPdf {
  import opened Numeric
  import opened Oracle
  import opened Text
  import opened TriangleSolver
  import opened BoxFit
  import opened Pagination
  import opened TrigoApp

  // ---------------------------------------------------------------------------
  // fmt

  /** `fmt`: nothing for a missing number; otherwise three decimals below 1 in
      absolute value and one decimal from 1 on, with a decimal comma. NaN is
      written "NaN". */
  function Fmt(x: Option<Num>): (s: string)
    ensures x.None? ==> s == ""
    ensures x == Some(NaN) ==> s == "NaN"
  {
    match x
    case None => ""
    case Some(NaN) => "NaN"
    case Some(Val(v)) => ReplaceFirst(ToFixed(v, Decimals(v)), '.', ',')
  }

  /** The number of decimals `fmt` keeps. */
  function Decimals(v: real): (d: nat)
    ensures d == 3 || d == 1
  {
    if Abs(v) < 1.0 then 3 else 1
  }

  /** A number is written with one comma, d places from the end, where d is
      three below 1 in absolute value and one from 1 on, and no point. */
  lemma FmtShape(v: real)
    ensures CommaShape(Fmt(Some(Val(v))), Decimals(v))
  {
    FixedToComma(v, Decimals(v));
  }

  /** A comma d places from the end and no point anywhere. */
  predicate CommaShape(s: string, d: nat) {
    |s| >= d + 2 && s[|s| - d - 1] == ',' && '.' !in s
  }

  lemma FixedToComma(x: real, d: nat)
    requires d > 0
    ensures CommaShape(ReplaceFirst(ToFixed(x, d), '.', ','), d)
  {
    PointToComma(ToFixed(x, d), d);
  }

  /** Replacing the only point, d places from the end, by a comma leaves a
      comma there and no point anywhere. */
  lemma PointToComma(t: string, d: nat)
    requires |t| >= d + 2 && t[|t| - d - 1] == '.'
    requires forall i :: 0 <= i < |t| && i != |t| - d - 1 ==> t[i] != '.'
    ensures CommaShape(ReplaceFirst(t, '.', ','), d)
  {
    var k := |t| - d - 1;
    assert '.' in t by {
      assert t[k] == '.';
    }
    var s := ReplaceFirst(t, '.', ',');
    var i := FirstIndex(t, '.');
    assert i == k by {
      assert t[i] == '.';
    }
    assert |s| == |t| && s[k] == ',';
    forall j | 0 <= j < |s|
      ensures s[j] != '.'
    {
      if j != k {
        assert s[j] == t[j];
      }
    }
    assert '.' !in s;
  }

  /** The first two given values of the "Dados" line. */
  function GivenHead(ex: TrigoExercise): string {
    ex.label1 + "=" + Fmt(Some(Val(ex.val1))) + ", " + ex.label2 + "=" + Fmt(Some(Val(ex.val2)))
  }

  /** The "Dados" line: the first two given values, and the third only when
      it is there and not zero (JavaScript treats 0 as false). */
  function GivenText(ex: TrigoExercise): (s: string)
    ensures GivenHead(ex) <= s
    ensures |s| > |GivenHead(ex)| <==> ex.val3.Some? && ex.val3.value != 0.0
  {
    var head := GivenHead(ex);
    if ex.val3.Some? && ex.val3.value != 0.0 then
      var tail := ", " + ex.label3 + "=" + Fmt(Some(Val(ex.val3.value)));
      assert (head + tail)[..|head|] == head;
      head + tail
    else head
  }

  /** `getModeLabel` of the triangle PDF: the mode's name spelled out. */
  function LongModeLabel(m: string): (r: string)
    ensures m !in ["SSS", "SAS", "ASA", "AAS", "Right"] ==> r == m
  {
    if m == "SSS" then "Lado-Lado-Lado"
    else if m == "SAS" then "Lado-Ângulo-Lado"
    else if m == "ASA" then "Ângulo-Lado-Ângulo"
    else if m == "AAS" then "Lado-Ângulo-Ângulo"
    else if m == "Right" then "Triângulo Retângulo"
    else m
  }

  /** Different modes are spelled out differently, and never as a mode name. */
  lemma LongModeLabelsDistinct(m1: Mode, m2: Mode)
    ensures m1 != m2 ==> LongModeLabel(ModeName(m1)) != LongModeLabel(ModeName(m2))
    ensures LongModeLabel(ModeName(m1)) !in ["SSS", "SAS", "ASA", "AAS", "Right"]
  {
  }

  // ---------------------------------------------------------------------------
  // drawTriangleInPDF

  /** `drawTriangleInPDF`: the solved triangle's vertices fitted into a
      boxSize square around (cx, cy). */
  function TriangleInPDF(o: Oracle, t: Triangle, cx: real, cy: real, boxSize: real): (v: (Point, Point, Point)) {
    var c := Coords(o, t);
    FitTriangle(c.0, c.1, c.2, boxSize, boxSize, cx, cy)
  }

  /** The three vertices lie in the square of side boxSize centred on (cx, cy). */
  lemma TriangleInPDFWithin(o: Oracle, t: Triangle, cx: real, cy: real, boxSize: real)
    requires boxSize >= 0.0
    ensures FitsIn(TriangleInPDF(o, t, cx, cy, boxSize), cx, cy, boxSize, boxSize)
  {
    var c := Coords(o, t);
    FitTriangleWithin(c.0, c.1, c.2, boxSize, boxSize, cx, cy);
  }

  /** Vertices in a box are in every box that holds it. */
  lemma AllInBoxWiden(v: (Point, Point, Point), xlo: real, xhi: real, ylo: real, yhi: real,
                      xlo': real, xhi': real, ylo': real, yhi': real)
    requires AllInBox(v, xlo, xhi, ylo, yhi)
    requires xlo' <= xlo && xhi <= xhi' && ylo' <= ylo && yhi <= yhi'
    ensures AllInBox(v, xlo', xhi', ylo', yhi')
  {
  }

  /** Vertices in a square are in every box that holds the square. */
  lemma SquareInBox(v: (Point, Point, Point), cx: real, cy: real, size: real,
                    xlo: real, xhi: real, ylo: real, yhi: real)
    requires FitsIn(v, cx, cy, size, size)
    requires xlo <= cx - size / 2.0 && cx + size / 2.0 <= xhi && ylo <= cy - size / 2.0 && cy + size / 2.0 <= yhi
    ensures AllInBox(v, xlo, xhi, ylo, yhi)
  {
  }

  // ---------------------------------------------------------------------------
  // Full mode

  const PageHeight: int := 297
  const Margin: int := 15
  /** `startY`: the first question's line on the first page. */
  const StartY: int := 35
  /** `itemHeight`: the room a question needs below its line. */
  const ItemHeight: int := 70

  /** The page and the line of the cursor for one question. */
  datatype Cursor = Cursor(page: nat, y: int)

  /** Where the loop puts the next question after one at c: 60 mm lower, or at
      the top of a new page (25 mm) when 70 mm no longer fit above the bottom
      margin. */
  function NextQuestion(c: Cursor): Cursor {
    if c.y + 60 + ItemHeight > PageHeight - Margin then Cursor(c.page + 1, Margin + 10) else Cursor(c.page, c.y + 60)
  }

  /** A closed form of the cursor for question k: three questions on the first
      page from 35 mm, then four a page from 25 mm. */
  function FlowAt(k: nat): Cursor {
    if k < 3 then Cursor(0, StartY + 60 * k)
    else Cursor(1 + (k - 3) / 4, Margin + 10 + 60 * ((k - 3) % 4))
  }

  lemma FlowStep(k: nat)
    ensures FlowAt(k + 1) == NextQuestion(FlowAt(k))
  {
    if k >= 3 {
      var j := k - 3;
      assert j == 4 * (j / 4) + j % 4;
      if j % 4 < 3 {
        assert (j + 1) / 4 == j / 4 && (j + 1) % 4 == j % 4 + 1;
      } else {
        assert (j + 1) / 4 == j / 4 + 1 && (j + 1) % 4 == 0;
      }
    }
  }

  /** Every question starts below the top margin and its 70 mm end above the
      bottom margin. */
  lemma FlowFits(k: nat)
    ensures Margin + 10 <= FlowAt(k).y && FlowAt(k).y + ItemHeight <= PageHeight - Margin
  {
  }

  /** The full-mode loop over the exercises. */
  method FullFlow(n: nat) returns (at: seq<Cursor>)
    ensures |at| == n
    ensures forall k :: 0 <= k < n ==> at[k] == FlowAt(k)
  {
    at := [];
    var page := 0;
    var yPos := StartY;
    var i := 0;
    while i < n
      invariant 0 <= i <= n && |at| == i
      invariant forall k :: 0 <= k < i ==> at[k] == FlowAt(k)
      invariant i == 0 ==> page == 0 && yPos == StartY
      invariant i > 0 ==> Cursor(page, yPos - 60) == FlowAt(i - 1)
    {
      if yPos + ItemHeight > PageHeight - Margin {
        page := page + 1;
        yPos := Margin + 10;
      }
      if i > 0 {
        FlowStep(i - 1);
      }
      at := at + [Cursor(page, yPos)];
      yPos := yPos + 60;
      i := i + 1;
    }
  }

  /** In full mode a question's triangle sits in the 40 mm square left of the
      answer box and between the prompt line and the divider. */
  lemma FullTriangleClear(o: Oracle, t: Triangle, y: int)
    ensures AllInBox(TriangleInPDF(o, t, (Margin + 20) as real, (y + 35) as real, 40.0),
                     Margin as real, (Margin + 60) as real, (y + 11) as real, (y + 55) as real)
  {
    var cx := (Margin + 20) as real;
    var cy := (y + 35) as real;
    TriangleInPDFWithin(o, t, cx, cy, 40.0);
    SquareInBox(TriangleInPDF(o, t, cx, cy, 40.0), cx, cy, 40.0,
                Margin as real, (Margin + 60) as real, (y + 11) as real, (y + 55) as real);
  }

  // ---------------------------------------------------------------------------
  // Simple mode

  /** `safeItemsPerPage`: the request clamped to [1, 8]. */
  function SafeItemsPerPage(requested: int): (per: nat)
    ensures 1 <= per <= 8
    ensures 1 <= requested <= 8 ==> per == requested
  {
    MinInt(MaxInt(1, requested), 8)
  }

  /** `rows`: two cells a row. */
  function GridRows(per: nat): (rows: nat)
    requires 1 <= per <= 8
    ensures 1 <= rows <= 4 && per <= 2 * rows
  {
    CeilDiv(per, 2)
  }

  /** `cellW`: half of the 180 mm between the side margins. */
  const CellW: real := 90.0
  /** `usableHeight`: the page less both margins and 20 mm of header. */
  const GridHeight: real := 247.0

  /** `cellH`: the usable height shared by the rows. */
  function CellH(rows: nat): (h: real)
    requires 1 <= rows <= 4
    ensures h >= 61.75
  {
    GridHeight / rows as real
  }

  /** `drawSize`: half the cell's width or 60% of its height, the smaller. */
  function DrawSize(rows: nat): (s: real)
    requires 1 <= rows <= 4
    ensures 0.0 < s <= CellW * 0.5 && s <= CellH(rows) * 0.6
  {
    Min(CellW * 0.5, CellH(rows) * 0.6)
  }

  /** One grid cell and the square its triangle is fitted into. */
  datatype Cell = Cell(page: nat, place: nat, x: real, y: real, w: real, h: real, cx: real, cy: real, size: real)

  /** Cell `place` of a page with `rows` rows: column place % 2 and row
      place / 2; the triangle's square is centred across the cell and starts
      15 mm below its top. */
  function CellAt(rows: nat, page: nat, place: nat): (c: Cell)
    requires 1 <= rows <= 4
  {
    var x := Margin as real + (place % 2) as real * CellW;
    var y := StartY as real + (place / 2) as real * CellH(rows);
    var size := DrawSize(rows);
    Cell(page, place, x, y, CellW, CellH(rows), x + CellW / 2.0, y + 15.0 + size / 2.0, size)
  }

  /** The first r rows of height `GridHeight / rows` fit in the grid. */
  lemma RowsWithin(rows: nat, r: nat)
    requires 1 <= rows <= 4 && r <= rows
    ensures r as real * CellH(rows) <= GridHeight
  {
    MulMono(CellH(rows), r as real, rows as real);
    assert CellH(rows) * rows as real == GridHeight;
  }

  /** Every cell a page is planned to hold lies between the margins, under the
      header; its triangle's square lies inside the cell's border. */
  lemma CellFits(per: nat, page: nat, place: nat)
    requires 1 <= per <= 8 && place < per
    ensures var c := CellAt(GridRows(per), page, place);
      && Margin as real <= c.x && c.x + c.w <= (210 - Margin) as real
      && StartY as real <= c.y && c.y + c.h <= (PageHeight - Margin) as real
      && c.x <= c.cx - c.size / 2.0 && c.cx + c.size / 2.0 <= c.x + c.w - 2.0
      && c.y <= c.cy - c.size / 2.0 && c.cy + c.size / 2.0 <= c.y + c.h - 2.0
  {
    var rows := GridRows(per);
    var row := place / 2;
    assert row + 1 <= rows;
    RowsWithin(rows, row + 1);
    assert (row + 1) as real * CellH(rows) == row as real * CellH(rows) + CellH(rows);
    MulMono(CellH(rows), 0.0, row as real);
  }

  /** The teacher's answer lines start 12 mm above the cell's bottom. With up
      to three rows the triangle's square ends above them; with four rows (seven
      or eight items a page) it reaches past the first of them. */
  lemma AnswerLinesClear(per: nat, page: nat, place: nat)
    requires 1 <= per <= 8 && place < per
    ensures var c := CellAt(GridRows(per), page, place);
      (c.cy + c.size / 2.0 <= c.y + c.h - 12.0 <==> per <= 6)
  {
    var rows := GridRows(per);
    if rows == 4 {
      assert CellH(rows) == 61.75;
    } else if rows == 3 {
      assert CellH(rows) * 3.0 == 247.0;
    } else if rows == 2 {
      assert CellH(rows) == 123.5;
    } else {
      assert CellH(rows) == 247.0;
    }
  }

  /** The simple-mode loops: `Math.ceil(n / safeItemsPerPage)` pages, each
      filling its cells in order and stopping at the end of the list. */
  method SimpleGrid(n: nat, requested: int) returns (cells: seq<Cell>)
    ensures var per := SafeItemsPerPage(requested);
      && |cells| == n
      && forall k :: 0 <= k < n ==>
           cells[k].page * per + cells[k].place == k && cells[k].place < per
           && cells[k] == CellAt(GridRows(per), cells[k].page, cells[k].place)
  {
    var per := SafeItemsPerPage(requested);
    var at := GridWalk(n, per);
    cells := seq(n, k requires 0 <= k < n => CellAt(GridRows(per), at[k].0, at[k].1));
  }

  /** Page area every triangle vertex must stay in: between the side margins,
      from the first question line to the bottom margin. */
  predicate OnPage(v: (Point, Point, Point)) {
    AllInBox(v, Margin as real, (210 - Margin) as real, StartY as real, (PageHeight - Margin) as real)
  }

  // ---------------------------------------------------------------------------
  // generateTrigoPDF

  datatype PdfMode = FullMode | SimpleMode

  /** One question on the document: its page, its number and its triangle's
      vertices. */
  datatype Question = Question(page: nat, number: nat, vertices: (Point, Point, Point))

  /** Question k in full mode: numbered k + 1, on the cursor's page, its
      triangle in the 40 mm square 20 mm right of the margin and 35 mm below
      the question line. */
  predicate FullQuestionAt(o: Oracle, ex: TrigoExercise, k: nat, q: Question) {
    q == FullQuestion(o, ex, k, FlowAt(k))
  }

  /** The question drawn at cursor c. */
  function FullQuestion(o: Oracle, ex: TrigoExercise, k: nat, c: Cursor): Question {
    Question(c.page, k + 1, TriangleInPDF(o, ex.solution, (Margin + 20) as real, (c.y + 35) as real, 40.0))
  }

  /** Question k in simple mode: numbered k + 1, on page k / per, its triangle
      in the square of its cell. */
  predicate SimpleQuestionAt(o: Oracle, ex: TrigoExercise, per: nat, k: nat, q: Question)
    requires 1 <= per <= 8
  {
    var c := CellAt(GridRows(per), k / per, k % per);
    && q.number == k + 1
    && q.page == k / per
    && q.vertices == TriangleInPDF(o, ex.solution, c.cx, c.cy, c.size)
  }

  /** Full mode over all exercises. */
  method FullQuestions(o: Oracle, exercises: seq<TrigoExercise>) returns (qs: seq<Question>)
    ensures |qs| == |exercises|
    ensures forall k :: 0 <= k < |qs| ==> FullQuestionAt(o, exercises[k], k, qs[k]) && OnPage(qs[k].vertices)
  {
    var n := |exercises|;
    var at := FullFlow(n);
    qs := seq(n, k requires 0 <= k < n => FullQuestion(o, exercises[k], k, at[k]));
    forall k | 0 <= k < n
      ensures OnPage(qs[k].vertices)
    {
      FlowFits(k);
      FullQuestionOnPage(o, exercises[k], k, at[k]);
    }
  }

  /** Simple mode over all exercises. */
  method SimpleQuestions(o: Oracle, exercises: seq<TrigoExercise>, requested: int) returns (qs: seq<Question>)
    ensures |qs| == |exercises|
    ensures forall k :: 0 <= k < |qs| ==>
      SimpleQuestionAt(o, exercises[k], SafeItemsPerPage(requested), k, qs[k]) && OnPage(qs[k].vertices)
  {
    var n := |exercises|;
    var per := SafeItemsPerPage(requested);
    var cells := SimpleGrid(n, requested);
    qs := seq(n, k requires 0 <= k < n =>
      Question(cells[k].page, k + 1, TriangleInPDF(o, exercises[k].solution, cells[k].cx, cells[k].cy, cells[k].size)));
    forall k | 0 <= k < n
      ensures SimpleQuestionAt(o, exercises[k], per, k, qs[k]) && OnPage(qs[k].vertices)
    {
      var c := cells[k];
      var v := TriangleInPDF(o, exercises[k].solution, c.cx, c.cy, c.size);
      assert qs[k].vertices == v;
      PageOfPlace(per, k, c.page, c.place);
      TriangleInPDFWithin(o, exercises[k].solution, c.cx, c.cy, c.size);
      CellSquareOnPage(v, per, c.page, c.place);
    }
  }

  /** A triangle drawn for a question whose line leaves 70 mm above the
      bottom margin stays on the page. */
  lemma FullTriangleOnPage(o: Oracle, t: Triangle, y: int)
    requires Margin + 10 <= y && y + ItemHeight <= PageHeight - Margin
    ensures OnPage(TriangleInPDF(o, t, (Margin + 20) as real, (y + 35) as real, 40.0))
  {
    FullTriangleClear(o, t, y);
    AllInBoxWiden(TriangleInPDF(o, t, (Margin + 20) as real, (y + 35) as real, 40.0),
                  Margin as real, (Margin + 60) as real, (y + 11) as real, (y + 55) as real,
                  Margin as real, (210 - Margin) as real, StartY as real, (PageHeight - Margin) as real);
  }

  lemma FullQuestionOnPage(o: Oracle, ex: TrigoExercise, k: nat, c: Cursor)
    requires Margin + 10 <= c.y && c.y + ItemHeight <= PageHeight - Margin
    ensures OnPage(FullQuestion(o, ex, k, c).vertices)
  {
    FullTriangleOnPage(o, ex.solution, c.y);
  }

  /** Vertices in the square of a planned grid cell stay on the page. */
  lemma CellSquareOnPage(v: (Point, Point, Point), per: nat, page: nat, place: nat)
    requires 1 <= per <= 8 && place < per
    requires var c := CellAt(GridRows(per), page, place); FitsIn(v, c.cx, c.cy, c.size, c.size)
    ensures OnPage(v)
  {
    var c := CellAt(GridRows(per), page, place);
    CellFits(per, page, place);
    SquareInBox(v, c.cx, c.cy, c.size,
                Margin as real, (210 - Margin) as real, StartY as real, (PageHeight - Margin) as real);
  }

  /** `generateTrigoPDF`: every exercise in order, numbered from 1, its
      triangle drawn where its mode puts it; every vertex lands between the
      side margins and between the first question line and the bottom margin. */
  method GenerateTrigoPDF(o: Oracle, exercises: seq<TrigoExercise>, mode: PdfMode, requested: int)
    returns (qs: seq<Question>)
    ensures |qs| == |exercises|
    ensures mode == FullMode ==> forall k :: 0 <= k < |qs| ==> FullQuestionAt(o, exercises[k], k, qs[k])
    ensures mode == SimpleMode ==> forall k :: 0 <= k < |qs| ==>
      SimpleQuestionAt(o, exercises[k], SafeItemsPerPage(requested), k, qs[k])
    ensures forall k :: 0 <= k < |qs| ==> OnPage(qs[k].vertices)
  {
    if mode == FullMode {
      qs := FullQuestions(o, exercises);
    } else {
      qs := SimpleQuestions(o, exercises, requested);
    }
  }
}
