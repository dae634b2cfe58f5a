/** The computational parts of TrigoApp.tsx: the effect that re-solves the
    triangle whenever the inputs change, the exercise generator with its
    sampling ranges and bounded retry, and the short mode labels.
 */
module TrigoApp {
  import opened Numeric
  import opened Oracle
  import opened TriangleSolver

  // ---------------------------------------------------------------------------
  // The solver effect

  /** The number `solveTriangle` receives for a text field: `parseFloat`, kept
      when it is a number. A right triangle never reads its third value, so
      what stands in for NaN there does not matter (`RightIgnoresThird`). */
  function Parsed(o: Oracle, s: string): real {
    match o.parse(s)
    case Val(v) => v
    case NaN => 0.0
  }

  /** Whether the effect calls the solver at all: the first two fields parse,
      and the third does too unless the mode is `Right`. */
  predicate EffectCallsSolver(o: Oracle, mode: Mode, val1: string, val2: string, val3: string) {
    o.parse(val1).Val? && o.parse(val2).Val? && (mode == Right || o.parse(val3).Val?)
  }

  /** The triangle the effect stores: the solver's answer when the fields
      parse, otherwise none. */
  function SolverEffect(o: Oracle, mode: Mode, val1: string, val2: string, val3: string): (t: Option<Triangle>)
    ensures !EffectCallsSolver(o, mode, val1, val2, val3) ==> t == None
    ensures EffectCallsSolver(o, mode, val1, val2, val3) ==>
              t == Solve(o, mode, Parsed(o, val1), Parsed(o, val2), Parsed(o, val3))
  {
    if EffectCallsSolver(o, mode, val1, val2, val3) then
      Solve(o, mode, Parsed(o, val1), Parsed(o, val2), Parsed(o, val3))
    else None
  }

  /** With a sound runtime, the effect shows a triangle exactly when the fields
      parse to positive values that pass the mode's gate. */
  lemma SolverEffectShows(o: Oracle, mode: Mode, val1: string, val2: string, val3: string)
    requires Sound(o)
    ensures SolverEffect(o, mode, val1, val2, val3).Some? <==>
      && EffectCallsSolver(o, mode, val1, val2, val3)
      && InputsPositive(mode, Parsed(o, val1), Parsed(o, val2), Parsed(o, val3))
      && ModeGate(mode, Parsed(o, val1), Parsed(o, val2), Parsed(o, val3))
  {
    if EffectCallsSolver(o, mode, val1, val2, val3) && InputsPositive(mode, Parsed(o, val1), Parsed(o, val2), Parsed(o, val3)) {
      SolvedIffGates(o, mode, Parsed(o, val1), Parsed(o, val2), Parsed(o, val3));
    }
  }

  // ---------------------------------------------------------------------------
  // Sampling

  /** `rSide()`: a whole side length in [3, 17]. */
  function RandomSide(g: Rng): (p: (int, Rng))
    ensures p.1.draw == g.draw && p.1.pos == g.pos + 1
    ensures ValidRng(g) ==> 3 <= p.0 <= 17 && ValidRng(p.1)
  {
    RandomInt(g, 15, 3)
  }

  /** `rAng()`: a whole angle in [10, 89]. */
  function RandomAngle(g: Rng): (p: (int, Rng))
    ensures p.1.draw == g.draw && p.1.pos == g.pos + 1
    ensures ValidRng(g) ==> 10 <= p.0 <= 89 && ValidRng(p.1)
  {
    RandomInt(g, 80, 10)
  }

  /** The modes in the order the generator draws from. */
  const Modes: seq<Mode> := [SSS, SAS, ASA, AAS, Right]

  /** The three given values of one attempt, drawn in the source's order: two
      legs for `Right` (the third is 0); for `SSS` two sides and then a third
      side in [|a - b| + 1, a + b - 1]; otherwise sides and angles in the
      order the mode's inputs are listed. */
  function SampleInputs(g: Rng, m: Mode): (p: (int, int, int, Rng))
    ensures p.3.draw == g.draw
    ensures ValidRng(g) ==> ValidRng(p.3)
    ensures m == Right ==> p.2 == 0
    ensures ValidRng(g) && m == SSS ==> Abs((p.0 - p.1) as real) < p.2 as real < (p.0 + p.1) as real
    ensures ValidRng(g) && (m == SAS || m == ASA || m == AAS) ==>
      var (sides, angles) := if m == SAS then ([p.0, p.2], [p.1]) else if m == ASA then ([p.1], [p.0, p.2]) else ([p.2], [p.0, p.1]);
      (forall i :: 0 <= i < |sides| ==> 3 <= sides[i] <= 17) && (forall i :: 0 <= i < |angles| ==> 10 <= angles[i] <= 89)
  {
    match m
    case Right =>
      var (a, g1) := RandomSide(g);
      var (b, g2) := RandomSide(g1);
      (a, b, 0, g2)
    case SSS =>
      var (a, g1) := RandomSide(g);
      var (b, g2) := RandomSide(g1);
      var lo := (if a >= b then a - b else b - a) + 1;
      var hi := a + b - 1;
      var (c, g3) := RandomInt(g2, hi - lo + 1, lo);
      (a, b, c, g3)
    case SAS =>
      var (b, g1) := RandomSide(g);
      var (A, g2) := RandomAngle(g1);
      var (c, g3) := RandomSide(g2);
      (b, A, c, g3)
    case ASA =>
      var (A, g1) := RandomAngle(g);
      var (c, g2) := RandomSide(g1);
      var (B, g3) := RandomAngle(g2);
      (A, c, B, g3)
    case AAS =>
      var (A, g1) := RandomAngle(g);
      var (B, g2) := RandomAngle(g1);
      var (a, g3) := RandomSide(g2);
      (A, B, a, g3)
  }

  /** Every sampled input passes the solver's gates: the sides are positive,
      the SSS draw satisfies the strict triangle inequality, and angles of at
      most 89 degrees never reach the angle-sum gates. */
  lemma SampledInputsPassGates(g: Rng, m: Mode)
    requires ValidRng(g)
    ensures var (v1, v2, v3, _) := SampleInputs(g, m);
      InputsPositive(m, v1 as real, v2 as real, v3 as real) && ModeGate(m, v1 as real, v2 as real, v3 as real)
  {
    var p := SampleInputs(g, m);
    if m == SAS {
      assert 3 <= [p.0, p.2][0] && 3 <= [p.0, p.2][1] && 10 <= [p.1][0] <= 89;
    } else if m == ASA {
      assert 3 <= [p.1][0] && 10 <= [p.0, p.2][0] <= 89 && 10 <= [p.0, p.2][1] <= 89;
    } else if m == AAS {
      assert 3 <= [p.2][0] && 10 <= [p.0, p.1][0] <= 89 && 10 <= [p.0, p.1][1] <= 89;
    } else if m == Right {
      var (a, g1) := RandomSide(g);
      assert 3 <= a && 3 <= RandomSide(g1).0;
    } else {
      var (a, g1) := RandomSide(g);
      var (b, g2) := RandomSide(g1);
      assert 3 <= a && 3 <= b;
    }
  }

  /** With a sound runtime every sampled input is solvable, so the first
      attempt of every exercise succeeds. */
  lemma SampledSolvable(o: Oracle, g: Rng, m: Mode)
    requires Sound(o) && ValidRng(g)
    ensures var (v1, v2, v3, _) := SampleInputs(g, m);
      Solve(o, m, v1 as real, v2 as real, v3 as real).Some?
  {
    var (v1, v2, v3, _) := SampleInputs(g, m);
    SampledInputsPassGates(g, m);
    SolvedIffGates(o, m, v1 as real, v2 as real, v3 as real);
  }

  // ---------------------------------------------------------------------------
  // The generator

  /** `TrigoExercise`: the mode, the given values with their labels (no third
      value for a right triangle), and the solved triangle. */
  datatype TrigoExercise = TrigoExercise(
    id: int, mode: Mode,
    val1: real, label1: string, val2: real, label2: string, val3: Option<real>, label3: string,
    solution: Triangle)

  /** The five quantities a given value can fill. */
  datatype Part = SideA | SideB | SideC | AngleA | AngleB

  /** The value a triangle holds in a part. */
  function PartValue(t: Raw, p: Part): real {
    match p
    case SideA => t.a
    case SideB => t.b
    case SideC => t.c
    case AngleA => t.A
    case AngleB => t.B
  }

  /** The name the application prints for a part. The angle names are the
      characters stored in TrigoApp.tsx (a UTF-8 "Â" read back as Mac
      Roman), not a corrected spelling. */
  function PartLabel(p: Part): string {
    match p
    case SideA => "a"
    case SideB => "b"
    case SideC => "c"
    case AngleA => "\U{221A}\U{00C7}ng A"
    case AngleB => "\U{221A}\U{00C7}ng B"
  }

  /** The parts the solver fills with the first, second and (except for a
      right triangle) third given value; `SlotsMatchSolver` ties this list to
      `Echoes`. */
  function SlotParts(m: Mode): (ps: seq<Part>)
    ensures |ps| == if m == Right then 2 else 3
  {
    match m
    case SSS => [SideA, SideB, SideC]
    case SAS => [SideB, AngleA, SideC]
    case ASA => [AngleA, SideC, AngleB]
    case AAS => [AngleA, AngleB, SideA]
    case Right => [SideA, SideB]
  }

  /** Every triangle the solver accepts for given values holds them in the
      parts `SlotParts` names, in order. */
  lemma SlotsMatchSolver(m: Mode, v1: real, v2: real, v3: real, t: Raw)
    requires Echoes(m, v1, v2, v3, t)
    ensures PartValue(t, SlotParts(m)[0]) == v1
    ensures PartValue(t, SlotParts(m)[1]) == v2
    ensures m != Right ==> PartValue(t, SlotParts(m)[2]) == v3
  {
  }

  /** The labels the generator prints next to the given values. Outside the
      right-triangle mode each label names the part its value fills; a right
      triangle has no third label, and its two legs are labelled the other
      way round from the parts the solver fills (`RightLegsLabelledSwapped`). */
  function Labels(m: Mode): (l: (string, string, string))
    ensures m != Right ==> l == (PartLabel(SlotParts(m)[0]), PartLabel(SlotParts(m)[1]), PartLabel(SlotParts(m)[2]))
    ensures m == Right ==> l == ("Cateto " + PartLabel(SideB), "Cateto " + PartLabel(SideA), "")
  {
    match m
    case Right =>
      assert "Cateto " + PartLabel(SideB) == "Cateto b" by { assert PartLabel(SideB) == "b"; }
      assert "Cateto " + PartLabel(SideA) == "Cateto a" by { assert PartLabel(SideA) == "a"; }
      ("Cateto b", "Cateto a", "")
    case SSS => ("a", "b", "c")
    case SAS => ("b", "\U{221A}\U{00C7}ng A", "c")
    case ASA => ("\U{221A}\U{00C7}ng A", "c", "\U{221A}\U{00C7}ng B")
    case AAS => ("\U{221A}\U{00C7}ng A", "\U{221A}\U{00C7}ng B", "a")
  }

  /** In a right-triangle exercise the first value is printed as leg b, yet the
      solver stores it as side a, and the second value the other way round. */
  lemma RightLegsLabelledSwapped(v1: real, v2: real, t: Raw)
    requires Echoes(Right, v1, v2, 0.0, t)
    ensures Labels(Right).0 == "Cateto " + PartLabel(SideB) && t.a == v1
    ensures Labels(Right).1 == "Cateto " + PartLabel(SideA) && t.b == v2
  {
    SlotsMatchSolver(Right, v1, v2, 0.0, t);
  }

  /** A generated exercise is one the solver accepts: its solution is what the
      solver returns for the given values, and only a right triangle omits the
      third value. */
  predicate Consistent(o: Oracle, e: TrigoExercise) {
    && (e.mode == Right <==> e.val3.None?)
    && Solve(o, e.mode, e.val1, e.val2, if e.val3.Some? then e.val3.value else 0.0) == Some(e.solution)
    && e.solution.valid
  }

  /** The retry loop for exercise i + 1: at most 50 attempts, each a fresh
      sample, stopping at the first the solver accepts. */
  method ExerciseFor(o: Oracle, g: Rng, i: int, m: Mode) returns (ex: Option<TrigoExercise>, g': Rng)
    ensures g'.draw == g.draw
    ensures ValidRng(g) ==> ValidRng(g')
    ensures ex.Some? ==> ex.value.id == i + 1 && ex.value.mode == m && Consistent(o, ex.value)
    ensures ex.Some? ==> (ex.value.label1, ex.value.label2, ex.value.label3) == Labels(m)
    ensures Sound(o) && ValidRng(g) ==> ex.Some?
  {
    ex, g' := None, g;
    var attempts := 0;
    while ex.None? && attempts < 50
      invariant 0 <= attempts <= 50
      invariant g'.draw == g.draw
      invariant ValidRng(g) ==> ValidRng(g')
      invariant ex.Some? ==> ex.value.id == i + 1 && ex.value.mode == m && Consistent(o, ex.value)
      invariant ex.Some? ==> (ex.value.label1, ex.value.label2, ex.value.label3) == Labels(m)
      invariant Sound(o) && ValidRng(g) && attempts > 0 ==> ex.Some?
    {
      attempts := attempts + 1;
      ex, g' := TryOnce(o, g', i, m);
    }
  }

  /** One attempt: a fresh sample, kept when the solver accepts it. */
  method TryOnce(o: Oracle, g: Rng, i: int, m: Mode) returns (ex: Option<TrigoExercise>, g': Rng)
    ensures g'.draw == g.draw
    ensures ValidRng(g) ==> ValidRng(g')
    ensures ex.Some? ==> ex.value.id == i + 1 && ex.value.mode == m && Consistent(o, ex.value)
    ensures ex.Some? ==> (ex.value.label1, ex.value.label2, ex.value.label3) == Labels(m)
    ensures Sound(o) && ValidRng(g) ==> ex.Some?
  {
    if ValidRng(g) && Sound(o) {
      SampledSolvable(o, g, m);
    }
    var p := SampleInputs(g, m);
    g' := p.3;
    var sol := Solve(o, m, p.0 as real, p.1 as real, p.2 as real);
    if sol.Some? && sol.value.valid {
      var l := Labels(m);
      ex := Some(TrigoExercise(i + 1, m, p.0 as real, l.0, p.1 as real, l.1,
                               if m != Right then Some(p.2 as real) else None, l.2, sol.value));
    } else {
      ex := None;
    }
  }

  /** The exercises kept so far when i questions have been handled: each
      accepted by the solver, numbered within [1, i], in increasing order. */
  predicate KeptSoFar(o: Oracle, list: seq<TrigoExercise>, i: int) {
    AllConsistent(o, list) && IdsWithin(list, i)
  }

  predicate AllConsistent(o: Oracle, list: seq<TrigoExercise>) {
    forall k :: 0 <= k < |list| ==> Consistent(o, list[k])
  }

  predicate IdsWithin(list: seq<TrigoExercise>, i: int) {
    && (forall k :: 0 <= k < |list| ==> 1 <= list[k].id <= i)
    && (forall k, l :: 0 <= k < l < |list| ==> list[k].id < list[l].id)
  }

  lemma KeptSnoc(o: Oracle, list: seq<TrigoExercise>, i: int, ex: TrigoExercise)
    requires KeptSoFar(o, list, i) && Consistent(o, ex) && ex.id == i + 1 && i >= 0
    ensures KeptSoFar(o, list + [ex], i + 1)
  {
    ConsistentSnoc(o, list, ex);
    IdsSnoc(list, i, ex);
  }

  lemma ConsistentSnoc(o: Oracle, list: seq<TrigoExercise>, ex: TrigoExercise)
    requires AllConsistent(o, list) && Consistent(o, ex)
    ensures AllConsistent(o, list + [ex])
  {
    assert forall k :: 0 <= k < |list| ==> (list + [ex])[k] == list[k];
    assert (list + [ex])[|list|] == ex;
  }

  lemma IdsSnoc(list: seq<TrigoExercise>, i: int, ex: TrigoExercise)
    requires IdsWithin(list, i) && ex.id == i + 1 && i >= 0
    ensures IdsWithin(list + [ex], i + 1)
  {
    var l' := list + [ex];
    assert forall k :: 0 <= k < |list| ==> l'[k] == list[k];
    assert l'[|list|] == ex;
    forall k, l | 0 <= k < l < |l'|
      ensures l'[k].id < l'[l].id
    {
      if l == |list| {
        assert l'[k].id == list[k].id <= i;
      } else {
        assert l'[k].id == list[k].id && l'[l].id == list[l].id;
      }
    }
  }

  lemma KeptWiden(o: Oracle, list: seq<TrigoExercise>, i: int)
    requires KeptSoFar(o, list, i)
    ensures KeptSoFar(o, list, i + 1)
  {
  }

  /** `handleGenerate`: for each question a mode is drawn and the retry loop
      runs; only exercises the solver accepted are kept, in order. */
  method HandleGenerate(o: Oracle, g: Rng, numQuestions: int) returns (list: seq<TrigoExercise>, g': Rng)
    ensures g'.draw == g.draw
    ensures |list| <= MaxInt(numQuestions, 0)
    ensures forall k :: 0 <= k < |list| ==> Consistent(o, list[k]) && 1 <= list[k].id <= numQuestions
    ensures forall k, l :: 0 <= k < l < |list| ==> list[k].id < list[l].id
    ensures Sound(o) && ValidRng(g) ==> |list| == MaxInt(numQuestions, 0)
  {
    list, g' := [], g;
    var i := 0;
    while i < numQuestions
      invariant 0 <= i <= MaxInt(numQuestions, 0) && |list| <= i
      invariant g'.draw == g.draw
      invariant ValidRng(g) ==> ValidRng(g')
      invariant KeptSoFar(o, list, i)
      invariant Sound(o) && ValidRng(g) ==> |list| == i
    {
      var pick := RandomInt(g', |Modes|, 0);
      var m := if 0 <= pick.0 < |Modes| then Modes[pick.0] else Right;
      var ex;
      ex, g' := ExerciseFor(o, pick.1, i, m);
      if ex.Some? {
        KeptSnoc(o, list, i, ex.value);
        list := list + [ex.value];
      } else {
        KeptWiden(o, list, i);
      }
      i := i + 1;
    }
  }

  // ---------------------------------------------------------------------------
  // Mode labels

  /** The mode's name as the application stores it. */
  function ModeName(m: Mode): string {
    match m
    case SSS => "SSS"
    case SAS => "SAS"
    case ASA => "ASA"
    case AAS => "AAS"
    case Right => "Right"
  }

  /** `getModeLabel`: the Portuguese abbreviation of a mode name (Lado for a
      side, Ângulo for an angle, in the order the values are given);
      any other text is returned as it is. The right-triangle label is the
      character sequence stored in TrigoApp.tsx, a UTF-8 "â" read back
      as Mac Roman. */
  function ModeLabel(m: string): (r: string)
    ensures m == "SSS" ==> r == "LLL"
    ensures m == "SAS" ==> r == "LAL"
    ensures m == "ASA" ==> r == "ALA"
    ensures m == "AAS" ==> r == "LAA"
    ensures m == "Right" ==> r == "Ret\U{221A}\U{00A2}ngulo"
    ensures m !in ["SSS", "SAS", "ASA", "AAS", "Right"] ==> r == m
  {
    if m == "SSS" then "LLL"
    else if m == "SAS" then "LAL"
    else if m == "ASA" then "ALA"
    else if m == "AAS" then "LAA"
    else if m == "Right" then "Ret\U{221A}\U{00A2}ngulo"
    else m
  }

  /** Different modes get different labels, and no label is itself a mode
      name, so the label of a mode never reads as another mode. */
  lemma ModeLabelsDistinct(m1: Mode, m2: Mode)
    ensures m1 != m2 ==> ModeLabel(ModeName(m1)) != ModeLabel(ModeName(m2))
    ensures ModeLabel(ModeName(m1)) !in ["SSS", "SAS", "ASA", "AAS", "Right"]
    ensures ModeName(m1) == ModeName(m2) ==> m1 == m2
  {
  }
}
