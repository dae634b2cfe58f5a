/** Exercise generation in VectoraApp.tsx: `generateSingleExercise` with its
    bounded angle search, `generateList`, and `regenerateExercise`, which reads
    the type key back out of an exercise's type string. `Math.random` is the
    injected stream `Rng`, consumed in the order the source calls it.
 */
module Exercises {
  import opened Numeric
  import opened Oracle
  import opened Text
  import opened Angles
  import opened Records
  import opened VectorEditor

  // ---------------------------------------------------------------------------
  // The angle search

  /** `isAngleTooClose` on the whole-degree angles the generator draws. */
  predicate TooClose(ang: int, used: seq<real>, minSep: int) {
    IsAngleTooClose(ang as real, used, minSep as real)
  }

  /** `Math.floor(Math.random() * 36) * 10`, plus 5 when a second draw exceeds
      one half: a multiple of 5 in [0, 355]. */
  function Candidate(g: Rng): (p: (int, Rng))
    ensures p.1.draw == g.draw && p.1.pos == g.pos + 2
    ensures ValidRng(g) ==> 0 <= p.0 <= 355 && p.0 % 5 == 0 && ValidRng(p.1)
  {
    var (k, g1) := RandomInt(g, 36, 0);
    var (u, g2) := Random(g1);
    (if u > 0.5 then k * 10 + 5 else k * 10, g2)
  }

  /** One pass of the search loop: the candidate when it is clear of the used
      angles, otherwise the candidate shifted by `minSep` (`% 360`, as
      JavaScript computes it), and whether the chosen angle is clear. */
  function Attempt(g: Rng, used: seq<real>, minSep: int): (r: (int, bool, Rng))
    ensures r.2.draw == g.draw && r.2.pos == g.pos + 2
    ensures r.1 <==> !TooClose(r.0, used, minSep)
    ensures r.0 == Candidate(g).0 || r.0 == JsRemInt(Candidate(g).0 + minSep, 360)
    ensures ValidRng(g) ==> ValidRng(r.2)
    ensures ValidRng(g) ==> 0 <= r.0 < 360
  {
    var (c, g') := Candidate(g);
    if !TooClose(c, used, minSep) then (c, true, g')
    else
      var s := JsRemInt(c + minSep, 360);
      (s, !TooClose(s, used, minSep), g')
  }

  /** The search as a recursion over the attempts left: stop at the first clear
      angle, or keep the last angle tried when the attempts run out. */
  function Search(g: Rng, used: seq<real>, minSep: int, left: nat): (r: (int, bool, Rng))
    requires left >= 1
    ensures r.2.draw == g.draw
    ensures g.pos + 2 <= r.2.pos <= g.pos + 2 * left
    ensures r.1 ==> !TooClose(r.0, used, minSep)
    ensures !r.1 ==> r.2.pos == g.pos + 2 * left
    ensures ValidRng(g) ==> ValidRng(r.2)
    ensures ValidRng(g) ==> 0 <= r.0 < 360
    decreases left
  {
    var (a, ok, g1) := Attempt(g, used, minSep);
    if ok || left == 1 then (a, ok, g1) else Search(g1, used, minSep, left - 1)
  }

  /** With nothing drawn yet, the first candidate is taken. */
  lemma SearchFirstVector(g: Rng, minSep: int, left: nat)
    requires left >= 1
    ensures Search(g, [], minSep, left) == (Candidate(g).0, true, Candidate(g).1)
  {
  }

  /** A negative separation (the settings field admits one) rules out no
      angle, so every search stops at its first candidate. */
  lemma NegativeSeparationTakesCandidate(g: Rng, used: seq<real>, minSep: int, left: nat)
    requires left >= 1 && minSep < 0
    ensures Search(g, used, minSep, left) == (Candidate(g).0, true, Candidate(g).1)
  {
  }

  /** The `while (!valid && attempts < 50)` loop: at most 50 attempts, and the
      same outcome as the recursive search. */
  method SampleAngle(g: Rng, used: seq<real>, minSep: int) returns (ang: int, valid: bool, g': Rng)
    ensures (ang, valid, g') == Search(g, used, minSep, 50)
    ensures valid ==> !TooClose(ang, used, minSep)
    ensures g.pos + 2 <= g'.pos <= g.pos + 100
    ensures ValidRng(g) ==> 0 <= ang < 360
  {
    ang, valid, g' := 0, false, g;
    var attempts := 0;
    while !valid && attempts < 50
      invariant 0 <= attempts <= 50
      invariant attempts == 0 ==> !valid && g' == g
      invariant !valid && attempts < 50 ==> Search(g, used, minSep, 50) == Search(g', used, minSep, 50 - attempts)
      invariant (valid || attempts == 50) ==> Search(g, used, minSep, 50) == (ang, valid, g')
    {
      var next := Attempt(g', used, minSep);
      ang, valid, g' := next.0, next.1, next.2;
      attempts := attempts + 1;
    }
  }

  // ---------------------------------------------------------------------------
  // One exercise

  /** The given vector at position j: drawn as `angle`-type, with its fields
      holding the magnitude and angle it was built from. */
  function GivenVector(o: Oracle, j: nat, mag: int, ang: int): (v: Vector)
    ensures Synced(o, v)
    ensures v.id == j + 1 && v.inputType == "angle" && v.color == Colors[j % 6]
  {
    Vector(j + 1, mag as real * o.cos(ang as real), mag as real * o.sin(ang as real),
           "V" + IntToString(j + 1), ColorAt(JsRemInt(j, |Colors|)),
           "angle", PNum(mag as real), PNum(ang as real), PNull)
  }

  /** The type string of an exercise built from a type key: "missing", or the
      parsed count followed by " vetores" (`NaN` when the key is not a number). */
  function KindFor(typeKey: string): string {
    if typeKey == "missing" then "missing" else Printed(typeKey) + " vetores"
  }

  /** `${parseInt(typeKey)}`: the count as a template literal prints it. */
  function Printed(typeKey: string): string {
    match ParseInt(typeKey)
    case Some(n) => IntToString(n)
    case None => "NaN"
  }

  /** The count a type key asks for: `parseInt`, with NaN giving no vectors. */
  function CountFor(typeKey: string): (n: nat)
    requires typeKey != "missing"
    ensures ParseInt(typeKey).Some? && ParseInt(typeKey).value >= 0 ==> n == ParseInt(typeKey).value
    ensures ParseInt(typeKey).None? || ParseInt(typeKey).value < 0 ==> n == 0
  {
    match ParseInt(typeKey)
    case Some(n) => if n >= 0 then n else 0
    case None => 0
  }

  /** The answer printed with an exercise: for a missing-vector exercise the
      vector Vf that closes the sum to the desired resultant, else the
      resultant R of the given vectors. */
  function SolutionFor(o: Oracle, vs: seq<Vector>, desired: Option<Point>): (s: Solution)
    ensures desired.Some? ==> s.name == "Vf" && Point(s.x, s.y) == MissingVector(vs, desired.value)
    ensures desired.None? ==> s.name == "R" && Point(s.x, s.y) == Sum(vs)
    ensures s.magnitude == Magnitude(o, s.x, s.y) && s.angle == Angle(o, s.x, s.y)
  {
    var p := if desired.Some? then MissingVector(vs, desired.value) else Sum(vs);
    Solution(if desired.Some? then "Vf" else "R", p.x, p.y, Magnitude(o, p.x, p.y), Angle(o, p.x, p.y))
  }

  /** What the vector at position i of a generated exercise satisfies,
      whatever the draws. */
  predicate WellFormedAt(o: Oracle, v: Vector, i: nat) {
    && v.id == i + 1 && v.inputType == "angle" && v.color == Colors[i % 6]
    && Synced(o, v) && v.param1.PNum? && v.param2.PNum?
  }

  /** What every generated exercise satisfies, whatever the draws. */
  predicate WellFormedVectors(o: Oracle, vs: seq<Vector>) {
    forall i :: 0 <= i < |vs| ==> WellFormedAt(o, vs[i], i)
  }

  /** A whole magnitude from the integer range [minMag, maxMag]. */
  predicate MagnitudeIn(v: Vector, minMag: int, maxMag: int) {
    v.param1.PNum? && minMag as real <= v.param1.v <= maxMag as real && v.param1.v.Floor as real == v.param1.v
  }

  predicate MagnitudesIn(vs: seq<Vector>, minMag: int, maxMag: int) {
    forall i :: 0 <= i < |vs| ==> MagnitudeIn(vs[i], minMag, maxMag)
  }

  /** An angle within one turn. */
  predicate AngleIn(v: Vector) {
    v.param2.PNum? && 0.0 <= v.param2.v < 360.0
  }

  predicate AnglesIn(vs: seq<Vector>) {
    forall i :: 0 <= i < |vs| ==> AngleIn(vs[i])
  }

  /** Appending a vector that satisfies each property at its position keeps
      the properties of the list. */
  lemma VectorsSnoc(o: Oracle, vs: seq<Vector>, v: Vector, minMag: int, maxMag: int)
    requires WellFormedVectors(o, vs) && WellFormedAt(o, v, |vs|)
    ensures WellFormedVectors(o, vs + [v])
    ensures MagnitudesIn(vs, minMag, maxMag) && MagnitudeIn(v, minMag, maxMag) ==> MagnitudesIn(vs + [v], minMag, maxMag)
    ensures AnglesIn(vs) && AngleIn(v) ==> AnglesIn(vs + [v])
  {
    assert forall i :: 0 <= i < |vs| ==> (vs + [v])[i] == vs[i];
    assert (vs + [v])[|vs|] == v;
  }

  /** The given vectors of an exercise: for each, one draw for the magnitude
      and then the angle search against the angles already used. */
  method GivenVectors(o: Oracle, g: Rng, numVecs: nat, minSep: int, minMag: int, maxMag: int)
    returns (vs: seq<Vector>, g': Rng)
    ensures g'.draw == g.draw && |vs| == numVecs
    ensures ValidRng(g) ==> ValidRng(g')
    ensures WellFormedVectors(o, vs)
    ensures ValidRng(g) && minMag <= maxMag ==> MagnitudesIn(vs, minMag, maxMag)
    ensures ValidRng(g) ==> AnglesIn(vs)
  {
    vs, g' := [], g;
    var used: seq<real> := [];
    var j := 0;
    while j < numVecs
      invariant j <= numVecs && |vs| == j
      invariant g'.draw == g.draw
      invariant ValidRng(g) ==> ValidRng(g')
      invariant WellFormedVectors(o, vs)
      invariant ValidRng(g) && minMag <= maxMag ==> MagnitudesIn(vs, minMag, maxMag)
      invariant ValidRng(g) ==> AnglesIn(vs)
    {
      var v, ang, g2 := NextGiven(o, g', used, j, minSep, minMag, maxMag);
      VectorsSnoc(o, vs, v, minMag, maxMag);
      g' := g2;
      used := used + [ang as real];
      vs := vs + [v];
      j := j + 1;
    }
  }

  /** One given vector: a draw for the magnitude, then the angle search. */
  method NextGiven(o: Oracle, g: Rng, used: seq<real>, j: nat, minSep: int, minMag: int, maxMag: int)
    returns (v: Vector, ang: int, g': Rng)
    ensures g'.draw == g.draw
    ensures ValidRng(g) ==> ValidRng(g')
    ensures WellFormedAt(o, v, j)
    ensures ValidRng(g) && minMag <= maxMag ==> MagnitudeIn(v, minMag, maxMag)
    ensures ValidRng(g) ==> AngleIn(v)
  {
    var magDraw := RandomInt(g, maxMag - minMag + 1, minMag);
    var found;
    ang, found, g' := SampleAngle(magDraw.1, used, minSep);
    v := GivenVector(o, j, magDraw.0, ang);
  }

  /** The desired resultant of a missing-vector exercise: a whole magnitude
      from [minMag, maxMag] and an angle that is a multiple of 10. */
  function DesiredDraw(o: Oracle, g: Rng, minMag: int, maxMag: int): (p: (Point, Rng))
    ensures p.1.draw == g.draw && p.1.pos == g.pos + 2
  {
    var (rdMag, g1) := RandomInt(g, maxMag - minMag + 1, minMag);
    var (k, g2) := RandomInt(g1, 36, 0);
    var rdAng := k * 10;
    (Point(rdMag as real * o.cos(rdAng as real), rdMag as real * o.sin(rdAng as real)), g2)
  }

  /** `generateSingleExercise`. For a missing-vector exercise the count comes
      from one draw (2 or 3 vectors) and the desired resultant from two draws
      after the vectors; otherwise the count is `parseInt` of the key. */
  method GenerateSingle(o: Oracle, g: Rng, id: int, typeKey: string, minSep: int, minMag: int, maxMag: int)
    returns (ex: Exercise, g': Rng)
    ensures g'.draw == g.draw
    ensures ValidRng(g) ==> ValidRng(g')
    ensures ex.id == id && ex.kind == KindFor(typeKey)
    ensures WellFormedVectors(o, ex.vectors)
    ensures typeKey == "missing" <==> ex.resultantDesired.Some?
    ensures typeKey == "missing" && ValidRng(g) ==> 2 <= |ex.vectors| <= 3
    ensures typeKey != "missing" ==> |ex.vectors| == CountFor(typeKey)
    ensures ex.solution == SolutionFor(o, ex.vectors, ex.resultantDesired)
    ensures ValidRng(g) && minMag <= maxMag ==> MagnitudesIn(ex.vectors, minMag, maxMag)
    ensures ValidRng(g) ==> AnglesIn(ex.vectors)
  {
    var vs: seq<Vector>;
    var desired: Option<Point> := None;
    if typeKey == "missing" {
      var count := RandomInt(g, 2, 2);
      var n: nat := if count.0 >= 0 then count.0 else 0;
      vs, g' := GivenVectors(o, count.1, n, minSep, minMag, maxMag);
      var rd := DesiredDraw(o, g', minMag, maxMag);
      desired, g' := Some(rd.0), rd.1;
    } else {
      vs, g' := GivenVectors(o, g, CountFor(typeKey), minSep, minMag, maxMag);
    }
    ex := Exercise(id, KindFor(typeKey), vs, desired, SolutionFor(o, vs, desired));
  }

  /** A missing-vector exercise is solvable: adding a vector with the printed
      components makes the sum the desired resultant. */
  lemma MissingSolutionCloses(o: Oracle, ex: Exercise, w: Vector)
    requires ex.resultantDesired.Some? && ex.solution == SolutionFor(o, ex.vectors, ex.resultantDesired)
    requires w.x == ex.solution.x && w.y == ex.solution.y
    ensures Sum(ex.vectors + [w]) == ex.resultantDesired.value
  {
    MissingCompletes(ex.vectors, ex.resultantDesired.value, w);
  }

  // ---------------------------------------------------------------------------
  // Type strings

  /** `regenerateExercise`'s reading of a type string: "missing", or the text
      before the first space. */
  function TypeKeyOf(kind: string): (k: string)
    ensures kind != "missing" ==> k <= kind && ' ' !in k
  {
    if kind == "missing" then "missing" else BeforeFirst(kind, ' ')
  }

  lemma NoSpaceInDigits(s: string)
    requires AllDigits(s)
    ensures ' ' !in s
  {
  }

  lemma NotANumber()
    ensures ParseInt("NaN") == None
  {
  }

  /** Reading the key back out of an exercise's type string and building the
      type string again gives the same string, and for a numeric key the same
      count: regenerating keeps an exercise's type. */
  lemma RegenerateKeepsKind(typeKey: string)
    ensures KindFor(TypeKeyOf(KindFor(typeKey))) == KindFor(typeKey)
    ensures typeKey != "missing" ==>
              TypeKeyOf(KindFor(typeKey)) != "missing" && CountFor(TypeKeyOf(KindFor(typeKey))) == CountFor(typeKey)
  {
    if typeKey != "missing" {
      KeyOfKind(typeKey);
      PrintedStable(typeKey);
    }
  }

  /** The key read out of a numeric type string is the printed count. */
  lemma KeyOfKind(typeKey: string)
    requires typeKey != "missing"
    ensures TypeKeyOf(KindFor(typeKey)) == Printed(typeKey)
  {
    PrintedReadsBack(typeKey);
    KeyOfJoined(Printed(typeKey));
  }

  /** The text before the first space of `p + " vetores"` is `p` when `p`
      has no space of its own. */
  lemma KeyOfJoined(p: string)
    requires ' ' !in p
    ensures TypeKeyOf(p + " vetores") == p
  {
    assert |p + " vetores"| >= 8;
    assert p + " vetores" == p + [' '] + "vetores";
    BeforeFirstJoin(p, ' ', "vetores");
  }

  /** Printing the printed count again changes nothing, and it asks for the
      same number of vectors. */
  lemma PrintedStable(typeKey: string)
    requires typeKey != "missing"
    ensures var p := Printed(typeKey);
      p != "missing" && Printed(p) == p && CountFor(p) == CountFor(typeKey)
  {
    PrintedReadsBack(typeKey);
  }

  /** The printed count has no space, is not "missing", and reads back as the
      same count. */
  lemma PrintedReadsBack(typeKey: string)
    ensures var p := Printed(typeKey);
      ' ' !in p && p != "missing" && ParseInt(p) == ParseInt(typeKey)
  {
    match ParseInt(typeKey)
    case Some(n) =>
      var d := IntToString(n);
      assert ' ' !in d && d[|d| - 1] != 'g' by {
        if n >= 0 {
          NoSpaceInDigits(d);
          assert IsDigit(d[|d| - 1]);
        } else {
          var m := NatToString(-n);
          NoSpaceInDigits(m);
          assert d == "-" + m;
          assert IsDigit(m[|m| - 1]) && d[|d| - 1] == m[|m| - 1];
        }
      }
      ParseIntRoundTrip(n);
    case None =>
      NotANumber();
  }

  // ---------------------------------------------------------------------------
  // The list

  /** The exercise's type string is built from one of the selected keys. */
  predicate KindFromKeys(ex: Exercise, types: seq<string>) {
    exists t :: t in types && ex.kind == KindFor(t)
  }

  /** `generateList`: `numQuestions` exercises numbered from 1, each of a type
      drawn from the selected keys. The button is disabled while no key is
      selected, so the list of keys is non-empty. */
  method GenerateList(o: Oracle, g: Rng, numQuestions: int, types: seq<string>, minSep: int, minMag: int, maxMag: int)
    returns (list: seq<Exercise>, g': Rng)
    requires |types| > 0
    ensures g'.draw == g.draw
    ensures |list| == MaxInt(numQuestions, 0)
    ensures forall i :: 0 <= i < |list| ==> ListedAt(o, list[i], i)
    ensures ValidRng(g) ==> forall i :: 0 <= i < |list| ==> KindFromKeys(list[i], types)
  {
    list, g' := [], g;
    var i := 0;
    while i < numQuestions
      invariant 0 <= i <= MaxInt(numQuestions, 0) && |list| == i
      invariant g'.draw == g.draw
      invariant ValidRng(g) ==> ValidRng(g')
      invariant forall k :: 0 <= k < |list| ==> ListedAt(o, list[k], k)
      invariant ValidRng(g) ==> forall k :: 0 <= k < |list| ==> KindFromKeys(list[k], types)
    {
      var ex, g2 := NextExercise(o, g', i, types, minSep, minMag, maxMag);
      ListSnoc(o, list, ex, types);
      list, g' := list + [ex], g2;
      i := i + 1;
    }
  }

  /** The exercise at list position i: numbered i + 1, with well-formed
      vectors. */
  predicate ListedAt(o: Oracle, ex: Exercise, i: nat) {
    ex.id == i + 1 && WellFormedVectors(o, ex.vectors)
  }

  /** One exercise of the list: a type drawn uniformly from `types`, then
      `generateSingleExercise`. */
  method NextExercise(o: Oracle, g: Rng, i: nat, types: seq<string>, minSep: int, minMag: int, maxMag: int)
    returns (ex: Exercise, g': Rng)
    requires |types| > 0
    ensures g'.draw == g.draw
    ensures ValidRng(g) ==> ValidRng(g')
    ensures ListedAt(o, ex, i)
    ensures ValidRng(g) ==> KindFromKeys(ex, types)
  {
    var pick := RandomInt(g, |types|, 0);
    var t := if 0 <= pick.0 < |types| then types[pick.0] else "";
    ex, g' := GenerateSingle(o, pick.1, i + 1, t, minSep, minMag, maxMag);
    if ValidRng(g) {
      assert t in types && ex.kind == KindFor(t);
    }
  }

  lemma ListSnoc(o: Oracle, list: seq<Exercise>, ex: Exercise, types: seq<string>)
    requires forall k :: 0 <= k < |list| ==> ListedAt(o, list[k], k)
    requires ListedAt(o, ex, |list|)
    ensures forall k :: 0 <= k < |list| + 1 ==> ListedAt(o, (list + [ex])[k], k)
    ensures (forall k :: 0 <= k < |list| ==> KindFromKeys(list[k], types)) && KindFromKeys(ex, types)
      ==> forall k :: 0 <= k < |list| + 1 ==> KindFromKeys((list + [ex])[k], types)
  {
    assert forall k :: 0 <= k < |list| ==> (list + [ex])[k] == list[k];
    assert (list + [ex])[|list|] == ex;
  }

  /** `regenerateExercise`: the exercise at `index` is replaced by a fresh one
      with the same id and the type read back from its type string. */
  method RegenerateExercise(o: Oracle, g: Rng, list: seq<Exercise>, index: nat, minSep: int, minMag: int, maxMag: int)
    returns (list': seq<Exercise>, g': Rng)
    requires index < |list|
    ensures |list'| == |list|
    ensures forall i :: 0 <= i < |list| && i != index ==> list'[i] == list[i]
    ensures list'[index].id == list[index].id
    ensures list'[index].kind == KindFor(TypeKeyOf(list[index].kind))
    ensures forall t :: list[index].kind == KindFor(t) ==> list'[index].kind == list[index].kind
  {
    var ex;
    ex, g' := GenerateSingle(o, g, list[index].id, TypeKeyOf(list[index].kind), minSep, minMag, maxMag);
    list' := list[index := ex];
    forall t | list[index].kind == KindFor(t)
      ensures list'[index].kind == list[index].kind
    {
      RegenerateKeepsKind(t);
    }
  }
}
