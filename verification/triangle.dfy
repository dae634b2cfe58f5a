/** `solveTriangle`, `clean` and `getTriangleCoords` (utils/trigoMath.ts).

    Sides a, b, c lie opposite the angles A, B, C (degrees). The solver takes three
    numbers whose meaning depends on the mode, rejects impossible input, derives the
    three missing quantities, validates them, adds area, perimeter and height, and
    rounds everything with `clean`.
 */
module TriangleSolver {
  import opened Numeric
  import opened Oracle

  datatype Mode = SSS | SAS | ASA | AAS | Right

  /** The six quantities while they are being derived; any of them may be NaN. */
  datatype Parts = Parts(a: Num, b: Num, c: Num, A: Num, B: Num, C: Num)

  /** The six quantities once they passed the final validation. */
  datatype Raw = Raw(a: real, b: real, c: real, A: real, B: real, C: real)

  /** The solver's result (`TriangleData`), every number passed through `clean`. */
  datatype Triangle = Triangle(
    a: real, b: real, c: real,
    A: real, B: real, C: real,
    area: Num, perimeter: real, height: Num,
    valid: bool)

  // ---------------------------------------------------------------------------
  // Arithmetic that may produce NaN

  /** x / y. A zero denominator gives NaN: the solver only divides by zero when
      the runtime's sine vanishes strictly inside (0°, 180°), which `Sound` rules
      out. */
  function Quot(x: real, y: real): (r: Num)
    ensures r == NaN <==> y == 0.0
    ensures r.Val? ==> r.v * y == x
  {
    if y == 0.0 then NaN else Val(x / y)
  }

  /** `Math.acos(n / d)` in degrees. JavaScript's n / 0 is NaN or an infinity,
      and `Math.acos` of either is NaN, so this is exact. */
  function AcosQuot(o: Oracle, n: real, d: real): (r: Num)
    ensures d == 0.0 ==> r == NaN
    ensures d != 0.0 ==> (r == NaN <==> !(-1.0 <= n / d <= 1.0))
  {
    if d == 0.0 then NaN else Acos(o, n / d)
  }

  /** `180 - A - B`, NaN when either angle is. */
  function ThirdAngle(A: Num, B: Num): (r: Num)
    ensures r.Val? <==> A.Val? && B.Val?
    ensures r.Val? ==> A.v + B.v + r.v == 180.0
  {
    if A.Val? && B.Val? then Val(180.0 - A.v - B.v) else NaN
  }

  // ---------------------------------------------------------------------------
  // The solver

  /** Whether the input passes the opening gates: v1 and v2 positive, and v3
      positive too except for a right triangle. */
  predicate InputsPositive(mode: Mode, v1: real, v2: real, v3: real) {
    v1 > 0.0 && v2 > 0.0 && (mode == Right || v3 > 0.0)
  }

  /** The strict triangle inequality, for all three pairs. */
  predicate StrictTriangle(a: real, b: real, c: real) {
    a + b > c && a + c > b && b + c > a
  }

  /** The mode-specific gate the solver applies before deriving anything. */
  predicate ModeGate(mode: Mode, v1: real, v2: real, v3: real) {
    match mode
    case SSS => StrictTriangle(v1, v2, v3)
    case SAS => v2 < 180.0
    case ASA => v1 + v3 < 180.0
    case AAS => v1 + v2 < 180.0
    case Right => true
  }

  /** The law of cosines, solved for the angle opposite `x` in a triangle whose
      other two sides are `y` and `z`: acos((y² + z² - x²) / (2yz)) in degrees. */
  function AcosOpposite(o: Oracle, x: real, y: real, z: real): (r: Num)
    ensures y * z != 0.0 ==> (r.Val? <==> -1.0 <= (Sq(y) + Sq(z) - Sq(x)) / (2.0 * y * z) <= 1.0)
  {
    AcosQuot(o, Sq(y) + Sq(z) - Sq(x), 2.0 * y * z)
  }

  /** The law of cosines, solved for the square of the side opposite an angle
      with cosine `k` between sides `y` and `z`: y² + z² - 2yz·k. */
  function OppositeSquare(y: real, z: real, k: real): real {
    Sq(y) + Sq(z) - 2.0 * y * z * k
  }

  /** The switch of `solveTriangle`: `None` where the code returns null before
      deriving, else the six quantities it derives. */
  function Derive(o: Oracle, mode: Mode, v1: real, v2: real, v3: real): (r: Option<Parts>)
    ensures r.Some? <==> InputsPositive(mode, v1, v2, v3) && ModeGate(mode, v1, v2, v3)
    ensures r.Some? && r.value.A.Val? && r.value.B.Val? ==> r.value.C.Val? && r.value.A.v + r.value.B.v + r.value.C.v == 180.0
  {
    if !InputsPositive(mode, v1, v2, v3) then None
    else match mode
      case SSS => DeriveSSS(o, v1, v2, v3)
      case SAS => DeriveSAS(o, v1, v2, v3)
      case ASA => DeriveASA(o, v1, v2, v3)
      case AAS => DeriveAAS(o, v1, v2, v3)
      case Right => Some(DeriveRight(o, v1, v2))
  }

  /** Three sides a, b, c; the two angles by the law of cosines. */
  function DeriveSSS(o: Oracle, a: real, b: real, c: real): (r: Option<Parts>)
    requires a > 0.0 && b > 0.0 && c > 0.0
    ensures r.Some? <==> StrictTriangle(a, b, c)
    ensures r.Some? ==> r.value.a == Val(a) && r.value.b == Val(b) && r.value.c == Val(c)
    ensures r.Some? ==> r.value.C == ThirdAngle(r.value.A, r.value.B)
  {
    if !StrictTriangle(a, b, c) then None
    else
      var A := AcosOpposite(o, a, b, c);
      var B := AcosOpposite(o, b, a, c);
      Some(Parts(Val(a), Val(b), Val(c), A, B, ThirdAngle(A, B)))
  }

  /** Sides b and c with the included angle A; side a by the law of cosines,
      then B by the law of cosines again. */
  function DeriveSAS(o: Oracle, b: real, A: real, c: real): (r: Option<Parts>)
    ensures r.Some? <==> A < 180.0
    ensures r.Some? ==> r.value.b == Val(b) && r.value.A == Val(A) && r.value.c == Val(c)
    ensures r.Some? ==> r.value.C == ThirdAngle(r.value.A, r.value.B)
  {
    if A >= 180.0 then None
    else
      var a := Sqrt(o, OppositeSquare(b, c, o.cos(A)));
      var B := if a.Val? then AcosOpposite(o, b, a.v, c) else NaN;
      Some(Parts(a, Val(b), Val(c), Val(A), B, ThirdAngle(Val(A), B)))
  }

  /** Angles A and B with the side c between them; a and b by the law of
      sines. */
  function DeriveASA(o: Oracle, A: real, c: real, B: real): (r: Option<Parts>)
    ensures r.Some? <==> A + B < 180.0
    ensures r.Some? ==> r.value.A == Val(A) && r.value.c == Val(c) && r.value.B == Val(B)
    ensures r.Some? ==> r.value.C == Val(180.0 - A - B)
  {
    if A + B >= 180.0 then None
    else
      var C := 180.0 - A - B;
      Some(Parts(Quot(c * o.sin(A), o.sin(C)), Quot(c * o.sin(B), o.sin(C)), Val(c), Val(A), Val(B), Val(C)))
  }

  /** Angles A and B with the side a opposite A; b and c by the law of sines. */
  function DeriveAAS(o: Oracle, A: real, B: real, a: real): (r: Option<Parts>)
    ensures r.Some? <==> A + B < 180.0
    ensures r.Some? ==> r.value.A == Val(A) && r.value.B == Val(B) && r.value.a == Val(a)
    ensures r.Some? ==> r.value.C == Val(180.0 - A - B)
  {
    if A + B >= 180.0 then None
    else
      var C := 180.0 - A - B;
      Some(Parts(Val(a), Quot(a * o.sin(B), o.sin(A)), Quot(a * o.sin(C), o.sin(A)), Val(A), Val(B), Val(C)))
  }

  /** The two legs a and b of a right angle at C; the hypotenuse by
      Pythagoras and A from its tangent. */
  function DeriveRight(o: Oracle, a: real, b: real): (r: Parts)
    requires b > 0.0
    ensures r.a == Val(a) && r.b == Val(b) && r.C == Val(90.0)
    ensures r.A.Val? && r.B == Val(90.0 - r.A.v)
  {
    var A := o.atan(a / b);
    Parts(Val(a), Val(b), Sqrt(o, Sq(a) + Sq(b)), Val(A), Val(90.0 - A), Val(90.0))
  }

  /** The final validation: no quantity is NaN and every side is positive. */
  function Validate(p: Parts): (r: Option<Raw>)
    ensures r.Some? <==> p.a.Val? && p.b.Val? && p.c.Val? && p.A.Val? && p.B.Val? && p.C.Val?
                         && p.a.v > 0.0 && p.b.v > 0.0 && p.c.v > 0.0
    ensures r.Some? ==> r.value == Raw(p.a.v, p.b.v, p.c.v, p.A.v, p.B.v, p.C.v)
  {
    if p.a == NaN || p.b == NaN || p.c == NaN || p.A == NaN || p.B == NaN || p.C == NaN then None
    else if p.a.v <= 0.0 || p.b.v <= 0.0 || p.c.v <= 0.0 then None
    else Some(Raw(p.a.v, p.b.v, p.c.v, p.A.v, p.B.v, p.C.v))
  }

  /** The six quantities of a triangle that survives validation, before rounding.
      Sides are positive, the angles sum to 180°, and the given values come back
      unchanged in the places each mode assigns them. */
  function Solved(o: Oracle, mode: Mode, v1: real, v2: real, v3: real): (r: Option<Raw>)
    ensures r.Some? ==> InputsPositive(mode, v1, v2, v3) && ModeGate(mode, v1, v2, v3)
    ensures r.Some? ==> r.value.a > 0.0 && r.value.b > 0.0 && r.value.c > 0.0
    ensures r.Some? ==> r.value.A + r.value.B + r.value.C == 180.0
    ensures r.Some? ==> Echoes(mode, v1, v2, v3, r.value)
  {
    var d := Derive(o, mode, v1, v2, v3);
    if d.None? then None else Validate(d.value)
  }

  /** Where each mode puts its three inputs. */
  predicate Echoes(mode: Mode, v1: real, v2: real, v3: real, t: Raw) {
    match mode
    case SSS => t.a == v1 && t.b == v2 && t.c == v3
    case SAS => t.b == v1 && t.A == v2 && t.c == v3
    case ASA => t.A == v1 && t.c == v2 && t.B == v3
    case AAS => t.A == v1 && t.B == v2 && t.a == v3
    case Right => t.a == v1 && t.b == v2 && t.C == 90.0
  }

  /** The semi-perimeter. */
  function SemiPerimeter(t: Raw): real {
    (t.a + t.b + t.c) / 2.0
  }

  /** Heron's formula under the square root. */
  function HeronProduct(t: Raw): real {
    var s := SemiPerimeter(t);
    s * (s - t.a) * (s - t.b) * (s - t.c)
  }

  /** The area by Heron's formula; NaN when the product under the root is
      negative. */
  function Area(o: Oracle, t: Raw): (r: Num)
    ensures r == NaN <==> HeronProduct(t) < 0.0
  {
    Sqrt(o, HeronProduct(t))
  }

  /** The height over side c: 2 · area / c. */
  function Height(o: Oracle, t: Raw): (r: Num)
    requires t.c > 0.0
    ensures r == NaN <==> Area(o, t) == NaN
    ensures r.Val? ==> r.v * t.c == 2.0 * Area(o, t).v
  {
    var area := Area(o, t);
    if area == NaN then NaN else Val(2.0 * area.v / t.c)
  }

  /** `clean`: three decimals below magnitude 1, one decimal otherwise. */
  function Clean(x: real): (r: real)
    ensures Abs(x) < 1.0 ==> Abs(r - x) <= 0.0005 && IsWhole(r * 1000.0)
    ensures Abs(x) >= 1.0 ==> Abs(r - x) <= 0.05 && IsWhole(r * 10.0)
  {
    if Abs(x) < 1.0 then RoundThousandths(x) else RoundTenths(x)
  }

  function CleanNum(n: Num): (r: Num)
    ensures r == NaN <==> n == NaN
    ensures n.Val? ==> r.v == Clean(n.v)
  {
    if n == NaN then NaN else Val(Clean(n.v))
  }

  /** `solveTriangle`. */
  function Solve(o: Oracle, mode: Mode, v1: real, v2: real, v3: real): (r: Option<Triangle>)
    ensures !InputsPositive(mode, v1, v2, v3) ==> r == None
    ensures mode == SSS && !StrictTriangle(v1, v2, v3) ==> r == None
    ensures mode == SAS && v2 >= 180.0 ==> r == None
    ensures (mode == ASA || mode == AAS) && v1 + (if mode == ASA then v3 else v2) >= 180.0 ==> r == None
    ensures r.Some? <==> Solved(o, mode, v1, v2, v3).Some?
    ensures r.Some? ==> r.value.valid
  {
    var s := Solved(o, mode, v1, v2, v3);
    if s.None? then None else Some(Report(o, s.value))
  }

  /** The returned record: every quantity cleaned, with area, perimeter and
      height added. */
  function Report(o: Oracle, t: Raw): (r: Triangle)
    requires t.c > 0.0
    ensures r.valid
  {
    Triangle(
      Clean(t.a), Clean(t.b), Clean(t.c),
      Clean(t.A), Clean(t.B), Clean(t.C),
      CleanNum(Area(o, t)), Clean(t.a + t.b + t.c), CleanNum(Height(o, t)),
      true)
  }

  // ---------------------------------------------------------------------------
  // What the solver promises

  /** Every reported number is the cleaned value of the validated quantity it
      names; the perimeter is the cleaned sum of the sides. */
  lemma SolveReports(o: Oracle, mode: Mode, v1: real, v2: real, v3: real)
    requires Solve(o, mode, v1, v2, v3).Some?
    ensures var t := Solve(o, mode, v1, v2, v3).value;
      var raw := Solved(o, mode, v1, v2, v3).value;
      && Abs(t.a - raw.a) <= 0.05 && Abs(t.b - raw.b) <= 0.05 && Abs(t.c - raw.c) <= 0.05
      && Abs(t.A - raw.A) <= 0.05 && Abs(t.B - raw.B) <= 0.05 && Abs(t.C - raw.C) <= 0.05
      && Abs(t.perimeter - (raw.a + raw.b + raw.c)) <= 0.05
      && (t.area.Val? <==> HeronProduct(raw) >= 0.0)
      && (t.height.Val? <==> t.area.Val?)
  {
    var raw := Solved(o, mode, v1, v2, v3).value;
    var t := Solve(o, mode, v1, v2, v3).value;
    assert t == Report(o, raw);
    CleanClose(raw.a);
    CleanClose(raw.b);
    CleanClose(raw.c);
    CleanClose(raw.A);
    CleanClose(raw.B);
    CleanClose(raw.C);
    CleanClose(raw.a + raw.b + raw.c);
  }

  lemma CleanClose(x: real)
    ensures Abs(Clean(x) - x) <= 0.05
  {
  }

  /** The reported angles sum to 180° up to the rounding of three values. */
  lemma ReportedAngleSum(o: Oracle, mode: Mode, v1: real, v2: real, v3: real)
    requires Solve(o, mode, v1, v2, v3).Some?
    ensures var t := Solve(o, mode, v1, v2, v3).value;
      Abs(t.A + t.B + t.C - 180.0) <= 0.15
  {
    SolveReports(o, mode, v1, v2, v3);
  }

  /** A right triangle always reports C = 90°, and its third input is never
      read. */
  lemma RightIgnoresThird(o: Oracle, v1: real, v2: real, v3: real, w3: real)
    ensures Solve(o, Right, v1, v2, v3) == Solve(o, Right, v1, v2, w3)
    ensures Solve(o, Right, v1, v2, v3).Some? ==> Solve(o, Right, v1, v2, v3).value.C == 90.0
  {
    if Solve(o, Right, v1, v2, v3).Some? {
      assert RoundHalfAway(900.0) == 900;
    }
  }

  /** With a sound runtime, the area squares back to Heron's product and the
      height is non-negative. */
  lemma HeronSquared(o: Oracle, t: Raw)
    requires Sound(o) && t.c > 0.0 && Area(o, t).Val?
    ensures Area(o, t).v >= 0.0 && Sq(Area(o, t).v) == HeronProduct(t)
    ensures Height(o, t).v >= 0.0
  {
    var x := HeronProduct(t);
    assert o.sqrt(x) >= 0.0;
    MulMono(t.c, Height(o, t).v, 0.0);
    assert Height(o, t).v * t.c == t.c * Height(o, t).v;
  }

  // ---------------------------------------------------------------------------
  // When the solver succeeds

  /** With a sound runtime, the gates are the only way to fail: a positive
      input is solved exactly when the mode's gate lets it through. */
  lemma SolvedIffGates(o: Oracle, mode: Mode, v1: real, v2: real, v3: real)
    requires Sound(o) && InputsPositive(mode, v1, v2, v3)
    ensures Solved(o, mode, v1, v2, v3).Some? <==> ModeGate(mode, v1, v2, v3)
  {
    if ModeGate(mode, v1, v2, v3) {
      match mode
      case SSS => SolvedSSS(o, v1, v2, v3);
      case SAS => SolvedSAS(o, v1, v2, v3);
      case ASA => SolvedASA(o, v1, v2, v3);
      case AAS => SolvedAAS(o, v1, v2, v3);
      case Right => SolvedRight(o, v1, v2);
    }
  }

  lemma SolvedSSS(o: Oracle, a: real, b: real, c: real)
    requires Sound(o) && a > 0.0 && b > 0.0 && c > 0.0 && StrictTriangle(a, b, c)
    ensures Solved(o, SSS, a, b, c).Some?
  {
    CosineInRange(a, b, c);
    CosineInRange(b, a, c);
  }

  /** In a strict triangle the law-of-cosines argument lies strictly inside
      (-1, 1). */
  lemma CosineInRange(x: real, y: real, z: real)
    requires x > 0.0 && y > 0.0 && z > 0.0 && StrictTriangle(x, y, z)
    ensures -1.0 < (Sq(y) + Sq(z) - Sq(x)) / (2.0 * y * z) < 1.0
  {
    var n := Sq(y) + Sq(z) - Sq(x);
    var d := 2.0 * y * z;
    SqExpand(y, z);
    SqNonNegative(y - z);
    SqLess(Abs(y - z), x);
    SqLess(x, y + z);
    assert Sq(Abs(y - z)) == Sq(y - z);
    assert -d < n < d;
    QuotientInside(n, d);
  }

  lemma QuotientInside(n: real, d: real)
    requires d > 0.0 && -d < n < d
    ensures -1.0 < n / d < 1.0
  {
    var q := n / d;
    assert q * d == n;
    MulMono(d, 1.0, q);
    MulMono(d, q, -1.0);
  }

  lemma QuotientWithin(n: real, d: real)
    requires d > 0.0 && -d <= n <= d
    ensures -1.0 <= n / d <= 1.0
  {
    var q := n / d;
    assert q * d == n;
    MulMono(d, 1.0, q);
    MulMono(d, q, -1.0);
  }

  /** With a sound runtime the cosine of an angle strictly between 0° and 180°
      lies strictly inside (-1, 1). */
  lemma CosineStrict(o: Oracle, A: real)
    requires Sound(o) && 0.0 < A < 180.0
    ensures -1.0 < o.cos(A) < 1.0
  {
    var k := o.cos(A);
    var s := o.sin(A);
    assert Sq(k) + Sq(s) == 1.0;
    SqNonNegative(s);
    SqLess(1.0, k);
    SqLess(1.0, -k);
    SqNonNegative(k);
  }

  lemma SolvedSAS(o: Oracle, b: real, A: real, c: real)
    requires Sound(o) && b > 0.0 && A > 0.0 && c > 0.0 && A < 180.0
    ensures Solved(o, SAS, b, A, c).Some?
  {
    var a := SASSide(o, b, A, c);
    CosineStrict(o, A);
    SASAngle(o, a, b, A, c);
  }

  /** The side opposite A by the law of cosines is a positive number. */
  lemma SASSide(o: Oracle, b: real, A: real, c: real) returns (a: real)
    requires Sound(o) && b > 0.0 && c > 0.0 && 0.0 < A < 180.0
    ensures Sqrt(o, OppositeSquare(b, c, o.cos(A))) == Val(a)
    ensures a > 0.0 && Sq(a) == OppositeSquare(b, c, o.cos(A))
  {
    CosineStrict(o, A);
    SideSquarePositive(b, c, o.cos(A));
    a := o.sqrt(OppositeSquare(b, c, o.cos(A)));
    PositiveRoot(a, OppositeSquare(b, c, o.cos(A)));
  }

  /** A non-negative root of a positive number is positive. */
  lemma PositiveRoot(a: real, a2: real)
    requires a >= 0.0 && Sq(a) == a2 && a2 > 0.0
    ensures a > 0.0
  {
    SqNonNegative(a);
  }

  /** The law-of-cosines angle opposite b is a number. */
  lemma SASAngle(o: Oracle, a: real, b: real, A: real, c: real)
    requires b > 0.0 && c > 0.0 && 0.0 < A < 180.0 && a > 0.0 && -1.0 < o.cos(A) < 1.0
    requires Sqrt(o, OppositeSquare(b, c, o.cos(A))) == Val(a)
    requires Sq(a) == OppositeSquare(b, c, o.cos(A))
    ensures Solved(o, SAS, b, A, c).Some?
  {
    OppositeCosine(o, a, b, c, o.cos(A));
    var B := AcosOpposite(o, b, a, c);
    var p := Parts(Val(a), Val(b), Val(c), Val(A), B, ThirdAngle(Val(A), B));
    assert DeriveSAS(o, b, A, c) == Some(p);
    assert Validate(p).Some?;
  }

  /** b² + c² - 2bc·k > 0 for positive b, c and k < 1. */
  lemma SideSquarePositive(b: real, c: real, k: real)
    requires b > 0.0 && c > 0.0 && k < 1.0
    ensures OppositeSquare(b, c, k) > 0.0
  {
    var bc := b * c;
    MulMono(b, 0.0, c);
    MulMono(bc, 0.0, 1.0 - k);
    SqExpand(b, c);
    SqNonNegative(b - c);
    SumOfPositives(Sq(b), Sq(c), Sq(b - c), 2.0 * b * c, bc * (1.0 - k), 2.0 * b * c * k);
  }

  /** b² + c² - w = (b - c)² + 2u, which is positive when u is. */
  lemma SumOfPositives(sb: real, sc: real, sd: real, t: real, u: real, w: real)
    requires sd == sb - t + sc && sd >= 0.0 && u > 0.0 && t - w == 2.0 * u
    ensures sb + sc - w > 0.0
  {
  }

  /** When a² = b² + c² - 2bc·k with |k| < 1, the cosine argument for the angle
      opposite b lies in [-1, 1]. */
  lemma OppositeCosine(o: Oracle, a: real, b: real, c: real, k: real)
    requires a > 0.0 && b > 0.0 && c > 0.0 && -1.0 < k < 1.0
    requires Sq(a) == OppositeSquare(b, c, k)
    ensures AcosOpposite(o, b, a, c).Val?
  {
    MulMono(a, 0.0, c);
    var e := Id(c) - b * k;
    NumeratorIdentity(a, b, c, k, e);
    OffsetBound(a, b, c, k, e);
    SqBounded(e, a);
    MulMono(c, e, a);
    MulMono(c, -a, e);
    HalvedBound(Sq(a) + Sq(c) - Sq(b), 2.0 * a * c, c * e, c * a);
  }

  /** a² + c² - b² = 2c·(c - bk). */
  lemma NumeratorIdentity(a: real, b: real, c: real, k: real, e: real)
    requires Sq(a) == Sq(b) + Sq(c) - 2.0 * b * c * k
    requires e == Id(c) - b * k
    ensures Sq(a) + Sq(c) - Sq(b) == 2.0 * (c * e)
  {
    Regroup(b, c, k);
    assert c * (Id(c) - b * k) == c * Id(c) - c * (b * k);
  }

  /** (c - bk)² <= a², because k² <= 1. */
  lemma OffsetBound(a: real, b: real, c: real, k: real, e: real)
    requires -1.0 < k < 1.0
    requires Sq(a) == Sq(b) + Sq(c) - 2.0 * b * c * k
    requires e == Id(c) - b * k
    ensures Sq(e) <= Sq(a)
  {
    var m := c * (b * k);
    SqExpand(Id(c), b * k);
    assert Sq(Id(c)) == Sq(c);
    assert 2.0 * Id(c) * (b * k) == 2.0 * m;
    assert Sq(e) == Sq(c) - 2.0 * m + Sq(b * k);
    SqExpand(b, k);
    SqLess(Abs(k), 1.0);
    SqNonNegative(k);
    SqNonNegative(b);
    MulMono(Sq(b), Sq(k), 1.0);
    assert Sq(b * k) <= Sq(b);
    Regroup(b, c, k);
    assert Sq(a) == Sq(b) + Sq(c) - 2.0 * m;
  }

  lemma Regroup(b: real, c: real, k: real)
    ensures 2.0 * b * c * k == 2.0 * (c * (b * k))
  {
  }

  lemma HalvedBound(n: real, d: real, ce: real, ca: real)
    requires n == 2.0 * ce && d == 2.0 * ca && -ca <= ce <= ca && ca > 0.0
    ensures -1.0 <= n / d <= 1.0
  {
    QuotientWithin(n, d);
  }

  lemma SolvedASA(o: Oracle, A: real, c: real, B: real)
    requires Sound(o) && A > 0.0 && c > 0.0 && B > 0.0 && A + B < 180.0
    ensures Solved(o, ASA, A, c, B).Some?
  {
    var C := 180.0 - A - B;
    assert o.sin(A) > 0.0 && o.sin(B) > 0.0 && o.sin(C) > 0.0;
    PositiveQuot(c, o.sin(A), o.sin(C));
    PositiveQuot(c, o.sin(B), o.sin(C));
  }

  lemma SolvedAAS(o: Oracle, A: real, B: real, a: real)
    requires Sound(o) && A > 0.0 && B > 0.0 && a > 0.0 && A + B < 180.0
    ensures Solved(o, AAS, A, B, a).Some?
  {
    var C := 180.0 - A - B;
    assert o.sin(A) > 0.0 && o.sin(B) > 0.0 && o.sin(C) > 0.0;
    PositiveQuot(a, o.sin(B), o.sin(A));
    PositiveQuot(a, o.sin(C), o.sin(A));
  }

  lemma PositiveQuot(x: real, y: real, z: real)
    requires x > 0.0 && y > 0.0 && z > 0.0
    ensures x * y / z > 0.0
  {
    MulMono(x, 0.0, y);
    var q := x * y / z;
    assert q * z == x * y;
    MulMono(z, q, 0.0);
  }

  lemma SolvedRight(o: Oracle, a: real, b: real)
    requires Sound(o) && a > 0.0 && b > 0.0
    ensures Solved(o, Right, a, b, 0.0).Some?
  {
    var x := Sq(a) + Sq(b);
    SqNonNegative(a);
    SqNonNegative(b);
    var c := o.sqrt(x);
    assert c >= 0.0 && Sq(c) == x;
    SqNonNegative(c);
  }

  // ---------------------------------------------------------------------------
  // Vertex placement

  /** `getTriangleCoords`: A at the origin, B on the positive x axis at distance
      c, C at distance b from A in direction A. */
  function Coords(o: Oracle, t: Triangle): (v: (Point, Point, Point))
    ensures v.0 == Point(0.0, 0.0) && v.1 == Point(t.c, 0.0)
  {
    (Point(0.0, 0.0), Point(t.c, 0.0), Point(t.b * o.cos(t.A), t.b * o.sin(t.A)))
  }

  /** With a sound runtime, C lies at distance b from A, and above the base when
      b > 0 and 0° < A < 180°. */
  lemma CoordsSpec(o: Oracle, t: Triangle)
    requires Sound(o)
    ensures var v := Coords(o, t);
      Sq(v.2.x) + Sq(v.2.y) == Sq(t.b)
    ensures t.b > 0.0 && 0.0 < t.A < 180.0 ==> Coords(o, t).2.y > 0.0
  {
    var k := o.cos(t.A);
    var s := o.sin(t.A);
    assert Sq(k) + Sq(s) == 1.0;
    SqExpand(t.b, k);
    SqExpand(t.b, s);
    assert Sq(t.b) * Sq(k) + Sq(t.b) * Sq(s) == Sq(t.b) * (Sq(k) + Sq(s));
    if t.b > 0.0 && 0.0 < t.A < 180.0 {
      MulMono(t.b, 0.0, s);
    }
  }
}
