/** The parts of the JavaScript runtime the application calls but that the model
    does not compute: trigonometry, square roots, `parseFloat` and `Math.random`.

    They are passed in as values so that every operation stays a pure function.
    Angles are in degrees throughout, because every caller converts with
    `DEG_TO_RAD` / `RAD_TO_DEG` right around the call. The facts a proof may rely
    on are collected in `Sound`; lemmas that need them say so in their `requires`.
 */
module Oracle {
  import opened Numeric

  datatype Oracle = Oracle(
    sqrt: real -> real,          // Math.sqrt on a non-negative argument
    cos: real -> real,           // Math.cos(d * DEG_TO_RAD)
    sin: real -> real,           // Math.sin(d * DEG_TO_RAD)
    acos: real -> real,          // Math.acos(t) * RAD_TO_DEG, for -1 <= t <= 1
    atan: real -> real,          // Math.atan(t) * RAD_TO_DEG
    atan2: (real, real) -> real, // Math.atan2(y, x) * RAD_TO_DEG
    parse: string -> Num         // parseFloat
  )

  /** The mathematical facts about the runtime functions that lemmas may use. */
  ghost predicate Sound(o: Oracle) {
    && (forall x: real {:trigger o.sqrt(x)} :: x >= 0.0 ==> o.sqrt(x) >= 0.0 && Sq(o.sqrt(x)) == x)
    && (forall d: real {:trigger o.cos(d)} {:trigger o.sin(d)} :: Sq(o.cos(d)) + Sq(o.sin(d)) == 1.0)
    && (forall d: real {:trigger o.sin(d)} :: 0.0 < d < 180.0 ==> o.sin(d) > 0.0)
    && (forall t: real {:trigger o.acos(t)} :: -1.0 <= t <= 1.0 ==> 0.0 <= o.acos(t) <= 180.0)
    && (forall y: real, x: real {:trigger o.atan2(y, x)} :: -180.0 < o.atan2(y, x) <= 180.0)
  }

  /** `Math.sqrt`: NaN for a negative argument. */
  function Sqrt(o: Oracle, x: real): (r: Num)
    ensures r == NaN <==> x < 0.0
  {
    if x < 0.0 then NaN else Val(o.sqrt(x))
  }

  /** `Math.acos` in degrees: NaN outside [-1, 1]. */
  function Acos(o: Oracle, t: real): (r: Num)
    ensures r == NaN <==> !(-1.0 <= t <= 1.0)
  {
    if -1.0 <= t <= 1.0 then Val(o.acos(t)) else NaN
  }

  /** `getMagnitude` (utils/math.ts). */
  function Magnitude(o: Oracle, x: real, y: real): real {
    o.sqrt(Sq(x) + Sq(y))
  }

  /** `getAngle` (utils/math.ts): atan2 in degrees, lifted out of the negatives. */
  function Angle(o: Oracle, x: real, y: real): (r: real)
    ensures o.atan2(y, x) < 0.0 ==> r == o.atan2(y, x) + 360.0
    ensures o.atan2(y, x) >= 0.0 ==> r == o.atan2(y, x)
  {
    var a := o.atan2(y, x);
    if a < 0.0 then a + 360.0 else a
  }

  /** With a sound runtime, `getAngle` lies in [0, 360). */
  lemma AngleRange(o: Oracle, x: real, y: real)
    requires Sound(o)
    ensures 0.0 <= Angle(o, x, y) < 360.0
  {
    assert -180.0 < o.atan2(y, x) <= 180.0;
  }

  /** With a sound runtime, a magnitude is non-negative and squares back to x² + y². */
  lemma MagnitudeSquared(o: Oracle, x: real, y: real)
    requires Sound(o)
    ensures Magnitude(o, x, y) >= 0.0
    ensures Sq(Magnitude(o, x, y)) == Sq(x) + Sq(y)
  {
    SqNonNegative(x);
    SqNonNegative(y);
  }

  /** `Math.random`: an injected stream of draws and the position of the next one. */
  datatype Rng = Rng(draw: nat -> real, pos: nat)

  /** The runtime's promise: every draw lies in [0, 1). */
  ghost predicate ValidRng(g: Rng) {
    forall i: nat {:trigger g.draw(i)} :: 0.0 <= g.draw(i) < 1.0
  }

  /** One call of `Math.random`: the next draw and the advanced stream. */
  function Random(g: Rng): (p: (real, Rng))
    ensures p.1.draw == g.draw && p.1.pos == g.pos + 1
    ensures ValidRng(g) ==> 0.0 <= p.0 < 1.0 && ValidRng(p.1)
  {
    (g.draw(g.pos), g.(pos := g.pos + 1))
  }

  /** `Math.floor(Math.random() * k) + lo` for a positive integer k: an integer in
      [lo, lo + k). */
  function RandomInt(g: Rng, k: int, lo: int): (p: (int, Rng))
    ensures p.1.draw == g.draw && p.1.pos == g.pos + 1
    ensures ValidRng(g) && k > 0 ==> lo <= p.0 < lo + k && ValidRng(p.1)
  {
    var (u, g') := Random(g);
    var n := (u * k as real).Floor;
    ScaledDrawBounds(u, k);
    (n + lo, g')
  }

  /** For u in [0, 1) and k > 0, floor(u * k) lies in [0, k). */
  lemma ScaledDrawBounds(u: real, k: int)
    ensures 0.0 <= u < 1.0 && k > 0 ==> 0 <= (u * k as real).Floor < k
  {
    if 0.0 <= u < 1.0 && k > 0 {
      var kr := k as real;
      assert u * kr >= 0.0;
      assert u * kr < kr;
    }
  }
}
