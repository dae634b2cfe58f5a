/** The records the two applications pass around (types.ts): an editable
    vector, a generated vector exercise, and the fixed colour palette.
 */
module Records {
  import opened Numeric
  import opened Angles

  /** `COLORS`: one colour per vector slot. */
  const Colors: seq<string> := ["#00A884", "#2E7CF6", "#E14C4C", "#E8A12D", "#9333EA", "#0891B2"]

  /** `COLORS[k]`; JavaScript's `undefined` outside the palette is the empty
      string here. */
  function ColorAt(k: int): (c: string)
    ensures 0 <= k < |Colors| ==> c == Colors[k]
  {
    if 0 <= k < |Colors| then Colors[k] else ""
  }

  /** `Vector`: an id, the components, a label (`name`) and colour, and the editor
      fields the components are computed from. `inputType` is one of
      "cartesian", "angle" and "triangle". */
  datatype Vector = Vector(
    id: int, x: real, y: real, name: string, color: string,
    inputType: string, param1: Param, param2: Param, param3: Param)

  /** The answer printed with an exercise, before number formatting. */
  datatype Solution = Solution(name: string, x: real, y: real, magnitude: real, angle: real)

  /** `Exercise`: `kind` is the `type` string, "missing" or "<n> vetores". */
  datatype Exercise = Exercise(
    id: int, kind: string, vectors: seq<Vector>,
    resultantDesired: Option<Point>, solution: Solution)

  /** The components a vector's editor fields describe. */
  function FieldComponents(o: Oracle.Oracle, v: Vector): Point {
    Components(o, v.inputType, v.param1, v.param2, v.param3)
  }

  /** The components agree with the editor fields. */
  predicate Synced(o: Oracle.Oracle, v: Vector) {
    FieldComponents(o, v) == Point(v.x, v.y)
  }

  /** The componentwise sum of some vectors. */
  function Sum(vs: seq<Vector>): (s: Point)
    ensures |vs| == 0 ==> s == Point(0.0, 0.0)
  {
    if |vs| == 0 then Point(0.0, 0.0)
    else
      var rest := Sum(vs[..|vs| - 1]);
      Point(rest.x + vs[|vs| - 1].x, rest.y + vs[|vs| - 1].y)
  }

  /** The sum of a list with one more vector at the end. */
  lemma SumSnoc(vs: seq<Vector>, v: Vector)
    ensures Sum(vs + [v]) == Point(Sum(vs).x + v.x, Sum(vs).y + v.y)
  {
    assert (vs + [v])[..|vs|] == vs;
  }
}
