/** The editing handlers of VectoraApp.tsx as pure functions over the editor
    state: adding, removing and updating vectors, the vector that is missing
    for a desired resultant, and the zoom buttons.
 */
module VectorEditor {
  import opened Numeric
  import opened Oracle
  import opened Text
  import opened Angles
  import opened Records

  /** The part of the component state the handlers touch. */
  datatype Editor = Editor(vectors: seq<Vector>, selected: Option<int>)

  predicate UniqueIds(vs: seq<Vector>) {
    forall i, j :: 0 <= i < j < |vs| ==> vs[i].id != vs[j].id
  }

  predicate PositiveIds(vs: seq<Vector>) {
    forall i :: 0 <= i < |vs| ==> vs[i].id >= 1
  }

  /** The state the editor opens with: V1 = (4, 3) and V2 = (2, -2). */
  function Initial(): Editor {
    Editor([
      Vector(1, 4.0, 3.0, "V1", Colors[0], "cartesian", PNum(4.0), PNum(3.0), PNull),
      Vector(2, 2.0, -2.0, "V2", Colors[1], "cartesian", PNum(2.0), PNum(-2.0), PNull)],
      None)
  }

  /** The opening state has unique positive ids and every vector in sync. */
  lemma InitialWellFormed(o: Oracle)
    ensures UniqueIds(Initial().vectors) && PositiveIds(Initial().vectors)
    ensures forall i :: 0 <= i < |Initial().vectors| ==> Synced(o, Initial().vectors[i])
  {
    assert Synced(o, Initial().vectors[0]);
    assert Synced(o, Initial().vectors[1]);
  }

  // ---------------------------------------------------------------------------
  // addVector

  /** The largest id of a non-empty list, `Math.max(...ids)`. */
  function MaxId(vs: seq<Vector>): (m: int)
    requires |vs| > 0
    ensures forall i :: 0 <= i < |vs| ==> vs[i].id <= m
    ensures exists i :: 0 <= i < |vs| && vs[i].id == m
  {
    if |vs| == 1 then vs[0].id
    else
      var rest := MaxId(vs[1..]);
      assert forall i :: 1 <= i < |vs| ==> vs[i] == vs[1..][i - 1];
      MaxInt(vs[0].id, rest)
  }

  /** The id `addVector` gives a new vector: one more than the largest, or 1
      for an empty list. */
  function NextId(vs: seq<Vector>): (id: int)
    ensures forall i :: 0 <= i < |vs| ==> vs[i].id < id
    ensures |vs| == 0 ==> id == 1
    ensures PositiveIds(vs) ==> id >= 1
  {
    (if |vs| > 0 then MaxId(vs) else 0) + 1
  }

  /** The vector `addVector` appends: (3, 3) in cartesian form, labelled and
      coloured after its id. */
  function NewVector(id: int): (v: Vector)
    ensures v.id == id && v.x == 3.0 && v.y == 3.0 && v.inputType == "cartesian"
  {
    Vector(id, 3.0, 3.0, "V" + IntToString(id), ColorAt(JsRemInt(id - 1, |Colors|)),
           "cartesian", PNum(3.0), PNum(3.0), PNull)
  }

  /** `addVector`: nothing happens once six vectors exist; otherwise the new
      vector goes last and becomes the selection. */
  function AddVector(e: Editor): (e': Editor)
    ensures |e.vectors| >= 6 ==> e' == e
    ensures |e.vectors| < 6 ==> e'.vectors == e.vectors + [NewVector(NextId(e.vectors))]
    ensures |e.vectors| < 6 ==> e'.selected == Some(NextId(e.vectors))
  {
    if |e.vectors| >= 6 then e
    else
      var id := NextId(e.vectors);
      Editor(e.vectors + [NewVector(id)], Some(id))
  }

  /** Adding keeps ids unique and positive and never grows a list past six; the
      new vector is in sync with its fields and takes the colour of its slot. */
  lemma AddVectorSpec(o: Oracle, e: Editor)
    requires UniqueIds(e.vectors) && PositiveIds(e.vectors)
    ensures UniqueIds(AddVector(e).vectors) && PositiveIds(AddVector(e).vectors)
    ensures |AddVector(e).vectors| <= MaxInt(6, |e.vectors|)
    ensures |e.vectors| < 6 ==> var v := AddVector(e).vectors[|e.vectors|];
      Synced(o, v) && v.color == Colors[(v.id - 1) % 6]
  {
  }

  // ---------------------------------------------------------------------------
  // removeVector

  /** `vectors.filter(v => v.id !== id)`. */
  function Without(vs: seq<Vector>, id: int): (r: seq<Vector>)
    ensures |r| <= |vs|
    ensures forall v :: v in r <==> v in vs && v.id != id
  {
    if |vs| == 0 then []
    else (if vs[0].id == id then [] else [vs[0]]) + Without(vs[1..], id)
  }

  /** Filtering distributes over concatenation, so the survivors keep their
      relative order. */
  lemma {:induction false} WithoutAppend(a: seq<Vector>, b: seq<Vector>, id: int)
    ensures Without(a + b, id) == Without(a, id) + Without(b, id)
  {
    if |a| == 0 {
      assert a + b == b;
    } else {
      assert (a + b)[1..] == a[1..] + b;
      WithoutAppend(a[1..], b, id);
    }
  }

  /** A list without the id is left as it is. */
  lemma {:induction false} WithoutAbsent(vs: seq<Vector>, id: int)
    requires forall i :: 0 <= i < |vs| ==> vs[i].id != id
    ensures Without(vs, id) == vs
  {
    if |vs| > 0 {
      WithoutAbsent(vs[1..], id);
    }
  }

  /** Filtering keeps ids unique. */
  lemma {:induction false} WithoutUnique(vs: seq<Vector>, id: int)
    requires UniqueIds(vs)
    ensures UniqueIds(Without(vs, id))
  {
    if |vs| > 0 {
      var rest := Without(vs[1..], id);
      WithoutUnique(vs[1..], id);
      forall v | v in rest
        ensures v.id != vs[0].id
      {
        var k :| 0 <= k < |vs[1..]| && vs[1..][k] == v;
        assert vs[k + 1] == v;
      }
    }
  }

  /** `removeVector`: the selection is cleared only when it was that id. */
  function RemoveVector(e: Editor, id: int): (e': Editor)
    ensures e'.selected == if e.selected == Some(id) then None else e.selected
  {
    Editor(Without(e.vectors, id), if e.selected == Some(id) then None else e.selected)
  }

  /** Removing drops exactly the vectors with that id, keeps ids unique and
      positive, and changes nothing when no vector has the id. */
  lemma RemoveVectorSpec(e: Editor, id: int)
    requires UniqueIds(e.vectors) && PositiveIds(e.vectors)
    ensures var r := RemoveVector(e, id).vectors;
      && (forall v :: v in r <==> v in e.vectors && v.id != id)
      && UniqueIds(r) && PositiveIds(r)
    ensures (forall i :: 0 <= i < |e.vectors| ==> e.vectors[i].id != id) ==> RemoveVector(e, id).vectors == e.vectors
  {
    WithoutUnique(e.vectors, id);
    if forall i :: 0 <= i < |e.vectors| ==> e.vectors[i].id != id {
      WithoutAbsent(e.vectors, id);
    }
    var r := RemoveVector(e, id).vectors;
    forall i | 0 <= i < |r|
      ensures r[i].id >= 1
    {
      assert r[i] in e.vectors;
    }
  }

  // ---------------------------------------------------------------------------
  // updateVector

  /** A `Partial<Vector>`: which of the keys the handler reads are present, and
      their values. */
  datatype Changes = Changes(
    x: Option<real>, y: Option<real>, inputType: Option<string>,
    param1: Option<Param>, param2: Option<Param>, param3: Option<Param>)

  /** An update that names a field or the input type. */
  predicate TouchesFields(u: Changes) {
    u.inputType.Some? || u.param1.Some? || u.param2.Some? || u.param3.Some?
  }

  /** An update that names x or y and nothing else the handler reads. */
  predicate DragOnly(u: Changes) {
    !TouchesFields(u) && (u.x.Some? || u.y.Some?)
  }

  function Pick<T>(o: Option<T>, d: T): T {
    if o.Some? then o.value else d
  }

  /** `{ ...v, ...updates }`. */
  function Merge(v: Vector, u: Changes): Vector {
    v.(x := Pick(u.x, v.x), y := Pick(u.y, v.y), inputType := Pick(u.inputType, v.inputType),
       param1 := Pick(u.param1, v.param1), param2 := Pick(u.param2, v.param2), param3 := Pick(u.param3, v.param3))
  }

  /** One vector after `updateVector`: typed fields recompute (x, y); a drag
      rewrites the fields from (x, y) according to the input type. */
  function Updated(o: Oracle, v: Vector, u: Changes): (w: Vector)
    ensures w.id == v.id && w.name == v.name && w.color == v.color
  {
    var n := Merge(v, u);
    if TouchesFields(u) then
      var c := FieldComponents(o, n);
      n.(x := c.x, y := c.y)
    else if u.x.Some? || u.y.Some? then
      if n.inputType == "cartesian" then n.(param1 := PNum(n.x), param2 := PNum(n.y))
      else if n.inputType == "angle" then n.(param1 := PNum(Magnitude(o, n.x, n.y)), param2 := PNum(Angle(o, n.x, n.y)))
      else if n.inputType == "triangle" then n.(param1 := PNum(Magnitude(o, n.x, n.y)), param2 := PNum(n.x), param3 := PNum(n.y))
      else n
    else n
  }

  /** A typed change always leaves the vector in sync, even when the same
      update also supplied x or y: those are overwritten. */
  lemma FieldUpdateSyncs(o: Oracle, v: Vector, u: Changes)
    requires TouchesFields(u)
    ensures Synced(o, Updated(o, v, u))
    ensures Point(Updated(o, v, u).x, Updated(o, v, u).y) == FieldComponents(o, Merge(v, u))
  {
  }

  /** A drag of a cartesian vector moves it to the dragged point and copies the
      point into its fields, so recomputing from the fields gives the same
      point back. */
  lemma CartesianDragRoundTrip(o: Oracle, v: Vector, u: Changes)
    requires DragOnly(u) && v.inputType == "cartesian"
    ensures var w := Updated(o, v, u);
      && w.x == Pick(u.x, v.x) && w.y == Pick(u.y, v.y)
      && w.param1 == PNum(w.x) && w.param2 == PNum(w.y)
      && Synced(o, w)
  {
  }

  /** A drag of a triangle-type vector puts x and y into the second and third
      fields and the length into the first. */
  lemma TriangleDragFields(o: Oracle, v: Vector, u: Changes)
    requires DragOnly(u) && v.inputType == "triangle"
    ensures var w := Updated(o, v, u);
      w.param1 == PNum(Magnitude(o, w.x, w.y)) && w.param2 == PNum(w.x) && w.param3 == PNum(w.y)
  {
  }

  /** An update naming none of the keys the handler reads changes nothing. */
  lemma EmptyUpdate(o: Oracle, v: Vector)
    ensures Updated(o, v, Changes(None, None, None, None, None, None)) == v
  {
  }

  /** `updateVector`: every vector with the id is updated, the rest are kept. */
  function UpdateVector(o: Oracle, e: Editor, id: int, u: Changes): (e': Editor)
    ensures |e'.vectors| == |e.vectors| && e'.selected == e.selected
    ensures forall i :: 0 <= i < |e.vectors| && e.vectors[i].id != id ==> e'.vectors[i] == e.vectors[i]
    ensures forall i :: 0 <= i < |e.vectors| && e.vectors[i].id == id ==> e'.vectors[i] == Updated(o, e.vectors[i], u)
  {
    Editor(seq(|e.vectors|, i requires 0 <= i < |e.vectors| =>
      if e.vectors[i].id != id then e.vectors[i] else Updated(o, e.vectors[i], u)), e.selected)
  }

  /** Updating never changes an id, so ids stay unique and positive; and a
      vector already in sync stays in sync after a typed change or a cartesian
      drag. */
  lemma UpdateVectorSpec(o: Oracle, e: Editor, id: int, u: Changes)
    requires UniqueIds(e.vectors) && PositiveIds(e.vectors)
    ensures var r := UpdateVector(o, e, id, u).vectors;
      UniqueIds(r) && PositiveIds(r)
      && forall i :: 0 <= i < |r| ==> r[i].id == e.vectors[i].id
    ensures forall i :: (0 <= i < |e.vectors| && Synced(o, e.vectors[i]) && (TouchesFields(u) || e.vectors[i].inputType == "cartesian"))
                        ==> Synced(o, UpdateVector(o, e, id, u).vectors[i])
  {
    var r := UpdateVector(o, e, id, u).vectors;
    forall i | 0 <= i < |e.vectors| && Synced(o, e.vectors[i]) && (TouchesFields(u) || e.vectors[i].inputType == "cartesian")
      ensures Synced(o, r[i])
    {
      if e.vectors[i].id == id {
        if TouchesFields(u) {
          FieldUpdateSyncs(o, e.vectors[i], u);
        } else if DragOnly(u) {
          CartesianDragRoundTrip(o, e.vectors[i], u);
        } else {
          assert u == Changes(None, None, None, None, None, None);
          EmptyUpdate(o, e.vectors[i]);
        }
      }
    }
  }

  // ---------------------------------------------------------------------------
  // The missing vector

  /** `missingVectorCalc`: what must be added to the vectors to reach the
      desired resultant. */
  function MissingVector(vs: seq<Vector>, desired: Point): Point {
    Point(desired.x - Sum(vs).x, desired.y - Sum(vs).y)
  }

  /** Appending a vector with the missing components makes the sum the desired
      resultant. */
  lemma MissingCompletes(vs: seq<Vector>, desired: Point, w: Vector)
    requires Point(w.x, w.y) == MissingVector(vs, desired)
    ensures Sum(vs + [w]) == desired
  {
    SumSnoc(vs, w);
  }

  /** The resultant the editor shows: the desired one, labelled "Rd", in
      missing mode, else the sum, labelled "R". */
  function DisplayedResultant(vs: seq<Vector>, missingMode: bool, desired: Point): (r: (Point, string))
    ensures missingMode ==> r == (desired, "Rd")
    ensures !missingMode ==> r == (Sum(vs), "R")
  {
    if missingMode then (desired, "Rd") else (Sum(vs), "R")
  }

  // ---------------------------------------------------------------------------
  // Zoom

  /** The zoom-in button: five more pixels per unit, at most 100. */
  function ZoomIn(s: int): (r: int)
    ensures r <= 100 && r <= s + 5
    ensures s <= 95 ==> r == s + 5
    ensures s > 95 ==> r == 100
  {
    MinInt(s + 5, 100)
  }

  /** The zoom-out button: five fewer pixels per unit, at least 10. */
  function ZoomOut(s: int): (r: int)
    ensures r >= 10 && r >= s - 5
    ensures s >= 15 ==> r == s - 5
    ensures s < 15 ==> r == 10
  {
    MaxInt(s - 5, 10)
  }

  /** The zoom stays within [10, 100], and a step in one direction is undone by
      a step in the other away from the ends. */
  lemma ZoomSpec(s: int)
    requires 10 <= s <= 100
    ensures 10 <= ZoomIn(s) <= 100 && 10 <= ZoomOut(s) <= 100
    ensures s <= 95 ==> ZoomOut(ZoomIn(s)) == s
    ensures s >= 15 ==> ZoomIn(ZoomOut(s)) == s
  {
  }
}
