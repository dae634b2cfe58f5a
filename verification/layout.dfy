/** `calculateVisualLayout` (utils/math.ts): the screen-only layout that fans out
    vectors whose directions are too close to tell apart.

    The items are sorted by angle, consecutive items closer than `minSep` are
    grouped, a group that straddles 0°/360° may be merged with the first one,
    and each group of two or more is spread `minSep` apart around its mean.
    Groups are contiguous runs of sorted positions; the merged group is the last
    run followed by the first.
 */
module VisualLayout {
  import opened Numeric
  import opened Oracle
  import opened Angles

  /** The identifier a caller attaches to an input vector (an index or a name). */
  datatype Key = Index(i: int) | Named(name: string)

  datatype Input = Input(id: Key, x: real, y: real)

  /** One laid-out vector: its true direction and the direction it is drawn in. */
  datatype Item = Item(
    id: Key, x: real, y: real,
    originalAngle: real, visualAngle: real, magnitude: real,
    vx: real, vy: real)

  /** The record the layout starts from: drawn where it points. */
  function MakeItem(o: Oracle, v: Input): (it: Item)
    ensures it.id == v.id && it.x == v.x && it.y == v.y
    ensures it.originalAngle == it.visualAngle == Angle(o, v.x, v.y)
    ensures it.magnitude == Magnitude(o, v.x, v.y)
    ensures it.vx == v.x && it.vy == v.y
  {
    var ang := Angle(o, v.x, v.y);
    Item(v.id, v.x, v.y, ang, ang, Magnitude(o, v.x, v.y), v.x, v.y)
  }

  function MakeItems(o: Oracle, vs: seq<Input>): (items: seq<Item>)
    ensures |items| == |vs|
    ensures forall i :: 0 <= i < |vs| ==> items[i] == MakeItem(o, vs[i])
  {
    seq(|vs|, i requires 0 <= i < |vs| => MakeItem(o, vs[i]))
  }

  // ---------------------------------------------------------------------------
  // Sorting by angle

  predicate SortedByAngle(s: seq<Item>) {
    forall i, j :: 0 <= i < j < |s| ==> s[i].originalAngle <= s[j].originalAngle
  }

  /** Insertion after every element whose angle is not larger, which keeps
      equal angles in arrival order. */
  function Insert(x: Item, s: seq<Item>): (r: seq<Item>)
    requires SortedByAngle(s)
    ensures SortedByAngle(r)
    ensures multiset(r) == multiset(s) + multiset{x}
    ensures |r| == |s| + 1
    ensures forall i :: 0 <= i < |r| ==> r[i] == x || r[i] in s
  {
    if |s| == 0 then [x]
    else if s[|s| - 1].originalAngle <= x.originalAngle then s + [x]
    else
      var last := s[|s| - 1];
      var init := s[..|s| - 1];
      assert s == init + [last];
      var r := Insert(x, init) + [last];
      assert forall i :: 0 <= i < |init| ==> init[i].originalAngle <= last.originalAngle;
      r
  }

  /** The `sort` call with comparator `a.originalAngle - b.originalAngle`
      (a stable sort). */
  function SortByAngle(s: seq<Item>): (r: seq<Item>)
    ensures SortedByAngle(r)
    ensures multiset(r) == multiset(s)
    ensures |r| == |s|
  {
    if |s| == 0 then []
    else
      assert s == s[..|s| - 1] + [s[|s| - 1]];
      Insert(s[|s| - 1], SortByAngle(s[..|s| - 1]))
  }

  // ---------------------------------------------------------------------------
  // Grouping by gap

  /** A run of sorted positions [lo, hi). */
  datatype Run = Run(lo: nat, hi: nat)

  /** Runs that tile [0, n) in order, each non-empty. */
  predicate Tiles(runs: seq<Run>, n: nat) {
    && |runs| >= 1
    && runs[0].lo == 0
    && runs[|runs| - 1].hi == n
    && (forall j :: 0 <= j < |runs| ==> runs[j].lo < runs[j].hi)
    && (forall j :: 0 <= j < |runs| - 1 ==> runs[j].hi == runs[j + 1].lo)
    && (forall j, k :: 0 <= j < k < |runs| ==> runs[j].hi <= runs[k].lo)
  }

  /** Inside a run every step is smaller than `minSep`. */
  predicate TightRuns(runs: seq<Run>, keys: seq<real>, minSep: real) {
    forall j, p :: 0 <= j < |runs| && runs[j].lo < p < runs[j].hi && p < |keys| ==> keys[p] - keys[p - 1] < minSep
  }

  /** Between runs every step is at least `minSep`. */
  predicate SeparatedRuns(runs: seq<Run>, keys: seq<real>, minSep: real) {
    forall j :: 0 <= j < |runs| - 1 && 0 < runs[j].hi < |keys| ==> keys[runs[j].hi] - keys[runs[j].hi - 1] >= minSep
  }

  /** The runs are exactly the maximal stretches of sorted angles whose
      consecutive gaps are below `minSep`. */
  predicate GroupedBy(runs: seq<Run>, keys: seq<real>, minSep: real) {
    Tiles(runs, |keys|) && TightRuns(runs, keys, minSep) && SeparatedRuns(runs, keys, minSep)
  }

  /** The grouping loop: `closed` are the clusters pushed so far and `current`
      the one still open. Consecutive sorted angles share a run exactly when
      their gap is below `minSep`. */
  function Group(keys: seq<real>, minSep: real): (g: (seq<Run>, Run))
    requires |keys| >= 1
    ensures GroupedBy(g.0 + [g.1], keys, minSep)
    decreases |keys|
  {
    if |keys| == 1 then ([], Run(0, 1))
    else
      var i := |keys| - 1;
      var (closed, current) := Group(keys[..i], minSep);
      if keys[i] - keys[i - 1] < minSep then
        GroupExtend(keys, minSep, closed, current);
        (closed, Run(current.lo, i + 1))
      else
        GroupClose(keys, minSep, closed, current);
        (closed + [current], Run(i, i + 1))
  }

  /** A small gap extends the open run to the new position. */
  lemma GroupExtend(keys: seq<real>, minSep: real, closed: seq<Run>, current: Run)
    requires |keys| >= 2
    requires GroupedBy(closed + [current], keys[..|keys| - 1], minSep)
    requires keys[|keys| - 1] - keys[|keys| - 2] < minSep
    ensures GroupedBy(closed + [Run(current.lo, |keys|)], keys, minSep)
  {
    var i := |keys| - 1;
    var runs := closed + [current];
    var runs' := closed + [Run(current.lo, i + 1)];
    assert runs[|runs| - 1] == current;
    assert forall j :: 0 <= j < |closed| ==> runs'[j] == runs[j];
    assert Tiles(runs', |keys|);
    ExtendTight(keys, minSep, runs, runs');
    ExtendSeparated(keys, minSep, runs, runs');
  }

  lemma ExtendTight(keys: seq<real>, minSep: real, runs: seq<Run>, runs': seq<Run>)
    requires |keys| >= 2 && |runs| >= 1
    requires Tiles(runs, |keys| - 1) && TightRuns(runs, keys[..|keys| - 1], minSep)
    requires |runs'| == |runs|
    requires forall j :: 0 <= j < |runs| - 1 ==> runs'[j] == runs[j]
    requires runs'[|runs| - 1] == Run(runs[|runs| - 1].lo, |keys|)
    requires keys[|keys| - 1] - keys[|keys| - 2] < minSep
    ensures TightRuns(runs', keys, minSep)
  {
    var i := |keys| - 1;
    var prev := keys[..i];
    forall j, p | 0 <= j < |runs'| && runs'[j].lo < p < runs'[j].hi && p < |keys|
      ensures keys[p] - keys[p - 1] < minSep
    {
      if p < i {
        assert prev[p] == keys[p] && prev[p - 1] == keys[p - 1];
        if j < |runs| - 1 {
          assert runs[j].hi <= runs[|runs| - 1].lo;
        }
      }
    }
  }

  lemma ExtendSeparated(keys: seq<real>, minSep: real, runs: seq<Run>, runs': seq<Run>)
    requires |keys| >= 2 && |runs| >= 1
    requires Tiles(runs, |keys| - 1) && SeparatedRuns(runs, keys[..|keys| - 1], minSep)
    requires |runs'| == |runs|
    requires forall j :: 0 <= j < |runs| - 1 ==> runs'[j] == runs[j]
    ensures SeparatedRuns(runs', keys, minSep)
  {
    var i := |keys| - 1;
    var prev := keys[..i];
    forall j | 0 <= j < |runs'| - 1 && 0 < runs'[j].hi < |keys|
      ensures keys[runs'[j].hi] - keys[runs'[j].hi - 1] >= minSep
    {
      assert runs[j].hi <= runs[|runs| - 1].lo < i;
      assert prev[runs[j].hi] == keys[runs[j].hi];
      assert prev[runs[j].hi - 1] == keys[runs[j].hi - 1];
    }
  }

  /** A large gap closes the open run and opens a new one. */
  lemma GroupClose(keys: seq<real>, minSep: real, closed: seq<Run>, current: Run)
    requires |keys| >= 2
    requires GroupedBy(closed + [current], keys[..|keys| - 1], minSep)
    requires keys[|keys| - 1] - keys[|keys| - 2] >= minSep
    ensures GroupedBy(closed + [current] + [Run(|keys| - 1, |keys|)], keys, minSep)
  {
    var i := |keys| - 1;
    var runs := closed + [current];
    var runs' := runs + [Run(i, i + 1)];
    assert runs[|runs| - 1] == current;
    assert forall j :: 0 <= j < |runs| ==> runs'[j] == runs[j];
    assert Tiles(runs', |keys|) by {
      forall j, k | 0 <= j < k < |runs'|
        ensures runs'[j].hi <= runs'[k].lo
      {
        if k == |runs| {
          assert runs[j].hi <= current.hi;
        }
      }
    }
    CloseTight(keys, minSep, runs, runs');
    CloseSeparated(keys, minSep, runs, runs');
  }

  lemma CloseTight(keys: seq<real>, minSep: real, runs: seq<Run>, runs': seq<Run>)
    requires |keys| >= 2 && |runs| >= 1
    requires Tiles(runs, |keys| - 1) && TightRuns(runs, keys[..|keys| - 1], minSep)
    requires runs' == runs + [Run(|keys| - 1, |keys|)]
    ensures TightRuns(runs', keys, minSep)
  {
    var i := |keys| - 1;
    var prev := keys[..i];
    forall j, p | 0 <= j < |runs'| && runs'[j].lo < p < runs'[j].hi && p < |keys|
      ensures keys[p] - keys[p - 1] < minSep
    {
      assert j < |runs|;
      assert runs'[j] == runs[j];
      assert runs[j].hi <= runs[|runs| - 1].hi;
      assert prev[p] == keys[p] && prev[p - 1] == keys[p - 1];
    }
  }

  lemma CloseSeparated(keys: seq<real>, minSep: real, runs: seq<Run>, runs': seq<Run>)
    requires |keys| >= 2 && |runs| >= 1
    requires Tiles(runs, |keys| - 1) && SeparatedRuns(runs, keys[..|keys| - 1], minSep)
    requires keys[|keys| - 1] - keys[|keys| - 2] >= minSep
    requires runs' == runs + [Run(|keys| - 1, |keys|)]
    ensures SeparatedRuns(runs', keys, minSep)
  {
    var i := |keys| - 1;
    var prev := keys[..i];
    forall j | 0 <= j < |runs'| - 1 && 0 < runs'[j].hi < |keys|
      ensures keys[runs'[j].hi] - keys[runs'[j].hi - 1] >= minSep
    {
      assert runs'[j] == runs[j];
      if j < |runs| - 1 {
        assert runs[j].hi <= runs[|runs| - 1].lo < i;
        assert prev[runs[j].hi] == keys[runs[j].hi];
        assert prev[runs[j].hi - 1] == keys[runs[j].hi - 1];
      }
    }
  }

  // ---------------------------------------------------------------------------
  // The wrap merge

  /** The sorted positions of a run, in order. */
  function Positions(r: Run): (ps: seq<nat>)
    ensures |ps| == if r.lo <= r.hi then r.hi - r.lo else 0
    ensures forall k :: 0 <= k < |ps| ==> ps[k] == r.lo + k
  {
    seq(if r.lo <= r.hi then r.hi - r.lo else 0, k => r.lo + k)
  }

  /** The clusters a list of runs stands for. */
  function RunClusters(runs: seq<Run>): (cs: seq<seq<nat>>)
    ensures |cs| == |runs|
    ensures forall j :: 0 <= j < |runs| ==> cs[j] == Positions(runs[j])
  {
    seq(|runs|, j requires 0 <= j < |runs| => Positions(runs[j]))
  }

  /** The clusters after the wrap check, and the run whose angles were lifted by
      360 (if any). */
  datatype Clustering = Clustering(clusters: seq<seq<nat>>, lifted: Option<Run>)

  /** The wrap check exactly as the code states it: the first and last sorted
      angles are close across 0°/360°, and more than one cluster has already
      been closed. The third condition (`currentCluster !== clusters[0]`) always
      holds, because the open cluster has not been pushed yet. */
  predicate MergeFires(keys: seq<real>, closed: seq<Run>, minSep: real)
    requires |keys| >= 1
  {
    keys[0] + 360.0 - keys[|keys| - 1] < minSep && |closed| > 1
  }

  /** The wrap merge: when it fires, the first cluster is appended to the open
      one (after it, in its own order) and dropped from the front; the lifted
      run is the first cluster. Otherwise the open cluster is simply pushed. */
  function WrapMerge(keys: seq<real>, closed: seq<Run>, current: Run, minSep: real): (m: Clustering)
    requires |keys| >= 1 && GroupedBy(closed + [current], keys, minSep)
    ensures MergeFires(keys, closed, minSep) ==>
      (m.lifted == Some(closed[0])
       && m.clusters == RunClusters(closed[1..]) + [Positions(current) + Positions(closed[0])])
    ensures !MergeFires(keys, closed, minSep) ==>
      (m.lifted == None && m.clusters == RunClusters(closed + [current]))
  {
    var runs := closed + [current];
    assert forall j :: 0 <= j < |closed| ==> runs[j] == closed[j];
    assert runs[|closed|] == current;
    if MergeFires(keys, closed, minSep) then
      Clustering(RunClusters(closed[1..]) + [Positions(current) + Positions(closed[0])], Some(closed[0]))
    else
      Clustering(RunClusters(runs), None)
  }

  /** With exactly two groups the wrap merge never fires, however close the
      groups are across 0°/360°: for example 1° and 358° with `minSep` 6 stay
      apart although they are 3° apart around the circle. */
  lemma TwoGroupsNeverMerge(keys: seq<real>, minSep: real)
    requires |keys| >= 1
    requires |Group(keys, minSep).0| == 1
    ensures !MergeFires(keys, Group(keys, minSep).0, minSep)
  {
  }

  lemma TwoGroupsExample()
    ensures Group([1.0, 358.0], 6.0) == ([Run(0, 1)], Run(1, 2))
    ensures !MergeFires([1.0, 358.0], Group([1.0, 358.0], 6.0).0, 6.0)
    ensures AngularSeparation(1.0, 358.0) == 3.0
  {
    TwoGroupsExampleGroups();
    NormalizeUnique(1.0, 1.0, 0);
    NormalizeUnique(358.0, 358.0, 0);
  }

  lemma TwoGroupsExampleGroups()
    ensures Group([1.0, 358.0], 6.0) == ([Run(0, 1)], Run(1, 2))
  {
    assert [1.0, 358.0][..1] == [1.0];
    assert Group([1.0], 6.0) == ([], Run(0, 1));
    var empty: seq<Run> := [];
    assert empty + [Run(0, 1)] == [Run(0, 1)];
  }

  /** `firstCluster.forEach(v => v.originalAngle += 360)`: the lifted run's
      angles grow by a full turn; nothing else changes. */
  function Lift(items: seq<Item>, r: Run): (out: seq<Item>)
    ensures |out| == |items|
    ensures forall p :: 0 <= p < |items| ==> out[p] == if r.lo <= p < r.hi
      then items[p].(originalAngle := items[p].originalAngle + 360.0) else items[p]
  {
    seq(|items|, p requires 0 <= p < |items| =>
      if r.lo <= p < r.hi then items[p].(originalAngle := items[p].originalAngle + 360.0) else items[p])
  }

  // ---------------------------------------------------------------------------
  // Spreading each cluster around its mean

  /** `reduce((sum, v) => sum + v, 0)`. */
  function Sum(xs: seq<real>): real {
    if |xs| == 0 then 0.0 else Sum(xs[..|xs| - 1]) + xs[|xs| - 1]
  }

  /** Positions that all index into `items`. */
  predicate InBounds(c: seq<nat>, n: nat) {
    forall k :: 0 <= k < |c| ==> c[k] < n
  }

  /** No position is listed twice, within a cluster or across clusters. */
  predicate Disjoint(cs: seq<seq<nat>>) {
    && (forall j, k1, k2 :: 0 <= j < |cs| && 0 <= k1 < k2 < |cs[j]| ==> cs[j][k1] != cs[j][k2])
    && (forall j1, j2, k1, k2 :: 0 <= j1 < j2 < |cs| && 0 <= k1 < |cs[j1]| && 0 <= k2 < |cs[j2]| ==> cs[j1][k1] != cs[j2][k2])
  }

  /** The original angles of a cluster's members, in cluster order. */
  function ClusterAngles(items: seq<Item>, c: seq<nat>): (xs: seq<real>)
    requires InBounds(c, |items|)
    ensures |xs| == |c|
    ensures forall k :: 0 <= k < |c| ==> xs[k] == items[c[k]].originalAngle
  {
    seq(|c|, k requires 0 <= k < |c| => items[c[k]].originalAngle)
  }

  /** The un-reduced angle given to member `idx` of a cluster of `count` whose
      mean angle is `mean`. */
  function SpreadAngle(mean: real, count: nat, idx: nat, minSep: real): real {
    mean - ((count - 1) as real * minSep) / 2.0 + idx as real * minSep
  }

  /** The member redrawn along `angle`, reduced into [0, 360); its length is kept. */
  function Place(o: Oracle, it: Item, angle: real): (r: Item)
    ensures SameBase(r, it)
    ensures r.visualAngle == NormalizeAngle(angle)
    ensures r.vx == it.magnitude * o.cos(r.visualAngle) && r.vy == it.magnitude * o.sin(r.visualAngle)
  {
    var a := NormalizeAngle(angle);
    it.(visualAngle := a, vx := it.magnitude * o.cos(a), vy := it.magnitude * o.sin(a))
  }

  /** The inner `cluster.forEach((vec, idx) => ...)` from member `idx` on:
      member k is redrawn along `targets[k]`. */
  function PlaceFrom(o: Oracle, items: seq<Item>, c: seq<nat>, targets: seq<real>, idx: nat): (out: seq<Item>)
    requires InBounds(c, |items|) && |targets| == |c| && idx <= |c|
    ensures |out| == |items|
    decreases |c| - idx
  {
    if idx == |c| then items
    else
      var p := c[idx];
      PlaceFrom(o, items[p := Place(o, items[p], targets[idx])], c, targets, idx + 1)
  }

  /** What `PlaceFrom` does: each member from `idx` on is redrawn along its own
      target; every other position is left alone. */
  lemma {:induction false} PlaceFromSpec(o: Oracle, items: seq<Item>, c: seq<nat>, targets: seq<real>, idx: nat)
    requires InBounds(c, |items|) && |targets| == |c| && idx <= |c|
    requires forall k1, k2 :: 0 <= k1 < k2 < |c| ==> c[k1] != c[k2]
    ensures forall k :: idx <= k < |c| ==> PlaceFrom(o, items, c, targets, idx)[c[k]] == Place(o, items[c[k]], targets[k])
    ensures forall p :: 0 <= p < |items| && p !in c[idx..] ==> PlaceFrom(o, items, c, targets, idx)[p] == items[p]
    decreases |c| - idx
  {
    if idx < |c| {
      var p := c[idx];
      var items' := items[p := Place(o, items[p], targets[idx])];
      var out := PlaceFrom(o, items', c, targets, idx + 1);
      PlaceFromSpec(o, items', c, targets, idx + 1);
      forall k | idx <= k < |c|
        ensures out[c[k]] == Place(o, items[c[k]], targets[k])
      {
        if k > idx {
          assert c[k] != c[idx];
        } else {
          assert p !in c[idx + 1..] by {
            forall k' | idx + 1 <= k' < |c| ensures c[k'] != p {
              assert c[k'] != c[idx];
            }
          }
        }
      }
      forall q | 0 <= q < |items| && q !in c[idx..]
        ensures out[q] == items[q]
      {
        assert c[idx..][0] == p;
        assert c[idx + 1..] == c[idx..][1..];
      }
    }
  }

  /** The targets of a cluster: the progression `minSep` apart centred on the
      mean of its original angles. */
  function Targets(items: seq<Item>, c: seq<nat>, minSep: real): (ts: seq<real>)
    requires InBounds(c, |items|) && |c| >= 1
    ensures |ts| == |c|
  {
    var mean := Sum(ClusterAngles(items, c)) / |c| as real;
    seq(|c|, k requires 0 <= k < |c| => SpreadAngle(mean, |c|, k, minSep))
  }

  /** One cluster's turn in `clusters.forEach`: clusters of fewer than two
      members are skipped. */
  function SpreadCluster(o: Oracle, items: seq<Item>, c: seq<nat>, minSep: real): (out: seq<Item>)
    requires InBounds(c, |items|)
    ensures |out| == |items|
  {
    if |c| < 2 then items
    else PlaceFrom(o, items, c, Targets(items, c, minSep), 0)
  }

  /** `clusters.forEach(...)` over every cluster, in order. */
  function Respread(o: Oracle, items: seq<Item>, cs: seq<seq<nat>>, minSep: real): (out: seq<Item>)
    requires forall j :: 0 <= j < |cs| ==> InBounds(cs[j], |items|)
    ensures |out| == |items|
    decreases |cs|
  {
    if |cs| == 0 then items
    else Respread(o, SpreadCluster(o, items, cs[0], minSep), cs[1..], minSep)
  }

  /** The redrawing of a cluster: members get the progression centred on the
      cluster's mean; a singleton keeps its item. */
  function Redrawn(o: Oracle, items: seq<Item>, c: seq<nat>, k: nat, minSep: real): Item
    requires InBounds(c, |items|) && k < |c|
  {
    if |c| < 2 then items[c[k]] else Place(o, items[c[k]], Targets(items, c, minSep)[k])
  }

  lemma SpreadClusterSpec(o: Oracle, items: seq<Item>, c: seq<nat>, minSep: real)
    requires InBounds(c, |items|)
    requires forall k1, k2 :: 0 <= k1 < k2 < |c| ==> c[k1] != c[k2]
    ensures forall k :: 0 <= k < |c| ==> SpreadCluster(o, items, c, minSep)[c[k]] == Redrawn(o, items, c, k, minSep)
    ensures forall p :: 0 <= p < |items| && p !in c ==> SpreadCluster(o, items, c, minSep)[p] == items[p]
    ensures forall p :: 0 <= p < |items| ==> SameBase(SpreadCluster(o, items, c, minSep)[p], items[p])
  {
    if |c| >= 2 {
      PlaceFromSpec(o, items, c, Targets(items, c, minSep), 0);
      assert c[0..] == c;
    }
  }

  /** The fields spreading never touches. */
  predicate SameBase(a: Item, b: Item) {
    a.id == b.id && a.x == b.x && a.y == b.y && a.originalAngle == b.originalAngle && a.magnitude == b.magnitude
  }

  /** Spreading the clusters one after another gives every member of every
      cluster its own redrawing, computed from the items as they were before. */
  lemma {:induction false} RespreadSpec(o: Oracle, items: seq<Item>, cs: seq<seq<nat>>, minSep: real)
    requires forall j :: 0 <= j < |cs| ==> InBounds(cs[j], |items|)
    requires Disjoint(cs)
    ensures forall j, k :: 0 <= j < |cs| && 0 <= k < |cs[j]| ==>
      Respread(o, items, cs, minSep)[cs[j][k]] == Redrawn(o, items, cs[j], k, minSep)
    ensures forall p :: 0 <= p < |items| && (forall j, k :: 0 <= j < |cs| && 0 <= k < |cs[j]| ==> cs[j][k] != p) ==>
      Respread(o, items, cs, minSep)[p] == items[p]
    decreases |cs|
  {
    if |cs| > 0 {
      var c := cs[0];
      var items' := SpreadCluster(o, items, c, minSep);
      SpreadClusterSpec(o, items, c, minSep);
      var rest := cs[1..];
      assert Disjoint(rest) by {
        assert forall j :: 0 <= j < |rest| ==> rest[j] == cs[j + 1];
      }
      RespreadSpec(o, items', rest, minSep);
      forall j, k | 0 <= j < |cs| && 0 <= k < |cs[j]|
        ensures Respread(o, items, cs, minSep)[cs[j][k]] == Redrawn(o, items, cs[j], k, minSep)
      {
        if j == 0 {
          forall j', k' | 0 <= j' < |rest| && 0 <= k' < |rest[j']| ensures rest[j'][k'] != cs[0][k] {
            assert rest[j'] == cs[j' + 1];
          }
        } else {
          assert rest[j - 1] == cs[j];
          RedrawnSameBase(o, items, items', cs[j], k, minSep);
        }
      }
    }
  }

  /** Redrawing depends only on the fields spreading never touches. */
  lemma RedrawnSameBase(o: Oracle, items: seq<Item>, items': seq<Item>, c: seq<nat>, k: nat, minSep: real)
    requires |items| == |items'| && InBounds(c, |items|) && k < |c|
    requires forall p :: 0 <= p < |items| ==> SameBase(items'[p], items[p])
    requires forall k' :: 0 <= k' < |c| ==> items'[c[k']] == items[c[k']]
    ensures Redrawn(o, items', c, k, minSep) == Redrawn(o, items, c, k, minSep)
  {
    assert ClusterAngles(items', c) == ClusterAngles(items, c);
  }

  // ---------------------------------------------------------------------------
  // The whole layout

  function Keys(items: seq<Item>): (keys: seq<real>)
    ensures |keys| == |items|
    ensures forall i :: 0 <= i < |items| ==> keys[i] == items[i].originalAngle
  {
    seq(|items|, i requires 0 <= i < |items| => items[i].originalAngle)
  }

  /** The items in the order the layout returns them. */
  function Sorted(o: Oracle, vs: seq<Input>): (items: seq<Item>)
    ensures |items| == |vs|
    ensures SortedByAngle(items)
    ensures multiset(items) == multiset(MakeItems(o, vs))
  {
    SortByAngle(MakeItems(o, vs))
  }

  /** The clusters of a non-empty input, after the wrap check. */
  function Clusters(o: Oracle, vs: seq<Input>, minSep: real): (m: Clustering)
    requires |vs| >= 1
    ensures forall j :: 0 <= j < |m.clusters| ==> InBounds(m.clusters[j], |vs|)
    ensures Disjoint(m.clusters)
    ensures forall p :: 0 <= p < |vs| ==> Covered(m.clusters, p)
    ensures m.lifted.Some? ==> m.lifted.value.lo == 0 && m.lifted.value.hi <= |vs|
    ensures m.lifted.Some? ==> LiftedIntoLast(m)
  {
    var keys := Keys(Sorted(o, vs));
    var (closed, current) := Group(keys, minSep);
    ClusteringWellFormed(keys, closed, current, minSep);
    WrapMerge(keys, closed, current, minSep)
  }

  /** `calculateVisualLayout`. */
  function Layout(o: Oracle, vs: seq<Input>, minSep: real): (out: seq<Item>)
    ensures |vs| == 0 ==> out == []
    ensures |out| == |vs|
  {
    if |vs| == 0 then []
    else
      var items := Sorted(o, vs);
      var m := Clusters(o, vs, minSep);
      var lifted := if m.lifted.Some? then Lift(items, m.lifted.value) else items;
      Respread(o, lifted, m.clusters, minSep)
  }

  /** A merge puts the lifted run into the last cluster, which has two or more
      members. */
  predicate LiftedIntoLast(m: Clustering)
    requires m.lifted.Some?
  {
    && |m.clusters| >= 1
    && |m.clusters[|m.clusters| - 1]| >= 2
    && EndsWith(m.clusters[|m.clusters| - 1], Positions(m.lifted.value))
  }

  predicate EndsWith(s: seq<nat>, t: seq<nat>) {
    |t| <= |s| && s[|s| - |t|..] == t
  }

  /** Clusters that index into n items, never share a position, and list every
      position. */
  predicate Partition(cs: seq<seq<nat>>, n: nat) {
    && (forall j :: 0 <= j < |cs| ==> InBounds(cs[j], n))
    && Disjoint(cs)
    && (forall p :: 0 <= p < n ==> Covered(cs, p))
  }

  /** The clusters the runs stand for partition the positions; a merge puts the
      lifted run into a cluster of two or more. */
  lemma ClusteringWellFormed(keys: seq<real>, closed: seq<Run>, current: Run, minSep: real)
    requires |keys| >= 1 && GroupedBy(closed + [current], keys, minSep)
    ensures var m := WrapMerge(keys, closed, current, minSep);
      && Partition(m.clusters, |keys|)
      && (m.lifted.Some? ==> m.lifted.value.lo == 0 && m.lifted.value.hi <= |keys| && LiftedIntoLast(m))
  {
    var runs := closed + [current];
    if MergeFires(keys, closed, minSep) {
      assert runs[0] == closed[0];
      MergedPartition(runs, |keys|);
      assert runs[1..|runs| - 1] == closed[1..];
    } else {
      RunsPartition(runs, |keys|);
    }
  }

  /** Without a merge, the runs' clusters partition the positions. */
  lemma RunsPartition(runs: seq<Run>, n: nat)
    requires Tiles(runs, n)
    ensures Partition(RunClusters(runs), n)
  {
    var cs := RunClusters(runs);
    TilesCover(runs, n);
    forall j1, j2, k1, k2 | 0 <= j1 < j2 < |cs| && 0 <= k1 < |cs[j1]| && 0 <= k2 < |cs[j2]|
      ensures cs[j1][k1] != cs[j2][k2]
    {
      assert runs[j1].hi <= runs[j2].lo;
    }
    forall j | 0 <= j < |cs| ensures InBounds(cs[j], n) {
      assert runs[j].hi <= runs[|runs| - 1].hi;
    }
    forall p | 0 <= p < n
      ensures Covered(cs, p)
    {
      assert InSomeRun(runs, p);
      var j :| 0 <= j < |runs| && runs[j].lo <= p < runs[j].hi;
      assert cs[j][p - runs[j].lo] == p;
    }
  }

  /** With a merge, the middle runs' clusters and the last run followed by the
      first partition the positions. */
  lemma MergedPartition(runs: seq<Run>, n: nat)
    requires Tiles(runs, n) && |runs| >= 3
    ensures var cs := RunClusters(runs[1..|runs| - 1]) + [Positions(runs[|runs| - 1]) + Positions(runs[0])];
      Partition(cs, n) && |cs[|cs| - 1]| >= 2 && EndsWith(cs[|cs| - 1], Positions(runs[0]))
  {
    var first := runs[0];
    var current := runs[|runs| - 1];
    var mid := runs[1..|runs| - 1];
    var merged := Positions(current) + Positions(first);
    var cs := RunClusters(mid) + [merged];
    MiddleRuns(runs, n);
    MergedDisjoint(cs, mid, first, current, n);
    MergedCovers(runs, n);
    assert cs[|mid|] == merged;
    assert merged[|merged| - |Positions(first)|..] == Positions(first);
  }

  /** The middle runs lie between the first and the last, in order. */
  lemma MiddleRuns(runs: seq<Run>, n: nat)
    requires Tiles(runs, n) && |runs| >= 3
    ensures var mid := runs[1..|runs| - 1];
      && (forall j :: 0 <= j < |mid| ==> runs[0].hi <= mid[j].lo < mid[j].hi <= runs[|runs| - 1].lo)
      && (forall j1, j2 :: 0 <= j1 < j2 < |mid| ==> mid[j1].hi <= mid[j2].lo)
      && runs[0].lo == 0 && runs[0].lo < runs[0].hi <= runs[|runs| - 1].lo < runs[|runs| - 1].hi == n
  {
    var mid := runs[1..|runs| - 1];
    assert forall j :: 0 <= j < |mid| ==> mid[j] == runs[j + 1];
    forall j | 0 <= j < |mid|
      ensures runs[0].hi <= mid[j].lo && mid[j].hi <= runs[|runs| - 1].lo
    {
      assert runs[0].hi <= runs[j + 1].lo;
      assert runs[j + 1].hi <= runs[|runs| - 1].lo;
    }
    assert runs[0].hi <= runs[|runs| - 1].lo;
  }

  /** Every position is in the merged clusters. */
  lemma MergedCovers(runs: seq<Run>, n: nat)
    requires Tiles(runs, n) && |runs| >= 3
    ensures var cs := RunClusters(runs[1..|runs| - 1]) + [Positions(runs[|runs| - 1]) + Positions(runs[0])];
      forall p :: 0 <= p < n ==> Covered(cs, p)
  {
    var first := runs[0];
    var current := runs[|runs| - 1];
    var mid := runs[1..|runs| - 1];
    var merged := Positions(current) + Positions(first);
    var cs := RunClusters(mid) + [merged];
    TilesCover(runs, n);
    assert cs[|mid|] == merged;
    forall p | 0 <= p < n
      ensures Covered(cs, p)
    {
      assert InSomeRun(runs, p);
      var j :| 0 <= j < |runs| && runs[j].lo <= p < runs[j].hi;
      if j == 0 {
        assert merged[|Positions(current)| + p] == p;
      } else if j == |runs| - 1 {
        assert merged[p - current.lo] == p;
      } else {
        assert mid[j - 1] == runs[j];
        assert cs[j - 1] == Positions(mid[j - 1]);
        assert cs[j - 1][p - mid[j - 1].lo] == p;
      }
    }
  }

  lemma MergedDisjoint(cs: seq<seq<nat>>, mid: seq<Run>, first: Run, current: Run, n: nat)
    requires first.lo == 0 && first.lo < first.hi <= current.lo < current.hi == n
    requires forall j :: 0 <= j < |mid| ==> first.hi <= mid[j].lo < mid[j].hi <= current.lo
    requires forall j1, j2 :: 0 <= j1 < j2 < |mid| ==> mid[j1].hi <= mid[j2].lo
    requires cs == RunClusters(mid) + [Positions(current) + Positions(first)]
    ensures Disjoint(cs) && forall j :: 0 <= j < |cs| ==> InBounds(cs[j], n)
  {
    var merged := Positions(current) + Positions(first);
    assert forall k :: 0 <= k < |Positions(current)| ==> current.lo <= merged[k] < n;
    assert forall k :: |Positions(current)| <= k < |merged| ==> merged[k] < first.hi;
    forall j1, j2, k1, k2 | 0 <= j1 < j2 < |cs| && 0 <= k1 < |cs[j1]| && 0 <= k2 < |cs[j2]|
      ensures cs[j1][k1] != cs[j2][k2]
    {
      assert cs[j1] == Positions(mid[j1]);
      if j2 < |mid| {
        assert mid[j1].hi <= mid[j2].lo;
        assert cs[j2] == Positions(mid[j2]);
      }
    }
    forall j, k1, k2 | 0 <= j < |cs| && 0 <= k1 < k2 < |cs[j]|
      ensures cs[j][k1] != cs[j][k2]
    {
      if j < |mid| {
        assert cs[j] == Positions(mid[j]);
      }
    }
    forall j | 0 <= j < |cs| ensures InBounds(cs[j], n) {
      if j < |mid| {
        assert cs[j] == Positions(mid[j]);
      }
    }
  }

  /** Some cluster lists position p. */
  predicate Covered(cs: seq<seq<nat>>, p: nat) {
    exists j :: 0 <= j < |cs| && p in cs[j]
  }

  predicate InSomeRun(runs: seq<Run>, p: nat) {
    exists j :: 0 <= j < |runs| && runs[j].lo <= p < runs[j].hi
  }

  /** Tiling runs place every position in some run. */
  lemma {:induction false} TilesCover(runs: seq<Run>, n: nat)
    requires Tiles(runs, n)
    ensures forall p :: 0 <= p < n ==> InSomeRun(runs, p)
    decreases |runs|
  {
    if |runs| > 1 {
      var init := runs[..|runs| - 1];
      var last := runs[|runs| - 1];
      assert Tiles(init, last.lo);
      TilesCover(init, last.lo);
      forall p | 0 <= p < n
        ensures InSomeRun(runs, p)
      {
        if p < last.lo {
          assert InSomeRun(init, p);
          var j :| 0 <= j < |init| && init[j].lo <= p < init[j].hi;
          assert runs[j] == init[j];
        } else {
          assert runs[|runs| - 1].lo <= p < runs[|runs| - 1].hi;
        }
      }
    } else {
      forall p | 0 <= p < n
        ensures InSomeRun(runs, p)
      {
        assert runs[0].lo <= p < runs[0].hi;
      }
    }
  }

  // ---------------------------------------------------------------------------
  // What the layout promises

  /** The items a layout starts from, with the wrap merge's lift applied. */
  function Lifted(o: Oracle, vs: seq<Input>, minSep: real): (items: seq<Item>)
    requires |vs| >= 1
    ensures |items| == |vs|
  {
    var m := Clusters(o, vs, minSep);
    if m.lifted.Some? then Lift(Sorted(o, vs), m.lifted.value) else Sorted(o, vs)
  }

  /** Whether sorted position p belongs to the first cluster that the wrap merge
      moved behind the last one. */
  predicate IsLifted(o: Oracle, vs: seq<Input>, minSep: real, p: nat)
    requires |vs| >= 1
  {
    var m := Clusters(o, vs, minSep);
    m.lifted.Some? && m.lifted.value.lo <= p < m.lifted.value.hi
  }

  lemma {:induction false} RespreadSameBase(o: Oracle, items: seq<Item>, cs: seq<seq<nat>>, minSep: real)
    requires forall j :: 0 <= j < |cs| ==> InBounds(cs[j], |items|)
    requires Disjoint(cs)
    ensures forall p :: 0 <= p < |items| ==> SameBase(Respread(o, items, cs, minSep)[p], items[p])
    decreases |cs|
  {
    if |cs| > 0 {
      var items' := SpreadCluster(o, items, cs[0], minSep);
      SpreadClusterSpec(o, items, cs[0], minSep);
      assert Disjoint(cs[1..]) by {
        assert forall j :: 0 <= j < |cs[1..]| ==> cs[1..][j] == cs[j + 1];
      }
      RespreadSameBase(o, items', cs[1..], minSep);
    }
  }

  /** Every input comes back exactly once, in ascending order of its angle, with
      its id, coordinates and magnitude unchanged; only the members of a merged
      first cluster report their angle one full turn higher. */
  lemma LayoutKeepsItems(o: Oracle, vs: seq<Input>, minSep: real)
    requires |vs| >= 1
    ensures var out := Layout(o, vs, minSep);
      var sorted := Sorted(o, vs);
      && |out| == |vs|
      && SortedByAngle(sorted)
      && multiset(sorted) == multiset(MakeItems(o, vs))
      && forall p :: 0 <= p < |vs| ==>
        && out[p].id == sorted[p].id && out[p].x == sorted[p].x && out[p].y == sorted[p].y
        && out[p].magnitude == sorted[p].magnitude
        && out[p].originalAngle == sorted[p].originalAngle + (if IsLifted(o, vs, minSep, p) then 360.0 else 0.0)
  {
    var m := Clusters(o, vs, minSep);
    var lifted := Lifted(o, vs, minSep);
    LayoutIsRespread(o, vs, minSep);
    RespreadSameBase(o, lifted, m.clusters, minSep);
    LiftedShape(o, vs, minSep);
  }

  lemma LayoutIsRespread(o: Oracle, vs: seq<Input>, minSep: real)
    requires |vs| >= 1
    ensures Layout(o, vs, minSep) == Respread(o, Lifted(o, vs, minSep), Clusters(o, vs, minSep).clusters, minSep)
  {
  }

  /** The lift moves exactly the lifted positions up by a full turn. */
  lemma LiftedShape(o: Oracle, vs: seq<Input>, minSep: real)
    requires |vs| >= 1
    ensures var sorted := Sorted(o, vs);
      forall p :: 0 <= p < |vs| ==>
        Lifted(o, vs, minSep)[p] ==
          (if IsLifted(o, vs, minSep, p) then sorted[p].(originalAngle := sorted[p].originalAngle + 360.0) else sorted[p])
  {
  }

  /** Every member of every cluster is redrawn from the lifted items: spread
      around its cluster's mean when the cluster has two or more members, left
      as it was otherwise. */
  lemma LayoutRedraws(o: Oracle, vs: seq<Input>, minSep: real)
    requires |vs| >= 1
    ensures var m := Clusters(o, vs, minSep);
      forall j, k :: 0 <= j < |m.clusters| && 0 <= k < |m.clusters[j]| ==>
        Layout(o, vs, minSep)[m.clusters[j][k]] == Redrawn(o, Lifted(o, vs, minSep), m.clusters[j], k, minSep)
  {
    var m := Clusters(o, vs, minSep);
    RespreadSpec(o, Lifted(o, vs, minSep), m.clusters, minSep);
  }

  /** A vector alone in its cluster is drawn where it points: its visual angle
      is its original angle and its drawn components are its own. */
  lemma LayoutSingletonUnchanged(o: Oracle, vs: seq<Input>, minSep: real, j: nat)
    requires |vs| >= 1
    requires j < |Clusters(o, vs, minSep).clusters| && |Clusters(o, vs, minSep).clusters[j]| == 1
    ensures var p := Clusters(o, vs, minSep).clusters[j][0];
      var it := Layout(o, vs, minSep)[p];
      it == Sorted(o, vs)[p] && it.visualAngle == it.originalAngle && it.vx == it.x && it.vy == it.y
  {
    var m := Clusters(o, vs, minSep);
    var p := m.clusters[j][0];
    LayoutRedraws(o, vs, minSep);
    var sorted := Sorted(o, vs);
    if m.lifted.Some? {
      SingletonNotLifted(m, j, p);
    }
    assert Lifted(o, vs, minSep)[p] == sorted[p];
    assert sorted[p] in multiset(MakeItems(o, vs));
    var i :| 0 <= i < |vs| && MakeItems(o, vs)[i] == sorted[p];
  }

  /** A cluster of one never holds a lifted position: those end the last
      cluster, which has two or more members. */
  lemma SingletonNotLifted(m: Clustering, j: nat, q: nat)
    requires m.lifted.Some? && LiftedIntoLast(m) && Disjoint(m.clusters)
    requires j < |m.clusters| && |m.clusters[j]| == 1
    ensures m.lifted.value.lo <= q < m.lifted.value.hi ==> q != m.clusters[j][0]
  {
    var r := m.lifted.value;
    if r.lo <= q < r.hi {
      var last := |m.clusters| - 1;
      var lastC := m.clusters[last];
      var ps := Positions(r);
      var idx := |lastC| - |ps| + (q - r.lo);
      assert lastC[idx] == ps[q - r.lo] == q;
      assert j < last;
      assert m.clusters[j][0] != m.clusters[last][idx];
    }
  }

  /** The targets of a cluster of two or more are exactly `minSep` apart and
      have the same sum, hence the same mean, as the cluster's angles. */
  lemma TargetsCentred(items: seq<Item>, c: seq<nat>, minSep: real)
    requires InBounds(c, |items|) && |c| >= 2
    ensures var ts := Targets(items, c, minSep);
      && (forall k :: 0 <= k < |c| - 1 ==> ts[k + 1] - ts[k] == minSep)
      && Sum(ts) == Sum(ClusterAngles(items, c))
  {
    var ts := Targets(items, c, minSep);
    var n := |c| as real;
    var mean := Sum(ClusterAngles(items, c)) / n;
    var start := mean - ((|c| - 1) as real * minSep) / 2.0;
    forall k | 0 <= k < |c| ensures ts[k] == start + k as real * minSep {
    }
    ProgressionSum(ts, start, minSep);
    assert Sum(ts) == n * start + n * (n - 1.0) / 2.0 * minSep;
    assert n * start == n * mean - n * (n - 1.0) / 2.0 * minSep;
    assert n * mean == Sum(ClusterAngles(items, c));
  }

  /** The sum of an arithmetic progression. */
  lemma {:induction false} ProgressionSum(xs: seq<real>, a: real, d: real)
    requires forall k :: 0 <= k < |xs| ==> xs[k] == a + k as real * d
    ensures Sum(xs) == |xs| as real * a + |xs| as real * (|xs| as real - 1.0) / 2.0 * d
  {
    if |xs| > 0 {
      var init := xs[..|xs| - 1];
      ProgressionSum(init, a, d);
      var m := |init| as real;
      assert Sum(xs) == m * a + m * (m - 1.0) / 2.0 * d + (a + m * d);
      assert m * (m - 1.0) / 2.0 * d + m * d == (m + 1.0) * m / 2.0 * d;
    }
  }

  /** Two vectors at 10° and 12° with `minSep` 6 are fanned out to 8° and 14°. */
  lemma SpreadExample()
    ensures var items := [Item(Index(0), 0.0, 0.0, 10.0, 10.0, 1.0, 0.0, 0.0),
                          Item(Index(1), 0.0, 0.0, 12.0, 12.0, 1.0, 0.0, 0.0)];
      Targets(items, [0, 1], 6.0) == [8.0, 14.0]
  {
    var items := [Item(Index(0), 0.0, 0.0, 10.0, 10.0, 1.0, 0.0, 0.0),
                  Item(Index(1), 0.0, 0.0, 12.0, 12.0, 1.0, 0.0, 0.0)];
    var xs := ClusterAngles(items, [0, 1]);
    assert xs == [10.0, 12.0];
    assert Sum(xs) == 22.0 by {
      assert xs[..1] == [10.0];
      assert [10.0][..0] == [];
    }
  }
}
