/** Splitting a list of n exercises into pages of at most `per` items, the way
    the PDF generators do it: `generatePDF` (utils/pdfGenerator.ts) walks the
    list with `for (i = 0; i < n; i += perPage)` and `slice(i, i + perPage)` in
    full mode, and both `generatePDF` and `generateTrigoPDF` (utils/trigoPdf.ts)
    count `Math.ceil(n / itemsPerPage)` pages in simple mode and stop a page
    early at the end of the list.
 */
module Pagination {
  import opened Numeric

  /** The indices lo, lo + 1, ..., hi - 1; empty when hi <= lo. */
  function Range(lo: nat, hi: nat): (r: seq<nat>)
    ensures |r| == if lo < hi then hi - lo else 0
    ensures forall k :: 0 <= k < |r| ==> r[k] == lo + k
    decreases hi - lo
  {
    if lo >= hi then [] else [lo] + Range(lo + 1, hi)
  }

  /** Two adjacent ranges join into one. */
  lemma RangeSplit(lo: nat, mid: nat, hi: nat)
    requires lo <= mid <= hi
    ensures Range(lo, mid) + Range(mid, hi) == Range(lo, hi)
  {
    assert |Range(lo, mid) + Range(mid, hi)| == |Range(lo, hi)|;
    forall k | 0 <= k < hi - lo
      ensures (Range(lo, mid) + Range(mid, hi))[k] == Range(lo, hi)[k]
    {
      if k < mid - lo {
        assert (Range(lo, mid) + Range(mid, hi))[k] == Range(lo, mid)[k];
      } else {
        assert (Range(lo, mid) + Range(mid, hi))[k] == Range(mid, hi)[k - (mid - lo)];
      }
    }
  }

  /** The pages one after another. */
  function Concat(pages: seq<seq<nat>>): seq<nat> {
    if |pages| == 0 then [] else Concat(pages[..|pages| - 1]) + pages[|pages| - 1]
  }

  lemma ConcatSnoc(pages: seq<seq<nat>>, page: seq<nat>)
    ensures Concat(pages + [page]) == Concat(pages) + page
  {
    assert (pages + [page])[..|pages|] == pages;
  }

  /** `Math.ceil(n / k)` for a natural n and a positive whole k: the fewest
      blocks of k that hold n items. */
  function CeilDiv(n: nat, k: nat): (r: nat)
    requires k > 0
    ensures r * k >= n
    ensures r > 0 ==> (r - 1) * k < n
  {
    var q := (n + k - 1) / k;
    assert q * k + (n + k - 1) % k == n + k - 1;
    q
  }

  /** Multiplying by a non-negative whole number keeps an order. */
  lemma MulMonoInt(m: int, x: int, y: int)
    ensures m >= 0 && x <= y ==> m * x <= m * y
  {
    assert m * y - m * x == m * (y - x);
  }

  /** The two facts of `CeilDiv`'s contract pin it down. */
  lemma CeilDivUnique(n: nat, k: nat, r: nat)
    requires k > 0 && r * k >= n && (r > 0 ==> (r - 1) * k < n)
    ensures r == CeilDiv(n, k)
  {
    var c := CeilDiv(n, k);
    if r < c {
      MulMonoInt(k, r, c - 1);
      assert false;
    } else if r > c {
      MulMonoInt(k, c, r - 1);
      assert false;
    }
  }

  /** The indices page p shows: from p·per, at most per of them, none at or past
      the end of the list. */
  function PageRange(n: nat, per: nat, p: nat): (r: seq<nat>)
    requires per > 0
  {
    Range(p * per, MinInt(n, p * per + per))
  }

  /** The inner loop of simple mode: `for (localIdx = 0; localIdx < per;
      localIdx++)`, leaving it at the first index past the end of the list. */
  method PageItems(n: nat, per: nat, p: nat) returns (idx: seq<nat>)
    requires per > 0
    ensures idx == PageRange(n, per, p)
  {
    idx := [];
    var start := p * per;
    var localIdx := 0;
    while localIdx < per
      invariant 0 <= localIdx <= per
      invariant idx == Range(start, MinInt(n, start + localIdx))
    {
      var exIndex := start + localIdx;
      if exIndex >= n {
        break;
      }
      RangeSplit(start, exIndex, exIndex + 1);
      idx := idx + [exIndex];
      localIdx := localIdx + 1;
    }
  }

  /** Every page before the last ceiling is non-empty and holds at most per
      items. */
  lemma PageSize(n: nat, per: nat, p: nat)
    requires per > 0 && p < CeilDiv(n, per)
    ensures p * per < n
    ensures 1 <= |PageRange(n, per, p)| <= per
  {
    MulMonoInt(per, p, CeilDiv(n, per) - 1);
  }

  /** The outer loop of simple mode: `for (p = 0; p < Math.ceil(n / per); p++)`. */
  method PagesByCount(n: nat, per: nat) returns (pages: seq<seq<nat>>)
    requires per > 0
    ensures |pages| == CeilDiv(n, per)
    ensures forall p :: 0 <= p < |pages| ==> pages[p] == PageRange(n, per, p)
    ensures Concat(pages) == Range(0, n)
  {
    var total := CeilDiv(n, per);
    pages := [];
    var p := 0;
    while p < total
      invariant 0 <= p <= total
      invariant |pages| == p
      invariant forall q :: 0 <= q < p ==> pages[q] == PageRange(n, per, q)
      invariant Concat(pages) == Range(0, MinInt(n, p * per))
    {
      var items := PageItems(n, per, p);
      PageSize(n, per, p);
      assert (p + 1) * per == p * per + per;
      ConcatSnoc(pages, items);
      RangeSplit(0, p * per, MinInt(n, p * per + per));
      pages := pages + [items];
      p := p + 1;
    }
  }

  /** Full mode: `for (i = 0; i < n; i += per)` taking `slice(i, i + per)`. */
  method PagesBySlice(n: nat, per: nat) returns (pages: seq<seq<nat>>)
    requires per > 0
    ensures |pages| == CeilDiv(n, per)
    ensures forall p :: 0 <= p < |pages| ==> pages[p] == PageRange(n, per, p)
    ensures Concat(pages) == Range(0, n)
  {
    pages := [];
    var i := 0;
    while i < n
      invariant i == |pages| * per
      invariant |pages| > 0 ==> (|pages| - 1) * per < n
      invariant forall q :: 0 <= q < |pages| ==> pages[q] == PageRange(n, per, q)
      invariant Concat(pages) == Range(0, MinInt(n, i))
    {
      var slice := Range(i, MinInt(n, i + per));
      assert slice == PageRange(n, per, |pages|);
      ConcatSnoc(pages, slice);
      RangeSplit(0, i, MinInt(n, i + per));
      assert (|pages| + 1) * per == |pages| * per + per;
      pages := pages + [slice];
      i := i + per;
    }
    CeilDivUnique(n, per, |pages|);
  }

  /** The position each item gets from the simple-mode loops: for every page
      up to the ceiling, the places 0, 1, ... in order until the page is full
      or the list ends. Item k lands on page k / per at place k % per. */
  method GridWalk(n: nat, per: nat) returns (at: seq<(nat, nat)>)
    requires per > 0
    ensures |at| == n
    ensures forall k :: 0 <= k < n ==> at[k].0 * per + at[k].1 == k && at[k].1 < per
  {
    var totalPages := CeilDiv(n, per);
    at := [];
    var p := 0;
    while p < totalPages
      invariant 0 <= p <= totalPages
      invariant |at| == MinInt(n, p * per)
      invariant forall k :: 0 <= k < |at| ==> at[k].0 * per + at[k].1 == k && at[k].1 < per
    {
      var localIdx := 0;
      while localIdx < per
        invariant 0 <= localIdx <= per
        invariant |at| == MinInt(n, p * per + localIdx)
        invariant forall k :: 0 <= k < |at| ==> at[k].0 * per + at[k].1 == k && at[k].1 < per
      {
        var exIndex := p * per + localIdx;
        if exIndex >= n {
          break;
        }
        at := at + [(p, localIdx)];
        localIdx := localIdx + 1;
      }
      assert (p + 1) * per == p * per + per;
      p := p + 1;
    }
  }

  /** A position (page, place) with page · per + place == k is the place
      pagination gives item k: the page exists and lists k there. */
  lemma PlaceOnPage(n: nat, per: nat, k: nat, page: nat, place: nat)
    requires per > 0 && k < n && page * per + place == k && place < per
    ensures page < CeilDiv(n, per)
    ensures place < |PageRange(n, per, page)| && PageRange(n, per, page)[place] == k
  {
    if page >= CeilDiv(n, per) {
      MulMonoInt(per, CeilDiv(n, per), page);
      assert false;
    }
  }

  /** page · per + place with place < per is k exactly when page and place
      are k's quotient and remainder. */
  lemma PageOfPlace(per: nat, k: nat, page: nat, place: nat)
    requires per > 0 && page * per + place == k && place < per
    ensures page == k / per && place == k % per
  {
    var q := k / per;
    assert q * per + k % per == k;
    WholeRowsApart(per, page, q);
  }

  /** Two different page numbers start at least a whole page apart. */
  lemma WholeRowsApart(per: nat, a: nat, b: nat)
    ensures a < b ==> a * per + per <= b * per
    ensures b < a ==> b * per + per <= a * per
  {
    if a < b {
      assert (a + 1) * per == a * per + per;
      MulMonoInt(per, a + 1, b);
    } else if b < a {
      assert (b + 1) * per == b * per + per;
      MulMonoInt(per, b + 1, a);
    }
  }

  /** Both loops produce the same pages. */
  lemma SamePlans(n: nat, per: nat, byCount: seq<seq<nat>>, bySlice: seq<seq<nat>>)
    requires per > 0
    requires |byCount| == CeilDiv(n, per) && forall p :: 0 <= p < |byCount| ==> byCount[p] == PageRange(n, per, p)
    requires |bySlice| == CeilDiv(n, per) && forall p :: 0 <= p < |bySlice| ==> bySlice[p] == PageRange(n, per, p)
    ensures byCount == bySlice
  {
  }

  /** Item k sits on page k / per, at position k % per. */
  lemma PageHolds(n: nat, per: nat, k: nat)
    requires per > 0 && k < n
    ensures k / per < CeilDiv(n, per)
    ensures k % per < |PageRange(n, per, k / per)|
    ensures PageRange(n, per, k / per)[k % per] == k
  {
    var p := k / per;
    assert p * per + k % per == k;
    if p >= CeilDiv(n, per) {
      MulMonoInt(per, CeilDiv(n, per), p);
      assert false;
    }
  }
}
