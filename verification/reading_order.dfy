/** Reading-order post-processing for positioned PDF text items
    (modules/reading-order.js): a spatial sort, column detection from a
    histogram of x positions, bounding-box overlap resolution, section
    hierarchy, relocation of rotated stamps and paragraph detection.
    Coordinates are integers. */
module ReadingOrder {
  import opened Wrappers
  import opened Seqs
  import opened Strings
  import Regex

  /** Vertical distance under which two items share a line. */
  const Tolerance: int := 5

  /** A positioned text item. A coordinate or size the item lacks is 0,
      which is how `item.x || 0` reads it; `rotated` is the `_rotated` mark. */
  datatype Item = Item(text: string, x: int, y: int, width: int, height: int,
                       fontSize: int, fontWeight: int,
                       transform: Option<seq<real>>, rotated: bool)

  /** The page geometry's width, `None` when there is no geometry. */
  type Geometry = Option<int>

  predicate HasWidth(g: Geometry) {
    g.Some? && g.value != 0
  }

  function Abs(n: int): nat {
    if n < 0 then -n else n
  }

  // ---------------------------------------------------------------------
  // spatialSort

  /** The comparator of `spatialSort`: negative when `a` goes first. Items
      on the same line (vertical distance under the tolerance) go left to
      right, other items top to bottom (PDF y grows upwards). */
  function Compare(a: Item, b: Item): int {
    if Abs(a.y - b.y) < Tolerance then a.x - b.x else b.y - a.y
  }

  lemma CompareAntisymmetric(a: Item, b: Item)
    ensures Compare(a, b) == -Compare(b, a)
  {}

  function Point(x: int, y: int): Item {
    Item("", x, y, 0, 0, 0, 0, None, false)
  }

  /** The comparator is not transitive: three items, each within the
      tolerance of the next, form a cycle. No total order underlies it. */
  lemma CompareCycle()
    ensures Compare(Point(0, 0), Point(5, 4)) < 0
    ensures Compare(Point(5, 4), Point(10, 8)) < 0
    ensures Compare(Point(10, 8), Point(0, 0)) < 0
  {}

  /** Insert `x` before the first element it does not follow. */
  function InsertBy(x: Item, s: seq<Item>): (r: seq<Item>)
    ensures multiset(r) == multiset(s) + multiset{x}
    ensures |r| == |s| + 1
    ensures r[0] == x || (|s| > 0 && r[0] == s[0])
  {
    if |s| == 0 || Compare(x, s[0]) <= 0 then [x] + s
    else
      assert s == [s[0]] + s[1..];
      [s[0]] + InsertBy(x, s[1..])
  }

  /** `spatialSort`: a sort of a copy of the items under `Compare`. */
  function SpatialSort(items: seq<Item>): (r: seq<Item>)
    ensures multiset(r) == multiset(items)
    ensures |r| == |items|
  {
    if |items| == 0 then []
    else
      assert items == [items[0]] + items[1..];
      InsertBy(items[0], SpatialSort(items[1..]))
  }

  /** Every item is in order with its successor. */
  predicate LocallyOrdered(s: seq<Item>) {
    forall i :: 0 <= i && i + 1 < |s| ==> Compare(s[i], s[i + 1]) <= 0
  }

  lemma {:induction false} InsertByOrdered(x: Item, s: seq<Item>)
    requires LocallyOrdered(s)
    ensures LocallyOrdered(InsertBy(x, s))
  {
    if |s| > 0 && Compare(x, s[0]) > 0 {
      var tail := s[1..];
      assert LocallyOrdered(tail) by {
        forall i | 0 <= i && i + 1 < |tail|
          ensures Compare(tail[i], tail[i + 1]) <= 0
        {
          assert tail[i] == s[i + 1] && tail[i + 1] == s[i + 2];
        }
      }
      InsertByOrdered(x, tail);
      var rest := InsertBy(x, tail);
      assert Compare(s[0], rest[0]) <= 0 by {
        if rest[0] == x {
          CompareAntisymmetric(x, s[0]);
        } else {
          assert rest[0] == s[1];
        }
      }
      var r := InsertBy(x, s);
      assert r == [s[0]] + rest;
      forall i | 0 <= i && i + 1 < |r|
        ensures Compare(r[i], r[i + 1]) <= 0
      {
        if i > 0 {
          assert r[i] == rest[i - 1] && r[i + 1] == rest[i];
        }
      }
    }
  }

  /** Whatever the order of equal-line items, the sorted output has each
      item in order with its successor. */
  lemma {:induction false} SpatialSortOrdered(items: seq<Item>)
    ensures LocallyOrdered(SpatialSort(items))
  {
    if |items| > 0 {
      SpatialSortOrdered(items[1..]);
      InsertByOrdered(items[0], SpatialSort(items[1..]));
    }
  }

  // ---------------------------------------------------------------------
  // detectColumns / findGaps

  /** `histogram.get(x) || 0`. */
  function Get(h: map<int, nat>, x: int): nat {
    if x in h then h[x] else 0
  }

  /** The number of items at each x position. */
  function Histogram(items: seq<Item>): map<int, nat> {
    if |items| == 0 then map[]
    else
      var h := Histogram(items[1..]);
      h[items[0].x := Get(h, items[0].x) + 1]
  }

  function AtX(x: int): Item -> bool {
    (it: Item) => it.x == x
  }

  lemma {:induction false} HistogramCounts(items: seq<Item>, x: int)
    ensures Get(Histogram(items), x) == CountIf(AtX(x), items)
  {
    if |items| > 0 {
      HistogramCounts(items[1..], x);
    }
  }

  datatype Gap = Gap(start: int, end: int, width: int)

  /** No item stands at any position of [s, e). */
  ghost predicate ZeroRun(h: map<int, nat>, s: int, e: int) {
    forall k :: s <= k < e ==> Get(h, k) == 0
  }

  /** [s, e) is a whole empty run inside the page that ends at an occupied
      position before the page's right edge. */
  ghost predicate MaximalRun(h: map<int, nat>, width: int, s: int, e: int) {
    0 <= s < e < width && ZeroRun(h, s, e) && Get(h, e) > 0
    && (s == 0 || Get(h, s - 1) > 0)
  }

  /** `gapWidth > width * 0.1`, in exact tenths. */
  predicate Wide(n: int, width: int) {
    10 * n > width
  }

  ghost predicate IsGap(h: map<int, nat>, width: int, g: Gap) {
    MaximalRun(h, width, g.start, g.end) && g.width == g.end - g.start
    && Wide(g.width, width)
  }

  /** Strictly increasing, non-empty, pairwise separated gaps. */
  predicate SortedGaps(gaps: seq<Gap>) {
    (forall i :: 0 <= i < |gaps| ==> gaps[i].start < gaps[i].end)
    && (forall i, j :: 0 <= i < j < |gaps| ==> gaps[i].end < gaps[j].start)
  }

  lemma PushSorted(g: Gap, rest: seq<Gap>)
    requires g.start < g.end && SortedGaps(rest)
    requires forall i :: 0 <= i < |rest| ==> g.end < rest[i].start
    ensures SortedGaps([g] + rest)
  {
    var r := [g] + rest;
    forall i, j | 0 <= i < j < |r| ensures r[i].end < r[j].start {
      assert r[j] == rest[j - 1];
      if i > 0 {
        assert r[i] == rest[i - 1];
      }
    }
  }

  /** The loop of `findGaps` from position `x` with its flags; the gaps
      start at or after the open gap (or `x`), end before the page width
      and are in order. */
  function ScanGaps(h: map<int, nat>, width: int, x: int, inGap: bool, gapStart: int): (r: seq<Gap>)
    requires inGap ==> gapStart < x
    ensures forall i :: 0 <= i < |r| ==>
      (if inGap then gapStart else x) <= r[i].start && r[i].end < width
    ensures SortedGaps(r)
    decreases width - x
  {
    if x >= width then []
    else
      var count := Get(h, x);
      if count == 0 && !inGap then ScanGaps(h, width, x + 1, true, x)
      else if count > 0 && inGap then
        var g := Gap(gapStart, x, x - gapStart);
        var rest := ScanGaps(h, width, x + 1, false, gapStart);
        if Wide(g.width, width) then
          PushSorted(g, rest);
          [g] + rest
        else rest
      else ScanGaps(h, width, x + 1, inGap, gapStart)
  }

  function FindGaps(h: map<int, nat>, width: int): (r: seq<Gap>)
    ensures SortedGaps(r)
  {
    ScanGaps(h, width, 0, false, 0)
  }

  /** What the flags mean at position `x`: inside a gap the run since
      `gapStart` is empty and starts a run; outside one the previous position
      is occupied. */
  ghost predicate ScanState(h: map<int, nat>, x: int, inGap: bool, gapStart: int) {
    0 <= x
    && (inGap ==> 0 <= gapStart < x && ZeroRun(h, gapStart, x)
                  && (gapStart == 0 || Get(h, gapStart - 1) > 0))
    && (!inGap ==> x == 0 || Get(h, x - 1) > 0)
  }

  /** One step of the scan keeps the meaning of the flags. */
  lemma ScanStep(h: map<int, nat>, x: int, inGap: bool, gapStart: int)
    requires ScanState(h, x, inGap, gapStart)
    ensures Get(h, x) == 0 && !inGap ==> ScanState(h, x + 1, true, x)
    ensures Get(h, x) == 0 && inGap ==> ScanState(h, x + 1, true, gapStart)
    ensures Get(h, x) > 0 ==> ScanState(h, x + 1, false, gapStart)
  {
    if Get(h, x) == 0 && inGap {
      assert ZeroRun(h, gapStart, x + 1) by {
        forall k | gapStart <= k < x + 1 ensures Get(h, k) == 0 {
          if k < x {
            assert ZeroRun(h, gapStart, x);
          }
        }
      }
    }
  }

  /** Every gap found is a wide maximal empty run. */
  lemma {:induction false} ScanGapsSound(h: map<int, nat>, width: int, x: int, inGap: bool, gapStart: int)
    requires ScanState(h, x, inGap, gapStart)
    ensures forall i :: 0 <= i < |ScanGaps(h, width, x, inGap, gapStart)| ==>
      IsGap(h, width, ScanGaps(h, width, x, inGap, gapStart)[i])
    decreases width - x
  {
    if x < width {
      var count := Get(h, x);
      ScanStep(h, x, inGap, gapStart);
      if count == 0 && !inGap {
        ScanGapsSound(h, width, x + 1, true, x);
      } else if count > 0 && inGap {
        ScanGapsSound(h, width, x + 1, false, gapStart);
        var g := Gap(gapStart, x, x - gapStart);
        var rest := ScanGaps(h, width, x + 1, false, gapStart);
        if Wide(g.width, width) {
          var r := [g] + rest;
          assert IsGap(h, width, g);
          forall i | 0 <= i < |r| ensures IsGap(h, width, r[i]) {
            if i > 0 {
              assert r[i] == rest[i - 1];
            }
          }
        }
      } else {
        ScanGapsSound(h, width, x + 1, inGap, gapStart);
      }
    }
  }

  /** Two empty runs reaching the same position, each starting a run, start
      at the same place. */
  lemma RunStart(h: map<int, nat>, width: int, s: int, e: int, x: int, gapStart: int)
    requires MaximalRun(h, width, s, e) && s < x <= e
    requires 0 <= gapStart < x && ZeroRun(h, gapStart, x)
    requires gapStart == 0 || Get(h, gapStart - 1) > 0
    ensures s == gapStart
  {
  }

  /** Outside a gap, or at an empty position, no maximal run ends here. */
  lemma NoRunEndsAt(h: map<int, nat>, width: int, x: int, inGap: bool, gapStart: int, s: int)
    requires ScanState(h, x, inGap, gapStart)
    requires Get(h, x) == 0 || !inGap
    ensures !MaximalRun(h, width, s, x)
  {
  }

  lemma {:induction false} ScanGapsComplete(h: map<int, nat>, width: int, x: int, inGap: bool, gapStart: int)
    requires ScanState(h, x, inGap, gapStart)
    ensures forall s, e :: (MaximalRun(h, width, s, e) && e >= x && Wide(e - s, width)
      ==> Gap(s, e, e - s) in ScanGaps(h, width, x, inGap, gapStart))
    decreases width - x
  {
    if x < width {
      var count := Get(h, x);
      ScanStep(h, x, inGap, gapStart);
      var r := ScanGaps(h, width, x, inGap, gapStart);
      var next := if count == 0 && !inGap then x else gapStart;
      var nextIn := if count == 0 then true else false;
      ScanGapsComplete(h, width, x + 1, nextIn, next);
      var rest := ScanGaps(h, width, x + 1, nextIn, next);
      if count > 0 && inGap {
        var g := Gap(gapStart, x, x - gapStart);
        assert r == (if Wide(g.width, width) then [g] else []) + rest;
        forall s, e | MaximalRun(h, width, s, e) && e >= x && Wide(e - s, width)
          ensures Gap(s, e, e - s) in r
        {
          if e == x {
            RunStart(h, width, s, e, x, gapStart);
          } else {
            assert Gap(s, e, e - s) in rest;
          }
        }
      } else {
        assert r == rest;
        forall s, e | MaximalRun(h, width, s, e) && e >= x && Wide(e - s, width)
          ensures Gap(s, e, e - s) in r
        {
          NoRunEndsAt(h, width, x, inGap, gapStart, s);
        }
      }
    }
  }


  /** `findGaps` returns exactly the wide maximal empty runs that end before
      the page's right edge, in order and separated; an empty run reaching
      the right edge is never a gap. */
  lemma FindGapsSpec(h: map<int, nat>, width: int)
    ensures forall g :: g in FindGaps(h, width) <==> IsGap(h, width, g)
  {
    ScanGapsSound(h, width, 0, false, 0);
    ScanGapsComplete(h, width, 0, false, 0);
    forall g | IsGap(h, width, g) ensures g in FindGaps(h, width) {
      assert g == Gap(g.start, g.end, g.end - g.start);
    }
  }


  // ---------------------------------------------------------------------
  // groupItemsByColumns

  datatype Bound = Bound(start: int, end: int)

  /** The column bounds: from `start` to the first gap, between consecutive
      gaps, and from the last gap to the page width. */
  function BoundsFrom(gaps: seq<Gap>, start: int, width: int): (r: seq<Bound>)
    ensures |r| == |gaps| + 1
  {
    if |gaps| == 0 then [Bound(start, width)]
    else [Bound(start, gaps[0].start)] + BoundsFrom(gaps[1..], gaps[0].end, width)
  }

  function ColumnBounds(gaps: seq<Gap>, width: int): seq<Bound> {
    BoundsFrom(gaps, 0, width)
  }

  predicate InBound(b: Bound, it: Item) {
    b.start <= it.x < b.end
  }

  function Within(b: Bound): Item -> bool {
    (it: Item) => InBound(b, it)
  }

  /** The non-empty columns, one per bound, in bound order. */
  function ColumnsFrom(items: seq<Item>, bs: seq<Bound>): (r: seq<seq<Item>>)
    ensures |r| <= |bs|
    ensures forall i :: 0 <= i < |r| ==> |r[i]| > 0
  {
    if |bs| == 0 then []
    else
      var col := Filter(Within(bs[0]), items);
      (if |col| > 0 then [col] else []) + ColumnsFrom(items, bs[1..])
  }

  function GroupItemsByColumns(items: seq<Item>, gaps: seq<Gap>, width: int): seq<seq<Item>> {
    var cols := ColumnsFrom(items, ColumnBounds(gaps, width));
    if |cols| > 0 then cols else [items]
  }

  /** Bounds that do not cross and follow one another. */
  predicate Chained(bs: seq<Bound>) {
    (forall i :: 0 <= i < |bs| ==> bs[i].start <= bs[i].end)
    && (forall i, j :: 0 <= i < j < |bs| ==> bs[i].end <= bs[j].start)
  }

  lemma {:induction false} BoundsChained(gaps: seq<Gap>, start: int, width: int)
    requires SortedGaps(gaps)
    requires |gaps| == 0 ==> start <= width
    requires |gaps| > 0 ==> start <= gaps[0].start && gaps[|gaps| - 1].end <= width
    ensures var r := BoundsFrom(gaps, start, width);
      Chained(r) && forall i :: 0 <= i < |r| ==> start <= r[i].start
  {
    if |gaps| > 0 {
      var tail := gaps[1..];
      assert SortedGaps(tail) by {
        forall i, j | 0 <= i < j < |tail| ensures tail[i].end < tail[j].start {
          assert tail[i] == gaps[i + 1] && tail[j] == gaps[j + 1];
        }
      }
      if |tail| > 0 {
        assert tail[0] == gaps[1] && tail[|tail| - 1] == gaps[|gaps| - 1];
      }
      BoundsChained(tail, gaps[0].end, width);
      var rest := BoundsFrom(tail, gaps[0].end, width);
      var r := BoundsFrom(gaps, start, width);
      assert r == [Bound(start, gaps[0].start)] + rest;
      forall i | 0 <= i < |r| ensures r[i].start <= r[i].end && start <= r[i].start {
        if i > 0 {
          assert r[i] == rest[i - 1];
        }
      }
      forall i, j | 0 <= i < j < |r| ensures r[i].end <= r[j].start {
        assert r[j] == rest[j - 1];
        if i > 0 {
          assert r[i] == rest[i - 1];
        }
      }
    }
  }

  /** Every item placed in a column lies at or right of `lo` when every bound
      starts there. */
  lemma {:induction false} ColumnsFromAbove(items: seq<Item>, bs: seq<Bound>, lo: int)
    requires forall i :: 0 <= i < |bs| ==> lo <= bs[i].start
    ensures forall i, it: Item :: 0 <= i < |ColumnsFrom(items, bs)| && it in ColumnsFrom(items, bs)[i] ==> lo <= it.x
  {
    if |bs| > 0 {
      var col := Filter(Within(bs[0]), items);
      FilterMembers(Within(bs[0]), items);
      ColumnsFromAbove(items, bs[1..], lo);
      var rest := ColumnsFrom(items, bs[1..]);
            var cols := ColumnsFrom(items, bs);
      assert cols == (if |col| > 0 then [col] else []) + rest;
      forall i, it: Item | 0 <= i < |cols| && it in cols[i] ensures lo <= it.x {
        if |col| > 0 && i == 0 {
          assert InBound(bs[0], it);
        } else if |col| > 0 {
          assert cols[i] == rest[i - 1];
        } else {
          assert cols[i] == rest[i];
        }
      }
    }
  }

  /** No item is in two columns. */
  predicate DisjointColumns(cols: seq<seq<Item>>) {
    forall i, j, it: Item :: 0 <= i < j < |cols| && it in cols[i] ==> it !in cols[j]
  }

  /** Chained bounds put each item in at most one column. */
  lemma {:induction false} ColumnsDisjoint(items: seq<Item>, bs: seq<Bound>)
    requires Chained(bs)
    ensures DisjointColumns(ColumnsFrom(items, bs))
  {
    if |bs| > 0 {
      var tail := bs[1..];
      assert Chained(tail) by {
        forall i, j | 0 <= i < j < |tail| ensures tail[i].end <= tail[j].start {
          assert tail[i] == bs[i + 1] && tail[j] == bs[j + 1];
        }
      }
      ColumnsDisjoint(items, tail);
      assert forall i :: 0 <= i < |tail| ==> bs[0].end <= tail[i].start by {
        forall i | 0 <= i < |tail| ensures bs[0].end <= tail[i].start {
          assert tail[i] == bs[i + 1];
        }
      }
      ColumnsFromAbove(items, tail, bs[0].end);
      var col := Filter(Within(bs[0]), items);
      FilterMembers(Within(bs[0]), items);
      var rest := ColumnsFrom(items, tail);
      var cols := ColumnsFrom(items, bs);
      assert cols == (if |col| > 0 then [col] else []) + rest;
      forall i, j, it: Item | 0 <= i < j < |cols| && it in cols[i] ensures it !in cols[j] {
        if |col| > 0 {
          assert cols[j] == rest[j - 1];
          if i == 0 {
            assert InBound(bs[0], it);
          } else {
            assert cols[i] == rest[i - 1];
          }
        } else {
          assert cols[i] == rest[i] && cols[j] == rest[j];
        }
      }
    }
  }

  /** The position lies in one of the bounds. */
  predicate InSome(bs: seq<Bound>, it: Item) {
    |bs| > 0 && (InBound(bs[0], it) || InSome(bs[1..], it))
  }

  /** The columns hold exactly the items that lie in some bound. */
  lemma {:induction false} ColumnsFromMembers(items: seq<Item>, bs: seq<Bound>)
    ensures forall it: Item :: it in Flatten(ColumnsFrom(items, bs)) <==> it in items && InSome(bs, it)
  {
    if |bs| > 0 {
      var col := Filter(Within(bs[0]), items);
      FilterMembers(Within(bs[0]), items);
      ColumnsFromMembers(items, bs[1..]);
      var rest := ColumnsFrom(items, bs[1..]);
      if |col| > 0 {
        FlattenAppend([col], rest);
        assert Flatten([col]) == col;
      } else {
        assert ColumnsFrom(items, bs) == rest;
      }
    }
  }

  /** A position inside [start, width) that no gap covers lies in a bound. */
  lemma {:induction false} BoundsCover(gaps: seq<Gap>, start: int, width: int, it: Item)
    requires start <= it.x < width
    requires forall i :: 0 <= i < |gaps| ==> !(gaps[i].start <= it.x < gaps[i].end)
    requires forall i :: 0 <= i < |gaps| ==> gaps[i].start < gaps[i].end
    ensures InSome(BoundsFrom(gaps, start, width), it)
  {
    if |gaps| > 0 {
      var r := BoundsFrom(gaps, start, width);
      if it.x >= gaps[0].start {
        assert it.x >= gaps[0].end;
        forall i | 0 <= i < |gaps[1..]| ensures !(gaps[1..][i].start <= it.x < gaps[1..][i].end) {
          assert gaps[1..][i] == gaps[i + 1];
        }
        BoundsCover(gaps[1..], gaps[0].end, width, it);
        assert r[1..] == BoundsFrom(gaps[1..], gaps[0].end, width);
      }
    }
  }

  /** With the gaps of the items' own histogram, no item inside the page is
      lost: each item at a position in [0, width) lands in exactly one
      column. */
  lemma GroupKeepsPageItems(items: seq<Item>, width: int, cols: seq<seq<Item>>)
    requires |FindGaps(Histogram(items), width)| > 0
    requires cols == GroupItemsByColumns(items, FindGaps(Histogram(items), width), width)
    ensures forall it: Item :: it in items && 0 <= it.x < width ==> it in Flatten(cols)
    ensures forall it: Item :: it in Flatten(cols) ==> it in items
    ensures DisjointColumns(cols)
  {
    var h := Histogram(items);
    var gaps := FindGaps(h, width);
    FindGapsSpec(h, width);
    var bs := ColumnBounds(gaps, width);
    assert IsGap(h, width, gaps[|gaps| - 1]);
    BoundsChained(gaps, 0, width);
    ColumnsDisjoint(items, bs);
    ColumnsFromMembers(items, bs);
    forall it | it in items && 0 <= it.x < width ensures InSome(bs, it) {
      forall i | 0 <= i < |gaps| ensures !(gaps[i].start <= it.x < gaps[i].end) {
        assert IsGap(h, width, gaps[i]);
        if gaps[i].start <= it.x < gaps[i].end {
          assert Get(h, it.x) == 0;
          HistogramCounts(items, it.x);
          var k :| 0 <= k < |items| && items[k] == it;
          CountIfPositive(AtX(it.x), items, k);
        }
      }
      BoundsCover(gaps, 0, width, it);
    }
    var e := gaps[0].end;
    assert IsGap(h, width, gaps[0]);
    HistogramCounts(items, e);
    FilterLength(AtX(e), items);
    FilterMembers(AtX(e), items);
    var probe := Filter(AtX(e), items)[0];
    assert probe in Flatten(ColumnsFrom(items, bs));
  }

  /** `detectColumns`: a single column without a page width or without
      gaps, otherwise the items grouped between the gaps. */
  function DetectColumns(items: seq<Item>, g: Geometry): seq<seq<Item>> {
    if !HasWidth(g) then [items]
    else
      var gaps := FindGaps(Histogram(items), g.value);
      if |gaps| == 0 then [items] else GroupItemsByColumns(items, gaps, g.value)
  }

  /** `sortByColumns`: each column sorted on its own, columns in order. */
  function SortByColumns(cols: seq<seq<Item>>): (r: seq<Item>)
    ensures multiset(r) == multiset(Flatten(cols))
  {
    if |cols| == 0 then []
    else SpatialSort(cols[0]) + SortByColumns(cols[1..])
  }

  // ---------------------------------------------------------------------
  // Bounding boxes

  datatype Box = Box(left: int, right: int, top: int, bottom: int)

  /** Width, or six units per character when the item has none. */
  function BoxWidth(it: Item): int {
    if it.width != 0 then it.width else |it.text| * 6
  }

  /** Height, or 12 when the item has none. */
  function BoxHeight(it: Item): int {
    if it.height != 0 then it.height else 12
  }

  /** `getBoundingBox`: the bottom is below the top in PDF coordinates. */
  function BoundingBox(it: Item): Box {
    Box(it.x, it.x + BoxWidth(it), it.y, it.y - BoxHeight(it))
  }

  predicate Overlap(a: Item, b: Item) {
    var p := BoundingBox(a);
    var q := BoundingBox(b);
    !(p.right < q.left || p.left > q.right || p.bottom < q.top || p.top > q.bottom)
  }

  /** The test is symmetric, and because it compares each bottom with the
      other top it only holds when the two heights sum to zero or less. */
  lemma OverlapShape(a: Item, b: Item)
    ensures Overlap(a, b) == Overlap(b, a)
    ensures Overlap(a, b) <==>
      a.x <= b.x + BoxWidth(b) && b.x <= a.x + BoxWidth(a)
      && b.y + BoxHeight(a) <= a.y <= b.y - BoxHeight(b)
    ensures Overlap(a, b) ==> BoxHeight(a) + BoxHeight(b) <= 0
  {}

  function Area(it: Item): int {
    it.width * it.height
  }

  predicate HasText(it: Item) {
    |TrimJs(it.text)| > 0
  }

  /** One step of the `selectPrimaryElement` reduction. */
  function Prefer(primary: Item, current: Item): (r: Item)
    ensures r == primary || r == current
  {
    if Area(current) > Area(primary) && HasText(current) then current
    else if !HasText(primary) && HasText(current) then current
    else primary
  }

  function ReduceFrom(acc: Item, rest: seq<Item>): (r: Item)
    ensures r == acc || r in rest
    decreases |rest|
  {
    if |rest| == 0 then acc
    else
      var r := ReduceFrom(Prefer(acc, rest[0]), rest[1..]);
      assert r in rest[1..] ==> r in rest;
      r
  }

  /** `selectPrimaryElement`; `reduce` without a seed needs an element. */
  function SelectPrimary(es: seq<Item>): (r: Item)
    requires |es| > 0
    ensures r in es
  {
    ReduceFrom(es[0], es[1..])
  }

  predicate AnyText(es: seq<Item>) {
    exists k :: 0 <= k < |es| && HasText(es[k])
  }

  lemma AnyTextCons(es: seq<Item>)
    requires |es| > 0
    ensures AnyText(es) <==> HasText(es[0]) || AnyText(es[1..])
  {
    if AnyText(es) {
      var k :| 0 <= k < |es| && HasText(es[k]);
      if k > 0 {
        assert es[1..][k - 1] == es[k];
      }
    }
    if AnyText(es[1..]) {
      var k :| 0 <= k < |es[1..]| && HasText(es[1..][k]);
      assert es[k + 1] == es[1..][k];
    }
  }

  lemma {:induction false} ReduceFromPrefers(acc: Item, rest: seq<Item>)
    ensures var r := ReduceFrom(acc, rest);
      (HasText(r) <==> HasText(acc) || AnyText(rest))
      && (HasText(r) ==>
            (HasText(acc) ==> Area(acc) <= Area(r))
            && forall k :: 0 <= k < |rest| && HasText(rest[k]) ==> Area(rest[k]) <= Area(r))
    decreases |rest|
  {
    if |rest| > 0 {
      var next := Prefer(acc, rest[0]);
      ReduceFromPrefers(next, rest[1..]);
      var r := ReduceFrom(acc, rest);
      assert r == ReduceFrom(next, rest[1..]);
      AnyTextCons(rest);
      if HasText(r) {
        forall k | 0 <= k < |rest| && HasText(rest[k]) ensures Area(rest[k]) <= Area(r) {
          if k > 0 {
            assert rest[1..][k - 1] == rest[k];
          }
        }
      }
    }
  }

  /** The chosen element has text exactly when some element has, and then
      no element with text has a larger area. */
  lemma SelectPrimarySpec(es: seq<Item>)
    requires |es| > 0
    ensures HasText(SelectPrimary(es)) <==> AnyText(es)
    ensures HasText(SelectPrimary(es)) ==>
      forall k :: 0 <= k < |es| && HasText(es[k]) ==> Area(es[k]) <= Area(SelectPrimary(es))
  {
    ReduceFromPrefers(es[0], es[1..]);
    AnyTextCons(es);
    forall k | 0 <= k < |es| && HasText(es[k]) && HasText(SelectPrimary(es))
      ensures Area(es[k]) <= Area(SelectPrimary(es))
    {
      if k > 0 {
        assert es[1..][k - 1] == es[k];
      }
    }
  }

  /** Indices from `j` on, not yet processed, whose item overlaps item `i`. */
  function OverlappingFrom(items: seq<Item>, i: nat, j: nat, processed: set<nat>): (r: seq<nat>)
    requires i < |items|
    ensures forall k :: 0 <= k < |r| ==>
      j <= r[k] < |items| && r[k] !in processed && Overlap(items[i], items[r[k]])
    decreases |items| - j
  {
    if j >= |items| then []
    else
      (if j !in processed && Overlap(items[i], items[j]) then [j] else [])
      + OverlappingFrom(items, i, j + 1, processed)
  }

  function At(items: seq<Item>, ix: seq<nat>): (r: seq<Item>)
    requires forall k :: 0 <= k < |ix| ==> ix[k] < |items|
    ensures |r| == |ix|
    ensures forall k :: 0 <= k < |r| ==> r[k] == items[ix[k]]
  {
    seq(|ix|, k requires 0 <= k < |ix| => items[ix[k]])
  }

  /** The loop of `resolveBoundingBoxOverlaps` from index `i`: an item that
      overlaps later unprocessed items is replaced by the primary element of
      the group, and the whole group is marked processed. */
  function ResolveFrom(items: seq<Item>, i: nat, processed: set<nat>): (r: seq<Item>)
    requires i <= |items|
    ensures |r| <= |items| - i
    ensures forall k :: 0 <= k < |r| ==> r[k] in items
    decreases |items| - i
  {
    if i == |items| then []
    else if i in processed then ResolveFrom(items, i + 1, processed)
    else
      var ov := OverlappingFrom(items, i, i + 1, processed);
      if |ov| == 0 then [items[i]] + ResolveFrom(items, i + 1, processed + {i})
      else
        var group := [items[i]] + At(items, ov);
        var primary := SelectPrimary(group);
        assert primary in items by {
          if primary != items[i] {
            var k :| 0 <= k < |ov| && At(items, ov)[k] == primary;
          }
        }
        [primary] + ResolveFrom(items, i + 1, processed + {i} + (set k | k in ov))
  }

  function ResolveOverlaps(items: seq<Item>): seq<Item> {
    ResolveFrom(items, 0, {})
  }

  predicate NoOverlaps(items: seq<Item>) {
    forall i, j :: 0 <= i < j < |items| ==> !Overlap(items[i], items[j])
  }

  lemma {:induction false} NoneOverlapping(items: seq<Item>, i: nat, j: nat, processed: set<nat>)
    requires i < j && i < |items| && NoOverlaps(items)
    ensures OverlappingFrom(items, i, j, processed) == []
    decreases |items| - j
  {
    if j < |items| {
      NoneOverlapping(items, i, j + 1, processed);
    }
  }

  lemma {:induction false} ResolveFromIdentity(items: seq<Item>, i: nat, processed: set<nat>)
    requires i <= |items| && NoOverlaps(items)
    requires forall k :: k in processed ==> k < i
    ensures ResolveFrom(items, i, processed) == items[i..]
    decreases |items| - i
  {
    if i < |items| {
      NoneOverlapping(items, i, i + 1, processed);
      ResolveFromIdentity(items, i + 1, processed + {i});
      assert items[i..] == [items[i]] + items[i + 1..];
    }
  }

  /** When no two boxes overlap, nothing is merged; since a box's bottom is
      below its top, items whose heights are not negative never overlap,
      so the pass returns its input unchanged. */
  lemma ResolveOverlapsIdentity(items: seq<Item>)
    requires (forall i :: 0 <= i < |items| ==> items[i].height >= 0) || NoOverlaps(items)
    ensures ResolveOverlaps(items) == items
  {
    forall i, j | 0 <= i < j < |items| && (forall k :: 0 <= k < |items| ==> items[k].height >= 0)
      ensures !Overlap(items[i], items[j])
    {
      OverlapShape(items[i], items[j]);
    }
    ResolveFromIdentity(items, 0, {});
  }

  // ---------------------------------------------------------------------
  // preserveHierarchy

  const UpperCaseTitle := Regex.Pattern("^[A-ZÇÁÀÂÃÉÈÊÍÌÎÓÒÔÕÚÙÛ\\s]{5,}$", "")
  const LegalMarker := Regex.Pattern("^(?:CAPÍTULO|SEÇÃO|TÍTULO|PARTE|Art\\.|§)\\s+[IVXLCDM0-9]+", "i")

  /** `isTitle`: upper case, a legal marker, a large font or a bold weight. */
  predicate IsTitle(e: Regex.Engine, it: Item) {
    var text := TrimJs(it.text);
    Regex.Test(e, UpperCaseTitle, text) || Regex.Test(e, LegalMarker, text)
    || it.fontSize > 12 || it.fontWeight > 400
  }

  datatype Section = Section(title: Option<Item>, content: seq<Item>)

  datatype Outline = Outline(hierarchy: seq<Section>, current: Option<Section>)

  /** One iteration of the `preserveHierarchy` loop. */
  function OutlineStep(o: Outline, it: Item, isTitle: bool): Outline {
    if isTitle then
      Outline(if o.current.Some? then o.hierarchy + [o.current.value] else o.hierarchy,
              Some(Section(Some(it), [])))
    else if o.current.Some? then
      Outline(o.hierarchy, Some(Section(o.current.value.title, o.current.value.content + [it])))
    else
      var h := if |o.hierarchy| == 0 || o.hierarchy[0].title.Some?
        then [Section(None, [])] + o.hierarchy else o.hierarchy;
      Outline(h[0 := Section(h[0].title, h[0].content + [it])], None)
  }

  function Titles(e: Regex.Engine): Item -> bool {
    (it: Item) => IsTitle(e, it)
  }

  function OutlineFrom(isTitle: Item -> bool, o: Outline, items: seq<Item>): Outline
    decreases |items|
  {
    if |items| == 0 then o
    else OutlineFrom(isTitle, OutlineStep(o, items[0], isTitle(items[0])), items[1..])
  }

  function SectionItems(s: Section): seq<Item> {
    if s.title.Some? then [s.title.value] + s.content else s.content
  }

  function FlattenSections(ss: seq<Section>): seq<Item> {
    if |ss| == 0 then [] else SectionItems(ss[0]) + FlattenSections(ss[1..])
  }

  /** The final sections: the hierarchy and the open section, if any. */
  function Sections(o: Outline): seq<Section> {
    o.hierarchy + (if o.current.Some? then [o.current.value] else [])
  }

  function PreserveHierarchy(e: Regex.Engine, items: seq<Item>): seq<Item> {
    FlattenSections(Sections(OutlineFrom(Titles(e), Outline([], None), items)))
  }

  /** Before the first title the hierarchy is empty or one untitled section. */
  predicate Preamble(o: Outline) {
    o.current.None? ==> |o.hierarchy| == 0 || (|o.hierarchy| == 1 && o.hierarchy[0].title.None?)
  }

  lemma FlattenSectionsAppend(a: seq<Section>, b: seq<Section>)
    ensures FlattenSections(a + b) == FlattenSections(a) + FlattenSections(b)
  {
    if |a| > 0 {
      assert (a + b)[1..] == a[1..] + b;
      FlattenSectionsAppend(a[1..], b);
    } else {
      assert a + b == b;
    }
  }

  lemma FlattenOne(s: Section)
    ensures FlattenSections([s]) == SectionItems(s)
  {
    assert [s][1..] == [];
  }

  lemma OutlineStepItems(o: Outline, it: Item, isTitle: bool)
    requires Preamble(o)
    ensures Preamble(OutlineStep(o, it, isTitle))
    ensures FlattenSections(Sections(OutlineStep(o, it, isTitle))) == FlattenSections(Sections(o)) + [it]
  {
    var o2 := OutlineStep(o, it, isTitle);
    if isTitle {
      assert Sections(o2) == Sections(o) + [Section(Some(it), [])];
      FlattenSectionsAppend(Sections(o), [Section(Some(it), [])]);
      FlattenOne(Section(Some(it), []));
    } else if o.current.Some? {
      var c := o.current.value;
      FlattenSectionsAppend(o.hierarchy, [c]);
      FlattenSectionsAppend(o.hierarchy, [o2.current.value]);
      FlattenOne(c);
      FlattenOne(o2.current.value);
    } else {
      var c := if |o.hierarchy| == 0 then [] else o.hierarchy[0].content;
      assert o2.hierarchy == [Section(None, c + [it])];
      assert Sections(o2) == [Section(None, c + [it])];
      FlattenOne(Section(None, c + [it]));
      if |o.hierarchy| > 0 {
        assert Sections(o) == [Section(None, c)];
        FlattenOne(Section(None, c));
      }
    }
  }


  lemma {:induction false} OutlineFromItems(isTitle: Item -> bool, o: Outline, items: seq<Item>)
    requires Preamble(o)
    ensures FlattenSections(Sections(OutlineFrom(isTitle, o, items))) == FlattenSections(Sections(o)) + items
    decreases |items|
  {
    if |items| > 0 {
      var o2 := OutlineStep(o, items[0], isTitle(items[0]));
      OutlineStepItems(o, items[0], isTitle(items[0]));
      OutlineFromItems(isTitle, o2, items[1..]);
      assert items == [items[0]] + items[1..];
    }
  }

  /** Sections only group items; flattening them gives back every item in
      its original order, whatever the title test says. */
  lemma PreserveHierarchyIdentity(e: Regex.Engine, items: seq<Item>)
    ensures PreserveHierarchy(e, items) == items
  {
    OutlineFromItems(Titles(e), Outline([], None), items);
  }

  // ---------------------------------------------------------------------
  // handleRotatedText

  /** `isRotatedText`: a transform close to a quarter turn, or an item in
      the rightmost tenth of the page. A transform with fewer than two
      entries compares `NaN` and never counts. */
  predicate IsRotated(it: Item, g: Geometry) {
    (it.transform.Some? && |it.transform.value| >= 2
      && RAbs(it.transform.value[1]) > 0.8 && RAbs(it.transform.value[0]) < 0.2)
    || (HasWidth(g) && 10 * it.x > 9 * g.value)
  }

  function Upright(g: Geometry): Item -> bool {
    Not(Turned(g))
  }

  function Turned(g: Geometry): Item -> bool {
    (it: Item) => IsRotated(it, g)
  }

  function Mark(it: Item): Item {
    it.(rotated := true)
  }

  function MarkAll(s: seq<Item>): (r: seq<Item>)
    ensures |r| == |s|
  {
    if |s| == 0 then [] else [Mark(s[0])] + MarkAll(s[1..])
  }

  lemma {:induction false} MarkAllAppend(a: seq<Item>, b: seq<Item>)
    ensures MarkAll(a + b) == MarkAll(a) + MarkAll(b)
  {
    if |a| > 0 {
      assert (a + b)[1..] == a[1..] + b;
      MarkAllAppend(a[1..], b);
    } else {
      assert a + b == b;
    }
  }

  function Not(p: Item -> bool): Item -> bool {
    (it: Item) => !p(it)
  }

  /** The loop of `handleRotatedText` over any rotation test: a stable
      partition, the other items first, then the selected ones, marked. */
  method PartitionMarked(items: seq<Item>, turned: Item -> bool) returns (r: seq<Item>)
    ensures r == Filter(Not(turned), items) + MarkAll(Filter(turned, items))
  {
    var normal: seq<Item> := [];
    var rotated: seq<Item> := [];
    var i := 0;
    while i < |items|
      invariant 0 <= i <= |items|
      invariant normal == Filter(Not(turned), items[..i])
      invariant rotated == MarkAll(Filter(turned, items[..i]))
    {
      var it := items[i];
      FilterSnoc(items, i, Not(turned));
      FilterSnoc(items, i, turned);
      MarkAllAppend(Filter(turned, items[..i]), if turned(it) then [it] else []);
      if turned(it) {
        assert MarkAll([it]) == [Mark(it)];
        rotated := rotated + [Mark(it)];
      } else {
        normal := normal + [it];
      }
      i := i + 1;
    }
    assert items[..i] == items;
    r := normal + rotated;
  }

  /** `handleRotatedText`: upright items keep their order, rotated ones
      follow in their order, marked; nothing is lost. */
  method HandleRotatedText(items: seq<Item>, g: Geometry) returns (r: seq<Item>)
    ensures r == Filter(Upright(g), items) + MarkAll(Filter(Turned(g), items))
    ensures |r| == |items|
  {
    r := PartitionMarked(items, Turned(g));
    FilterLength(Upright(g), items);
    FilterLength(Turned(g), items);
    PartitionCounts(items, g);
  }


  lemma {:induction false} PartitionCounts(items: seq<Item>, g: Geometry)
    ensures CountIf(Upright(g), items) + CountIf(Turned(g), items) == |items|
  {
    if |items| > 0 {
      PartitionCounts(items[1..], g);
    }
  }

  // ---------------------------------------------------------------------
  // detectParagraphs

  const Indented := Regex.Pattern("^\\s{2,}", "")
  const ParagraphMarkers := [
    Regex.Pattern("^[0-9]+\\.", ""),
    Regex.Pattern("^[A-Z][).]", ""),
    Regex.Pattern("^[IVX]+\\.", ""),
    Regex.Pattern("^[-•*]", "")
  ]

  /** `isNewParagraph`: indentation of the raw text, or a number, letter,
      roman numeral or bullet at the head of the trimmed text. */
  predicate IsNewParagraph(e: Regex.Engine, it: Item) {
    Regex.Test(e, Indented, it.text) || Regex.AnyTest(e, ParagraphMarkers, TrimJs(it.text))
  }

  function Filled(): Item -> bool {
    (it: Item) => HasText(it)
  }

  function Opens(e: Regex.Engine): Item -> bool {
    (it: Item) => IsNewParagraph(e, it)
  }

  /** The loop of `detectParagraphs` over any blank test and paragraph-start
      test: an item that fails `filled` closes the open paragraph, an item
      that passes `opens` starts a new one. */
  method Paragraphs(items: seq<Item>, filled: Item -> bool, opens: Item -> bool) returns (r: seq<seq<Item>>)
    ensures Flatten(r) == Filter(filled, items)
    ensures forall k :: 0 <= k < |r| ==> |r[k]| > 0
  {
    r := [];
    var current: seq<Item> := [];
    var i := 0;
    while i < |items|
      invariant 0 <= i <= |items|
      invariant Flatten(r) + current == Filter(filled, items[..i])
      invariant forall k :: 0 <= k < |r| ==> |r[k]| > 0
    {
      var it := items[i];
      FilterSnoc(items, i, filled);
      if !filled(it) {
        if |current| > 0 {
          FlattenSnoc(r, current);
          r := r + [current];
          current := [];
        }
      } else {
        if opens(it) && |current| > 0 {
          FlattenSnoc(r, current);
          r := r + [current];
          current := [];
        }
        current := current + [it];
      }
      i := i + 1;
    }
    assert items[..i] == items;
    if |current| > 0 {
      FlattenSnoc(r, current);
      r := r + [current];
    }
  }

  /** `detectParagraphs`: a blank item closes the open paragraph, a marked
      item opens a new one. */
  method DetectParagraphs(e: Regex.Engine, items: seq<Item>) returns (r: seq<seq<Item>>)
    ensures Flatten(r) == Filter(Filled(), items)
    ensures forall k :: 0 <= k < |r| ==> |r[k]| > 0
    ensures |r| <= CountIf(Filled(), items)
  {
    r := Paragraphs(items, Filled(), Opens(e));
    FlattenLength(r);
    FilterLength(Filled(), items);
  }


  lemma FlattenSnoc(r: seq<seq<Item>>, c: seq<Item>)
    ensures Flatten(r + [c]) == Flatten(r) + c
  {
    FlattenAppend(r, [c]);
    assert Flatten([c]) == c + Flatten([]);
  }

  lemma FilterSnoc(items: seq<Item>, i: nat, p: Item -> bool)
    requires i < |items|
    ensures Filter(p, items[..i + 1]) == Filter(p, items[..i]) + (if p(items[i]) then [items[i]] else [])
  {
    assert items[..i + 1] == items[..i] + [items[i]];
    FilterAppend(p, items[..i], [items[i]]);
  }


  /** A sequence of non-empty sequences has no more members than elements. */
  lemma {:induction false} FlattenLength(xss: seq<seq<Item>>)
    requires forall k :: 0 <= k < |xss| ==> |xss[k]| > 0
    ensures |xss| <= |Flatten(xss)|
  {
    if |xss| > 0 {
      FlattenLength(xss[1..]);
    }
  }

  // ---------------------------------------------------------------------
  // determineReadingOrder

  /** `determineReadingOrder`: sort, regroup by columns when there are
      several, resolve overlaps, keep the section hierarchy and move rotated
      text to the end. */
  method DetermineReadingOrder(e: Regex.Engine, items: seq<Item>, g: Geometry) returns (r: seq<Item>)
    ensures |items| == 0 ==> r == []
    ensures !HasWidth(g) && (forall i :: 0 <= i < |items| ==> items[i].height >= 0)
      ==> |r| == |items|
  {
    if |items| == 0 {
      return [];
    }
    var sorted := SpatialSort(items);
    var columns := DetectColumns(sorted, g);
    if |columns| > 1 {
      sorted := SortByColumns(columns);
    }
    var grouped := sorted;
    if !HasWidth(g) && (forall i :: 0 <= i < |items| ==> items[i].height >= 0) {
      forall i | 0 <= i < |grouped| ensures grouped[i].height >= 0 {
        assert grouped[i] in multiset(items);
      }
      ResolveOverlapsIdentity(grouped);
    }
    sorted := ResolveOverlaps(sorted);
    PreserveHierarchyIdentity(e, sorted);
    sorted := PreserveHierarchy(e, sorted);
    r := HandleRotatedText(sorted, g);
  }
}
