/**
 Text boxes into visual rows. Boxes are taken from the top down and join the current row while
 they are within the tolerance of its first box.
 */
module RowGrouping {
  import opened Sorting

  datatype Box = Box(x0: real, cy: real, height: real, text: string)

  function Max(a: real, b: real): real {
    if a < b then b else a
  }

  function Cy(b: Box): real {
    b.cy
  }

  function Concat(rows: seq<seq<Box>>): seq<Box> {
    if rows == [] then [] else Concat(rows[..|rows| - 1]) + rows[|rows| - 1]
  }

  function PositiveHeights(boxes: seq<Box>): seq<real> {
    if boxes == [] then []
    else (if boxes[0].height > 0.0 then [boxes[0].height] else []) + PositiveHeights(boxes[1..])
  }

  function Share(height: real, ratio: real): real {
    height * ratio
  }

  /** Half the median positive height, and never less than two points. */
  function Tolerance(boxes: seq<Box>, ratio: real): (tolerance: real)
    ensures tolerance >= 2.0
  {
    Max(2.0, Share(Median(PositiveHeights(boxes)), ratio))
  }

  function Height(h: real): real {
    h
  }

  function Median(heights: seq<real>): real {
    if heights == [] then 12.0
    else
      SortedIsSorted(heights, Height);
      Sorted(heights, Height)[|heights| / 2]
  }

  /** A row starts with its anchor, and nothing in it is further than the tolerance below. */
  ghost predicate RowHolds(row: seq<Box>, tolerance: real) {
    row != [] && forall k :: 0 <= k < |row| ==> 0.0 <= row[k].cy - row[0].cy <= tolerance
  }

  ghost predicate AnchorsApart(rows: seq<seq<Box>>, tolerance: real) {
    forall i, j :: 0 <= i < j < |rows| && rows[i] != [] && rows[j] != [] ==> rows[j][0].cy - rows[i][0].cy > tolerance
  }

  ghost predicate Rowed(rows: seq<seq<Box>>, tolerance: real) {
    (forall i :: 0 <= i < |rows| ==> RowHolds(rows[i], tolerance)) && AnchorsApart(rows, tolerance)
  }

  lemma ConcatSnoc(rows: seq<seq<Box>>, row: seq<Box>)
    ensures Concat(rows + [row]) == Concat(rows) + row
  {
    assert (rows + [row])[..|rows|] == rows;
  }

  /** The rows read from the top are the boxes from the top; every row stays within the
      tolerance of its first box, and first boxes are further apart than that. */
  method Group(boxes: seq<Box>, ratio: real) returns (rows: seq<seq<Box>>)
    ensures Concat(rows) == Sorted(boxes, Cy)
    ensures Rowed(rows, Tolerance(boxes, ratio))
    ensures multiset(Concat(rows)) == multiset(boxes)
  {
    if boxes == [] { return []; }
    var tolerance := Tolerance(boxes, ratio);
    var ordered := Sorted(boxes, Cy);
    SortedIsSorted(boxes, Cy);
    rows := [];
    var current := [ordered[0]];
    for i := 1 to |ordered|
      invariant current != []
      invariant Concat(rows) + current == ordered[..i]
      invariant Rowed(rows + [current], tolerance)
    {
      var b := ordered[i];
      OneMore(Concat(rows), current, ordered, i);
      assert (rows + [current])[|rows|] == current;
      assert RowHolds(current, tolerance);
      AnchorIsEarlier(ordered, rows, current, i);
      if b.cy - current[0].cy <= tolerance {
        Joins(rows, current, b, tolerance);
        current := current + [b];
      } else {
        ConcatSnoc(rows, current);
        StartsRow(rows + [current], b, tolerance);
        rows := rows + [current];
        current := [b];
      }
    }
    assert ordered[..|ordered|] == ordered;
    ConcatSnoc(rows, current);
    rows := rows + [current];
  }

  lemma OneMore(finished: seq<Box>, current: seq<Box>, ordered: seq<Box>, i: nat)
    requires i < |ordered| && finished + current == ordered[..i]
    ensures finished + (current + [ordered[i]]) == ordered[..i + 1]
    ensures (finished + current) + [ordered[i]] == ordered[..i + 1]
  {
  }

  lemma AnchorIsEarlier(ordered: seq<Box>, rows: seq<seq<Box>>, current: seq<Box>, i: nat)
    requires i < |ordered| && SortedBy(ordered, Cy) && current != []
    requires Concat(rows) + current == ordered[..i]
    ensures current[0].cy <= ordered[i].cy
  {
    var k := |Concat(rows)|;
    assert ordered[..i][k] == current[0] == ordered[k];
    assert Cy(ordered[k]) <= Cy(ordered[i]);
  }

  lemma Joins(rows: seq<seq<Box>>, current: seq<Box>, b: Box, tolerance: real)
    requires Rowed(rows + [current], tolerance) && current != []
    requires 0.0 <= b.cy - current[0].cy <= tolerance
    ensures Rowed(rows + [current + [b]], tolerance)
  {
    var before, after := rows + [current], rows + [current + [b]];
    assert before[|rows|] == current && after[|rows|] == current + [b];
    assert RowHolds(current, tolerance);
    assert RowHolds(current + [b], tolerance);
    forall i | 0 <= i < |after| ensures RowHolds(after[i], tolerance) && after[i][0] == before[i][0] {
      assert RowHolds(before[i], tolerance);
      if i < |rows| { assert after[i] == before[i]; }
    }
  }

  lemma StartsRow(rows: seq<seq<Box>>, b: Box, tolerance: real)
    requires Rowed(rows, tolerance) && rows != [] && tolerance >= 0.0
    requires b.cy - rows[|rows| - 1][0].cy > tolerance
    ensures Rowed(rows + [[b]], tolerance)
  {
    var after := rows + [[b]];
    assert after[|rows|] == [b];
    assert forall i :: 0 <= i < |rows| ==> after[i] == rows[i];
    forall i | 0 <= i < |rows| ensures b.cy - rows[i][0].cy > tolerance {
      assert RowHolds(rows[i], tolerance) && RowHolds(rows[|rows| - 1], tolerance);
      if i < |rows| - 1 { assert rows[|rows| - 1][0].cy - rows[i][0].cy > tolerance; }
    }
  }

  // ----- no grouping does with fewer rows

  /** A grouping whose groups span no more than the tolerance from top to bottom. */
  ghost predicate SpansWithin(group: seq<Box>, tolerance: real) {
    forall a, b :: a in group && b in group ==> a.cy - b.cy <= tolerance
  }

  lemma {:induction false} InSomeGroup(groups: seq<seq<Box>>, b: Box) returns (g: nat)
    requires b in Concat(groups)
    ensures g < |groups| && b in groups[g]
  {
    var n := |groups| - 1;
    if b in groups[n] {
      g := n;
    } else {
      g := InSomeGroup(groups[..n], b);
    }
  }

  lemma {:induction false} InConcat(rows: seq<seq<Box>>, i: nat)
    requires i < |rows| && rows[i] != []
    ensures rows[i][0] in Concat(rows)
  {
    var n := |rows| - 1;
    if i < n { InConcat(rows[..n], i); }
  }

  /** Distinct numbers below `m` are at most `m`. */
  lemma {:induction false} Pigeonhole(places: seq<nat>, m: nat)
    requires forall i :: 0 <= i < |places| ==> places[i] < m
    requires forall i, j :: 0 <= i < j < |places| ==> places[i] != places[j]
    ensures |places| <= m
    decreases m
  {
    if places != [] {
      assert places[0] < m;
      if k :| 0 <= k < |places| && places[k] == m - 1 {
        var rest := places[..k] + places[k + 1..];
        assert forall i :: 0 <= i < |rest| ==> rest[i] == places[if i < k then i else i + 1];
        Pigeonhole(rest, m - 1);
      } else {
        Pigeonhole(places, m - 1);
      }
    }
  }

  lemma {:induction false} PlacesOf(rows: seq<seq<Box>>, groups: seq<seq<Box>>, tolerance: real, n: nat) returns (places: seq<nat>)
    requires Rowed(rows, tolerance) && n <= |rows|
    requires forall i :: 0 <= i < |rows| ==> rows[i][0] in Concat(groups)
    requires forall g :: 0 <= g < |groups| ==> SpansWithin(groups[g], tolerance)
    ensures |places| == n
    ensures forall i :: 0 <= i < n ==> places[i] < |groups| && rows[i][0] in groups[places[i]]
    ensures forall i, j :: 0 <= i < j < n ==> places[i] != places[j]
  {
    if n == 0 {
      places := [];
    } else {
      var before := PlacesOf(rows, groups, tolerance, n - 1);
      var g := InSomeGroup(groups, rows[n - 1][0]);
      forall i | 0 <= i < n - 1 ensures before[i] != g {
        assert RowHolds(rows[i], tolerance) && RowHolds(rows[n - 1], tolerance);
        assert rows[n - 1][0].cy - rows[i][0].cy > tolerance;
        assert SpansWithin(groups[g], tolerance);
      }
      places := before + [g];
    }
  }

  /** No way of putting the same boxes into groups that span no more than the tolerance, in any
      order, uses fewer groups than there are rows. */
  lemma FewestRows(boxes: seq<Box>, rows: seq<seq<Box>>, groups: seq<seq<Box>>, tolerance: real)
    requires Rowed(rows, tolerance) && multiset(Concat(rows)) == multiset(boxes)
    requires multiset(Concat(groups)) == multiset(boxes)
    requires forall g :: 0 <= g < |groups| ==> SpansWithin(groups[g], tolerance)
    ensures |rows| <= |groups|
  {
    forall i | 0 <= i < |rows| ensures rows[i][0] in Concat(groups) {
      assert RowHolds(rows[i], tolerance);
      InConcat(rows, i);
      assert rows[i][0] in multiset(Concat(rows));
      assert rows[i][0] in multiset(Concat(groups));
    }
    var places := PlacesOf(rows, groups, tolerance, |rows|);
    Pigeonhole(places, |groups|);
  }

  /** The rows themselves are such a grouping, so they are a smallest one. */
  lemma RowsSpanWithin(rows: seq<seq<Box>>, tolerance: real)
    requires Rowed(rows, tolerance)
    ensures forall i :: 0 <= i < |rows| ==> SpansWithin(rows[i], tolerance)
  {
    forall i | 0 <= i < |rows| ensures SpansWithin(rows[i], tolerance) {
      assert RowHolds(rows[i], tolerance);
    }
  }

  // ----- the tolerance

  lemma HeadIsLeast(a: seq<real>, b: seq<real>)
    requires a != [] && b != [] && multiset(a) == multiset(b)
    requires forall i, j :: 0 <= i < j < |a| ==> a[i] <= a[j]
    requires forall i, j :: 0 <= i < j < |b| ==> b[i] <= b[j]
    ensures a[0] == b[0]
  {
    assert a[0] in multiset(b) && b[0] in multiset(a);
    var i :| 0 <= i < |b| && b[i] == a[0];
    var j :| 0 <= j < |a| && a[j] == b[0];
    if i > 0 { assert b[0] <= b[i]; }
    if j > 0 { assert a[0] <= a[j]; }
  }

  lemma TailsAreSame(a: seq<real>, b: seq<real>)
    requires a != [] && b != [] && a[0] == b[0] && multiset(a) == multiset(b)
    ensures multiset(a[1..]) == multiset(b[1..])
  {
    assert a == [a[0]] + a[1..] && b == [b[0]] + b[1..];
    assert multiset(a[1..]) == multiset(a) - multiset{a[0]};
    assert multiset(b[1..]) == multiset(b) - multiset{b[0]};
  }

  lemma {:induction false} OneRising(a: seq<real>, b: seq<real>)
    requires multiset(a) == multiset(b)
    requires forall i, j :: 0 <= i < j < |a| ==> a[i] <= a[j]
    requires forall i, j :: 0 <= i < j < |b| ==> b[i] <= b[j]
    ensures a == b
  {
    assert |multiset(a)| == |a| && |multiset(b)| == |b|;
    if a != [] {
      HeadIsLeast(a, b);
      TailsAreSame(a, b);
      OneRising(a[1..], b[1..]);
      assert a == [a[0]] + a[1..] && b == [b[0]] + b[1..];
    }
  }

  /** How often a height occurs among the boxes that have one. */
  function Times(boxes: seq<Box>, height: real): nat {
    if boxes == [] then 0 else (if boxes[0].height == height && height > 0.0 then 1 else 0) + Times(boxes[1..], height)
  }

  lemma {:induction false} HeightsCounted(boxes: seq<Box>, height: real)
    ensures multiset(PositiveHeights(boxes))[height] == Times(boxes, height)
  {
    if boxes != [] {
      HeightsCounted(boxes[1..], height);
      assert multiset(PositiveHeights(boxes)) ==
        multiset(if boxes[0].height > 0.0 then [boxes[0].height] else []) + multiset(PositiveHeights(boxes[1..]));
    }
  }

  lemma SortedHeights(boxes: seq<Box>, heights: seq<real>)
    requires forall i, j :: 0 <= i < j < |heights| ==> heights[i] <= heights[j]
    requires forall h :: multiset(heights)[h] == Times(boxes, h)
    ensures Sorted(PositiveHeights(boxes), Height) == heights
  {
    var positive := PositiveHeights(boxes);
    forall h ensures multiset(positive)[h] == multiset(heights)[h] { HeightsCounted(boxes, h); }
    assert multiset(positive) == multiset(heights);
    SortedIsSorted(positive, Height);
    var sorted := Sorted(positive, Height);
    forall i, j | 0 <= i < j < |sorted| ensures sorted[i] <= sorted[j] { assert Height(sorted[i]) <= Height(sorted[j]); }
    OneRising(sorted, heights);
  }

  lemma MedianIs(boxes: seq<Box>, heights: seq<real>)
    requires Sorted(PositiveHeights(boxes), Height) == heights
    ensures Median(PositiveHeights(boxes)) == if heights == [] then 12.0 else heights[|heights| / 2]
  {
    SortedIsSorted(PositiveHeights(boxes), Height);
    assert |multiset(heights)| == |heights| && |multiset(PositiveHeights(boxes))| == |PositiveHeights(boxes)|;
  }

  /** The tolerance is the ratio's share of the upper median of the positive heights, of twelve
      points if there is none, and at least two points. */
  lemma ToleranceIs(boxes: seq<Box>, ratio: real, heights: seq<real>, share: real)
    requires forall i, j :: 0 <= i < j < |heights| ==> heights[i] <= heights[j]
    requires forall h :: multiset(heights)[h] == Times(boxes, h)
    requires share == if heights == [] then 12.0 * ratio else heights[|heights| / 2] * ratio
    ensures Tolerance(boxes, ratio) == if share < 2.0 then 2.0 else share
  {
    SortedHeights(boxes, heights);
    MedianIs(boxes, heights);
    var median := if heights == [] then 12.0 else heights[|heights| / 2];
    ToleranceOf(boxes, median, ratio, share);
  }

  lemma ToleranceOf(boxes: seq<Box>, median: real, ratio: real, share: real)
    requires Median(PositiveHeights(boxes)) == median && share == median * ratio
    ensures Tolerance(boxes, ratio) == if share < 2.0 then 2.0 else share
  {
    assert share == Share(median, ratio);
  }
}
