/** Curve extension: hold the first sample's row flat back to the left edge of the graph. */
module CurveExtender {
  import opened Results
  import opened Config
  import opened CurveLocator

  /** A Python list of samples that the extender changes in place. */
  class PointList {
    var items: seq<Point>

    constructor (s: seq<Point>)
      ensures items == s
    {
      items := s;
    }
  }

  /** [Point(lo, y), Point(lo + 1, y), ..., Point(hi, y)], empty when hi < lo. */
  function FlatRun(lo: int, hi: int, y: real): seq<Point>
    decreases hi - lo
  {
    if hi < lo then [] else [Point(lo, y)] + FlatRun(lo + 1, hi, y)
  }

  /** Number of synthetic samples put in front of a list whose first x is x0. */
  function PrefixLength(x0: int): nat {
    if x0 > MinXGraphLimit + 1 then x0 - MinXGraphLimit - 1 else 0
  }

  /** The list after extension: columns minX + 2 .. x0 at the first row, then the list itself. */
  function Extended(s: seq<Point>): seq<Point>
    requires s != []
  {
    FlatRun(MinXGraphLimit + 2, s[0].x, s[0].y) + s
  }

  /**
   * startingPointsExtender: insert [x, y0] at the front for x = x0, x0 - 1, ..., minX + 2,
   * and return the same list. An empty list raises IndexError and is left unchanged.
   */
  method StartingPointsExtender(lst: PointList) returns (r: Result<PointList>)
    modifies lst
    ensures old(lst.items) == [] ==> r == Err(IndexError) && lst.items == old(lst.items)
    ensures old(lst.items) != [] ==> r == Ok(lst) && lst.items == Extended(old(lst.items))
  {
    var startGraphPosX := MinXGraphLimit + 1;
    if |lst.items| == 0 {
      return Err(IndexError);
    }
    var firstPoint := lst.items[0];
    var endValueX, valueY := firstPoint.x, firstPoint.y;
    var x := endValueX;
    while x > startGraphPosX
      invariant x <= endValueX && (startGraphPosX <= x || x == endValueX)
      invariant lst.items == FlatRun(x + 1, endValueX, valueY) + old(lst.items)
    {
      lst.items := [Point(x, valueY)] + lst.items;
      x := x - 1;
    }
    return Ok(lst);
  }

  lemma {:induction false} FlatRunShape(lo: int, hi: int, y: real)
    ensures |FlatRun(lo, hi, y)| == if hi < lo then 0 else hi - lo + 1
    ensures forall i :: 0 <= i < |FlatRun(lo, hi, y)| ==> FlatRun(lo, hi, y)[i] == Point(lo + i, y)
    decreases hi - lo
  {
    if lo <= hi {
      FlatRunShape(lo + 1, hi, y);
      var r := FlatRun(lo, hi, y);
      forall i | 0 <= i < |r|
        ensures r[i] == Point(lo + i, y)
      {
        if i > 0 {
          assert r[i] == FlatRun(lo + 1, hi, y)[i - 1];
        }
      }
    }
  }

  /**
   * Extension grows the list by max(0, x0 - minX - 1), puts columns minX + 2 .. x0 in
   * ascending order at the first row in front, and leaves the original samples after them.
   */
  lemma ExtendedShape(s: seq<Point>)
    requires s != []
    ensures |Extended(s)| == |s| + PrefixLength(s[0].x)
    ensures forall i :: 0 <= i < PrefixLength(s[0].x) ==>
      Extended(s)[i] == Point(MinXGraphLimit + 2 + i, s[0].y)
    ensures Extended(s)[PrefixLength(s[0].x)..] == s
  {
    FlatRunShape(MinXGraphLimit + 2, s[0].x, s[0].y);
  }

  /** When anything is prepended, the last synthetic sample repeats the first original one. */
  lemma ExtendedRepeatsFirst(s: seq<Point>)
    requires s != [] && PrefixLength(s[0].x) > 0
    ensures |Extended(s)| > PrefixLength(s[0].x)
    ensures Extended(s)[PrefixLength(s[0].x) - 1] == Extended(s)[PrefixLength(s[0].x)] == s[0]
  {
    ExtendedShape(s);
  }

  predicate SortedByX(s: seq<Point>) {
    forall i, j :: 0 <= i <= j < |s| ==> s[i].x <= s[j].x
  }

  /** A strictly increasing list is sorted. */
  lemma StrictlyIncreasingSorted(s: seq<Point>)
    requires StrictlyIncreasingX(s)
    ensures SortedByX(s)
  {
    forall i, j | 0 <= i <= j < |s|
      ensures s[i].x <= s[j].x
    {
      if i < j {
        assert s[i].x < s[j].x;
      }
    }
  }

  /** Extension keeps the first sample's row on every prepended sample. */
  lemma ExtendedInRows(s: seq<Point>, lo: int, hi: int)
    requires s != [] && InRows(s, lo, hi)
    ensures InRows(Extended(s), lo, hi)
  {
    ExtendedShape(s);
    var e := Extended(s);
    var p := PrefixLength(s[0].x);
    forall k | 0 <= k < |e|
      ensures lo as real <= e[k].y <= hi as real
    {
      if k >= p {
        assert e[k] == e[p..][k - p] == s[k - p];
      }
    }
  }

  /** Extension keeps a list sorted by x (ascending, with x0 present twice). */
  lemma ExtendedSorted(s: seq<Point>)
    requires s != [] && SortedByX(s)
    ensures SortedByX(Extended(s))
  {
    ExtendedShape(s);
    var e := Extended(s);
    var k := PrefixLength(s[0].x);
    forall i, j | 0 <= i <= j < |e|
      ensures e[i].x <= e[j].x
    {
      if j >= k {
        assert e[j] == s[j - k];
        if i >= k {
          assert e[i] == s[i - k];
        }
      }
    }
  }

  /**
   * A single sample (50, 120.0): columns 20 .. 50 are prepended, so the result has 32 rows,
   * all at row 120.0, with column 50 twice.
   */
  lemma SingleSampleExample()
    ensures var e := Extended([Point(50, 120.0)]);
      |e| == 32 && e[0] == Point(20, 120.0) && e[30] == e[31] == Point(50, 120.0) &&
      forall i :: 0 <= i < 31 ==> e[i] == Point(20 + i, 120.0)
  {
    ExtendedShape([Point(50, 120.0)]);
  }
}
