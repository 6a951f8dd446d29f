/** Annotation: marker pixels written into the output image for visual checking. */
module Annotator {
  import opened Config
  import opened Numerics
  import opened CurveLocator

  /** One write pixelsOut[x, y] = color. */
  datatype Mark = Mark(x: int, y: int, color: Rgb)

  predicate At(m: Mark, i: int, j: int) {
    m.x == i && m.y == j
  }

  predicate InImage(img: array2<Rgb>, m: Mark) {
    0 <= m.x < img.Length0 && 0 <= m.y < img.Length1
  }

  /** The four graph-limit corners, in white. */
  function CornerMarks(): seq<Mark> {
    [Mark(MinXGraphLimit, MinYGraphLimit, SignalMarkerColor),
     Mark(MinXGraphLimit, MaxYGraphLimit, SignalMarkerColor),
     Mark(MaxXGraphLimit, MinYGraphLimit, SignalMarkerColor),
     Mark(MaxXGraphLimit, MaxYGraphLimit, SignalMarkerColor)]
  }

  /** A sample at (x, round(y)): red left of the first zone (an extension sample), white otherwise. */
  function SignalMark(p: Point): Mark {
    Mark(p.x, RoundHalfEven(p.y), if p.x < ZoneLst[0].ulX then ExtensionMarkerColor else SignalMarkerColor)
  }

  function SignalMarks(points: seq<Point>): seq<Mark> {
    seq(|points|, k requires 0 <= k < |points| => SignalMark(points[k]))
  }

  /** Each attenuation grid row, on the graph's left edge. */
  function GridYMarks(): seq<Mark> {
    seq(|PosYdBVTable|, k requires 0 <= k < |PosYdBVTable| =>
      Mark(MinXGraphLimit, PosYdBVTable[k].pos, GridYMarkerColor))
  }

  /** Each frequency grid column, on the graph's bottom edge. */
  function GridXMarks(): seq<Mark> {
    seq(|PosXFreqTable|, k requires 0 <= k < |PosXFreqTable| =>
      Mark(PosXFreqTable[k].pos, MaxYGraphLimit, GridXMarkerColor))
  }

  /** Every write markPointsInOutputImg makes, in the order it makes them. */
  function Marks(points: seq<Point>, flags: MarkFlags): seq<Mark> {
    (if flags.corners then CornerMarks() else []) +
    (if flags.signalPoints then SignalMarks(points) else []) +
    (if flags.gridY then GridYMarks() else []) +
    (if flags.gridX then GridXMarks() else [])
  }

  /** The colour of cell (i, j) after the writes: the last write there, else the background. */
  function Painted(marks: seq<Mark>, i: int, j: int, background: Rgb): Rgb {
    if marks == [] then background
    else if At(marks[|marks| - 1], i, j) then marks[|marks| - 1].color
    else Painted(marks[..|marks| - 1], i, j, background)
  }

  lemma PaintedSnoc(marks: seq<Mark>, m: Mark)
    ensures forall i, j, bg ::
      Painted(marks + [m], i, j, bg) == (if At(m, i, j) then m.color else Painted(marks, i, j, bg))
  {
    assert (marks + [m])[..|marks|] == marks;
  }

  /** Writing a + b is writing a, then writing b over the result. */
  lemma {:induction false} PaintedConcat(a: seq<Mark>, b: seq<Mark>, i: int, j: int, bg: Rgb)
    ensures Painted(a + b, i, j, bg) == Painted(b, i, j, Painted(a, i, j, bg))
    decreases |b|
  {
    if b == [] {
      assert a + b == a;
    } else {
      var n := |b| - 1;
      assert (a + b)[..|a + b| - 1] == a + b[..n];
      assert (a + b)[|a + b| - 1] == b[n];
      PaintedConcat(a, b[..n], i, j, bg);
    }
  }

  /** Every cell of img shows the marks painted over its colour in the state `before`. */
  ghost predicate ShowsPainted(img: array2<Rgb>, marks: seq<Mark>, before: seq<seq<Rgb>>)
    reads img
  {
    |before| == img.Length0 && (forall i :: 0 <= i < img.Length0 ==> |before[i]| == img.Length1) &&
    forall i, j :: 0 <= i < img.Length0 && 0 <= j < img.Length1 ==>
      img[i, j] == Painted(marks, i, j, before[i][j])
  }

  /** The colours of img, column by column. */
  ghost function Snapshot(img: array2<Rgb>): (s: seq<seq<Rgb>>)
    reads img
    ensures |s| == img.Length0 && forall i :: 0 <= i < img.Length0 ==> |s[i]| == img.Length1
    ensures forall i, j :: 0 <= i < img.Length0 && 0 <= j < img.Length1 ==> s[i][j] == img[i, j]
  {
    seq(img.Length0, i requires 0 <= i < img.Length0 reads img =>
      seq(img.Length1, j requires 0 <= j < img.Length1 reads img => img[i, j]))
  }

  /** The corner block of markPointsInOutputImg. */
  method MarkCorners(pixelsOut: array2<Rgb>)
    requires forall m :: m in CornerMarks() ==> InImage(pixelsOut, m)
    modifies pixelsOut
    ensures ShowsPainted(pixelsOut, CornerMarks(), old(Snapshot(pixelsOut)))
  {
    ghost var before := Snapshot(pixelsOut);
    ghost var written: seq<Mark> := [];
    var points := [(MinXGraphLimit, MinYGraphLimit), (MinXGraphLimit, MaxYGraphLimit),
                   (MaxXGraphLimit, MinYGraphLimit), (MaxXGraphLimit, MaxYGraphLimit)];
    for k := 0 to |points|
      invariant written == CornerMarks()[..k]
      invariant ShowsPainted(pixelsOut, written, before)
    {
      var (x, y) := points[k];
      ghost var m := Mark(x, y, SignalMarkerColor);
      assert m == CornerMarks()[k] && m in CornerMarks();
      // round() of an integer row is that row
      pixelsOut[x, y] := SignalMarkerColor;
      PaintedSnoc(written, m);
      assert CornerMarks()[..k + 1] == CornerMarks()[..k] + [m];
      written := written + [m];
    }
    assert CornerMarks()[..|points|] == CornerMarks();
  }

  /** The sample block: red for extension samples left of the first zone, white for the others. */
  method MarkSignalPoints(points: seq<Point>, pixelsOut: array2<Rgb>)
    requires forall m :: m in SignalMarks(points) ==> InImage(pixelsOut, m)
    modifies pixelsOut
    ensures ShowsPainted(pixelsOut, SignalMarks(points), old(Snapshot(pixelsOut)))
  {
    ghost var before := Snapshot(pixelsOut);
    ghost var written: seq<Mark> := [];
    var zone0LowerX := ZoneLst[0].ulX;
    for k := 0 to |points|
      invariant written == SignalMarks(points)[..k]
      invariant ShowsPainted(pixelsOut, written, before)
    {
      var x, y := points[k].x, points[k].y;
      ghost var m := SignalMark(points[k]);
      assert m == SignalMarks(points)[k] && m in SignalMarks(points);
      if x < zone0LowerX {
        pixelsOut[x, RoundHalfEven(y)] := ExtensionMarkerColor;
      } else {
        pixelsOut[x, RoundHalfEven(y)] := SignalMarkerColor;
      }
      PaintedSnoc(written, m);
      assert SignalMarks(points)[..k + 1] == SignalMarks(points)[..k] + [m];
      written := written + [m];
    }
    assert SignalMarks(points)[..|points|] == SignalMarks(points);
  }

  /** The attenuation grid block. */
  method MarkGridY(pixelsOut: array2<Rgb>)
    requires forall m :: m in GridYMarks() ==> InImage(pixelsOut, m)
    modifies pixelsOut
    ensures ShowsPainted(pixelsOut, GridYMarks(), old(Snapshot(pixelsOut)))
  {
    ghost var before := Snapshot(pixelsOut);
    ghost var written: seq<Mark> := [];
    var x := MinXGraphLimit;
    for k := 0 to |PosYdBVTable|
      invariant written == GridYMarks()[..k]
      invariant ShowsPainted(pixelsOut, written, before)
    {
      var y := PosYdBVTable[k].pos;
      ghost var m := Mark(x, y, GridYMarkerColor);
      assert m == GridYMarks()[k] && m in GridYMarks();
      pixelsOut[x, y] := GridYMarkerColor;
      PaintedSnoc(written, m);
      assert GridYMarks()[..k + 1] == GridYMarks()[..k] + [m];
      written := written + [m];
    }
    assert GridYMarks()[..|PosYdBVTable|] == GridYMarks();
  }

  /** The frequency grid block. */
  method MarkGridX(pixelsOut: array2<Rgb>)
    requires forall m :: m in GridXMarks() ==> InImage(pixelsOut, m)
    modifies pixelsOut
    ensures ShowsPainted(pixelsOut, GridXMarks(), old(Snapshot(pixelsOut)))
  {
    ghost var before := Snapshot(pixelsOut);
    ghost var written: seq<Mark> := [];
    var y := MaxYGraphLimit;
    for k := 0 to |PosXFreqTable|
      invariant written == GridXMarks()[..k]
      invariant ShowsPainted(pixelsOut, written, before)
    {
      var x := PosXFreqTable[k].pos;
      ghost var m := Mark(x, y, GridXMarkerColor);
      assert m == GridXMarks()[k] && m in GridXMarks();
      pixelsOut[x, y] := GridXMarkerColor;
      PaintedSnoc(written, m);
      assert GridXMarks()[..k + 1] == GridXMarks()[..k] + [m];
      written := written + [m];
    }
    assert GridXMarks()[..|PosXFreqTable|] == GridXMarks();
  }

  /** Painting a, then b over it, shows a + b over the first background. */
  lemma ShowsPaintedThen(img: array2<Rgb>, a: seq<Mark>, b: seq<Mark>, s0: seq<seq<Rgb>>, s1: seq<seq<Rgb>>)
    requires |s1| == img.Length0 && (forall i :: 0 <= i < img.Length0 ==> |s1[i]| == img.Length1)
    requires |s0| == img.Length0 && (forall i :: 0 <= i < img.Length0 ==> |s0[i]| == img.Length1)
    requires forall i, j :: 0 <= i < img.Length0 && 0 <= j < img.Length1 ==> s1[i][j] == Painted(a, i, j, s0[i][j])
    requires ShowsPainted(img, b, s1)
    ensures ShowsPainted(img, a + b, s0)
  {
    forall i, j | 0 <= i < img.Length0 && 0 <= j < img.Length1
      ensures img[i, j] == Painted(a + b, i, j, s0[i][j])
    {
      PaintedConcat(a, b, i, j, s0[i][j]);
    }
  }

  /**
   * markPointsInOutputImg: each enabled group of markers is written in turn; afterwards every
   * cell shows the last marker written on it, and every other cell is as before.
   */
  method MarkPointsInOutputImg(points: seq<Point>, pixelsOut: array2<Rgb>, flags: MarkFlags)
    requires forall m :: m in Marks(points, flags) ==> InImage(pixelsOut, m)
    modifies pixelsOut
    ensures forall i, j :: 0 <= i < pixelsOut.Length0 && 0 <= j < pixelsOut.Length1 ==>
      pixelsOut[i, j] == Painted(Marks(points, flags), i, j, old(pixelsOut[i, j]))
  {
    ghost var s0 := Snapshot(pixelsOut);
    var c := if flags.corners then CornerMarks() else [];
    var s := if flags.signalPoints then SignalMarks(points) else [];
    var y := if flags.gridY then GridYMarks() else [];
    var x := if flags.gridX then GridXMarks() else [];
    assert Marks(points, flags) == c + s + y + x;

    if flags.corners {
      MarkCorners(pixelsOut);
    }
    assert ShowsPainted(pixelsOut, c, s0);
    ghost var s1 := Snapshot(pixelsOut);

    if flags.signalPoints {
      MarkSignalPoints(points, pixelsOut);
    }
    assert ShowsPainted(pixelsOut, s, s1);
    ShowsPaintedThen(pixelsOut, c, s, s0, s1);
    ghost var s2 := Snapshot(pixelsOut);

    if flags.gridY {
      MarkGridY(pixelsOut);
    }
    assert ShowsPainted(pixelsOut, y, s2);
    ShowsPaintedThen(pixelsOut, c + s, y, s0, s2);
    ghost var s3 := Snapshot(pixelsOut);

    if flags.gridX {
      MarkGridX(pixelsOut);
    }
    assert ShowsPainted(pixelsOut, x, s3);
    ShowsPaintedThen(pixelsOut, c + s + y, x, s0, s3);
  }

  /** Some write of marks lands on cell (i, j). */
  predicate Marked(marks: seq<Mark>, i: int, j: int) {
    exists k :: 0 <= k < |marks| && At(marks[k], i, j)
  }

  /** A cell no write lands on keeps its colour. */
  lemma {:induction false} PaintedUnmarked(marks: seq<Mark>, i: int, j: int, bg: Rgb)
    requires !Marked(marks, i, j)
    ensures Painted(marks, i, j, bg) == bg
  {
    if marks != [] {
      var front := marks[..|marks| - 1];
      assert !At(marks[|marks| - 1], i, j);
      PaintedUnmarked(front, i, j, bg);
    }
  }

  /** A written cell shows the colour of the last write on it. */
  lemma {:induction false} PaintedLastWins(marks: seq<Mark>, k: nat, i: int, j: int, bg: Rgb)
    requires k < |marks| && At(marks[k], i, j)
    requires forall l :: k < l < |marks| ==> !At(marks[l], i, j)
    ensures Painted(marks, i, j, bg) == marks[k].color
  {
    var n := |marks| - 1;
    if k < n {
      var front := marks[..n];
      assert !At(marks[n], i, j);
      forall l | k < l < |front|
        ensures !At(front[l], i, j)
      {
        assert front[l] == marks[l];
      }
      PaintedLastWins(front, k, i, j, bg);
    }
  }

  lemma MarkedConcat(a: seq<Mark>, b: seq<Mark>, i: int, j: int)
    ensures Marked(a + b, i, j) <==> Marked(a, i, j) || Marked(b, i, j)
  {
    if Marked(a + b, i, j) {
      var k :| 0 <= k < |a + b| && At((a + b)[k], i, j);
      if k >= |a| {
        assert At(b[k - |a|], i, j);
      } else {
        assert At(a[k], i, j);
      }
    }
    if Marked(a, i, j) {
      var k :| 0 <= k < |a| && At(a[k], i, j);
      assert At((a + b)[k], i, j);
    }
    if Marked(b, i, j) {
      var k :| 0 <= k < |b| && At(b[k], i, j);
      assert At((a + b)[|a| + k], i, j);
    }
  }

  /**
   * The cells written are exactly: the four corners when enabled, (x, round(y)) of each
   * sample when enabled, (18, row) of each attenuation grid row when enabled, and
   * (column, 530) of each frequency grid column when enabled.
   */
  lemma MarkedCells(points: seq<Point>, flags: MarkFlags, i: int, j: int)
    ensures Marked(Marks(points, flags), i, j) <==>
      (flags.corners && (i == MinXGraphLimit || i == MaxXGraphLimit) &&
                        (j == MinYGraphLimit || j == MaxYGraphLimit)) ||
      (flags.signalPoints && exists k :: 0 <= k < |points| && points[k].x == i && RoundHalfEven(points[k].y) == j) ||
      (flags.gridY && i == MinXGraphLimit && exists k :: 0 <= k < |PosYdBVTable| && PosYdBVTable[k].pos == j) ||
      (flags.gridX && j == MaxYGraphLimit && exists k :: 0 <= k < |PosXFreqTable| && PosXFreqTable[k].pos == i)
  {
    var c := if flags.corners then CornerMarks() else [];
    var s := if flags.signalPoints then SignalMarks(points) else [];
    var y := if flags.gridY then GridYMarks() else [];
    var x := if flags.gridX then GridXMarks() else [];
    MarkedConcat(c + s + y, x, i, j);
    MarkedConcat(c + s, y, i, j);
    MarkedConcat(c, s, i, j);

    if flags.corners && (i == MinXGraphLimit || i == MaxXGraphLimit) && (j == MinYGraphLimit || j == MaxYGraphLimit) {
      var k := if i == MinXGraphLimit then (if j == MinYGraphLimit then 0 else 1)
               else (if j == MinYGraphLimit then 2 else 3);
      assert At(CornerMarks()[k], i, j);
    }
    if flags.signalPoints {
      if exists k :: 0 <= k < |points| && points[k].x == i && RoundHalfEven(points[k].y) == j {
        var k :| 0 <= k < |points| && points[k].x == i && RoundHalfEven(points[k].y) == j;
        assert At(SignalMarks(points)[k], i, j);
      }
      if Marked(s, i, j) {
        var k :| 0 <= k < |s| && At(s[k], i, j);
        assert points[k].x == i && RoundHalfEven(points[k].y) == j;
      }
    }
    if flags.gridY {
      if i == MinXGraphLimit && exists k :: 0 <= k < |PosYdBVTable| && PosYdBVTable[k].pos == j {
        var k :| 0 <= k < |PosYdBVTable| && PosYdBVTable[k].pos == j;
        assert At(GridYMarks()[k], i, j);
      }
      if Marked(y, i, j) {
        var k :| 0 <= k < |y| && At(y[k], i, j);
        assert PosYdBVTable[k].pos == j;
      }
    }
    if flags.gridX {
      if j == MaxYGraphLimit && exists k :: 0 <= k < |PosXFreqTable| && PosXFreqTable[k].pos == i {
        var k :| 0 <= k < |PosXFreqTable| && PosXFreqTable[k].pos == i;
        assert At(GridXMarks()[k], i, j);
      }
      if Marked(x, i, j) {
        var k :| 0 <= k < |x| && At(x[k], i, j);
        assert PosXFreqTable[k].pos == i;
      }
    }
  }
}
