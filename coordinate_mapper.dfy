/** Pixel to unit mapping: frequency from the graph's x limits, dBV from the curve's own zero row. */
module CoordinateMapper {
  import opened Results
  import opened Config
  import opened CurveLocator

  /** A mapped row [freq, dBV, voltScaleFactor, x, y]. */
  datatype Mapped = Mapped(freq: real, dBV: real, voltFactor: real, x: int, y: real)

  /** Index, in the extended sample list, of the sample whose row reads 0 dBV. */
  const ZeroRefIndex: int := ZoneLst[0].ulX - MinXGraphLimit + 1

  /** MHz of pixel column x: the graph's left edge reads 0 MHz, its right edge 1000 MHz. */
  function Freq(x: int): real {
    (x - MinXGraphLimit) as real / (MaxXGraphLimit - MinXGraphLimit) as real * 1000.0
  }

  /** dBV of pixel row y, relative to row yRef, at the grid table's dBV-per-pixel scale. */
  function DBV(y: real, yRef: real): real {
    (y - yRef) / (MaxYdBVLimit.0 - MinYdBVLimit.0) as real * (MaxYdBVLimit.1 - MinYdBVLimit.1)
  }

  /**
   * mapToFreq_and_dB: one row per sample, in order, with x and y passed through. The row of
   * the sample at ZeroRefIndex is the 0 dBV reference; a list too short for it raises IndexError.
   * vf stands for calculateVoltfactor.
   */
  function MapToFreqAnddB(points: seq<Point>, vf: real -> real): (r: Result<seq<Mapped>>)
    ensures r.Err? <==> |points| <= ZeroRefIndex
    ensures r.Err? ==> r.error == IndexError
    ensures r.Ok? ==> |r.value| == |points|
    ensures r.Ok? ==> forall i :: 0 <= i < |points| ==>
      r.value[i].x == points[i].x && r.value[i].y == points[i].y &&
      r.value[i].freq == Freq(points[i].x) &&
      r.value[i].dBV == DBV(points[i].y, points[ZeroRefIndex].y) &&
      r.value[i].voltFactor == vf(r.value[i].dBV)
    ensures r.Ok? ==> r.value[ZeroRefIndex].dBV == 0.0
  {
    if |points| <= ZeroRefIndex then Err(IndexError)
    else
      var yRef := points[ZeroRefIndex].y;
      Ok(seq(|points|, i requires 0 <= i < |points| =>
        var d := DBV(points[i].y, yRef);
        Mapped(Freq(points[i].x), d, vf(d), points[i].x, points[i].y)))
  }

  /** The graph limits, which are also the first and last frequency grid columns, map to their own MHz. */
  lemma FreqAtTableEnds()
    ensures Freq(MinXGraphLimit) == 0.0 && Freq(MaxXGraphLimit) == 1000.0
    ensures Freq(PosXFreqTable[0].pos) == PosXFreqTable[0].value
    ensures Freq(PosXFreqTable[|PosXFreqTable| - 1].pos) == PosXFreqTable[|PosXFreqTable| - 1].value
  {
  }

  /** Frequency strictly increases with the pixel column. */
  lemma FreqStrictlyIncreasing(x1: int, x2: int)
    requires x1 < x2
    ensures Freq(x1) < Freq(x2)
  {
  }

  /** The reference row reads 0 dBV, and dBV strictly decreases as the row moves down. */
  lemma DBVMonotone(y1: real, y2: real, yRef: real)
    ensures DBV(yRef, yRef) == 0.0
    ensures y1 < y2 ==> DBV(y1, yRef) > DBV(y2, yRef)
  {
  }

  /** With the first grid row as reference, the first and last grid rows map to their normalised dBV. */
  lemma DBVAtTableEnds()
    ensures var first, last := PosYdBVTable[0], PosYdBVTable[|PosYdBVTable| - 1];
      DBV(first.pos as real, first.pos as real) == first.value - DbVOffset &&
      DBV(last.pos as real, first.pos as real) == last.value - DbVOffset
  {
  }

  /** Samples sorted by x give rows sorted by frequency. */
  lemma MappedSorted(points: seq<Point>, vf: real -> real)
    requires MapToFreqAnddB(points, vf).Ok?
    requires forall i, j :: 0 <= i <= j < |points| ==> points[i].x <= points[j].x
    ensures var rows := MapToFreqAnddB(points, vf).value;
      forall i, j :: 0 <= i <= j < |rows| ==> rows[i].freq <= rows[j].freq
  {
    var rows := MapToFreqAnddB(points, vf).value;
    forall i, j | 0 <= i <= j < |rows|
      ensures rows[i].freq <= rows[j].freq
    {
      if points[i].x < points[j].x {
        FreqStrictlyIncreasing(points[i].x, points[j].x);
      }
    }
  }
}
