/** Piecewise-linear interpolation of dBV over frequency, and fixed-step resampling. */
module Interpolator {
  import opened Results
  import opened Numerics
  import opened CoordinateMapper

  /** A row returned by the interpolator: (freq, dBV, voltScaleFactor). */
  datatype Interpolated = Interpolated(freq: real, dBV: real, voltFactor: real)

  /** The knots' x coordinates never decrease, as numpy.interp demands of its callers. */
  predicate NonDecreasingX(pts: seq<(real, real)>) {
    forall i, j :: 0 <= i <= j < |pts| ==> pts[i].0 <= pts[j].0
  }

  /** How far f lies along [lo, hi], as a fraction of its width. */
  function Fraction(lo: real, hi: real, f: real): real
    requires lo < hi
  {
    (f - lo) / (hi - lo)
  }

  /** The straight line through a and b, evaluated at f. */
  function Lerp(a: (real, real), b: (real, real), f: real): real
    requires a.0 < b.0
  {
    a.1 + (b.1 - a.1) * Fraction(a.0, b.0, f)
  }

  /**
   * numpy.interp(f, xs, ys): below the first knot the first y, at or above the last knot
   * the last y, otherwise the line through the knots j, j + 1 where j is the LAST knot with
   * x <= f (so a repeated knot takes the y of its last copy).
   */
  function Interp(pts: seq<(real, real)>, f: real): real
    requires |pts| > 0 && NonDecreasingX(pts)
    decreases |pts|
  {
    if f < pts[0].0 || |pts| == 1 then pts[0].1
    else if f < pts[1].0 then Lerp(pts[0], pts[1], f)
    else
      assert NonDecreasingX(pts[1..]) by {
        forall i, j | 0 <= i <= j < |pts| - 1 ensures pts[1..][i].0 <= pts[1..][j].0 {
          assert pts[1..][i] == pts[i + 1] && pts[1..][j] == pts[j + 1];
        }
      }
      Interp(pts[1..], f)
  }

  /** The (point[0], point[1]) columns, freq and dBV, of mapped rows. */
  function FreqdBVPairs(rows: seq<Mapped>): (r: seq<(real, real)>)
    ensures |r| == |rows|
    ensures forall i :: 0 <= i < |rows| ==> r[i] == (rows[i].freq, rows[i].dBV)
  {
    seq(|rows|, i requires 0 <= i < |rows| => (rows[i].freq, rows[i].dBV))
  }

  /**
   * getInterpolated_dB_for_freq: (freq, interpolated dBV, vf of that dBV); the volt factor
   * is computed from the interpolated dBV. No points at all is numpy's ValueError.
   */
  function GetInterpolated(pts: seq<(real, real)>, freq: real, vf: real -> real): (r: Result<Interpolated>)
    requires NonDecreasingX(pts)
    ensures r.Err? <==> pts == []
    ensures r.Err? ==> r.error == ValueError
    ensures r.Ok? ==>
      r.value.freq == freq && r.value.dBV == Interp(pts, freq) && r.value.voltFactor == vf(r.value.dBV)
    ensures r.Ok? && freq < pts[0].0 ==> r.value.dBV == pts[0].1
  {
    if pts == [] then Err(ValueError)
    else
      var d := Interp(pts, freq);
      Ok(Interpolated(freq, d, vf(d)))
  }

  /** At or above the last knot, the last y. */
  lemma {:induction false} InterpAboveLast(pts: seq<(real, real)>, f: real)
    requires |pts| > 0 && NonDecreasingX(pts)
    requires f >= pts[|pts| - 1].0
    ensures Interp(pts, f) == pts[|pts| - 1].1
    decreases |pts|
  {
    if |pts| > 1 {
      assert pts[1..][|pts| - 2] == pts[|pts| - 1];
      InterpAboveLast(pts[1..], f);
    }
  }

  /** Between knots j and j + 1 (x_j <= f < x_{j+1}), the line through them. */
  lemma {:induction false} InterpBracket(pts: seq<(real, real)>, f: real, j: nat)
    requires |pts| > 0 && NonDecreasingX(pts)
    requires j + 1 < |pts| && pts[j].0 <= f < pts[j + 1].0
    ensures Interp(pts, f) == Lerp(pts[j], pts[j + 1], f)
    decreases j
  {
    if j > 0 {
      assert pts[1..][j - 1] == pts[j] && pts[1..][j] == pts[j + 1];
      InterpBracket(pts[1..], f, j - 1);
    }
  }

  lemma LerpAtLeft(a: (real, real), b: (real, real))
    requires a.0 < b.0
    ensures Lerp(a, b, a.0) == a.1
  {
    assert Fraction(a.0, b.0, a.0) == 0.0;
  }

  /** At a knot not repeated to its right, exactly that knot's y. */
  lemma InterpAtKnot(pts: seq<(real, real)>, i: nat)
    requires |pts| > 0 && NonDecreasingX(pts) && i < |pts|
    requires i == |pts| - 1 || pts[i].0 < pts[i + 1].0
    ensures Interp(pts, pts[i].0) == pts[i].1
  {
    if i == |pts| - 1 {
      InterpAboveLast(pts, pts[i].0);
    } else {
      InterpBracket(pts, pts[i].0, i);
      LerpAtLeft(pts[i], pts[i + 1]);
    }
  }

  lemma MulNonneg(x: real, y: real)
    requires 0.0 <= x && 0.0 <= y
    ensures 0.0 <= x * y
  {
  }

  lemma DivBounds(x: real, w: real)
    requires 0.0 <= x <= w && 0.0 < w
    ensures 0.0 <= x / w <= 1.0
  {
  }

  lemma FractionBounds(lo: real, hi: real, f: real)
    requires lo < hi && lo <= f <= hi
    ensures 0.0 <= Fraction(lo, hi, f) <= 1.0
  {
    DivBounds(f - lo, hi - lo);
  }

  lemma ScaleBounds(d: real, s: real)
    requires 0.0 <= s <= 1.0
    ensures 0.0 <= d ==> 0.0 <= d * s <= d
    ensures d < 0.0 ==> d <= d * s <= 0.0
  {
    assert d * (1.0 - s) == d - d * s;
    if 0.0 <= d {
      MulNonneg(d, s);
      MulNonneg(d, 1.0 - s);
    } else {
      MulNonneg(-d, s);
      assert (-d) * s == -(d * s);
      MulNonneg(-d, 1.0 - s);
      assert (-d) * (1.0 - s) == -(d * (1.0 - s));
    }
  }

  /** The line between two knots stays within their y values. */
  lemma LerpBetween(a: (real, real), b: (real, real), f: real)
    requires a.0 < b.0 && a.0 <= f <= b.0
    ensures (if a.1 <= b.1 then a.1 else b.1) <= Lerp(a, b, f) <= (if a.1 <= b.1 then b.1 else a.1)
  {
    var t := Fraction(a.0, b.0, f);
    var d := b.1 - a.1;
    FractionBounds(a.0, b.0, f);
    ScaleBounds(d, t);
    assert Lerp(a, b, f) == a.1 + d * t;
    if a.1 <= b.1 {
      assert 0.0 <= d * t <= d;
    } else {
      assert d <= d * t <= 0.0;
    }
  }

  /** Between two bracketing knots, the interpolated value lies between their y values. */
  lemma InterpBetweenBracketing(pts: seq<(real, real)>, f: real, j: nat)
    requires |pts| > 0 && NonDecreasingX(pts)
    requires j + 1 < |pts| && pts[j].0 <= f < pts[j + 1].0
    ensures var lo, hi := pts[j].1, pts[j + 1].1;
      (if lo <= hi then lo else hi) <= Interp(pts, f) <= (if lo <= hi then hi else lo)
  {
    InterpBracket(pts, f, j);
    LerpBetween(pts[j], pts[j + 1], f);
  }

  // Synthetic boundary points of the resampling working copy.
  const ZeroFreqPoint: (real, real) := (0.0, 0.0)
  const FloorDBV: real := -100.0
  const PastLastFreqStep: real := 1.0
  const TopFreq: real := 1000.0

  /** The frequency of the last row, or 0 MHz (the synthetic first point) when there is none. */
  function LastFreq(mapped: seq<Mapped>): real {
    if mapped == [] then ZeroFreqPoint.0 else mapped[|mapped| - 1].freq
  }

  /**
   * The copy interpolated over: (0 MHz, 0 dBV), the rows' (freq, dBV), then
   * (last freq + 1 MHz, -100 dBV) and (1000 MHz, -100 dBV).
   */
  function WorkingCopy(mapped: seq<Mapped>): seq<(real, real)> {
    [ZeroFreqPoint] + FreqdBVPairs(mapped) +
    [(LastFreq(mapped) + PastLastFreqStep, FloorDBV), (TopFreq, FloorDBV)]
  }

  /** int((end - start + step) / step), the number of rows resampling returns when positive. */
  function NumIntervals(freqStep: real, startFreq: real, endFreq: real): int
    requires freqStep != 0.0
  {
    TruncToInt((endFreq - startFreq + freqStep) / freqStep)
  }

  /** The row resampling produces at frequency f: f, the interpolated dBV and its volt factor. */
  function ResampledRow(w: seq<(real, real)>, f: real, vf: real -> real): Interpolated
    requires |w| > 0 && NonDecreasingX(w)
  {
    Interpolated(f, Interp(w, f), vf(Interp(w, f)))
  }

  /** The first k rows of resampling w from start in steps of step. */
  function ResampledRows(w: seq<(real, real)>, start: real, step: real, k: nat, vf: real -> real): seq<Interpolated>
    requires |w| > 0 && NonDecreasingX(w)
  {
    if k == 0 then [] else ResampledRows(w, start, step, k - 1, vf) + [ResampledRow(w, start + step * (k - 1) as real, vf)]
  }

  /** Row i of ResampledRows is the row at start + step * i. */
  lemma {:induction false} ResampledRowsIndex(w: seq<(real, real)>, start: real, step: real, k: nat, vf: real -> real)
    requires |w| > 0 && NonDecreasingX(w)
    ensures |ResampledRows(w, start, step, k, vf)| == k
    ensures forall i :: 0 <= i < k ==>
      ResampledRows(w, start, step, k, vf)[i] == ResampledRow(w, start + step * i as real, vf)
  {
    if k > 0 {
      ResampledRowsIndex(w, start, step, k - 1, vf);
    }
  }

  /**
   * calcFixedStepInterpolAttenuationTable: interpolate over the working copy at start,
   * start + step, ... for NumIntervals rows (none when that is negative). A zero step
   * raises ZeroDivisionError. The rows passed in are values: the caller's list is untouched.
   */
  method CalcFixedStepInterpolAttenuationTable(mapped: seq<Mapped>, freqStep: real,
                                               freqRange: (real, real), vf: real -> real)
    returns (r: Result<seq<Interpolated>>)
    requires NonDecreasingX(WorkingCopy(mapped))
    ensures r.Err? <==> freqStep == 0.0
    ensures r.Err? ==> r.error == ZeroDivisionError
    ensures r.Ok? ==> var n := NumIntervals(freqStep, freqRange.0, freqRange.1);
      |r.value| == (if n < 0 then 0 else n)
    ensures r.Ok? ==> forall i :: 0 <= i < |r.value| ==>
      r.value[i] == ResampledRow(WorkingCopy(mapped), freqRange.0 + freqStep * i as real, vf)
  {
    var fixedStepTable: seq<Interpolated> := [];
    var startFreq, endFreq := freqRange.0, freqRange.1;
    if freqStep == 0.0 {
      return Err(ZeroDivisionError);
    }
    var numIntervals := NumIntervals(freqStep, startFreq, endFreq);
    var tmpPointsPairLst := [ZeroFreqPoint] + FreqdBVPairs(mapped);
    var lastIndex := |tmpPointsPairLst| - 1;
    var tmpFreq := tmpPointsPairLst[lastIndex].0 + PastLastFreqStep;
    tmpPointsPairLst := tmpPointsPairLst + [(tmpFreq, FloorDBV)];
    tmpPointsPairLst := tmpPointsPairLst + [(TopFreq, FloorDBV)];
    assert tmpPointsPairLst == WorkingCopy(mapped);
    var intervalIndex: nat := 0;
    while intervalIndex < numIntervals
      invariant intervalIndex <= numIntervals || intervalIndex == 0
      invariant fixedStepTable == ResampledRows(tmpPointsPairLst, startFreq, freqStep, intervalIndex, vf)
    {
      var freq := startFreq + freqStep * intervalIndex as real;
      var dataPoint := GetInterpolated(tmpPointsPairLst, freq, vf);
      assert dataPoint.value == ResampledRow(tmpPointsPairLst, freq, vf);
      assert ResampledRows(tmpPointsPairLst, startFreq, freqStep, intervalIndex + 1, vf)
        == fixedStepTable + [ResampledRow(tmpPointsPairLst, freq, vf)];
      fixedStepTable := fixedStepTable + [dataPoint.value];
      intervalIndex := intervalIndex + 1;
    }
    ResampledRowsIndex(tmpPointsPairLst, startFreq, freqStep, intervalIndex, vf);
    return Ok(fixedStepTable);
  }

  /** At and beyond 1 MHz past the last measured row, the resampled table reads the -100 dBV floor. */
  lemma WorkingCopyFloor(mapped: seq<Mapped>, f: real)
    requires NonDecreasingX(WorkingCopy(mapped))
    requires f >= LastFreq(mapped) + PastLastFreqStep
    ensures Interp(WorkingCopy(mapped), f) == FloorDBV
  {
    var w := WorkingCopy(mapped);
    var pre := [ZeroFreqPoint] + FreqdBVPairs(mapped);
    var tail := [(LastFreq(mapped) + PastLastFreqStep, FloorDBV), (TopFreq, FloorDBV)];
    assert w == pre + tail;
    var n := |w|;
    assert w[n - 1] == tail[1];
    if f >= TopFreq {
      InterpAboveLast(w, f);
    } else {
      assert w[n - 2] == tail[0];
      InterpBracket(w, f, n - 2);
    }
  }

  /** Rows sorted by frequency, starting at or above 0 MHz and ending before 999 MHz, give a sorted working copy. */
  lemma WorkingCopySorted(mapped: seq<Mapped>)
    requires forall i, j :: 0 <= i <= j < |mapped| ==> mapped[i].freq <= mapped[j].freq
    requires mapped != [] ==> 0.0 <= mapped[0].freq
    requires LastFreq(mapped) + PastLastFreqStep <= TopFreq
    ensures NonDecreasingX(WorkingCopy(mapped))
  {
    var w := WorkingCopy(mapped);
    var m := |mapped|;
    forall i, j | 0 <= i <= j < |w|
      ensures w[i].0 <= w[j].0
    {
      if 1 <= i <= m && 1 <= j <= m {
        assert w[i].0 == mapped[i - 1].freq && w[j].0 == mapped[j - 1].freq;
      } else if 1 <= i <= m {
        assert w[i].0 == mapped[i - 1].freq;
        assert mapped[i - 1].freq <= mapped[m - 1].freq;
      } else if i == 0 && 1 <= j <= m {
        assert w[j].0 == mapped[j - 1].freq;
        assert mapped[0].freq <= mapped[j - 1].freq;
      }
    }
  }

  /** Over 0 to 1000 MHz, a 10 MHz step gives 101 rows and a 1 MHz step 1001 rows. */
  lemma ConfiguredRowCounts()
    ensures NumIntervals(10.0, 0.0, 1000.0) == 101
    ensures NumIntervals(1.0, 0.0, 1000.0) == 1001
  {
  }
}
