/** How the stages feed each other on the configured zones. */
module Pipeline {
  import opened Config
  import opened CurveLocator
  import opened CurveExtender
  import opened CoordinateMapper
  import opened Interpolator
  import opened Numerics
  import opened Annotator

  /** On a 1024 x 600 image every configured zone is scanned inside the image. */
  lemma ConfiguredZonesInImage(img: array2<Rgb>)
    requires img.Length0 == 1024 && img.Length1 == 600
    ensures forall i :: 0 <= i < |ZoneLst| ==> ScanInImage(img, ZoneLst[i])
  {
  }

  /** Columns a sample or an extension row can have: [minX + 2, maxX). */
  predicate InGraphColumns(s: seq<Point>) {
    forall k :: 0 <= k < |s| ==> MinXGraphLimit + 2 <= s[k].x < MaxXGraphLimit
  }

  /** On a 1024 x 600 image the extracted samples are strictly increasing in x and inside the graph's columns. */
  lemma ExtractedInGraph(img: array2<Rgb>)
    requires img.Length0 == 1024 && img.Length1 == 600
    ensures StrictlyIncreasingX(AllZoneSamples(img, ZoneLst)) && InGraphColumns(AllZoneSamples(img, ZoneLst))
  {
    var s := AllZoneSamples(img, ZoneLst);
    ZonesOrdered();
    AllZoneSamplesSorted(img, ZoneLst);
    AllZoneSamplesInZones(img, ZoneLst);
    forall k | 0 <= k < |s| ensures MinXGraphLimit + 2 <= s[k].x < MaxXGraphLimit {
      assert InSomeZone(ZoneLst, s[k].x);
    }
  }

  /** Extension keeps a sorted list inside the graph's columns. */
  lemma ExtendedInGraph(s: seq<Point>)
    requires s != [] && SortedByX(s) && InGraphColumns(s)
    ensures SortedByX(Extended(s)) && InGraphColumns(Extended(s))
  {
    var e := Extended(s);
    ExtendedShape(s);
    ExtendedSorted(s);
    var p := PrefixLength(s[0].x);
    forall k | 0 <= k < |e| ensures MinXGraphLimit + 2 <= e[k].x < MaxXGraphLimit {
      if k >= p {
        assert e[k] == e[p..][k - p] == s[k - p];
      }
    }
  }

  /** Mapped rows of a sorted list inside the graph's columns give a sorted working copy. */
  lemma MappedInGraphResamples(e: seq<Point>, vf: real -> real)
    requires SortedByX(e) && InGraphColumns(e)
    requires MapToFreqAnddB(e, vf).Ok?
    ensures NonDecreasingX(WorkingCopy(MapToFreqAnddB(e, vf).value))
  {
    var rows := MapToFreqAnddB(e, vf).value;
    MappedSorted(e, vf);
    if e[|e| - 1].x < MaxXGraphLimit - 1 {
      FreqStrictlyIncreasing(e[|e| - 1].x, MaxXGraphLimit - 1);
    }
    assert Freq(MaxXGraphLimit - 1) + PastLastFreqStep <= TopFreq;
    assert 0.0 <= Freq(e[0].x);
    WorkingCopySorted(rows);
  }

  /**
   * The extracted, extended and mapped samples of a 1024 x 600 image satisfy what
   * resampling demands: the working copy's frequencies never decrease.
   */
  lemma ExtractedCurveResamples(img: array2<Rgb>, vf: real -> real)
    requires img.Length0 == 1024 && img.Length1 == 600
    requires AllZoneSamples(img, ZoneLst) != []
    requires MapToFreqAnddB(Extended(AllZoneSamples(img, ZoneLst)), vf).Ok?
    ensures NonDecreasingX(WorkingCopy(MapToFreqAnddB(Extended(AllZoneSamples(img, ZoneLst)), vf).value))
  {
    ExtractedInGraph(img);
    StrictlyIncreasingSorted(AllZoneSamples(img, ZoneLst));
    ExtendedInGraph(AllZoneSamples(img, ZoneLst));
    MappedInGraphResamples(Extended(AllZoneSamples(img, ZoneLst)), vf);
  }

  /**
   * With the configured flags (corners off, samples and both grids on), the writes are the
   * samples' markers, then the attenuation grid's, then the frequency grid's; on a 1024 x 600
   * input and output image every one of them lands inside the output image.
   */
  lemma ConfiguredMarksInImage(img: array2<Rgb>, out: array2<Rgb>)
    requires img.Length0 == 1024 && img.Length1 == 600
    requires out.Length0 == 1024 && out.Length1 == 600
    requires AllZoneSamples(img, ZoneLst) != []
    ensures Marks(Extended(AllZoneSamples(img, ZoneLst)), ConfiguredFlags) ==
      SignalMarks(Extended(AllZoneSamples(img, ZoneLst))) + GridYMarks() + GridXMarks()
    ensures forall m :: m in Marks(Extended(AllZoneSamples(img, ZoneLst)), ConfiguredFlags) ==> InImage(out, m)
  {
    var s := AllZoneSamples(img, ZoneLst);
    var e := Extended(s);
    ExtractedInGraph(img);
    StrictlyIncreasingSorted(s);
    ExtendedInGraph(s);
    AllZoneSamplesInRows(img, ZoneLst, 110, 529);
    ExtendedInRows(s, 110, 529);
    var marks := Marks(e, ConfiguredFlags);
    assert marks == SignalMarks(e) + GridYMarks() + GridXMarks();
    forall m | m in marks
      ensures InImage(out, m)
    {
      if m in SignalMarks(e) {
        var k :| 0 <= k < |e| && SignalMarks(e)[k] == m;
        var n := RoundHalfEven(e[k].y);
        assert 109.5 <= n as real <= 529.5;
      } else if m in GridYMarks() {
        var k :| 0 <= k < |PosYdBVTable| && GridYMarks()[k] == m;
      } else {
        assert m in GridXMarks();
        var k :| 0 <= k < |PosXFreqTable| && GridXMarks()[k] == m;
      }
    }
  }
}
