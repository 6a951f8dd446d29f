/** Curve location: one sample per scanned column that holds the curve colour. */
module CurveLocator {
  import opened Results
  import opened Config

  /** A pixel sample [x, y]; y is a midpoint row and may be a half-integer. */
  datatype Point = Point(x: int, y: real)

  /** The exact 24-bit comparison against the curve colour. */
  predicate IsSignal(p: Rgb) {
    p.r == SignalColor.r && p.g == SignalColor.g && p.b == SignalColor.b
  }

  /** Rows [lo, hi) of column x can be read (or there is nothing to read). */
  predicate ColumnReadable(img: array2<Rgb>, x: int, lo: nat, hi: nat) {
    hi <= lo || (0 <= x < img.Length0 && hi <= img.Length1)
  }

  /** Every pixel a scan of the zone reads lies inside the image. */
  predicate ScanInImage(img: array2<Rgb>, zone: Zone) {
    zone.drX <= zone.ulX || zone.drY <= zone.ulY ||
    (zone.drX <= img.Length0 && zone.drY <= img.Length1)
  }

  /** Number of curve-coloured pixels in rows [lo, hi) of column x, contiguous or not. */
  function MatchCount(img: array2<Rgb>, x: int, lo: nat, hi: nat): nat
    requires ColumnReadable(img, x, lo, hi)
    reads img
    decreases hi
  {
    if hi <= lo then 0
    else MatchCount(img, x, lo, hi - 1) + (if IsSignal(img[x, hi - 1]) then 1 else 0)
  }

  /** The first curve-coloured row in [lo, hi) of column x, or -1 when there is none. */
  function FirstMatch(img: array2<Rgb>, x: int, lo: nat, hi: nat): (f: int)
    requires ColumnReadable(img, x, lo, hi)
    reads img
    ensures f == -1 || lo <= f < hi
    ensures (f == -1) == (MatchCount(img, x, lo, hi) == 0)
    decreases hi
  {
    if hi <= lo then -1
    else
      var f' := FirstMatch(img, x, lo, hi - 1);
      if f' != -1 then f'
      else if IsSignal(img[x, hi - 1]) then hi - 1
      else -1
  }

  /** The row reported for a column: first match plus half of (count - 1). */
  function ColumnY(img: array2<Rgb>, x: int, lo: nat, hi: nat): real
    requires ColumnReadable(img, x, lo, hi)
    reads img
  {
    FirstMatch(img, x, lo, hi) as real + (MatchCount(img, x, lo, hi) - 1) as real / 2.0
  }

  /** What one column contributes: its sample, or nothing when no pixel matches. */
  function ColumnSample(img: array2<Rgb>, x: int, lo: nat, hi: nat): seq<Point>
    requires ColumnReadable(img, x, lo, hi)
    reads img
  {
    if MatchCount(img, x, lo, hi) > 0 then [Point(x, ColumnY(img, x, lo, hi))] else []
  }

  /** The samples of columns [zone.ulX, hi) of a zone, left to right. */
  function ZoneColumns(img: array2<Rgb>, zone: Zone, hi: int): seq<Point>
    requires ScanInImage(img, zone) && (hi <= zone.drX || hi <= zone.ulX)
    reads img
    decreases hi - zone.ulX
  {
    if hi <= zone.ulX then []
    else ZoneColumns(img, zone, hi - 1) + ColumnSample(img, hi - 1, zone.ulY, zone.drY)
  }

  /** The samples of a whole zone. */
  function ZoneSamples(img: array2<Rgb>, zone: Zone): seq<Point>
    requires ScanInImage(img, zone)
    reads img
  {
    ZoneColumns(img, zone, zone.drX)
  }

  /** The samples of the zones, concatenated in list order. */
  function AllZoneSamples(img: array2<Rgb>, zones: seq<Zone>): seq<Point>
    requires forall i :: 0 <= i < |zones| ==> ScanInImage(img, zones[i])
    reads img
  {
    if zones == [] then []
    else AllZoneSamples(img, zones[..|zones| - 1]) + ZoneSamples(img, zones[|zones| - 1])
  }

  /** processZone: scan each column of the zone top to bottom, counting matches. */
  method ProcessZone(img: array2<Rgb>, zone: Zone) returns (r: Result<seq<Point>>)
    ensures r.Err? <==> !ScanInImage(img, zone)
    ensures r.Err? ==> r.error == IndexError
    ensures r.Ok? ==> r.value == ZoneSamples(img, zone)
  {
    if !ScanInImage(img, zone) {
      return Err(IndexError);
    }
    var pointPairLst: seq<Point> := [];
    var x := zone.ulX;
    while x < zone.drX
      invariant zone.ulX <= x && (x <= zone.drX || x == zone.ulX)
      invariant pointPairLst == ZoneColumns(img, zone, x)
    {
      var firstPointY := -1;
      var counter := 0;
      var y := zone.ulY;
      while y < zone.drY
        invariant zone.ulY <= y && (y <= zone.drY || y == zone.ulY)
        invariant counter == MatchCount(img, x, zone.ulY, y)
        invariant firstPointY == FirstMatch(img, x, zone.ulY, y)
      {
        var pix := img[x, y];
        if pix.r == SignalColor.r && pix.g == SignalColor.g && pix.b == SignalColor.b {
          if counter == 0 {
            firstPointY := y;
          }
          counter := counter + 1;
        }
        y := y + 1;
      }
      if counter > 0 {
        var calcY := firstPointY as real + (counter - 1) as real / 2.0;
        pointPairLst := pointPairLst + [Point(x, calcY)];
      }
      x := x + 1;
    }
    return Ok(pointPairLst);
  }

  /** extractSignalPixelPos: the zones' samples, concatenated in list order. */
  method ExtractSignalPixelPos(img: array2<Rgb>, zones: seq<Zone>) returns (r: Result<seq<Point>>)
    ensures r.Err? <==> exists i :: 0 <= i < |zones| && !ScanInImage(img, zones[i])
    ensures r.Err? ==> r.error == IndexError
    ensures r.Ok? ==> r.value == AllZoneSamples(img, zones)
  {
    var lstPointPairs: seq<Point> := [];
    for k := 0 to |zones|
      invariant forall i :: 0 <= i < k ==> ScanInImage(img, zones[i])
      invariant lstPointPairs == AllZoneSamples(img, zones[..k])
    {
      var zonePoints := ProcessZone(img, zones[k]);
      if zonePoints.Err? {
        return Err(zonePoints.error);
      }
      assert zones[..k + 1][..k] == zones[..k];
      lstPointPairs := lstPointPairs + zonePoints.value;
    }
    assert zones[..|zones|] == zones;
    return Ok(lstPointPairs);
  }

  /** A column has a curve pixel exactly when its match count is positive. */
  lemma {:induction false} MatchCountPositiveIff(img: array2<Rgb>, x: int, lo: nat, hi: nat)
    requires ColumnReadable(img, x, lo, hi)
    ensures MatchCount(img, x, lo, hi) > 0 <==> exists y :: lo <= y < hi && IsSignal(img[x, y])
    decreases hi
  {
    if hi > lo {
      MatchCountPositiveIff(img, x, lo, hi - 1);
    }
  }

  /** The match count is the number of distinct matching rows. */
  lemma {:induction false} MatchCountIsRowCount(img: array2<Rgb>, x: int, lo: nat, hi: nat)
    requires ColumnReadable(img, x, lo, hi)
    ensures MatchCount(img, x, lo, hi) == |set y | lo <= y < hi && IsSignal(img[x, y])|
    decreases hi
  {
    var rows := set y | lo <= y < hi && IsSignal(img[x, y]);
    if hi <= lo {
      assert rows == {};
    } else {
      MatchCountIsRowCount(img, x, lo, hi - 1);
      var rows' := set y | lo <= y < hi - 1 && IsSignal(img[x, y]);
      if IsSignal(img[x, hi - 1]) {
        assert rows == rows' + {hi - 1};
        assert hi - 1 !in rows';
      } else {
        assert rows == rows';
      }
    }
  }

  /** FirstMatch is the smallest matching row. */
  lemma {:induction false} FirstMatchIsLeast(img: array2<Rgb>, x: int, lo: nat, hi: nat)
    requires ColumnReadable(img, x, lo, hi)
    ensures var f := FirstMatch(img, x, lo, hi);
      (f == -1 ==> forall y :: lo <= y < hi ==> !IsSignal(img[x, y])) &&
      (f != -1 ==> IsSignal(img[x, f]) && forall y :: lo <= y < f ==> !IsSignal(img[x, y]))
    decreases hi
  {
    if hi > lo {
      FirstMatchIsLeast(img, x, lo, hi - 1);
    }
  }

  /** Every match lies at or below the first, so the count fits in [first, hi). */
  lemma {:induction false} MatchCountFromFirst(img: array2<Rgb>, x: int, lo: nat, hi: nat)
    requires ColumnReadable(img, x, lo, hi)
    requires FirstMatch(img, x, lo, hi) != -1
    ensures MatchCount(img, x, lo, hi) <= hi - FirstMatch(img, x, lo, hi)
    decreases hi
  {
    if FirstMatch(img, x, lo, hi - 1) != -1 {
      MatchCountFromFirst(img, x, lo, hi - 1);
    }
  }

  /** A column's reported row lies inside the scanned rows [lo, hi - 1]. */
  lemma ColumnYInRows(img: array2<Rgb>, x: int, lo: nat, hi: nat)
    requires ColumnReadable(img, x, lo, hi)
    requires MatchCount(img, x, lo, hi) > 0
    ensures lo as real <= ColumnY(img, x, lo, hi) <= (hi - 1) as real
  {
    MatchCountFromFirst(img, x, lo, hi);
  }

  /** p is the sample a column of the zone produces. */
  predicate ValidSample(img: array2<Rgb>, zone: Zone, p: Point)
    reads img
  {
    zone.ulX <= p.x < zone.drX && ColumnReadable(img, p.x, zone.ulY, zone.drY) &&
    MatchCount(img, p.x, zone.ulY, zone.drY) > 0 && p.y == ColumnY(img, p.x, zone.ulY, zone.drY)
  }

  predicate StrictlyIncreasingX(s: seq<Point>) {
    forall i, j :: 0 <= i < j < |s| ==> s[i].x < s[j].x
  }

  /** Some sample of s is at column c. */
  predicate HasColumn(s: seq<Point>, c: int) {
    exists i :: 0 <= i < |s| && s[i].x == c
  }

  /** Column c holds at least one curve pixel in rows [lo, hi). */
  predicate ColumnHasSignal(img: array2<Rgb>, c: int, lo: nat, hi: nat)
    requires ColumnReadable(img, c, lo, hi)
    reads img
  {
    exists y :: lo <= y < hi && IsSignal(img[c, y])
  }

  lemma HasColumnConcat(a: seq<Point>, b: seq<Point>, c: int)
    ensures HasColumn(a + b, c) <==> HasColumn(a, c) || HasColumn(b, c)
  {
    if HasColumn(a + b, c) {
      var i :| 0 <= i < |a + b| && (a + b)[i].x == c;
      if i >= |a| {
        assert b[i - |a|].x == c;
      }
    }
    if HasColumn(b, c) {
      var i :| 0 <= i < |b| && b[i].x == c;
      assert (a + b)[|a| + i].x == c;
    }
    if HasColumn(a, c) {
      var i :| 0 <= i < |a| && a[i].x == c;
      assert (a + b)[i].x == c;
    }
  }

  /** Every sample of columns [ulX, hi) is a valid sample of a column left of hi. */
  lemma {:induction false} ZoneColumnsValid(img: array2<Rgb>, zone: Zone, hi: int)
    requires ScanInImage(img, zone) && (hi <= zone.drX || hi <= zone.ulX)
    ensures forall i :: 0 <= i < |ZoneColumns(img, zone, hi)| ==>
      ZoneColumns(img, zone, hi)[i].x < hi && ValidSample(img, zone, ZoneColumns(img, zone, hi)[i])
    decreases hi - zone.ulX
  {
    if hi > zone.ulX {
      ZoneColumnsValid(img, zone, hi - 1);
      var s' := ZoneColumns(img, zone, hi - 1);
      var col := ColumnSample(img, hi - 1, zone.ulY, zone.drY);
      var s := ZoneColumns(img, zone, hi);
      assert s == s' + col;
      forall i | 0 <= i < |s|
        ensures s[i].x < hi && ValidSample(img, zone, s[i])
      {
        if i < |s'| {
          assert s[i] == s'[i];
        } else {
          assert s[i] == col[0];
        }
      }
    }
  }

  lemma {:induction false} ZoneColumnsSorted(img: array2<Rgb>, zone: Zone, hi: int)
    requires ScanInImage(img, zone) && (hi <= zone.drX || hi <= zone.ulX)
    ensures StrictlyIncreasingX(ZoneColumns(img, zone, hi))
    decreases hi - zone.ulX
  {
    if hi > zone.ulX {
      ZoneColumnsSorted(img, zone, hi - 1);
      ZoneColumnsValid(img, zone, hi - 1);
      var s' := ZoneColumns(img, zone, hi - 1);
      var col := ColumnSample(img, hi - 1, zone.ulY, zone.drY);
      var s := ZoneColumns(img, zone, hi);
      assert s == s' + col;
      forall i, j | 0 <= i < j < |s|
        ensures s[i].x < s[j].x
      {
        if j >= |s'| {
          assert s[j] == col[0];
          assert s[i] == s'[i];
        } else {
          assert s[i] == s'[i] && s[j] == s'[j];
        }
      }
    }
  }

  lemma {:induction false} ZoneColumnsCoverage(img: array2<Rgb>, zone: Zone, hi: int, c: int)
    requires ScanInImage(img, zone) && (hi <= zone.drX || hi <= zone.ulX)
    requires zone.ulX <= c < hi
    ensures ColumnReadable(img, c, zone.ulY, zone.drY)
    ensures MatchCount(img, c, zone.ulY, zone.drY) > 0 <==> HasColumn(ZoneColumns(img, zone, hi), c)
    decreases hi - zone.ulX
  {
    var s' := ZoneColumns(img, zone, hi - 1);
    var col := ColumnSample(img, hi - 1, zone.ulY, zone.drY);
    HasColumnConcat(s', col, c);
    if c < hi - 1 {
      ZoneColumnsCoverage(img, zone, hi - 1, c);
      if col != [] {
        assert !HasColumn(col, c) by { assert col[0].x == hi - 1; }
      }
    } else {
      ZoneColumnsValid(img, zone, hi - 1);
      if col != [] {
        assert col[0].x == c;
      }
    }
  }

  /**
   * One sample per column of [ulX, drX) holding a curve pixel, none for the others,
   * strictly increasing in x, each at first-match-row + (count - 1) / 2 inside [ulY, drY - 1].
   */
  lemma ZoneSamplesSpec(img: array2<Rgb>, zone: Zone)
    requires ScanInImage(img, zone)
    ensures StrictlyIncreasingX(ZoneSamples(img, zone))
    ensures forall i :: 0 <= i < |ZoneSamples(img, zone)| ==>
      ValidSample(img, zone, ZoneSamples(img, zone)[i]) &&
      zone.ulY as real <= ZoneSamples(img, zone)[i].y <= (zone.drY - 1) as real
    ensures forall c :: zone.ulX <= c < zone.drX ==>
      ColumnReadable(img, c, zone.ulY, zone.drY) &&
      (ColumnHasSignal(img, c, zone.ulY, zone.drY) <==> HasColumn(ZoneSamples(img, zone), c))
  {
    var s := ZoneSamples(img, zone);
    ZoneColumnsSorted(img, zone, zone.drX);
    ZoneColumnsValid(img, zone, zone.drX);
    forall i | 0 <= i < |s|
      ensures zone.ulY as real <= s[i].y <= (zone.drY - 1) as real
    {
      ColumnYInRows(img, s[i].x, zone.ulY, zone.drY);
    }
    forall c | zone.ulX <= c < zone.drX
      ensures ColumnReadable(img, c, zone.ulY, zone.drY) &&
        (ColumnHasSignal(img, c, zone.ulY, zone.drY) <==> HasColumn(s, c))
    {
      ZoneColumnsCoverage(img, zone, zone.drX, c);
      MatchCountPositiveIff(img, c, zone.ulY, zone.drY);
    }
  }

  /** x lies in the columns of one of the zones. */
  predicate InSomeZone(zones: seq<Zone>, x: int) {
    exists i :: 0 <= i < |zones| && zones[i].ulX <= x < zones[i].drX
  }

  /** Every sample of the concatenation comes from the columns of one of the zones. */
  lemma {:induction false} AllZoneSamplesInZones(img: array2<Rgb>, zones: seq<Zone>)
    requires forall i :: 0 <= i < |zones| ==> ScanInImage(img, zones[i])
    ensures forall k :: 0 <= k < |AllZoneSamples(img, zones)| ==>
      InSomeZone(zones, AllZoneSamples(img, zones)[k].x)
    decreases |zones|
  {
    if zones != [] {
      var n := |zones| - 1;
      var front := zones[..n];
      AllZoneSamplesInZones(img, front);
      var a := AllZoneSamples(img, front);
      var b := ZoneSamples(img, zones[n]);
      ZoneSamplesSpec(img, zones[n]);
      var s := AllZoneSamples(img, zones);
      assert s == a + b;
      forall k | 0 <= k < |s|
        ensures InSomeZone(zones, s[k].x)
      {
        if k < |a| {
          assert s[k] == a[k];
          assert InSomeZone(front, a[k].x);
          var i :| 0 <= i < |front| && front[i].ulX <= a[k].x < front[i].drX;
          assert zones[i] == front[i];
        } else {
          assert s[k] == b[k - |a|];
          assert ValidSample(img, zones[n], b[k - |a|]);
        }
      }
    }
  }

  /** Every sample's row lies in [lo, hi]. */
  predicate InRows(s: seq<Point>, lo: int, hi: int) {
    forall k :: 0 <= k < |s| ==> lo as real <= s[k].y <= hi as real
  }

  /** When every zone scans only rows lo .. hi, every concatenated sample lies in those rows. */
  lemma {:induction false} AllZoneSamplesInRows(img: array2<Rgb>, zones: seq<Zone>, lo: int, hi: int)
    requires forall i :: 0 <= i < |zones| ==> ScanInImage(img, zones[i])
    requires forall i :: 0 <= i < |zones| ==> lo <= zones[i].ulY && zones[i].drY <= hi + 1
    ensures InRows(AllZoneSamples(img, zones), lo, hi)
    decreases |zones|
  {
    if zones != [] {
      var n := |zones| - 1;
      var front := zones[..n];
      AllZoneSamplesInRows(img, front, lo, hi);
      var a := AllZoneSamples(img, front);
      var b := ZoneSamples(img, zones[n]);
      ZoneSamplesSpec(img, zones[n]);
      var s := AllZoneSamples(img, zones);
      assert s == a + b;
      forall k | 0 <= k < |s|
        ensures lo as real <= s[k].y <= hi as real
      {
        if k < |a| {
          assert s[k] == a[k];
        } else {
          assert s[k] == b[k - |a|];
        }
      }
    }
  }

  /**
   * When every zone lies left of the zones after it, the concatenated samples are strictly
   * increasing in x (the ordering the configuration relies on).
   */
  lemma {:induction false} AllZoneSamplesSorted(img: array2<Rgb>, zones: seq<Zone>)
    requires forall i :: 0 <= i < |zones| ==> ScanInImage(img, zones[i])
    requires forall i, j :: 0 <= i < j < |zones| ==> zones[i].drX <= zones[j].ulX
    ensures StrictlyIncreasingX(AllZoneSamples(img, zones))
    decreases |zones|
  {
    if zones != [] {
      var n := |zones| - 1;
      var front := zones[..n];
      AllZoneSamplesSorted(img, front);
      AllZoneSamplesInZones(img, front);
      var a := AllZoneSamples(img, front);
      var b := ZoneSamples(img, zones[n]);
      ZoneSamplesSpec(img, zones[n]);
      var s := AllZoneSamples(img, zones);
      assert s == a + b;
      forall k, l | 0 <= k < l < |s|
        ensures s[k].x < s[l].x
      {
        if l >= |a| && k < |a| {
          assert s[k] == a[k];
          assert InSomeZone(front, a[k].x);
          var i :| 0 <= i < |front| && front[i].ulX <= a[k].x < front[i].drX;
          assert zones[i] == front[i];
          assert s[l] == b[l - |a|];
          assert ValidSample(img, zones[n], b[l - |a|]);
        } else if k >= |a| {
          assert s[k] == b[k - |a|] && s[l] == b[l - |a|];
        } else {
          assert s[k] == a[k] && s[l] == a[l];
        }
      }
    }
  }
}
