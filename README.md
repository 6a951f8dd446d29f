# Scope FFT image attenuation extractor — Dafny model

This project models the numeric pipeline of
`extract_attenuation_values_from_scope_fft_image.py`. The script reads a screenshot of a
Siglent oscilloscope's FFT frequency-response plot and turns the plotted curve into
frequency/attenuation tables. The model follows its stages in order:

1. **Curve location** (`CurveLocator`). Each column of a search zone is scanned top to bottom
   for the exact curve colour 0xB0 0x14 0xE8. When a column has at least one match, it yields
   one sample `[x, first + (count - 1) / 2]`. The zones' samples are concatenated in list order.
   The pixel grid is an `array2<Rgb>` indexed `[x, y]`, like the image library's pixel access.
   A scan that would read outside the image raises `IndexError`.
2. **Left-edge extension** (`CurveExtender`). The Python list is a `PointList` object whose
   `items` the method changes in place. The method then returns that same object. The loop
   `range(x0, minX + 1, -1)` starts at `x0` itself. So the columns `minX + 2 .. x0` (20 .. x0)
   are prepended at the first sample's row, and the first sample's column appears twice.
   An empty list raises `IndexError`; it is not a no-op.
3. **Pixel to unit mapping** (`CoordinateMapper`). Frequency is
   `(x - 18) / (872 - 18) * 1000` MHz. Attenuation is `(y - yRef) / (585 - 104) * (-16 - 0)` dBV.
   Here `yRef` is the row of the sample at index `34 - 18 + 1 = 17` of the extended list. A list
   with 17 or fewer samples raises `IndexError`. `calculateVoltfactor` (`10^(dBV/20)`) is the
   parameter `vf`.
4. **Interpolation and resampling** (`Interpolator`). `numpy.interp` is modelled by its
   contract as a recursive function, including its tie rule: at a repeated knot it uses the last
   copy. Resampling interpolates over a copy that has (0 MHz, 0 dBV) prepended and
   (last + 1 MHz, -100 dBV) and (1000 MHz, -100 dBV) appended. It returns
   `int((end - start + step) / step)` rows at `start + step * i`. A zero step raises
   `ZeroDivisionError`.
5. **Annotation** (`Annotator`). This stage writes marker colours into the output `array2`.
   The four write groups are gated by flags: the corners, the samples (red left of the first
   zone, white elsewhere), the attenuation grid rows at column 18, and the frequency grid
   columns at row 530. The result is specified write by write: every cell shows the last marker
   written on it, and every other cell is unchanged. `round` is Python's round-half-to-even.

`Config` holds the static configuration: colours, graph limits, zones, both grid tables, the
flags, and the derived `dbVOffset`, `min_Y_dBV_limit` and `max_Y_dBV_limit`. `Pipeline` holds
lemmas that join the stages. On a 1024 x 600 image, for example, the extracted, extended and
mapped curve meets resampling's requirement that frequencies never decrease.

Numbers are exact `real`s and unbounded `int`s. Python's `int()` truncation and `round()` are
written out in `Numerics`.

## Model

| member | source | states |
|---|---|---|
| `Numerics.TruncToInt` | Siglent_SDS2104_Plus/Extract_attenuation_values_from_scope_FFT_image/extract_attenuation_values_from_scope_fft_image.py:423 | `int()` truncates toward zero: the result is within 1 of the value, on the side nearer zero, for both signs |
| `Numerics.RoundHalfEven` | Siglent_SDS2104_Plus/Extract_attenuation_values_from_scope_FFT_image/extract_attenuation_values_from_scope_fft_image.py:296-303 | `round(y)` is within 0.5 of y, and an exact tie goes to the even integer |
| `Config.DerivedYLimits` | Siglent_SDS2104_Plus/Extract_attenuation_values_from_scope_FFT_image/extract_attenuation_values_from_scope_fft_image.py:181-183 | the offset is -12 dBV; the normalised grid limits are (104, 0.0) and (585, -16.0) |
| `Config.ZonesOrdered` | Siglent_SDS2104_Plus/Extract_attenuation_values_from_scope_FFT_image/extract_attenuation_values_from_scope_fft_image.py:149-162 | each configured zone ends at or before the start of every later zone |
| `CurveLocator.FirstMatch` | Siglent_SDS2104_Plus/Extract_attenuation_values_from_scope_FFT_image/extract_attenuation_values_from_scope_fft_image.py:235-245 | the first-match row lies in the scanned rows, and it is -1 exactly when the column has no match |
| `CurveLocator.ProcessZone` | Siglent_SDS2104_Plus/Extract_attenuation_values_from_scope_FFT_image/extract_attenuation_values_from_scope_fft_image.py:230-252 | raises IndexError exactly when the scan leaves the image; otherwise returns the zone's per-column samples, left to right |
| `CurveLocator.ExtractSignalPixelPos` | Siglent_SDS2104_Plus/Extract_attenuation_values_from_scope_FFT_image/extract_attenuation_values_from_scope_fft_image.py:265-271 | raises IndexError exactly when some zone's scan leaves the image; otherwise returns the zones' samples concatenated in list order |
| `CurveLocator.MatchCountPositiveIff` | Siglent_SDS2104_Plus/Extract_attenuation_values_from_scope_FFT_image/extract_attenuation_values_from_scope_fft_image.py:242-246 | the counter is positive exactly when some scanned pixel of the column has the curve colour |
| `CurveLocator.MatchCountIsRowCount` | Siglent_SDS2104_Plus/Extract_attenuation_values_from_scope_FFT_image/extract_attenuation_values_from_scope_fft_image.py:242-245 | the counter is the number of matching rows, contiguous or not |
| `CurveLocator.FirstMatchIsLeast` | Siglent_SDS2104_Plus/Extract_attenuation_values_from_scope_FFT_image/extract_attenuation_values_from_scope_fft_image.py:243-244 | firstPointY is a matching row with no match above it in the zone, or -1 when nothing matches |
| `CurveLocator.MatchCountFromFirst` | Siglent_SDS2104_Plus/Extract_attenuation_values_from_scope_FFT_image/extract_attenuation_values_from_scope_fft_image.py:237-245 | all matches lie at or below the first, so count <= rows from the first match to the zone's bottom |
| `CurveLocator.ColumnYInRows` | Siglent_SDS2104_Plus/Extract_attenuation_values_from_scope_FFT_image/extract_attenuation_values_from_scope_fft_image.py:247 | first + (count - 1) / 2 lies within [ulY, drY - 1] |
| `CurveLocator.ZoneColumnsValid` | Siglent_SDS2104_Plus/Extract_attenuation_values_from_scope_FFT_image/extract_attenuation_values_from_scope_fft_image.py:234-248 | every sample comes from a scanned column with a match, at that column's midpoint row |
| `CurveLocator.ZoneColumnsSorted` | Siglent_SDS2104_Plus/Extract_attenuation_values_from_scope_FFT_image/extract_attenuation_values_from_scope_fft_image.py:234-248 | a zone's samples are strictly increasing in x |
| `CurveLocator.ZoneColumnsCoverage` | Siglent_SDS2104_Plus/Extract_attenuation_values_from_scope_FFT_image/extract_attenuation_values_from_scope_fft_image.py:246-248 | a scanned column has a sample exactly when its counter is positive |
| `CurveLocator.ZoneSamplesSpec` | Siglent_SDS2104_Plus/Extract_attenuation_values_from_scope_FFT_image/extract_attenuation_values_from_scope_fft_image.py:230-252 | one sample per column of [ulX, drX) with a curve pixel and none for other columns; x strictly increasing; y = first match + (count - 1) / 2, within [ulY, drY - 1] |
| `CurveLocator.AllZoneSamplesInZones` | Siglent_SDS2104_Plus/Extract_attenuation_values_from_scope_FFT_image/extract_attenuation_values_from_scope_fft_image.py:265-271 | every concatenated sample lies in the columns of one of the zones |
| `CurveLocator.AllZoneSamplesSorted` | Siglent_SDS2104_Plus/Extract_attenuation_values_from_scope_FFT_image/extract_attenuation_values_from_scope_fft_image.py:265-271 | when zones are listed left to right without overlap, the concatenation is strictly increasing in x |
| `CurveLocator.AllZoneSamplesInRows` | Siglent_SDS2104_Plus/Extract_attenuation_values_from_scope_FFT_image/extract_attenuation_values_from_scope_fft_image.py:265-271 | when every zone scans only rows lo .. hi, every concatenated sample lies in rows [lo, hi] |
| `CurveExtender.StartingPointsExtender` | Siglent_SDS2104_Plus/Extract_attenuation_values_from_scope_FFT_image/extract_attenuation_values_from_scope_fft_image.py:254-263 | an empty list raises IndexError and is unchanged; otherwise the list is extended in place and the same list is returned |
| `CurveExtender.Extended` | Siglent_SDS2104_Plus/Extract_attenuation_values_from_scope_FFT_image/extract_attenuation_values_from_scope_fft_image.py:258-263 | the list after extension; `ExtendedShape` proves its length, its prefix (columns minX + 2 .. x0 at the first row) and that the original list follows unchanged |
| `CurveExtender.FlatRunShape` | Siglent_SDS2104_Plus/Extract_attenuation_values_from_scope_FFT_image/extract_attenuation_values_from_scope_fft_image.py:261-262 | the inserted run holds hi - lo + 1 samples (or none), in ascending x, all at one row |
| `CurveExtender.ExtendedShape` | Siglent_SDS2104_Plus/Extract_attenuation_values_from_scope_FFT_image/extract_attenuation_values_from_scope_fft_image.py:258-263 | the length grows by max(0, x0 - minX - 1); the prefix is [x, y0] for x = minX + 2 .. x0 ascending; the original list follows unchanged |
| `CurveExtender.ExtendedRepeatsFirst` | Siglent_SDS2104_Plus/Extract_attenuation_values_from_scope_FFT_image/extract_attenuation_values_from_scope_fft_image.py:261-262 | when anything is inserted, the last inserted sample equals the original first sample |
| `CurveExtender.ExtendedSorted` | Siglent_SDS2104_Plus/Extract_attenuation_values_from_scope_FFT_image/extract_attenuation_values_from_scope_fft_image.py:258-263 | extension keeps a list sorted by x |
| `CurveExtender.ExtendedInRows` | Siglent_SDS2104_Plus/Extract_attenuation_values_from_scope_FFT_image/extract_attenuation_values_from_scope_fft_image.py:261-262 | every prepended sample takes the first sample's row, so the rows stay within the bounds of the original samples' rows |
| `CurveExtender.SingleSampleExample` | Siglent_SDS2104_Plus/Extract_attenuation_values_from_scope_FFT_image/extract_attenuation_values_from_scope_fft_image.py:258-263 | [(50, 120.0)] becomes 32 samples at columns 20 .. 50 then 50 again, all at row 120.0 |
| `CoordinateMapper.MapToFreqAnddB` | Siglent_SDS2104_Plus/Extract_attenuation_values_from_scope_FFT_image/extract_attenuation_values_from_scope_fft_image.py:337-360 | IndexError exactly when there is no sample at index 17; otherwise one row per sample in order, with x and y passed through, the mapped frequency and dBV, and vf of that dBV; the reference sample reads 0 dBV |
| `CoordinateMapper.Freq` | Siglent_SDS2104_Plus/Extract_attenuation_values_from_scope_FFT_image/extract_attenuation_values_from_scope_fft_image.py:352 | (x - 18) / (872 - 18) * 1000 MHz; `FreqAtTableEnds` and `FreqStrictlyIncreasing` prove it meets both ends of the frequency grid and strictly increases with x |
| `CoordinateMapper.DBV` | Siglent_SDS2104_Plus/Extract_attenuation_values_from_scope_FFT_image/extract_attenuation_values_from_scope_fft_image.py:353 | (y - yRef) / (585 - 104) * (-16 - 0) dBV; `DBVMonotone` and `DBVAtTableEnds` prove it reads 0 at the reference row, strictly decreases as y grows and meets the normalised grid at both ends |
| `CoordinateMapper.FreqAtTableEnds` | Siglent_SDS2104_Plus/Extract_attenuation_values_from_scope_FFT_image/extract_attenuation_values_from_scope_fft_image.py:352 | x = 18 maps to 0 MHz and x = 872 to 1000 MHz, which are the first and last frequency grid entries |
| `CoordinateMapper.FreqStrictlyIncreasing` | Siglent_SDS2104_Plus/Extract_attenuation_values_from_scope_FFT_image/extract_attenuation_values_from_scope_fft_image.py:352 | frequency strictly increases with x |
| `CoordinateMapper.DBVMonotone` | Siglent_SDS2104_Plus/Extract_attenuation_values_from_scope_FFT_image/extract_attenuation_values_from_scope_fft_image.py:353 | the reference row reads 0 dBV, and dBV strictly decreases as y increases |
| `CoordinateMapper.DBVAtTableEnds` | Siglent_SDS2104_Plus/Extract_attenuation_values_from_scope_FFT_image/extract_attenuation_values_from_scope_fft_image.py:181-183 | with the first grid row as reference, the first and last grid rows map to their normalised dBV |
| `CoordinateMapper.MappedSorted` | Siglent_SDS2104_Plus/Extract_attenuation_values_from_scope_FFT_image/extract_attenuation_values_from_scope_fft_image.py:350-356 | samples sorted by x give rows sorted by frequency |
| `Interpolator.FreqdBVPairs` | Siglent_SDS2104_Plus/Extract_attenuation_values_from_scope_FFT_image/extract_attenuation_values_from_scope_fft_image.py:366-367 | the knots are (point[0], point[1]) of each row, same length and order |
| `Interpolator.Interp` | Siglent_SDS2104_Plus/Extract_attenuation_values_from_scope_FFT_image/extract_attenuation_values_from_scope_fft_image.py:375 | numpy.interp on non-decreasing knots; `InterpAboveLast`, `InterpBracket` and `InterpAtKnot` prove it gives the first y below the first knot, the last y at or above the last knot, and otherwise the line through the last knot at or below f and the next knot |
| `Interpolator.GetInterpolated` | Siglent_SDS2104_Plus/Extract_attenuation_values_from_scope_FFT_image/extract_attenuation_values_from_scope_fft_image.py:362-381 | ValueError exactly for no points; otherwise (freq, interpolated dBV, vf of that dBV), and the first y below the first knot |
| `Interpolator.InterpAboveLast` | Siglent_SDS2104_Plus/Extract_attenuation_values_from_scope_FFT_image/extract_attenuation_values_from_scope_fft_image.py:375 | at or above the last knot the result is the last y |
| `Interpolator.InterpBracket` | Siglent_SDS2104_Plus/Extract_attenuation_values_from_scope_FFT_image/extract_attenuation_values_from_scope_fft_image.py:375 | for x_j <= f < x_{j+1} the result is the line through knots j and j + 1 |
| `Interpolator.InterpAtKnot` | Siglent_SDS2104_Plus/Extract_attenuation_values_from_scope_FFT_image/extract_attenuation_values_from_scope_fft_image.py:375 | at a knot not repeated to its right, the result is that knot's y |
| `Interpolator.LerpBetween` | Siglent_SDS2104_Plus/Extract_attenuation_values_from_scope_FFT_image/extract_attenuation_values_from_scope_fft_image.py:375 | the line between two knots stays between their y values |
| `Interpolator.InterpBetweenBracketing` | Siglent_SDS2104_Plus/Extract_attenuation_values_from_scope_FFT_image/extract_attenuation_values_from_scope_fft_image.py:375 | between bracketing knots the result lies between their y values |
| `Interpolator.CalcFixedStepInterpolAttenuationTable` | Siglent_SDS2104_Plus/Extract_attenuation_values_from_scope_FFT_image/extract_attenuation_values_from_scope_fft_image.py:415-448 | ZeroDivisionError exactly for a zero step; otherwise max(0, int((end - start + step) / step)) rows; row i is the interpolation over the working copy at start + step * i |
| `Interpolator.NumIntervals` | Siglent_SDS2104_Plus/Extract_attenuation_values_from_scope_FFT_image/extract_attenuation_values_from_scope_fft_image.py:423 | int((end - start + step) / step) with truncation toward zero; `ConfiguredRowCounts` proves 101 and 1001 rows for the two configured calls |
| `Interpolator.WorkingCopy` | Siglent_SDS2104_Plus/Extract_attenuation_values_from_scope_FFT_image/extract_attenuation_values_from_scope_fft_image.py:426-440 | (0 MHz, 0 dBV), the rows' (freq, dBV) in order, then (last + 1 MHz, -100 dBV) and (1000 MHz, -100 dBV); `WorkingCopySorted` and `WorkingCopyFloor` prove it is sorted for sorted rows and reads -100 dBV past the last row |
| `Interpolator.WorkingCopyFloor` | Siglent_SDS2104_Plus/Extract_attenuation_values_from_scope_FFT_image/extract_attenuation_values_from_scope_fft_image.py:432-440 | from 1 MHz past the last real row onward, the resampled dBV is the -100 dBV floor |
| `Interpolator.WorkingCopySorted` | Siglent_SDS2104_Plus/Extract_attenuation_values_from_scope_FFT_image/extract_attenuation_values_from_scope_fft_image.py:425-440 | sorted rows from 0 MHz up, ending at least 1 MHz below 1000 MHz, give a working copy whose frequencies never decrease |
| `Interpolator.ConfiguredRowCounts` | Siglent_SDS2104_Plus/Extract_attenuation_values_from_scope_FFT_image/extract_attenuation_values_from_scope_fft_image.py:489-503 | over 0 to 1000 MHz, a 10 MHz step gives 101 rows and a 1 MHz step 1001 rows |
| `Annotator.PaintedConcat` | Siglent_SDS2104_Plus/Extract_attenuation_values_from_scope_FFT_image/extract_attenuation_values_from_scope_fft_image.py:277-321 | writing a then b is the same as writing a + b |
| `Annotator.MarkCorners` | Siglent_SDS2104_Plus/Extract_attenuation_values_from_scope_FFT_image/extract_attenuation_values_from_scope_fft_image.py:278-286 | the output shows the four white corner writes over the previous image |
| `Annotator.MarkSignalPoints` | Siglent_SDS2104_Plus/Extract_attenuation_values_from_scope_FFT_image/extract_attenuation_values_from_scope_fft_image.py:289-303 | the output shows each sample's write at (x, round(y)) over the previous image: red when x < 34, white otherwise |
| `Annotator.MarkGridY` | Siglent_SDS2104_Plus/Extract_attenuation_values_from_scope_FFT_image/extract_attenuation_values_from_scope_fft_image.py:306-312 | the output shows a green write at (18, row) for each attenuation grid row |
| `Annotator.MarkGridX` | Siglent_SDS2104_Plus/Extract_attenuation_values_from_scope_FFT_image/extract_attenuation_values_from_scope_fft_image.py:315-321 | the output shows a green write at (column, 530) for each frequency grid column |
| `Annotator.MarkPointsInOutputImg` | Siglent_SDS2104_Plus/Extract_attenuation_values_from_scope_FFT_image/extract_attenuation_values_from_scope_fft_image.py:273-321 | every cell shows the last of the enabled writes on it, in program order, or its previous colour |
| `Annotator.PaintedUnmarked` | Siglent_SDS2104_Plus/Extract_attenuation_values_from_scope_FFT_image/extract_attenuation_values_from_scope_fft_image.py:273-321 | a cell no write lands on keeps its colour |
| `Annotator.PaintedLastWins` | Siglent_SDS2104_Plus/Extract_attenuation_values_from_scope_FFT_image/extract_attenuation_values_from_scope_fft_image.py:273-321 | a written cell shows the colour of the last write on it |
| `Annotator.MarkedCells` | Siglent_SDS2104_Plus/Extract_attenuation_values_from_scope_FFT_image/extract_attenuation_values_from_scope_fft_image.py:277-321 | the written cells are exactly the enabled groups' positions: corners, (x, round(y)) of samples, (18, grid row), (grid column, 530) |
| `Pipeline.ConfiguredZonesInImage` | Siglent_SDS2104_Plus/Extract_attenuation_values_from_scope_FFT_image/extract_attenuation_values_from_scope_fft_image.py:149-162 | on a 1024 x 600 image no configured zone scan leaves the image |
| `Pipeline.ExtractedInGraph` | Siglent_SDS2104_Plus/Extract_attenuation_values_from_scope_FFT_image/extract_attenuation_values_from_scope_fft_image.py:465 | the extracted samples are strictly increasing in x and lie in columns [20, 872) |
| `Pipeline.ExtendedInGraph` | Siglent_SDS2104_Plus/Extract_attenuation_values_from_scope_FFT_image/extract_attenuation_values_from_scope_fft_image.py:466 | extension keeps them sorted and within those columns |
| `Pipeline.MappedInGraphResamples` | Siglent_SDS2104_Plus/Extract_attenuation_values_from_scope_FFT_image/extract_attenuation_values_from_scope_fft_image.py:468 | their mapped rows give a working copy whose frequencies never decrease |
| `Pipeline.ExtractedCurveResamples` | Siglent_SDS2104_Plus/Extract_attenuation_values_from_scope_FFT_image/extract_attenuation_values_from_scope_fft_image.py:465-503 | extracting, extending and mapping a 1024 x 600 image meets resampling's precondition |
| `Pipeline.ConfiguredMarksInImage` | Siglent_SDS2104_Plus/Extract_attenuation_values_from_scope_FFT_image/extract_attenuation_values_from_scope_fft_image.py:105-108 | under the configured flags the writes are the sample markers, then the attenuation grid, then the frequency grid; on a 1024 x 600 input and output image all of them land inside the output image |

## Left out

- Image file I/O (`getImgInfo`, `Image.open`, `copy`, `save`) goes through the image library. The input and output grids are `array2<Rgb>` parameters.
- CSV file I/O (`readFromCSVFile`, `writeToCSVFile`), all printing, and the `flag_print` parameters are not modelled, because they only produce output.
- The `__main__` block is not modelled: it is one-shot sequencing with fixed probe frequencies. The `Pipeline` lemmas state how its stages fit together.
- `calculateVoltfactor` is the parameter `vf: real -> real`. Its `10^(dBV/20)` is transcendental floating point.
- IEEE floating-point rounding is not modelled. The affine maps, interpolation and the step count use exact reals.
- An alpha channel is not modelled. Only the first three channels of a pixel are read.
- The image library's wrap-around for negative pixel indices is not modelled. Zone coordinates are natural numbers.
- `MarkPointsInOutputImg`: requires every marker position to be inside the output image. The `IndexError` an out-of-image marker would raise after the earlier writes is not modelled.
- `MarkCorners`: requires all four corners to be inside the output image. The `IndexError` that an out-of-image corner raises, after the earlier corner writes, is not modelled.
- `MarkSignalPoints`: requires every (x, round(y)) to be inside the output image. The `IndexError` that an out-of-image sample raises, after the earlier writes, is not modelled.
- `MarkGridY`: requires every (18, grid row) to be inside the output image. The `IndexError` an image shorter than row 585 raises, after the earlier writes, is not modelled.
- `MarkGridX`: requires every (grid column, 530) to be inside the output image. The `IndexError` an image smaller than (872, 530) raises, after the earlier writes, is not modelled.
- For the configured flags on 1024 x 600 images these four requirements exclude nothing, as `Pipeline.ConfiguredMarksInImage` shows.
- `GetInterpolated`: requires knots with non-decreasing frequency, which numpy.interp demands but does not check. For other knots numpy returns unspecified values.
- `CalcFixedStepInterpolAttenuationTable`: requires the same of its working copy. `Pipeline.ExtractedCurveResamples` shows that the configured pipeline meets it.
- The debug write at line 349 and its flag are not modelled. It uses a float row index, and nothing the numeric pipeline reads depends on it.
- The unused `pixelsOut` parameter of `processZone` and its commented-out marking are not modelled.
- The unused constants `delta_dBV`, `delta_freq` and `bottomLineY` are not modelled.
