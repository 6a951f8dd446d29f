/** The script's static configuration: colours, graph limits, search zones and grid tables. */
module Config {

  newtype byte = x: int | 0 <= x < 256

  /** The first three channels of a pixel; an alpha channel, if any, is never read. */
  datatype Rgb = Rgb(r: byte, g: byte, b: byte)

  /** A search rectangle: columns [ulX, drX) and rows [ulY, drY) are scanned. */
  datatype Zone = Zone(ulX: nat, ulY: nat, drX: nat, drY: nat)

  /** One row of a grid table: pixel position, physical value, pixel distance from the previous row. */
  datatype CalibrationEntry = CalibrationEntry(pos: int, value: real, pixelDelta: int)

  /** Which annotations the marking step draws. */
  datatype MarkFlags = MarkFlags(corners: bool, signalPoints: bool, gridY: bool, gridX: bool)

  const ConfiguredFlags := MarkFlags(false, true, true, true)

  // Colour of the plotted curve.
  const SignalColor := Rgb(0xB0, 0x14, 0xE8)

  // Marker colours.
  const SignalMarkerColor := Rgb(0xFF, 0xFF, 0xFF)
  const ExtensionMarkerColor := Rgb(0xFF, 0x00, 0x00)
  const GridYMarkerColor := Rgb(0x00, 0xFF, 0x00)
  const GridXMarkerColor := Rgb(0x00, 0xFF, 0x00)

  // Corners of the FFT graph, in pixels.
  const MinXGraphLimit := 18
  const MinYGraphLimit := 49
  const MaxXGraphLimit := 872
  const MaxYGraphLimit := 530

  const Zone1 := Zone(34, 110, 82, 157)
  const Zone2 := Zone(83, 110, 872, 530)
  const ZoneLst := [Zone1, Zone2]

  /** Attenuation grid: pixel row, dBV, pixel distance from the previous row. */
  const PosYdBVTable := [
    CalibrationEntry(104, -12.0, 0),
    CalibrationEntry(164, -14.0, 60),
    CalibrationEntry(224, -16.0, 60),
    CalibrationEntry(285, -18.0, 61),
    CalibrationEntry(345, -20.0, 60),
    CalibrationEntry(405, -22.0, 60),
    CalibrationEntry(465, -24.0, 60),
    CalibrationEntry(525, -26.0, 60),
    CalibrationEntry(585, -28.0, 60)]

  /** Frequency grid: pixel column, MHz, pixel distance from the previous column. */
  const PosXFreqTable := [
    CalibrationEntry(18, 0.0, 0),
    CalibrationEntry(104, 100.0, 86),
    CalibrationEntry(190, 200.0, 86),
    CalibrationEntry(275, 300.0, 85),
    CalibrationEntry(360, 400.0, 85),
    CalibrationEntry(445, 500.0, 85),
    CalibrationEntry(531, 600.0, 86),
    CalibrationEntry(616, 700.0, 85),
    CalibrationEntry(701, 800.0, 85),
    CalibrationEntry(787, 900.0, 86),
    CalibrationEntry(872, 1000.0, 85)]

  /** The attenuation of the first grid row, subtracted so that row reads 0 dBV. */
  const DbVOffset: real := PosYdBVTable[0].value

  /** (pixel row, normalised dBV) of the first and the last attenuation grid rows. */
  const MinYdBVLimit: (int, real) := (PosYdBVTable[0].pos, PosYdBVTable[0].value - DbVOffset)
  const MaxYdBVLimit: (int, real) := (PosYdBVTable[|PosYdBVTable| - 1].pos, PosYdBVTable[|PosYdBVTable| - 1].value - DbVOffset)

  /** The derived limits: the first row normalises to 0 dBV, the last to -16 dBV, 481 pixels apart. */
  lemma DerivedYLimits()
    ensures DbVOffset == -12.0
    ensures MinYdBVLimit == (104, 0.0) && MaxYdBVLimit == (585, -16.0)
  {
  }

  /** The configured zones are listed left to right and do not overlap. */
  lemma ZonesOrdered()
    ensures forall i, j :: 0 <= i < j < |ZoneLst| ==> ZoneLst[i].drX <= ZoneLst[j].ulX
  {
  }
}
