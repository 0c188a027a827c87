/**
 * The values a doodle is made of: pointer positions, the brush palette and
 * the committed stroke record (`DrawPath`).
 */
module Strokes {

  datatype Option<+T> = None | Some(value: T)

  /** A pointer position on the canvas. The coordinates are only stored and
      compared, never computed with, so they are exact reals here. */
  datatype Offset = Offset(x: real, y: real)

  /** The eight brush colours offered by the tool panel; orange is the
      custom colour 0xFFFF9800. */
  datatype Color = Black | Red | Blue | Green | Yellow | Magenta | Cyan | Orange

  /** The palette in the order its buttons are laid out. */
  const Palette: seq<Color> := [Black, Red, Blue, Green, Yellow, Magenta, Cyan, Orange]

  /** A committed stroke: the polyline it was drawn along (the point given to
      `moveTo` followed by every point given to `lineTo`), with the colour and
      width that were selected when it was committed. */
  datatype DrawPath = DrawPath(path: seq<Offset>, color: Color, strokeWidth: real)

  /** Every colour the brush can take has exactly one button in the palette. */
  lemma PaletteListsEveryColorOnce(c: Color)
    ensures c in Palette
    ensures forall i, j :: 0 <= i < j < |Palette| ==> Palette[i] != Palette[j]
  {
  }
}
