// The three display zones of a w × h canvas (i along the width, j along the
// height) and the boolean masks that select them. The two dividing diagonals
// start at the bottom corners (0, 0) and (w, 0) and meet at (w/2, w/2).

module Zones {

  datatype Zone = Left | Centre | Right

  /** mask_L: above the diagonal j = i, in the left half. stitch.py compares
      i < w/2 in floating point, which for integers is 2 * i < w. */
  predicate InLeft(w: int, i: int, j: int) {
    j > i && 2 * i < w
  }

  /** mask_R: above the diagonal j = w - i, in the right half. */
  predicate InRight(w: int, i: int, j: int) {
    j > w - i && 2 * i > w
  }

  /** mask_C: everything in neither side triangle. */
  predicate InCentre(w: int, i: int, j: int) {
    !InLeft(w, i, j) && !InRight(w, i, j)
  }

  /** The mask of zone z. */
  predicate InZone(w: int, i: int, j: int, z: Zone) {
    match z
    case Left => InLeft(w, i, j)
    case Centre => InCentre(w, i, j)
    case Right => InRight(w, i, j)
  }

  /** The zone that owns pixel (i, j). */
  function ZoneOf(w: int, i: int, j: int): Zone {
    if InLeft(w, i, j) then Left
    else if InRight(w, i, j) then Right
    else Centre
  }

  /** The masks partition the canvas: the side masks never overlap, the centre
      mask is the complement of their union, and so every pixel lies in exactly
      one mask, the one of ZoneOf. */
  lemma MasksPartition(w: int, i: int, j: int)
    ensures !(InLeft(w, i, j) && InRight(w, i, j))
    ensures InLeft(w, i, j) || InCentre(w, i, j) || InRight(w, i, j)
    ensures forall z :: InZone(w, i, j, z) <==> z == ZoneOf(w, i, j)
  {
    forall z ensures InZone(w, i, j, z) <==> z == ZoneOf(w, i, j) {
      match z
      case Left =>
      case Centre =>
      case Right =>
    }
  }

  /** Pixels on the left triangle's diagonal j == i (left half), on the right
      triangle's diagonal j == w - i (right half), and in the middle column
      2 * i == w go to the centre zone: both side masks use strict inequalities. */
  lemma BoundariesGoToCentre(w: int, i: int, j: int)
    requires (j == i && 2 * i < w) || (j == w - i && 2 * i > w) || 2 * i == w
    ensures ZoneOf(w, i, j) == Centre
  {
  }

  /** The tie-break on the diagonal j == i holds only in the left half: in the
      right half the pixel (i, i), whenever it is on the canvas, lies above the
      other diagonal and so belongs to the right zone. */
  lemma DiagonalInRightHalf(w: int, i: int)
    requires 2 * i > w
    ensures ZoneOf(w, i, i) == Right
  {
  }

  /** The 4 × 2 canvas: the left mask holds (0, 1) alone, the right mask is
      empty and the centre mask holds the other seven pixels. */
  lemma SmallCanvas(i: int, j: int)
    requires 0 <= i < 4 && 0 <= j < 2
    ensures InLeft(4, i, j) <==> (i, j) == (0, 1)
    ensures !InRight(4, i, j)
    ensures InCentre(4, i, j) <==> (i, j) != (0, 1)
  {
  }

  /** Every left-zone pixel of a canvas of height h lies in a row i < h - 1,
      so cropping the left mask to its first h rows (mask_L[:h]) drops nothing. */
  lemma LeftZoneRows(w: int, h: int, i: int, j: int)
    requires 0 <= j < h && InLeft(w, i, j)
    ensures i < h - 1
  {
  }

  /** Every right-zone pixel of a canvas of height h lies in a row i > w - h + 1,
      in particular past the w - h rows the right placement fills with zeros. */
  lemma RightZoneRows(w: int, h: int, i: int, j: int)
    requires 0 <= j < h && InRight(w, i, j)
    ensures i > w - h + 1
  {
  }
}
