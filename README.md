# Dreamoc image stitcher, modelled in Dafny

The stitcher lays three source images (left, centre, right) onto one w × h
canvas for a three-sided pyramid display. The canvas is split into three
zones by two diagonals that start at the bottom corners and meet in the
middle. Each source goes through the same steps:

- It is centred. It is padded with ones to at least the canvas size and
  rolled circularly by −n//2 + w//2 along its width and −n//2 + w//4 along its
  height, n being the image's size along that axis. It is then cropped to w × h.
  For an image of at least 2 × 2 whose anchor row is on the canvas (w//4 < h),
  this puts the pixel ⌈n/2⌉ along each axis (the middle for even n, one past the
  middle for odd n) on the centre zone's anchor (w//2, w//4). When w//4 is at
  least max(h_in, h), the roll wraps around and that pixel lands in row
  w//4 mod max(h_in, h) instead. A 1-pixel axis has no pixel ⌈n/2⌉, and the
  anchor then shows the ones padding.
- It is turned for its zone:
  - the centre source is not turned;
  - the left source is turned a quarter turn;
  - the right source is turned a quarter turn the other way and shifted to end
    flush with the last row.
- It is written into a shared canvas, which starts filled with 255, through
  its zone's boolean mask.

Indices follow each image after its transpose on reading: i runs along the
width (axis 0) and j along the height (axis 1).

Modules, one per file:

- `Modular` (modular.dfy): the floor modulo that numpy's roll uses, with its
  uniqueness and absorption laws.
- `Grids` (grids.dfy): grids as sequences of rows, and the numpy index maps
  the stitcher uses. These are `np.roll` along either axis, `np.flip`,
  `np.transpose`, `np.rot90` with `axes=(1, 0)` and slicing. It also has
  `Snapshot`, which reads the contents of a two-dimensional array.
- `Zones` (zones.dfy): the three mask predicates, and the proof that they
  partition the canvas.
- `Images` (images.dfy): the source image. It also has `Centred`, the closed
  form of the centring step, and the proof that the pad, roll, roll and crop
  steps compute it.
- `Compose` (compose.dfy): `Paint`, which is what one masked placement does to
  the canvas, and `Composite`, the finished canvas. It also holds the
  per-zone candidate lemmas and the proof that the placement order does not
  matter.
- `Stitcher` (stitcher.dfy): the class `DreamocStitcher`.
  - Its fields are the width, the height, the anchor and the three mask
    arrays. They are all fixed at construction.
  - The centring step is a method on a padding buffer.
  - The three placements are methods that write the output array in place
    through a mask, with a `modifies` clause and a frame postcondition.
  - `Stitch` threads one fresh output array through the three placements.

Results the proofs establish:

- **Pixel formulas.** The left placement gives pixel (i, j) the value
  `cen[w-1-j][i]`. The right placement gives `cen[j][w-1-i]` and never shows
  its zero fill. Here `cen` is the centred source.
- **Frames.** Each placement changes exactly its own zone and nothing else.
- **Composite.** Every pixel of the finished canvas shows the pixel of the
  zone that owns it:
  - the background value does not matter;
  - the order of the three placements does not matter.
- **Diagonal tie-break.** Pixels on the two diagonals go to the centre zone
  only in their own half of the canvas:
  - a pixel with j == i goes to the centre only when 2i <= w;
  - a pixel with j == w − i goes to the centre only when 2i >= w;
  - the middle column 2i == w always goes to the centre, the apex
    (w/2, w/2) where the diagonals meet included.

  In the right half, a pixel (i, i) that lies on the canvas belongs to the
  right zone (`Zones.DiagonalInRightHalf`).

## Model

| member | source | states |
|---|---|---|
| Stitcher.DreamocStitcher.Create | stitch.py:18-23 | construction fails, with `CanvasNotWider`, exactly when w <= h; otherwise it gives a valid stitcher of that size (defaults 1920 × 1080) |
| Stitcher.DreamocStitcher.constructor | stitch.py:18-44 | the anchor is (w//2, w//4); `maskL`, `maskR` and `maskC` are w × h and hold exactly the left, right and centre zone predicates |
| Zones.InLeft | stitch.py:40 | mask_L: the pixel lies above the diagonal j = i, in the left half (2i < w) |
| Zones.InRight | stitch.py:41 | mask_R: the pixel lies above the diagonal j = w − i, in the right half (2i > w) |
| Zones.InCentre | stitch.py:42-44 | mask_C: the pixel is in neither mask_L nor mask_R |
| Zones.MasksPartition | stitch.py:40-44 | mask_L and mask_R never overlap; every pixel is in some mask; each pixel is in exactly the one mask of `ZoneOf` |
| Zones.BoundariesGoToCentre | stitch.py:40-44 | the diagonal j == i in the left half, the diagonal j == w − i in the right half and the middle column 2i == w all belong to the centre |
| Zones.DiagonalInRightHalf | stitch.py:40-41 | in the right half, the pixel (i, i) lies in mask_R, not in the centre |
| Zones.SmallCanvas | stitch.py:38-44 | on a 4 × 2 canvas, mask_L holds only (0, 1), mask_R is empty and mask_C holds the other seven pixels |
| Zones.LeftZoneRows | stitch.py:119-120 | every mask_L pixel has i < h − 1, so the crop `mask_L[:h]` drops none of them |
| Zones.RightZoneRows | stitch.py:133-137 | every mask_R pixel has i > w − h + 1, so after the roll it lies past the w − h rows of zero fill |
| Grids.Roll | stitch.py:93 | np.roll keeps the length of the axis |
| Grids.RollRows | stitch.py:93-96 | np.roll along axis 1 rolls every row and keeps the grid's shape |
| Grids.RollTwice | stitch.py:93-96 | two rolls of an axis are one roll by the sum of the shifts |
| Grids.RollByPeriod | stitch.py:93-96 | a roll by a multiple of the axis length, zero included, changes nothing |
| Grids.RollUndo | stitch.py:93-96 | rolling back by the same shift restores the sequence |
| Grids.RollGridShape | stitch.py:93-96 | rolling a grid along either axis keeps its shape |
| Grids.RollAxesCommute | stitch.py:93-96 | rolls along axis 0 and axis 1 commute |
| Grids.RollGridTwice | stitch.py:93-96 | the two two-axis rolls of the centring step are one roll by the summed shifts |
| Grids.Transpose | stitch.py:116 | the transpose of a rows × cols grid is cols × rows |
| Grids.Rot90 | stitch.py:116 | np.rot90 with axes (1, 0): shape and pixel formula for k mod 4 = 1, 3 and 2; k mod 4 = 0 is the identity |
| Grids.Rot90RoundTrip | stitch.py:116-130 | the quarter turns used by the left (k = 1) and right (k = −1) placements undo each other, in both orders |
| Grids.Crop | stitch.py:99 | `g[:rows, :cols]` is rows × cols and agrees with g on that corner |
| Images.CeilHalf | stitch.py:93 | the shift −n//2 (floor division) is −⌈n/2⌉ |
| Images.PaddedAt | stitch.py:89-90 | the padding buffer holds the source at the top-left and ones in every channel elsewhere; every cell has `channels` samples |
| Images.Centred | stitch.py:82-101 | the centred view is w × h with `channels` samples per pixel, whatever the source's size |
| Images.CentringSteps | stitch.py:88-99 | padding with ones to max(w_in, w) × max(h_in, h), rolling by (−w_in//2, −h_in//2), then by (w//2, w//4), then cropping to w × h gives `Centred` pixel for pixel |
| Images.RolledPaddingAt | stitch.py:93-96 | one roll of the padding buffer by the summed shifts shows, at canvas pixel (x, y), buffer cell ((x + ⌈w_in/2⌉ − w//2) mod W, (y + ⌈h_in/2⌉ − w//4) mod H) |
| Images.CentredAnchor | stitch.py:92-96 | for an image of at least 2 × 2 and an anchor on the canvas (w//4 < h), the image pixel (⌈w_in/2⌉, ⌈h_in/2⌉) lands on the anchor (w//2, w//4) |
| Images.CentredUndo | stitch.py:93-96 | for a source of canvas size, centring only shifts it circularly: rolling back gives the source |
| Images.UndoAt | stitch.py:93-96 | row by row, rolling the centred view of a canvas-sized source back gives the source's row |
| Compose.ZonePixel | stitch.py:108-137 | the pixel each zone writes at (i, j): cen[i][j] in the centre, cen[w−1−j][i] on the left, cen[j][w−1−i] on the right |
| Compose.Paint | stitch.py:108 | a masked placement leaves a w × h canvas |
| Compose.Composite | stitch.py:153-156 | the finished canvas is w × h |
| Compose.LeftCandidateAt | stitch.py:116-120 | at every left-zone pixel, the turned and cropped candidate `rot90(cen, k=1)[:, :h]` shows cen[w−1−j][i] |
| Compose.RightCandidate | stitch.py:130-135 | the candidate turned by k = −1, put in a zero buffer and rolled by w − h shows cen[j][w−1−i] at every right-zone pixel, never the zero fill |
| Compose.PaintAnyOrder | stitch.py:153-156 | for any background (the 255 fill included), the three placements in any order give `Composite` |
| Compose.CentredUniform | stitch.py:88-99 | a uniform source at least as large as the canvas shows no padding once centred |
| Compose.SolidColours | stitch.py:144-158 | three uniform sources of at least canvas size give a canvas coloured zone by zone |
| Stitcher.DreamocStitcher.CenterImage | stitch.py:82-101 | the pad, roll, roll and crop steps on a padding array return exactly `Centred(img, w, h)` |
| Stitcher.DreamocStitcher.PlaceCentral | stitch.py:104-110 | the canvas and the source have the same channel count; exactly the mask_C pixels of `out` become cen[i][j], every other pixel is unchanged, and every pixel keeps that channel count |
| Stitcher.DreamocStitcher.PlaceLeft | stitch.py:113-122 | the canvas and the source have the same channel count; exactly the mask_L pixels of `out` become cen[w−1−j][i], every other pixel is unchanged, and every pixel keeps that channel count |
| Stitcher.DreamocStitcher.RightCandidateBuffer | stitch.py:130-135 | the rolled zero-padded buffer is w × h and shows cen[j][w−1−i] at every right-zone pixel |
| Stitcher.DreamocStitcher.PlaceRight | stitch.py:125-139 | the canvas and the source have the same channel count; exactly the mask_R pixels of `out` become cen[j][w−1−i], every other pixel is unchanged, and every pixel keeps that channel count |
| Stitcher.DreamocStitcher.PaintedBy | stitch.py:108 | a canvas that took zone z's pixel exactly on the mask, and kept every other pixel, is `Paint` of the old canvas |
| Stitcher.DreamocStitcher.Stitch | stitch.py:144-158 | fails with `ChannelMismatch` exactly when the three channel counts differ. Otherwise it returns a fresh w × h canvas: every pixel has n samples, and the canvas equals `Composite` of the three centred sources |

## Left out

- Drawing the zone diagram (`make_screen_fig`, `plot_screen` and `plot_img`, stitch.py:46-80): these are matplotlib calls with float angles.
- The `centers` labels and `dpi` (stitch.py:21, 28-32): they are used only by the diagram.
- Reading files (`_read_img`, stitch.py:141-142, and the reads at stitch.py:145-147): `Stitch` takes three images already in memory, indexed by width first.
  - stitch.py checks channel counts only after reading the files. Here the check comes first, which gives the same outcome.
- The command-line block (stitch.py:161-179): argument parsing, the final output-orientation rot90 and the image write.
- Numeric types: samples are unbounded integers.
  - The `astype` casts (stitch.py:89, 153) are not modelled, and neither is any wrap-around of a narrow dtype.
  - The float comparisons `i < w/2` and `i > w/2` are modelled exactly as `2 * i < w` and `2 * i > w`.
- Negative sizes: w and h are natural numbers.
- Stitcher.DreamocStitcher.PlaceCentral, Stitcher.DreamocStitcher.PlaceLeft, Stitcher.DreamocStitcher.PlaceRight: stitch.py also returns the array it mutated. The methods mutate `out` and return nothing, because the caller already holds the same reference.
- Stitcher.DreamocStitcher.RightCandidateBuffer: the zero buffer takes the image's channel count, while `np.zeros_like(img_output)` in stitch.py takes the canvas's. The two agree whenever the channel counts match, which `Stitch` ensures. numpy broadcasting between mismatched channel counts is not modelled.
- Stitcher.DreamocStitcher.PlaceCentral, Stitcher.DreamocStitcher.PlaceLeft, Stitcher.DreamocStitcher.PlaceRight: each requires the image's channel count to equal the canvas's. numpy instead raises a ValueError on other mismatches, and it broadcasts a one-channel source to every channel of the canvas; neither case is modelled. `Stitch` only calls them with matching counts.
