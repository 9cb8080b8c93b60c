// The stitcher object: the canvas geometry and the three zone masks fixed at
// construction, the centring step, the three placements that write into a
// shared output canvas in place, and the whole composition.

module Stitcher {

  import opened Grids
  import opened Zones
  import opened Images
  import opened Compose

  datatype StitchError =
    | CanvasNotWider    // the constructor's check that the width exceeds the height failed
    | ChannelMismatch   // the three sources do not have the same number of channels

  datatype Result<T> = Success(value: T) | Failure(error: StitchError)

  /** m is the w × h mask of zone z. */
  ghost predicate IsMask(m: array2<bool>, w: nat, h: nat, z: Zone)
    reads m
  {
    && m.Length0 == w && m.Length1 == h
    && forall i, j :: 0 <= i < w && 0 <= j < h ==> m[i, j] == InZone(w, i, j, z)
  }

  class DreamocStitcher {
    const w: nat
    const h: nat
    /** The centre zone's anchor (w//2, w//4), where every centred source's middle lands. */
    const iC: int
    const jC: int
    const maskL: array2<bool>
    const maskC: array2<bool>
    const maskR: array2<bool>

    /** The canvas is wider than high and the anchor is (w//2, w//4). */
    ghost predicate Geometry() {
      h < w && iC == w / 2 && jC == w / 4
    }

    ghost predicate Valid()
      reads maskL, maskC, maskR
    {
      && Geometry()
      && IsMask(maskL, w, h, Left)
      && IsMask(maskC, w, h, Centre)
      && IsMask(maskR, w, h, Right)
    }

    constructor (w: nat, h: nat)
      requires h < w
      ensures Valid() && this.w == w && this.h == h
      ensures fresh(maskL) && fresh(maskC) && fresh(maskR)
    {
      this.w, this.h := w, h;
      iC, jC := w / 2, w / 4;
      var mL := new bool[w, h]((i, j) => InLeft(w, i, j));
      var mR := new bool[w, h]((i, j) => InRight(w, i, j));
      var mC := new bool[w, h];
      forall i, j | 0 <= i < w && 0 <= j < h {
        mC[i, j] := !mL[i, j] && !mR[i, j];
      }
      maskL, maskC, maskR := mL, mC, mR;
    }

    /** Construction with the defaults of stitch.py; it fails unless the canvas is
        wider than it is high. */
    static method Create(w: nat := 1920, h: nat := 1080) returns (r: Result<DreamocStitcher>)
      ensures r.Failure? <==> w <= h
      ensures r.Failure? ==> r.error == CanvasNotWider
      ensures r.Success? ==> fresh(r.value) && r.value.Valid() && r.value.w == w && r.value.h == h
    {
      if w <= h {
        return Failure(CanvasNotWider);
      }
      var s := new DreamocStitcher(w, h);
      return Success(s);
    }

    /** The source padded with ones to at least the canvas size, rolled so that
        its middle lands on the anchor, and cropped to w × h. */
    method CenterImage(img: Image) returns (g: Grid<Pixel>)
      requires Geometry() && img.Valid()
      ensures g == Centred(img, w, h)
    {
      var W, H := Max(img.width, w), Max(img.height, h);
      var buf := new Pixel[W, H]((a, b) => Fill(img.channels, 1));
      forall a, b | 0 <= a < img.width && 0 <= b < img.height {
        buf[a, b] := img.px[a][b];
      }
      var p0 := Snapshot(buf);
      assert forall a, b :: 0 <= a < W && 0 <= b < H ==> p0[a][b] == PaddedAt(img, a, b);
      // centre on (0, 0), then on the anchor, then crop
      var p1 := RollRows(Roll(p0, (-(img.width as int)) / 2), (-(img.height as int)) / 2);
      var p2 := RollRows(Roll(p1, iC), jC);
      CentringSteps(img, w, h, p0);
      g := Crop(p2, w, h);
    }

    /** place_central_image: the centre-zone pixels of out take the centred
        source's pixel at the same position; every other pixel is unchanged. */
    method PlaceCentral(img: Image, out: array2<Pixel>)
      requires Valid() && img.Valid() && out.Length0 == w && out.Length1 == h
      requires forall i, j :: 0 <= i < w && 0 <= j < h ==> |out[i, j]| == img.channels
      modifies out
      ensures Snapshot(out) == Paint(old(Snapshot(out)), Centre, Centred(img, w, h), w, h)
      ensures forall i, j :: 0 <= i < w && 0 <= j < h ==> |out[i, j]| == img.channels
    {
      var cen := CenterImage(img);
      forall i, j | 0 <= i < w && 0 <= j < h && maskC[i, j] {
        out[i, j] := cen[i][j];
      }
      PaintedBy(old(Snapshot(out)), Snapshot(out), Centre, cen);
    }

    /** place_left_img: the centred source turned a quarter turn and cropped to
        its first h columns, written through the left mask's first h rows; the
        left-zone pixels of out become cen[w-1-j][i], every other pixel is unchanged. */
    method PlaceLeft(img: Image, out: array2<Pixel>)
      requires Valid() && img.Valid() && out.Length0 == w && out.Length1 == h
      requires forall i, j :: 0 <= i < w && 0 <= j < h ==> |out[i, j]| == img.channels
      modifies out
      ensures Snapshot(out) == Paint(old(Snapshot(out)), Left, Centred(img, w, h), w, h)
      ensures forall i, j :: 0 <= i < w && 0 <= j < h ==> |out[i, j]| == img.channels
    {
      var cen := CenterImage(img);
      var turned := Rot90(cen, h, 1);
      var cand := Crop(turned, h, h);
      forall i, j | 0 <= i < h && 0 <= j < h && maskL[i, j] {
        out[i, j] := cand[i][j];
      }
      forall i, j | 0 <= i < w && 0 <= j < h && InLeft(w, i, j)
        ensures out[i, j] == cen[w - 1 - j][i]
      {
        LeftCandidateAt(cen, w, h, i, j);
      }
      PaintedBy(old(Snapshot(out)), Snapshot(out), Left, cen);
    }

    /** The first part of place_right_img: the centred source turned a quarter
        turn the other way (h × w), copied into the first rows of a w × h buffer
        of zeros, and the buffer rolled along axis 0 so that the copy ends flush
        with the last row. Every right-zone pixel of the result shows
        cen[j][w-1-i], read from the source and never from the zero fill. */
    method RightCandidateBuffer(cen: Grid<Pixel>, channels: nat) returns (shifted: Grid<Pixel>)
      requires Geometry() && IsGrid(cen, w, h)
      ensures IsGrid(shifted, w, h)
      ensures forall i, j :: 0 <= i < w && 0 <= j < h && InRight(w, i, j) ==>
                shifted[i][j] == cen[j][w - 1 - i]
    {
      var turned := Rot90(cen, h, -1);
      var rows := |turned|;
      var temp := new Pixel[w, h]((a, b) => Fill(channels, 0));
      forall a, b | 0 <= a < rows && 0 <= b < h {
        temp[a, b] := turned[a][b];
      }
      shifted := Roll(Snapshot(temp), w - rows);
      RightCandidate(cen, Snapshot(temp), w, h);
    }

    /** place_right_img: the right-zone pixels of out become cen[j][w-1-i]
        (never the zero fill), every other pixel is unchanged. */
    method PlaceRight(img: Image, out: array2<Pixel>)
      requires Valid() && img.Valid() && out.Length0 == w && out.Length1 == h
      requires forall i, j :: 0 <= i < w && 0 <= j < h ==> |out[i, j]| == img.channels
      modifies out
      ensures Snapshot(out) == Paint(old(Snapshot(out)), Right, Centred(img, w, h), w, h)
      ensures forall i, j :: 0 <= i < w && 0 <= j < h ==> |out[i, j]| == img.channels
    {
      var cen := CenterImage(img);
      var shifted := RightCandidateBuffer(cen, img.channels);
      forall i, j | 0 <= i < w && 0 <= j < h && maskR[i, j] {
        out[i, j] := shifted[i][j];
      }
      PaintedBy(old(Snapshot(out)), Snapshot(out), Right, cen);
    }

    /** A canvas that took zone z's pixel exactly on the zone and kept every
        other pixel is Paint of the old canvas. */
    lemma PaintedBy(before: Grid<Pixel>, after: Grid<Pixel>, z: Zone, cen: Grid<Pixel>)
      requires h < w && IsGrid(before, w, h) && IsGrid(after, w, h) && IsGrid(cen, w, h)
      requires forall i, j :: 0 <= i < w && 0 <= j < h ==>
                 after[i][j] == if InZone(w, i, j, z) then ZonePixel(z, cen, w, h, i, j) else before[i][j]
      ensures after == Paint(before, z, cen, w, h)
    {
      var p := Paint(before, z, cen, w, h);
      forall i | 0 <= i < w ensures after[i] == p[i] {
        assert |after[i]| == |p[i]| == h;
        forall j | 0 <= j < h ensures after[i][j] == p[i][j] {
        }
      }
    }

    /** __call__ on three in-memory sources: fails when their channel counts
        differ; otherwise a fresh w × h canvas, filled with 255 and then
        written by the left, centre and right placements, which holds in every
        pixel the pixel of the zone that owns it. */
    method Stitch(imgL: Image, imgR: Image, imgC: Image) returns (r: Result<array2<Pixel>>)
      requires Valid() && imgL.Valid() && imgR.Valid() && imgC.Valid()
      ensures r.Failure? <==> !(imgL.channels == imgR.channels && imgR.channels == imgC.channels)
      ensures r.Failure? ==> r.error == ChannelMismatch
      ensures r.Success? ==>
                && fresh(r.value)
                && r.value.Length0 == w && r.value.Length1 == h
                && (forall i, j :: 0 <= i < w && 0 <= j < h ==> |r.value[i, j]| == imgL.channels)
                && Snapshot(r.value) == Composite(Centred(imgL, w, h), Centred(imgC, w, h), Centred(imgR, w, h), w, h)
    {
      if !(imgL.channels == imgR.channels && imgR.channels == imgC.channels) {
        return Failure(ChannelMismatch);
      }
      var out := new Pixel[w, h]((i, j) => Fill(imgL.channels, 255));
      ghost var blank := Snapshot(out);
      PlaceLeft(imgL, out);
      PlaceCentral(imgC, out);
      PlaceRight(imgR, out);
      ghost var cL, cC, cR := Centred(imgL, w, h), Centred(imgC, w, h), Centred(imgR, w, h);
      PaintAnyOrder(blank, Left, Centre, Right, cL, cC, cR, w, h);
      assert Snapshot(out) == Composite(cL, cC, cR, w, h);
      forall i, j | 0 <= i < w && 0 <= j < h ensures |out[i, j]| == imgL.channels {
        MasksPartition(w, i, j);
        assert out[i, j] == Composite(cL, cC, cR, w, h)[i][j];
      }
      return Success(out);
    }
  }
}
