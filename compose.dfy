// Masked compositing: what each placement writes into the shared canvas, and
// what the three placements together produce.

module Compose {

  import opened Modular
  import opened Grids
  import opened Zones
  import opened Images

  /** The pixel zone z shows at canvas position (i, j), read from the zone's
      centred source cen (a w × h grid):
      - centre: no rotation, cen[i][j];
      - left: a quarter turn cropped to its first h columns, cen[w-1-j][i];
      - right: the opposite quarter turn shifted to end flush with the last row, cen[j][w-1-i].
      Inside the zone these indices are always on the grid. */
  function ZonePixel(z: Zone, cen: Grid<Pixel>, w: nat, h: nat, i: nat, j: nat): Pixel
    requires h < w && IsGrid(cen, w, h) && i < w && j < h && InZone(w, i, j, z)
  {
    match z
    case Centre => cen[i][j]
    case Left => cen[w - 1 - j][i]
    case Right => cen[j][w - 1 - i]
  }

  /** The canvas after one placement: the pixels of zone z take the zone's
      pixel, every other pixel keeps its value in base. */
  function Paint(base: Grid<Pixel>, z: Zone, cen: Grid<Pixel>, w: nat, h: nat): (r: Grid<Pixel>)
    requires h < w && IsGrid(base, w, h) && IsGrid(cen, w, h)
    ensures IsGrid(r, w, h)
  {
    seq(w, i requires 0 <= i < w => seq(h, j requires 0 <= j < h =>
      if InZone(w, i, j, z) then ZonePixel(z, cen, w, h, i, j) else base[i][j]))
  }

  /** The one of three per-zone values that belongs to zone z. */
  function Select<T>(z: Zone, left: T, centre: T, right: T): T {
    match z
    case Left => left
    case Centre => centre
    case Right => right
  }

  /** The finished canvas: every pixel shows the pixel of the zone that owns it. */
  function Composite(cenL: Grid<Pixel>, cenC: Grid<Pixel>, cenR: Grid<Pixel>, w: nat, h: nat): (r: Grid<Pixel>)
    requires h < w && IsGrid(cenL, w, h) && IsGrid(cenC, w, h) && IsGrid(cenR, w, h)
    ensures IsGrid(r, w, h)
  {
    seq(w, i requires 0 <= i < w => seq(h, j requires 0 <= j < h =>
      var z := ZoneOf(w, i, j);
      MasksPartition(w, i, j);
      ZonePixel(z, Select(z, cenL, cenC, cenR), w, h, i, j)))
  }

  /** The left placement's candidate, the centred source turned a quarter turn
      (np.rot90 with axes (1, 0), k = 1) and cropped to its first h columns, shows
      cen[w-1-j][i] at every left-zone pixel, all of which lie in its h rows. */
  lemma LeftCandidateAt(cen: Grid<Pixel>, w: nat, h: nat, i: nat, j: nat)
    requires h < w && IsGrid(cen, w, h) && i < w && j < h && InLeft(w, i, j)
    ensures IsGrid(Rot90(cen, h, 1), h, w)
    ensures i < h && Crop(Rot90(cen, h, 1), h, h)[i][j] == cen[w - 1 - j][i]
  {
    LeftZoneRows(w, h, i, j);
    assert 1 % 4 == 1;
    var turned := Rot90(cen, h, 1);
    assert turned[i][j] == cen[w - 1 - j][i];
  }

  /** The right placement's candidate: the centred source turned a quarter turn
      the other way (np.rot90 with axes (1, 0), k = -1, h × w), copied into the
      first h rows of a w × h buffer whose other rows hold the zero fill, and
      rolled by w - h along axis 0. At every right-zone pixel it shows
      cen[j][w-1-i], read from the turned source and never from the zero fill. */
  lemma RightCandidate(cen: Grid<Pixel>, temp: Grid<Pixel>, w: nat, h: nat)
    requires h < w && IsGrid(cen, w, h) && IsGrid(temp, w, h)
    requires forall a, b :: 0 <= a < h && 0 <= b < h ==> temp[a][b] == Rot90(cen, h, -1)[a][b]
    ensures IsGrid(Rot90(cen, h, -1), h, w) && IsGrid(Roll(temp, w - h), w, h)
    ensures forall i, j :: 0 <= i < w && 0 <= j < h && InRight(w, i, j) ==>
              Roll(temp, w - h)[i][j] == cen[j][w - 1 - i]
  {
    assert -1 % 4 == 3;
    RollGridShape(temp, w, h, w - h, 0);
    forall i, j | 0 <= i < w && 0 <= j < h && InRight(w, i, j)
      ensures Roll(temp, w - h)[i][j] == cen[j][w - 1 - i]
    {
      RightZoneRows(w, h, i, j);
      var a := i - (w - h);
      ModUnique(a, w, 0, a);
      assert Roll(temp, w - h)[i] == temp[a];
      assert temp[a][j] == Rot90(cen, h, -1)[a][j];
    }
  }

  /** Placing the three zones, in any order and over any background, gives the
      composite: since the masks partition the canvas, every background pixel is
      overwritten exactly once and no placement undoes another. */
  lemma {:induction false} PaintAnyOrder(base: Grid<Pixel>, z1: Zone, z2: Zone, z3: Zone,
                                         cenL: Grid<Pixel>, cenC: Grid<Pixel>, cenR: Grid<Pixel>, w: nat, h: nat)
    requires h < w && IsGrid(base, w, h)
    requires IsGrid(cenL, w, h) && IsGrid(cenC, w, h) && IsGrid(cenR, w, h)
    requires z1 != z2 && z2 != z3 && z1 != z3
    ensures Paint(Paint(Paint(base, z1, Select(z1, cenL, cenC, cenR), w, h),
                        z2, Select(z2, cenL, cenC, cenR), w, h),
                  z3, Select(z3, cenL, cenC, cenR), w, h)
            == Composite(cenL, cenC, cenR, w, h)
  {
    var p1 := Paint(base, z1, Select(z1, cenL, cenC, cenR), w, h);
    var p2 := Paint(p1, z2, Select(z2, cenL, cenC, cenR), w, h);
    var p3 := Paint(p2, z3, Select(z3, cenL, cenC, cenR), w, h);
    var c := Composite(cenL, cenC, cenR, w, h);
    forall i | 0 <= i < w ensures p3[i] == c[i] {
      forall j | 0 <= j < h ensures p3[i][j] == c[i][j] {
        MasksPartition(w, i, j);
        var z := ZoneOf(w, i, j);
        assert z == z1 || z == z2 || z == z3 by {
          match z
          case Left =>
          case Centre =>
          case Right =>
        }
      }
    }
  }

  /** A source at least as large as the canvas shows no padding once centred:
      a uniform source of colour col gives a uniform view of colour col. */
  lemma CentredUniform(img: Image, w: nat, h: nat, col: Pixel)
    requires img.Valid() && w <= img.width && h <= img.height
    requires forall a, b :: 0 <= a < img.width && 0 <= b < img.height ==> img.px[a][b] == col
    ensures forall x, y :: 0 <= x < w && 0 <= y < h ==> Centred(img, w, h)[x][y] == col
  {
    forall x, y | 0 <= x < w && 0 <= y < h ensures Centred(img, w, h)[x][y] == col {
      assert Centred(img, w, h)[x][y] == CentredAt(img, w, h, x, y);
    }
  }

  /** Three uniform sources of colours colL, colC and colR, each at least canvas-sized,
      give a canvas in which every pixel has the colour of the zone that owns it. */
  lemma SolidColours(imgL: Image, imgC: Image, imgR: Image, colL: Pixel, colC: Pixel, colR: Pixel, w: nat, h: nat)
    requires h < w
    requires imgL.Valid() && w <= imgL.width && h <= imgL.height
    requires imgC.Valid() && w <= imgC.width && h <= imgC.height
    requires imgR.Valid() && w <= imgR.width && h <= imgR.height
    requires forall a, b :: 0 <= a < imgL.width && 0 <= b < imgL.height ==> imgL.px[a][b] == colL
    requires forall a, b :: 0 <= a < imgC.width && 0 <= b < imgC.height ==> imgC.px[a][b] == colC
    requires forall a, b :: 0 <= a < imgR.width && 0 <= b < imgR.height ==> imgR.px[a][b] == colR
    ensures forall i, j :: 0 <= i < w && 0 <= j < h ==>
              Composite(Centred(imgL, w, h), Centred(imgC, w, h), Centred(imgR, w, h), w, h)[i][j]
              == Select(ZoneOf(w, i, j), colL, colC, colR)
  {
    var cL, cC, cR := Centred(imgL, w, h), Centred(imgC, w, h), Centred(imgR, w, h);
    CentredUniform(imgL, w, h, colL);
    CentredUniform(imgC, w, h, colC);
    CentredUniform(imgR, w, h, colR);
    forall i, j | 0 <= i < w && 0 <= j < h
      ensures Composite(cL, cC, cR, w, h)[i][j] == Select(ZoneOf(w, i, j), colL, colC, colR)
    {
      MasksPartition(w, i, j);
    }
  }
}
