// Source images and the centring step of the compositor (`_center_image`).
// An image is indexed [i][j] with i along its width and j along its height,
// and every pixel holds `channels` samples.

module Images {

  import opened Modular
  import opened Grids

  type Pixel = seq<int>

  datatype Image = Image(width: nat, height: nat, channels: nat, px: Grid<Pixel>) {
    /** px is width × height and every pixel has `channels` samples. */
    predicate Valid() {
      && IsGrid(px, width, height)
      && forall a, b :: 0 <= a < width && 0 <= b < height ==> |px[a][b]| == channels
    }
  }

  function Max(a: int, b: int): int {
    if a < b then b else a
  }

  /** ⌈n / 2⌉; the shift -n//2 of stitch.py is floor division of -n, which is -⌈n / 2⌉. */
  function CeilHalf(n: nat): (r: nat)
    ensures r + r == n || r + r == n + 1
    ensures (-(n as int)) / 2 == -(r as int)
  {
    (n + 1) / 2
  }

  /** Cell (a, b) of the padding buffer: the source placed at the top-left of a
      buffer whose other cells hold 1 in every channel (np.ones). */
  function PaddedAt(img: Image, a: nat, b: nat): (p: Pixel)
    requires img.Valid()
    ensures |p| == img.channels
  {
    if a < img.width && b < img.height then img.px[a][b] else Fill(img.channels, 1)
  }

  /** The w × h view `_center_image` returns, in closed form: the padding buffer
      is W × H with W = max(width, w) and H = max(height, h), and canvas pixel
      (x, y) shows buffer cell ((x + ⌈width/2⌉ - w//2) mod W, (y + ⌈height/2⌉ - w//4) mod H).
      Whatever the source's size, the result is w × h with `channels` samples per pixel. */
  function Centred(img: Image, w: nat, h: nat): (g: Grid<Pixel>)
    requires img.Valid()
    ensures IsGrid(g, w, h)
    ensures forall x, y :: 0 <= x < w && 0 <= y < h ==> |g[x][y]| == img.channels
  {
    seq(w, x requires 0 <= x < w => seq(h, y requires 0 <= y < h => CentredAt(img, w, h, x, y)))
  }

  /** Pixel (x, y) of Centred(img, w, h). */
  function CentredAt(img: Image, w: nat, h: nat, x: nat, y: nat): (p: Pixel)
    requires img.Valid() && x < w && y < h
    ensures |p| == img.channels
  {
    var W, H := Max(img.width, w), Max(img.height, h);
    PaddedAt(img, Mod(x + CeilHalf(img.width) - w / 2, W), Mod(y + CeilHalf(img.height) - w / 4, H))
  }

  /** The steps of `_center_image` after padding (roll by -width//2 and
      -height//2 to put the image's pixel (⌈width/2⌉, ⌈height/2⌉) at (0, 0), roll by the anchor
      (w//2, w//4), crop to w × h) give the closed form Centred. */
  lemma CentringSteps(img: Image, w: nat, h: nat, padded: Grid<Pixel>)
    requires img.Valid()
    requires IsGrid(padded, Max(img.width, w), Max(img.height, h))
    requires forall a, b :: 0 <= a < Max(img.width, w) && 0 <= b < Max(img.height, h) ==>
               padded[a][b] == PaddedAt(img, a, b)
    ensures
      var s, t := (-(img.width as int)) / 2, (-(img.height as int)) / 2;
      var p1 := RollRows(Roll(padded, s), t);
      var p2 := RollRows(Roll(p1, w / 2), w / 4);
      IsGrid(p2, Max(img.width, w), Max(img.height, h)) && Crop(p2, w, h) == Centred(img, w, h)
  {
    var W, H := Max(img.width, w), Max(img.height, h);
    var s, t := (-(img.width as int)) / 2, (-(img.height as int)) / 2;
    var p1 := RollRows(Roll(padded, s), t);
    var p2 := RollRows(Roll(p1, w / 2), w / 4);
    RollGridShape(padded, W, H, s, t);
    RollGridShape(p1, W, H, w / 2, w / 4);
    RollGridTwice(padded, s, t, w / 2, w / 4);
    RolledPaddingAt(img, w, h, padded);
    var g := Crop(p2, w, h);
    var c := Centred(img, w, h);
    forall x | 0 <= x < w ensures g[x] == c[x] {
      forall y | 0 <= y < h ensures g[x][y] == c[x][y] {
        assert c[x][y] == CentredAt(img, w, h, x, y);
      }
    }
  }

  /** One roll of the padding buffer by the summed shifts shows CentredAt on the canvas. */
  lemma RolledPaddingAt(img: Image, w: nat, h: nat, padded: Grid<Pixel>)
    requires img.Valid()
    requires IsGrid(padded, Max(img.width, w), Max(img.height, h))
    requires forall a, b :: 0 <= a < Max(img.width, w) && 0 <= b < Max(img.height, h) ==>
               padded[a][b] == PaddedAt(img, a, b)
    ensures
      var sx, sy := (-(img.width as int)) / 2 + w / 2, (-(img.height as int)) / 2 + w / 4;
      && IsGrid(RollRows(Roll(padded, sx), sy), Max(img.width, w), Max(img.height, h))
      && forall x, y :: 0 <= x < w && 0 <= y < h ==>
        RollRows(Roll(padded, sx), sy)[x][y] == CentredAt(img, w, h, x, y)
  {
    var W, H := Max(img.width, w), Max(img.height, h);
    var sx, sy := (-(img.width as int)) / 2 + w / 2, (-(img.height as int)) / 2 + w / 4;
    var q := Roll(padded, sx);
    RollGridShape(padded, W, H, sx, sy);
    forall x, y | 0 <= x < w && 0 <= y < h ensures RollRows(q, sy)[x][y] == CentredAt(img, w, h, x, y) {
      var a := Mod(x - sx, W);
      assert q[x] == padded[a];
      assert RollRows(q, sy)[x][y] == padded[a][Mod(y - sy, H)];
      assert x - sx == x + CeilHalf(img.width) - w / 2;
      assert y - sy == y + CeilHalf(img.height) - w / 4;
    }
  }

  /** The source pixel just past its middle, (⌈width/2⌉, ⌈height/2⌉), lands on the
      centre zone's anchor (w//2, w//4) whenever that anchor lies on the canvas. */
  lemma CentredAnchor(img: Image, w: nat, h: nat)
    requires img.Valid() && 2 <= img.width && 2 <= img.height
    requires w / 2 < w && w / 4 < h
    ensures Centred(img, w, h)[w / 2][w / 4] == img.px[CeilHalf(img.width)][CeilHalf(img.height)]
  {
    var W, H := Max(img.width, w), Max(img.height, h);
    var a, b := CeilHalf(img.width), CeilHalf(img.height);
    ModUnique(a, W, 0, a);
    ModUnique(b, H, 0, b);
    assert Centred(img, w, h)[w / 2][w / 4] == CentredAt(img, w, h, w / 2, w / 4);
    assert w / 2 + a - w / 2 == a && w / 4 + b - w / 4 == b;
  }

  /** A canvas-sized source is only shifted, with wrap-around, by centring:
      rolling the result back by the same offsets gives the source again. */
  lemma CentredUndo(img: Image, w: nat, h: nat)
    requires img.Valid() && img.width == w && img.height == h
    ensures RollRows(Roll(Centred(img, w, h), CeilHalf(w) - w / 2), CeilHalf(h) - w / 4) == img.px
  {
    var sx, sy := CeilHalf(w) - w / 2, CeilHalf(h) - w / 4;
    var c := Centred(img, w, h);
    var r := RollRows(Roll(c, sx), sy);
    forall k | 0 <= k < w ensures r[k] == img.px[k] {
      var x := Mod(k - sx, w);
      assert r[k] == Roll(c[x], sy);
      UndoAt(img, w, h, k, x);
    }
  }

  /** Row k of the rolled-back view is row k of the source. */
  lemma UndoAt(img: Image, w: nat, h: nat, k: nat, x: nat)
    requires img.Valid() && img.width == w && img.height == h
    requires k < w && x == Mod(k - (CeilHalf(w) - w / 2), w)
    ensures Roll(Centred(img, w, h)[x], CeilHalf(h) - w / 4) == img.px[k]
  {
    var sx, sy := CeilHalf(w) - w / 2, CeilHalf(h) - w / 4;
    var row := Centred(img, w, h)[x];
    ModAbsorb(k - sx, sx, w);
    ModUnique(k, w, 0, k);
    assert Mod(x + sx, w) == k;
    forall l | 0 <= l < h ensures Roll(row, sy)[l] == img.px[k][l] {
      var y := Mod(l - sy, h);
      assert Roll(row, sy)[l] == CentredAt(img, w, h, x, y);
      ModAbsorb(l - sy, sy, h);
      ModUnique(l, h, 0, l);
      assert Mod(y + sy, h) == l;
    }
  }
}
