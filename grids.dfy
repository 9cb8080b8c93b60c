// Whole-array index maps used by the compositor: the numpy operations
// np.roll, np.flip, np.transpose, np.rot90 and slicing, on row-major grids
// (axis 0 = outer sequence, axis 1 = inner sequences).

module Grids {

  import opened Modular

  type Grid<T> = seq<seq<T>>

  /** g has `rows` rows of `cols` cells each. */
  predicate IsGrid<T>(g: Grid<T>, rows: nat, cols: nat) {
    |g| == rows && forall r :: 0 <= r < rows ==> |g[r]| == cols
  }

  /** A pixel, or any vector, holding `n` copies of v (np.ones, np.zeros, 255 * np.ones). */
  function Fill(n: nat, v: int): (p: seq<int>)
    ensures |p| == n && forall c :: 0 <= c < n ==> p[c] == v
  {
    seq(n, _ => v)
  }

  /** The contents of a two-dimensional array as a grid. */
  function Snapshot<T>(a: array2<T>): (g: Grid<T>)
    reads a
    ensures IsGrid(g, a.Length0, a.Length1)
    ensures forall i, j :: 0 <= i < a.Length0 && 0 <= j < a.Length1 ==> g[i][j] == a[i, j]
  {
    seq(a.Length0, i requires 0 <= i < a.Length0 reads a =>
      seq(a.Length1, j requires 0 <= j < a.Length1 reads a => a[i, j]))
  }

  // ---------------------------------------------------------------------
  // np.roll
  // ---------------------------------------------------------------------

  /** np.roll of a sequence by s: the element at index k of the result is the one
      that was at (k - s) mod n. Rolling an empty axis changes nothing. */
  function Roll<T>(xs: seq<T>, s: int): (r: seq<T>)
    ensures |r| == |xs|
  {
    if |xs| == 0 then xs else seq(|xs|, k requires 0 <= k < |xs| => xs[Mod(k - s, |xs|)])
  }

  /** np.roll along axis 1 of a grid: every row is rolled by s. */
  function RollRows<T>(g: Grid<T>, s: int): (r: Grid<T>)
    ensures |r| == |g| && forall k :: 0 <= k < |g| ==> |r[k]| == |g[k]|
  {
    seq(|g|, k requires 0 <= k < |g| => Roll(g[k], s))
  }

  /** Two rolls in a row are one roll by the sum of the shifts. */
  lemma RollTwice<T>(xs: seq<T>, a: int, b: int)
    ensures Roll(Roll(xs, a), b) == Roll(xs, a + b)
  {
    var n := |xs|;
    if n > 0 {
      forall k | 0 <= k < n
        ensures Roll(Roll(xs, a), b)[k] == Roll(xs, a + b)[k]
      {
        ModAbsorb(k - b, -a, n);
        assert k - b - a == k - (a + b);
      }
    }
  }

  /** Rolling by a multiple of the length, in particular by zero, is the identity. */
  lemma RollByPeriod<T>(xs: seq<T>, q: int)
    ensures Roll(xs, q * |xs|) == xs
  {
    var n := |xs|;
    if n > 0 {
      forall k | 0 <= k < n
        ensures Roll(xs, q * n)[k] == xs[k]
      {
        assert k - q * n == (-q) * n + k;
        ModUnique(k - q * n, n, -q, k);
        assert Mod(k - q * n, n) == k;
      }
    }
  }

  /** Rolling back by the same shift restores the sequence. */
  lemma RollUndo<T>(xs: seq<T>, s: int)
    ensures Roll(Roll(xs, s), -s) == xs
  {
    RollTwice(xs, s, -s);
    assert 0 * |xs| == 0;
    RollByPeriod(xs, 0);
  }

  /** Rolling a grid along either axis keeps its shape. */
  lemma RollGridShape<T>(g: Grid<T>, rows: nat, cols: nat, s: int, t: int)
    requires IsGrid(g, rows, cols)
    ensures IsGrid(Roll(g, s), rows, cols) && IsGrid(RollRows(Roll(g, s), t), rows, cols)
  {
    forall r | 0 <= r < rows ensures |Roll(g, s)[r]| == cols {
      assert Roll(g, s)[r] == g[Mod(r - s, rows)];
    }
  }

  /** Rolling the rows of a grid and then the grid along axis 0 is the same as
      rolling along axis 0 first: the two axes' rolls commute. */
  lemma RollAxesCommute<T>(g: Grid<T>, s: int, t: int)
    ensures Roll(RollRows(g, t), s) == RollRows(Roll(g, s), t)
  {
    var n := |g|;
    if n > 0 {
      forall k | 0 <= k < n ensures Roll(RollRows(g, t), s)[k] == RollRows(Roll(g, s), t)[k] {
        var m := Mod(k - s, n);
        assert Roll(RollRows(g, t), s)[k] == RollRows(g, t)[m] == Roll(g[m], t);
        assert RollRows(Roll(g, s), t)[k] == Roll(Roll(g, s)[k], t) == Roll(g[m], t);
      }
    }
  }

  /** Two rolls of a grid along both axes are one roll by the summed shifts. */
  lemma RollGridTwice<T>(g: Grid<T>, s1: int, t1: int, s2: int, t2: int)
    ensures RollRows(Roll(RollRows(Roll(g, s1), t1), s2), t2) == RollRows(Roll(g, s1 + s2), t1 + t2)
  {
    var a := Roll(g, s1);
    RollAxesCommute(a, s2, t1);
    RollTwice(g, s1, s2);
    var b := Roll(a, s2);
    forall k | 0 <= k < |b| ensures Roll(Roll(b[k], t1), t2) == Roll(b[k], t1 + t2) {
      RollTwice(b[k], t1, t2);
    }
  }

  // ---------------------------------------------------------------------
  // np.flip, np.transpose, np.rot90 and slicing
  // ---------------------------------------------------------------------

  /** np.flip along axis 0: the rows in reverse order. */
  function Flip0<T>(g: Grid<T>): (r: Grid<T>)
    ensures |r| == |g|
  {
    seq(|g|, k requires 0 <= k < |g| => g[|g| - 1 - k])
  }

  /** np.flip along axis 1: every row reversed. */
  function Flip1<T>(g: Grid<T>): (r: Grid<T>)
    ensures |r| == |g| && forall k :: 0 <= k < |g| ==> |r[k]| == |g[k]|
  {
    seq(|g|, k requires 0 <= k < |g| => seq(|g[k]|, c requires 0 <= c < |g[k]| => g[k][|g[k]| - 1 - c]))
  }

  /** np.transpose exchanging axes 0 and 1 of a grid with `cols` columns. */
  function Transpose<T>(g: Grid<T>, cols: nat): (r: Grid<T>)
    requires IsGrid(g, |g|, cols)
    ensures IsGrid(r, cols, |g|)
  {
    seq(cols, c requires 0 <= c < cols => seq(|g|, k requires 0 <= k < |g| => g[k][c]))
  }

  /** np.rot90(g, k, axes=(1, 0)) for a grid with `cols` columns: k quarter turns
      from axis 1 towards axis 0, computed as numpy does from flips and a transpose. */
  function Rot90<T>(g: Grid<T>, cols: nat, k: int): (r: Grid<T>)
    requires IsGrid(g, |g|, cols)
    ensures k % 4 == 1 ==>
              && IsGrid(r, cols, |g|)
              && forall c, d :: 0 <= c < cols && 0 <= d < |g| ==> r[c][d] == g[|g| - 1 - d][c]
    ensures k % 4 == 3 ==>
              && IsGrid(r, cols, |g|)
              && forall c, d :: 0 <= c < cols && 0 <= d < |g| ==> r[c][d] == g[d][cols - 1 - c]
    ensures k % 4 == 2 ==>
              && IsGrid(r, |g|, cols)
              && forall c, d :: 0 <= c < |g| && 0 <= d < cols ==> r[c][d] == g[|g| - 1 - c][cols - 1 - d]
    ensures k % 4 == 0 ==> r == g
  {
    match k % 4
    case 0 => g
    case 1 => Transpose(Flip0(g), cols)
    case 2 => Flip0(Flip1(g))
    case 3 => Flip0(Transpose(g, cols))
  }

  /** Two quarter turns in opposite directions undo each other (both orders). */
  lemma {:induction false} Rot90RoundTrip<T>(g: Grid<T>, cols: nat)
    requires IsGrid(g, |g|, cols)
    ensures Rot90(Rot90(g, cols, 1), |g|, -1) == g
    ensures Rot90(Rot90(g, cols, -1), |g|, 1) == g
  {
    var rows := |g|;
    var a := Rot90(g, cols, 1);
    var b := Rot90(a, rows, -1);
    assert |b| == rows;
    forall i | 0 <= i < rows ensures b[i] == g[i] {
      assert |b[i]| == cols;
      forall j | 0 <= j < cols ensures b[i][j] == g[i][j] {
        assert b[i][j] == a[j][rows - 1 - i];
      }
    }
    var c := Rot90(g, cols, -1);
    assert IsGrid(c, cols, rows) && |c| == cols;
    var d := Rot90(c, rows, 1);
    assert IsGrid(d, rows, cols);
    forall i | 0 <= i < rows ensures d[i] == g[i] {
      forall j | 0 <= j < cols ensures d[i][j] == g[i][j] {
        var j' := cols - 1 - j;
        assert d[i][j] == c[j'][i];
        assert c[j'][i] == g[i][cols - 1 - j'];
      }
    }
  }

  /** g[:rows, :cols]: the top-left rows × cols corner. */
  function Crop<T>(g: Grid<T>, rows: nat, cols: nat): (r: Grid<T>)
    requires rows <= |g| && forall k :: 0 <= k < rows ==> cols <= |g[k]|
    ensures IsGrid(r, rows, cols)
    ensures forall i, j :: 0 <= i < rows && 0 <= j < cols ==> r[i][j] == g[i][j]
  {
    seq(rows, k requires 0 <= k < rows => g[k][..cols])
  }
}
