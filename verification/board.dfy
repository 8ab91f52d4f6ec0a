/**
 * The 3x3 board of the 8-puzzle: a grid of tiles in which 0 is the blank,
 * the four slide directions with their row/column deltas and labels, the
 * swap that slides the blank, and the solved arrangement.
 */
module Board {
  import opened Options

  /** A board as the source holds it: an array of rows of tiles. */
  type Grid = seq<seq<int>>

  /** Exactly three rows of exactly three cells. */
  predicate IsGrid(b: Grid) {
    |b| == 3 && forall r :: 0 <= r < 3 ==> |b[r]| == 3
  }

  predicate InRange(row: int, col: int) {
    0 <= row < 3 && 0 <= col < 3
  }

  /** The solved arrangement: the blank top-left, then 1..8 row by row. */
  const GoalGrid: Grid := [[0, 1, 2], [3, 4, 5], [6, 7, 8]]

  /** The slide directions, in the order the successor generator tries them. */
  datatype Dir = Up | Down | Left | Right

  const Directions: seq<Dir> := [Up, Down, Left, Right]

  /** Position of a direction in `Directions`. */
  function Ord(d: Dir): (i: nat)
    ensures i < |Directions| && Directions[i] == d
  {
    match d
    case Up => 0
    case Down => 1
    case Left => 2
    case Right => 3
  }

  /** The row offset of a direction: one row up or down, or none. */
  function DeltaRow(d: Dir): (dr: int)
    ensures -1 <= dr <= 1
  {
    match d
    case Up => -1
    case Down => 1
    case Left => 0
    case Right => 0
  }

  /** The column offset of a direction; together with the row offset it moves exactly one cell. */
  function DeltaCol(d: Dir): (dc: int)
    ensures -1 <= dc <= 1
    ensures dc == 0 <==> DeltaRow(d) != 0
  {
    match d
    case Up => 0
    case Down => 0
    case Left => -1
    case Right => 1
  }

  /** No two directions move the blank the same way. */
  lemma DeltasDistinct(d: Dir, e: Dir)
    requires DeltaRow(d) == DeltaRow(e) && DeltaCol(d) == DeltaCol(e)
    ensures d == e
  {
  }

  /** The move label the source records for a direction; never empty, so a path keeps every move. */
  function Label(d: Dir): (l: string)
    ensures l != ""
  {
    match d
    case Up => "UP"
    case Down => "DOWN"
    case Left => "LEFT"
    case Right => "RIGHT"
  }

  /** Reads a move label back; anything but the four labels is not a move. */
  function ParseLabel(m: string): (r: Option<Dir>)
    ensures r.Some? ==> Label(r.value) == m
    ensures forall d :: Label(d) == m ==> r == Some(d)
  {
    if m == "UP" then Some(Up)
    else if m == "DOWN" then Some(Down)
    else if m == "LEFT" then Some(Left)
    else if m == "RIGHT" then Some(Right)
    else None
  }

  /**
   * Slides the blank at (zr, zc) to (nr, nc): the blank cell receives the tile
   * from the target cell and the target cell becomes 0. The input is a value,
   * so it is untouched; the result is a fresh grid.
   */
  function Slide(b: Grid, zr: int, zc: int, nr: int, nc: int): (b': Grid)
    requires IsGrid(b) && InRange(zr, zc) && InRange(nr, nc)
    requires (zr, zc) != (nr, nc)
    ensures IsGrid(b')
    ensures forall r, c :: InRange(r, c) ==>
      b'[r][c] == (if (r, c) == (nr, nc) then 0 else if (r, c) == (zr, zc) then b[nr][nc] else b[r][c])
  {
    var moved := b[zr := b[zr][zc := b[nr][nc]]];
    moved[nr := moved[nr][nc := 0]]
  }

  /** Two grids with the same cells are the same grid. */
  lemma GridExt(a: Grid, b: Grid)
    requires IsGrid(a) && IsGrid(b)
    requires forall r, c :: InRange(r, c) ==> a[r][c] == b[r][c]
    ensures a == b
  {
    forall r | 0 <= r < 3
      ensures a[r] == b[r]
    {
      assert forall c :: 0 <= c < 3 ==> a[r][c] == b[r][c];
    }
  }

  /** The cells of a grid in row-major order. */
  function Flat(b: Grid): (s: seq<int>)
    requires IsGrid(b)
    ensures |s| == 9
    ensures forall r, c :: InRange(r, c) ==> s[3 * r + c] == b[r][c]
  {
    b[0] + b[1] + b[2]
  }

  /** The tiles a well-formed board holds: each of 0..8 exactly once. */
  const AllTiles: multiset<int> := multiset{0, 1, 2, 3, 4, 5, 6, 7, 8}

  predicate IsPermutation(b: Grid) {
    IsGrid(b) && multiset(Flat(b)) == AllTiles
  }

  /** Sliding the blank swaps two cells, so the multiset of tiles is unchanged. */
  lemma SlidePermutes(b: Grid, zr: int, zc: int, nr: int, nc: int)
    requires IsGrid(b) && InRange(zr, zc) && InRange(nr, nc) && (zr, zc) != (nr, nc)
    requires b[zr][zc] == 0
    ensures multiset(Flat(Slide(b, zr, zc, nr, nc))) == multiset(Flat(b))
  {
    var f := Flat(b);
    var i, j := 3 * zr + zc, 3 * nr + nc;
    var g := f[i := f[j]][j := 0];
    var s := Flat(Slide(b, zr, zc, nr, nc));
    forall k | 0 <= k < 9
      ensures s[k] == g[k]
    {
      assert InRange(k / 3, k % 3) && k == 3 * (k / 3) + k % 3;
    }
    assert s == g;
  }

  /** A value held at two distinct positions occurs at least twice. */
  lemma TwiceInSeq(f: seq<int>, i: int, j: int)
    requires 0 <= i < |f| && 0 <= j < |f| && i != j && f[i] == f[j]
    ensures multiset(f)[f[i]] >= 2
  {
    var x := f[i];
    var g := f[i := x + 1];
    assert g[j] == x;
    assert x in multiset(g);
    assert multiset(g) == multiset(f) - multiset{x} + multiset{x + 1};
  }

  /** A board holding the blank, tile 0, exactly once; every permutation board does. */
  predicate SingleBlank(b: Grid) {
    IsGrid(b) && multiset(Flat(b))[0] == 1
  }

  /** On a board with a single blank the blank sits in exactly one cell. */
  lemma BlankUnique(b: Grid, r: int, c: int, r': int, c': int)
    requires SingleBlank(b) && InRange(r, c) && InRange(r', c')
    requires b[r][c] == 0 && b[r'][c'] == 0
    ensures r == r' && c == c'
  {
    var f := Flat(b);
    if 3 * r + c != 3 * r' + c' {
      TwiceInSeq(f, 3 * r + c, 3 * r' + c');
      assert false;
    }
  }
}
