/**
 * The square-block overlay grid shared by the pixel reveal, the full-screen
 * overlay hook and the navigation menu transition.
 *
 * A grid for a box of width w and height h with block size b has one more
 * column and one more row than are needed to reach the edges, and is shifted
 * by half of its excess so that it overhangs both edges by the same amount.
 * That shift can be half a pixel, so every coordinate here is DOUBLED:
 * `left2 == 2 * left`, `top2 == 2 * top`, and `Off2(w, b)` is twice the offset.
 */
module BlockGrid {

  /** One block element: its doubled position, its side length and its opacity. */
  datatype Block = Block(left2: int, top2: int, size: nat, opacity: real)

  /** `Math.ceil(n / d)` for a whole number of pixels n and a positive block size d. */
  function CeilDiv(n: nat, d: nat): (q: nat)
    requires d > 0
    ensures q * d >= n
    ensures q * d < n + d
  {
    (n + d - 1) / d
  }

  /** Columns (or rows) for one extent: `Math.ceil(extent / b) + 1`. */
  function Count(extent: nat, b: nat): (n: nat)
    requires b > 0
    ensures n >= 1
  {
    CeilDiv(extent, b) + 1
  }

  /** The blocks of one extent reach one whole block past its end, and less than two. */
  lemma CountBounds(extent: nat, b: nat)
    requires b > 0
    ensures Count(extent, b) * b >= extent + b
    ensures Count(extent, b) * b < extent + 2 * b
  {
    var q := CeilDiv(extent, b);
    assert (q + 1) * b == q * b + b;
  }

  /** Twice the centring offset `(extent - count * b) / 2`. */
  function Off2(extent: nat, b: nat): int
    requires b > 0
  {
    extent - Count(extent, b) * b
  }

  /** The block in row r and column c. */
  function BlockAt(w: nat, h: nat, b: nat, opacity: real, r: nat, c: nat): Block
    requires b > 0
  {
    Block(2 * c * b + Off2(w, b), 2 * r * b + Off2(h, b), b, opacity)
  }

  /** The whole grid, in row-major order, every block at the same opacity. */
  function Grid(w: nat, h: nat, b: nat, opacity: real): seq<Block>
    requires b > 0
  {
    var cols := Count(w, b);
    seq(Count(h, b) * cols, k requires 0 <= k < Count(h, b) * cols => BlockAt(w, h, b, opacity, k / cols, k % cols))
  }

  /** Every block of `blocks` has opacity `o`. */
  predicate AllAt(blocks: seq<Block>, o: real) {
    forall i :: 0 <= i < |blocks| ==> blocks[i].opacity == o
  }

  /** `gsap.set(blocks, { opacity: o })`: same blocks, every one at opacity `o`. */
  function WithOpacity(blocks: seq<Block>, o: real): seq<Block> {
    seq(|blocks|, i requires 0 <= i < |blocks| => blocks[i].(opacity := o))
  }

  /** Setting every block of a grid to a new opacity gives the grid at that opacity. */
  lemma GridRecoloured(w: nat, h: nat, b: nat, o: real, o2: real)
    requires b > 0
    ensures WithOpacity(Grid(w, h, b, o), o2) == Grid(w, h, b, o2)
  {
  }

  /** Two block lists hold the same blocks in the same places, whatever their opacities. */
  predicate SameLayout(a: seq<Block>, b: seq<Block>) {
    |a| == |b| && forall i :: 0 <= i < |a| ==> a[i].(opacity := 0.0) == b[i].(opacity := 0.0)
  }

  lemma MulLeq(a: nat, b: nat, c: nat)
    requires a <= b
    ensures a * c <= b * c
  {
    assert b * c == a * c + (b - a) * c;
  }

  lemma MulStep(a: nat, b: nat, c: nat)
    requires a < b
    ensures a * c + c <= b * c
  {
    MulLeq(a + 1, b, c);
    assert (a + 1) * c == a * c + c;
  }

  /** Row-major indexing: index r * cols + c is row r, column c. */
  lemma RowMajor(r: nat, c: nat, cols: nat)
    requires c < cols
    ensures (r * cols + c) / cols == r
    ensures (r * cols + c) % cols == c
  {
    var k := r * cols + c;
    var q := k / cols;
    assert q * cols + k % cols == k;
    if q > r {
      MulStep(r, q, cols);
      assert false;
    }
    if q < r {
      MulStep(q, r, cols);
      assert false;
    }
  }

  /** Index r * cols + c of the grid holds the block of row r and column c. */
  lemma GridAt(w: nat, h: nat, b: nat, opacity: real, r: nat, c: nat)
    requires b > 0 && r < Count(h, b) && c < Count(w, b)
    ensures r * Count(w, b) + c < |Grid(w, h, b, opacity)|
    ensures Grid(w, h, b, opacity)[r * Count(w, b) + c] == BlockAt(w, h, b, opacity, r, c)
  {
    var cols := Count(w, b);
    RowMajor(r, c, cols);
    MulStep(r, Count(h, b), cols);
  }

  /** Moving one column right moves a block by one block width; moving one row
      down moves it by one block height. */
  lemma BlockAtNext(w: nat, h: nat, b: nat, opacity: real, r: nat, c: nat)
    requires b > 0
    ensures BlockAt(w, h, b, opacity, r, c + 1).left2 == BlockAt(w, h, b, opacity, r, c).left2 + 2 * b
    ensures BlockAt(w, h, b, opacity, r + 1, c).top2 == BlockAt(w, h, b, opacity, r, c).top2 + 2 * b
  {
    assert 2 * (c + 1) * b == 2 * c * b + 2 * b;
    assert 2 * (r + 1) * b == 2 * r * b + 2 * b;
  }

  /** Neighbouring blocks abut: the block after index k in the same row starts
      where block k ends, on the same row. */
  lemma ColumnsAbut(w: nat, h: nat, b: nat, opacity: real, r: nat, c: nat)
    requires b > 0 && r < Count(h, b) && c + 1 < Count(w, b)
    ensures var g, k := Grid(w, h, b, opacity), r * Count(w, b) + c;
      && k + 1 < |g|
      && g[k + 1].left2 == g[k].left2 + 2 * g[k].size
      && g[k + 1].top2 == g[k].top2
  {
    GridAt(w, h, b, opacity, r, c);
    GridAt(w, h, b, opacity, r, c + 1);
    BlockAtNext(w, h, b, opacity, r, c);
  }

  /** The block one row below block k (index k + cols) starts where block k ends,
      in the same column. */
  lemma RowsAbut(w: nat, h: nat, b: nat, opacity: real, r: nat, c: nat)
    requires b > 0 && r + 1 < Count(h, b) && c < Count(w, b)
    ensures var g, k, k' := Grid(w, h, b, opacity), r * Count(w, b) + c, (r + 1) * Count(w, b) + c;
      && k' < |g|
      && g[k'].top2 == g[k].top2 + 2 * g[k].size
      && g[k'].left2 == g[k].left2
  {
    GridAt(w, h, b, opacity, r, c);
    GridAt(w, h, b, opacity, r + 1, c);
    BlockAtNext(w, h, b, opacity, r, c);
  }

  /** The centring offset makes the grid overhang both edges by the same amount,
      at least half a block and less than a whole block. */
  lemma Centred(extent: nat, b: nat)
    requires b > 0
    ensures Off2(extent, b) + b <= 0
    ensures Off2(extent, b) + 2 * b > 0
    ensures Off2(extent, b) + 2 * Count(extent, b) * b >= 2 * extent + b
    ensures Off2(extent, b) + 2 * Count(extent, b) * b - 2 * extent == -Off2(extent, b)
  {
    CountBounds(extent, b);
    var n := Count(extent, b);
    assert 2 * n * b == 2 * (n * b);
  }

  /** Every point of the box [0, w] x [0, h] (in doubled coordinates, so half
      pixels included) lies inside some block of the grid. */
  lemma GridCovers(w: nat, h: nat, b: nat, opacity: real, x2: int, y2: int)
    requires b > 0 && 0 <= x2 <= 2 * w && 0 <= y2 <= 2 * h
    ensures exists k :: (0 <= k < |Grid(w, h, b, opacity)| &&
      Grid(w, h, b, opacity)[k].left2 <= x2 < Grid(w, h, b, opacity)[k].left2 + 2 * b &&
      Grid(w, h, b, opacity)[k].top2 <= y2 < Grid(w, h, b, opacity)[k].top2 + 2 * b)
  {
    var c := CoveringIndex(w, b, x2);
    var r := CoveringIndex(h, b, y2);
    GridAt(w, h, b, opacity, r, c);
    var k := r * Count(w, b) + c;
    assert Grid(w, h, b, opacity)[k] == BlockAt(w, h, b, opacity, r, c);
  }

  /** The column (or row) whose block spans doubled coordinate x2 of [0, 2 * extent]. */
  lemma CoveringIndex(extent: nat, b: nat, x2: int) returns (c: nat)
    requires b > 0 && 0 <= x2 <= 2 * extent
    ensures c < Count(extent, b)
    ensures 2 * c * b + Off2(extent, b) <= x2 < 2 * c * b + Off2(extent, b) + 2 * b
  {
    var n := Count(extent, b);
    var d := x2 - Off2(extent, b);
    assert 0 <= d < 2 * b * n by {
      CountBounds(extent, b);
      DoubleProduct(n, b);
    }
    c := Bracket(d, 2 * b, n);
    DoubleProduct(c, b);
  }

  /** 2 · (a · b) is (2 · b) · a. */
  lemma DoubleProduct(a: nat, b: nat)
    ensures 2 * (a * b) == 2 * b * a && 2 * a * b == 2 * b * a
  {
  }

  /** The quotient of d by m brackets d, and stays below n when d < m · n. */
  lemma Bracket(d: nat, m: nat, n: nat) returns (c: nat)
    requires m > 0 && d < m * n
    ensures c == d / m && c < n
    ensures m * c <= d < m * c + m
  {
    c := d / m;
    assert m * c + d % m == d;
    if c >= n {
      MulLeq(n, c, m);
      assert false;
    }
  }

  /** Builds the grid block by block, row by row, into a fresh list (the emptied
      container): the result holds exactly the blocks of `Grid`. */
  method BuildGrid(w: nat, h: nat, b: nat, opacity: real) returns (blocks: seq<Block>)
    requires b > 0
    ensures blocks == Grid(w, h, b, opacity)
  {
    var cols := Count(w, b);
    var rows := Count(h, b);
    var offX2 := w - cols * b;
    var offY2 := h - rows * b;
    ghost var grid := Grid(w, h, b, opacity);
    blocks := [];
    var r := 0;
    while r < rows
      invariant 0 <= r <= rows
      invariant |blocks| == r * cols <= |grid|
      invariant blocks == grid[..|blocks|]
    {
      var c := 0;
      while c < cols
        invariant 0 <= c <= cols
        invariant |blocks| == r * cols + c <= |grid|
        invariant blocks == grid[..|blocks|]
      {
        var block := Block(2 * c * b + offX2, 2 * r * b + offY2, b, opacity);
        assert |blocks| < |grid| && grid[|blocks|] == block by {
          GridAt(w, h, b, opacity, r, c);
        }
        blocks := blocks + [block];
        c := c + 1;
      }
      assert r * cols + cols == (r + 1) * cols;
      r := r + 1;
    }
  }
}
