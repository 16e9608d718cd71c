/**
 * The page-wide digital hover grid: a viewport of 28-pixel blocks laid out
 * row by row. Every animation frame finds the block nearest the pointer,
 * lights it and a short random cluster of its 8-neighbours, and switches off
 * every block whose lifetime has run out. Blocks are records kept in an
 * array and updated in place. Times are integers in milliseconds. The random
 * draws are parameters in [0, 1), exactly as `Math.random` returns them.
 */
module DigitalEffect {
  import opened Wrappers
  import BlockGrid

  const BlockSize: nat := 28
  const DetectionRadius: nat := 70
  const ClusterSize: nat := 8
  const BlockLifetime: nat := 350
  /** Extra lifetime per cluster step. */
  const StepDelay: nat := 15
  const EmptyRatio: real := 0.25
  const ScrambleRatio: real := 0.28
  const ThrottleDelay: int := 16

  /** One block record. The DOM element and its symbol text are not modelled;
      `scrambling` stands for a running scramble interval. */
  datatype Cell = Cell(
    x: int, y: int,            // centre, in pixels
    gridX: nat, gridY: nat,    // column and row
    highlightEndTime: int,
    isEmpty: bool,
    shouldScramble: bool,
    scrambling: bool,
    isActive: bool)

  /** `Math.floor(r * n)` for a draw r in [0, 1): an index below n. */
  function Roll(r: real, n: nat): (k: nat)
    requires 0.0 <= r < 1.0 && n > 0
    ensures k < n
  {
    assert 0.0 <= r * (n as real) < n as real by {
      assert (n as real) - r * (n as real) == (1.0 - r) * (n as real);
    }
    (r * (n as real)).Floor
  }

  /** The number of cluster steps, `Math.floor(r * 8) + 1`: between 1 and 8. */
  function ClusterCount(r: real): (n: nat)
    requires 0.0 <= r < 1.0
    ensures 1 <= n <= ClusterSize
  {
    Roll(r, ClusterSize) + 1
  }

  predicate IsDraw(r: real) {
    0.0 <= r < 1.0
  }

  // ---------------------------------------------------------------------------
  // The grid
  // ---------------------------------------------------------------------------

  /** A freshly created block: inactive, no deadline, no scramble timer. It is
      empty when its first draw is below 0.25, and scrambles when it is not empty
      and its second draw is below 0.28. */
  function FreshCell(r: nat, c: nat, emptyRoll: real, scrambleRoll: real): Cell {
    var empty := emptyRoll < EmptyRatio;
    Cell(c * BlockSize + BlockSize / 2, r * BlockSize + BlockSize / 2, c, r,
         0, empty, !empty && scrambleRoll < ScrambleRatio, false, false)
  }

  function Cols(w: nat): nat {
    BlockGrid.CeilDiv(w, BlockSize)
  }

  function Rows(h: nat): nat {
    BlockGrid.CeilDiv(h, BlockSize)
  }

  /** The grid of a w by h viewport, in row-major order; cell k takes draws k. */
  function DigitalGrid(w: nat, h: nat, emptyRolls: seq<real>, scrambleRolls: seq<real>): seq<Cell>
    requires |emptyRolls| >= Rows(h) * Cols(w) && |scrambleRolls| >= Rows(h) * Cols(w)
  {
    var cols := Cols(w);
    seq(Rows(h) * cols, k requires 0 <= k < Rows(h) * cols =>
      FreshCell(k / cols, k % cols, emptyRolls[k], scrambleRolls[k]))
  }

  /** Cell (r, c) of the grid sits at index r * cols + c, is centred at
      (28c + 14, 28r + 14), has grid coordinates (c, r), and starts switched off. */
  lemma GridCell(w: nat, h: nat, emptyRolls: seq<real>, scrambleRolls: seq<real>, r: nat, c: nat)
    requires |emptyRolls| >= Rows(h) * Cols(w) && |scrambleRolls| >= Rows(h) * Cols(w)
    requires r < Rows(h) && c < Cols(w)
    ensures r * Cols(w) + c < |DigitalGrid(w, h, emptyRolls, scrambleRolls)|
    ensures var cell := DigitalGrid(w, h, emptyRolls, scrambleRolls)[r * Cols(w) + c];
      && cell.x == 28 * c + 14 && cell.y == 28 * r + 14
      && cell.gridX == c && cell.gridY == r
      && !cell.isActive && cell.highlightEndTime == 0 && !cell.scrambling
      && (cell.isEmpty <==> emptyRolls[r * Cols(w) + c] < 0.25)
  {
    BlockGrid.RowMajor(r, c, Cols(w));
    BlockGrid.MulStep(r, Rows(h), Cols(w));
  }

  /** The grid has no extra row or column: it is the fewest 28-pixel blocks that
      reach the right and bottom edges, and every pixel (px, py) of the viewport
      lies inside the square of exactly the cell (py / 28, px / 28). */
  lemma GridCovers(w: nat, h: nat, px: nat, py: nat)
    requires px < w && py < h
    ensures Cols(w) * 28 >= w && (Cols(w) - 1) * 28 < w
    ensures Rows(h) * 28 >= h && (Rows(h) - 1) * 28 < h
    ensures px / 28 < Cols(w) && py / 28 < Rows(h)
    ensures (py / 28) * Cols(w) + px / 28 < Rows(h) * Cols(w)
    ensures 28 * (px / 28) <= px < 28 * (px / 28) + 28
    ensures 28 * (py / 28) <= py < 28 * (py / 28) + 28
  {
    var c, r := px / 28, py / 28;
    if c >= Cols(w) {
      assert false;
    }
    if r >= Rows(h) {
      assert false;
    }
    BlockGrid.MulStep(r, Rows(h), Cols(w));
  }

  /** The stored cell under a viewport pixel: index (py / 28) * cols + px / 28
      is in the grid, and the pixel lies within 14 pixels of that cell's centre
      on both axes, so it is inside that cell's square. */
  lemma CellUnderPixel(w: nat, h: nat, emptyRolls: seq<real>, scrambleRolls: seq<real>, px: nat, py: nat)
    requires |emptyRolls| >= Rows(h) * Cols(w) && |scrambleRolls| >= Rows(h) * Cols(w)
    requires px < w && py < h
    ensures (py / 28) * Cols(w) + px / 28 < |DigitalGrid(w, h, emptyRolls, scrambleRolls)|
    ensures var cell := DigitalGrid(w, h, emptyRolls, scrambleRolls)[(py / 28) * Cols(w) + px / 28];
      && cell.x - 14 <= px < cell.x + 14
      && cell.y - 14 <= py < cell.y + 14
      && cell.gridX == px / 28 && cell.gridY == py / 28
  {
    GridCovers(w, h, px, py);
    GridCell(w, h, emptyRolls, scrambleRolls, py / 28, px / 28);
  }

  /** Every cell is consistent: lit exactly while it has a deadline, scrambling
      only while lit and only if it may scramble, and never both empty and
      scrambling. */
  predicate CellOk(c: Cell) {
    && (c.isActive <==> c.highlightEndTime > 0)
    && (c.scrambling ==> c.isActive && c.shouldScramble)
    && (c.shouldScramble ==> !c.isEmpty)
  }

  predicate AllOk(cells: seq<Cell>) {
    forall k :: 0 <= k < |cells| ==> CellOk(cells[k])
  }

  /** A fresh grid is consistent and entirely switched off. */
  lemma FreshGridOk(w: nat, h: nat, emptyRolls: seq<real>, scrambleRolls: seq<real>)
    requires |emptyRolls| >= Rows(h) * Cols(w) && |scrambleRolls| >= Rows(h) * Cols(w)
    ensures AllOk(DigitalGrid(w, h, emptyRolls, scrambleRolls))
    ensures forall k :: 0 <= k < |DigitalGrid(w, h, emptyRolls, scrambleRolls)| ==>
      !DigitalGrid(w, h, emptyRolls, scrambleRolls)[k].isActive
  {
  }

  /** Builds the grid row by row, pushing each new block, into a fresh array. */
  method InitGrid(w: nat, h: nat, emptyRolls: seq<real>, scrambleRolls: seq<real>) returns (a: array<Cell>)
    requires |emptyRolls| >= Rows(h) * Cols(w) && |scrambleRolls| >= Rows(h) * Cols(w)
    ensures fresh(a)
    ensures a[..] == DigitalGrid(w, h, emptyRolls, scrambleRolls)
  {
    var cols, rows := Cols(w), Rows(h);
    ghost var grid := DigitalGrid(w, h, emptyRolls, scrambleRolls);
    var blocks: seq<Cell> := [];
    var r := 0;
    while r < rows
      invariant 0 <= r <= rows
      invariant |blocks| == r * cols <= |grid|
      invariant blocks == grid[..|blocks|]
    {
      var c := 0;
      while c < cols
        invariant 0 <= c <= cols
        invariant |blocks| == r * cols + c <= |grid|
        invariant blocks == grid[..|blocks|]
      {
        BlockGrid.RowMajor(r, c, cols);
        BlockGrid.MulStep(r, rows, cols);
        var k := |blocks|;
        blocks := blocks + [FreshCell(r, c, emptyRolls[k], scrambleRolls[k])];
        c := c + 1;
      }
      assert r * cols + cols == (r + 1) * cols;
      r := r + 1;
    }
    a := new Cell[|blocks|](k requires 0 <= k < |blocks| => blocks[k]);
  }

  // ---------------------------------------------------------------------------
  // Nearest block
  // ---------------------------------------------------------------------------

  /** Squared distance from the pointer to a block's centre; comparing these is
      comparing the distances, without a square root. */
  function Dist2(c: Cell, mx: int, my: int): int {
    (mx - c.x) * (mx - c.x) + (my - c.y) * (my - c.y)
  }

  /** The running minimum over the first j blocks with a strict comparison. */
  function NearestUpTo(cells: seq<Cell>, mx: int, my: int, j: nat): (r: Option<nat>)
    requires j <= |cells|
    ensures r.Some? <==> j > 0
    ensures r.Some? ==> r.value < j
    ensures r.Some? ==> forall k :: 0 <= k < j ==> Dist2(cells[r.value], mx, my) <= Dist2(cells[k], mx, my)
    ensures r.Some? ==> forall k :: 0 <= k < r.value ==> Dist2(cells[k], mx, my) > Dist2(cells[r.value], mx, my)
  {
    if j == 0 then None
    else
      var p := NearestUpTo(cells, mx, my, j - 1);
      if p.None? || Dist2(cells[j - 1], mx, my) < Dist2(cells[p.value], mx, my) then Some(j - 1) else p
  }

  function Nearest(cells: seq<Cell>, mx: int, my: int): Option<nat> {
    NearestUpTo(cells, mx, my, |cells|)
  }

  /** Scans the blocks once, keeping the first one strictly closer than all before. */
  method FindNearest(a: array<Cell>, mx: int, my: int) returns (closest: Option<nat>)
    ensures closest == Nearest(a[..], mx, my)
  {
    closest := None;
    var closestDist2 := 0;
    for j := 0 to a.Length
      invariant closest == NearestUpTo(a[..], mx, my, j)
      invariant closest.Some? ==> closestDist2 == Dist2(a[closest.value], mx, my)
    {
      var d2 := Dist2(a[j], mx, my);
      if closest.None? || d2 < closestDist2 {
        closest, closestDist2 := Some(j), d2;
      }
    }
  }

  // ---------------------------------------------------------------------------
  // Cluster walk
  // ---------------------------------------------------------------------------

  function AbsInt(n: int): nat {
    if n < 0 then -n else n
  }

  /** Block b is one of the 8-neighbours of block a (or a itself): within one
      column and one row of it. */
  predicate Adjacent(a: Cell, b: Cell) {
    AbsInt(b.gridX - a.gridX) <= 1 && AbsInt(b.gridY - a.gridY) <= 1
  }

  /** Block k is a candidate for the next cluster step from block cur: within one
      column and one row of it, and not already in the cluster. */
  predicate IsNeighbour(cells: seq<Cell>, cur: nat, cluster: seq<nat>, k: nat)
    requires cur < |cells|
  {
    && k < |cells|
    && k !in cluster
    && Adjacent(cells[cur], cells[k])
  }

  /** The candidates among the first j blocks, in block order. */
  function NeighboursUpTo(cells: seq<Cell>, cur: nat, cluster: seq<nat>, j: nat): (ns: seq<nat>)
    requires cur < |cells| && j <= |cells|
    ensures forall k :: k in ns <==> 0 <= k < j && IsNeighbour(cells, cur, cluster, k)
    ensures forall p, q :: 0 <= p < q < |ns| ==> ns[p] < ns[q]
  {
    if j == 0 then []
    else
      var prev := NeighboursUpTo(cells, cur, cluster, j - 1);
      if IsNeighbour(cells, cur, cluster, j - 1) then
        assert forall p :: 0 <= p < |prev| ==> prev[p] < j - 1 by {
          forall p | 0 <= p < |prev|
            ensures prev[p] < j - 1
          {
            assert prev[p] in prev;
          }
        }
        prev + [j - 1]
      else prev
  }

  function Neighbours(cells: seq<Cell>, cur: nat, cluster: seq<nat>): seq<nat>
    requires cur < |cells|
  {
    NeighboursUpTo(cells, cur, cluster, |cells|)
  }

  /** The block being lit never is its own candidate. */
  lemma NotOwnNeighbour(cells: seq<Cell>, cur: nat, cluster: seq<nat>)
    requires cur < |cells| && cur in cluster
    ensures cur !in Neighbours(cells, cur, cluster)
  {
  }

  /** Lights a block until `end`, starting its scramble timer if it should
      scramble and none is running. */
  function Activate(c: Cell, end: int): Cell {
    c.(isActive := true, highlightEndTime := end, scrambling := c.scrambling || c.shouldScramble)
  }

  /** What a walk may do to one block: light it (it was dark) with a deadline
      between lo and hi. */
  predicate LitBy(before: Cell, after: Cell, lo: int, hi: int) {
    && !before.isActive
    && after == Activate(before, after.highlightEndTime)
    && lo <= after.highlightEndTime <= hi
  }

  function Deadline(now: int, i: int): int {
    now + BlockLifetime + StepDelay * i
  }

  predicate AllDraws(rolls: seq<real>) {
    forall i :: 0 <= i < |rolls| ==> IsDraw(rolls[i])
  }

  /** Steps i .. count - 1 of the cluster walk from block cur. Each step picks a
      candidate with draw i; a dark pick is lit until now + 350 + 15 i, joins the
      cluster and becomes the current block; a lit pick is left alone. The walk
      stops early when there is no candidate. */
  function Walk(cells: seq<Cell>, cur: nat, cluster: seq<nat>, i: nat, count: nat, rolls: seq<real>, now: int): (r: seq<Cell>)
    requires cur < |cells| && count <= |rolls| && AllDraws(rolls)
    ensures |r| == |cells|
    ensures forall k :: k in cluster && 0 <= k < |cells| ==> r[k] == cells[k]
    ensures forall k :: 0 <= k < |cells| ==>
      r[k] == cells[k] || LitBy(cells[k], r[k], Deadline(now, i), Deadline(now, count - 1))
    decreases count - i
  {
    if i >= count then cells
    else
      var ns := Neighbours(cells, cur, cluster);
      if |ns| == 0 then cells
      else
        var k := ns[Roll(rolls[i], |ns|)];
        assert k in ns;
        if cells[k].isActive then Walk(cells, cur, cluster, i + 1, count, rolls, now)
        else Walk(cells[k := Activate(cells[k], Deadline(now, i))], k, cluster + [k], i + 1, count, rolls, now)
  }

  /** Block `after` is block `before` lit at one of the steps lo .. hi - 1. */
  predicate LitAtStep(before: Cell, after: Cell, now: int, lo: nat, hi: nat) {
    exists j :: lo <= j < hi && after == Activate(before, Deadline(now, j))
  }

  /** Block k, lit by a walk from cur, is an 8-neighbour of cur or of a block
      the walk lit at an earlier step (with an earlier deadline). */
  predicate Chained(cells: seq<Cell>, r: seq<Cell>, cur: nat, k: nat)
    requires |r| == |cells| && cur < |cells| && k < |cells|
  {
    || Adjacent(cells[cur], cells[k])
    || exists q :: 0 <= q < |cells| && r[q] != cells[q]
         && r[q].highlightEndTime < r[k].highlightEndTime && Adjacent(cells[q], cells[k])
  }

  /** A dark pick at step i is lit until now + 350 + 15 i and keeps that
      deadline to the end of the walk. */
  lemma WalkPick(cells: seq<Cell>, cur: nat, cluster: seq<nat>, i: nat, count: nat, rolls: seq<real>, now: int)
    requires cur < |cells| && i < count <= |rolls| && AllDraws(rolls)
    requires |Neighbours(cells, cur, cluster)| > 0
    ensures var ns := Neighbours(cells, cur, cluster);
      var k := ns[Roll(rolls[i], |ns|)];
      && k < |cells| && IsNeighbour(cells, cur, cluster, k)
      && (!cells[k].isActive ==>
            Walk(cells, cur, cluster, i, count, rolls, now)[k] == Activate(cells[k], Deadline(now, i)))
  {
    var ns := Neighbours(cells, cur, cluster);
    var k := ns[Roll(rolls[i], |ns|)];
    assert k in ns;
    if !cells[k].isActive {
      assert k in cluster + [k];
    }
  }

  /** Every block a walk of steps i .. count - 1 lights is lit at one of those
      steps: its deadline is now + 350 + 15 j for some step j. */
  lemma {:induction false} WalkDeadlines(cells: seq<Cell>, cur: nat, cluster: seq<nat>, i: nat, count: nat, rolls: seq<real>, now: int)
    requires cur < |cells| && count <= |rolls| && AllDraws(rolls)
    ensures var r := Walk(cells, cur, cluster, i, count, rolls, now);
      forall k :: 0 <= k < |cells| && r[k] != cells[k] ==> LitAtStep(cells[k], r[k], now, i, count)
    decreases count - i
  {
    var r := Walk(cells, cur, cluster, i, count, rolls, now);
    if i >= count || |Neighbours(cells, cur, cluster)| == 0 {
      return;
    }
    var ns := Neighbours(cells, cur, cluster);
    var k := ns[Roll(rolls[i], |ns|)];
    assert k in ns;
    if cells[k].isActive {
      WalkDeadlines(cells, cur, cluster, i + 1, count, rolls, now);
      forall k' | 0 <= k' < |cells| && r[k'] != cells[k']
        ensures LitAtStep(cells[k'], r[k'], now, i, count)
      {
        var j :| i + 1 <= j < count && r[k'] == Activate(cells[k'], Deadline(now, j));
      }
    } else {
      var next := cells[k := Activate(cells[k], Deadline(now, i))];
      WalkDeadlines(next, k, cluster + [k], i + 1, count, rolls, now);
      assert r == Walk(next, k, cluster + [k], i + 1, count, rolls, now);
      assert k in cluster + [k];
      forall k' | 0 <= k' < |cells| && r[k'] != cells[k']
        ensures LitAtStep(cells[k'], r[k'], now, i, count)
      {
        if k' == k {
          assert r[k'] == Activate(cells[k'], Deadline(now, i));
        } else {
          var j :| i + 1 <= j < count && r[k'] == Activate(next[k'], Deadline(now, j));
        }
      }
    }
  }

  /** Each block a walk lights is an 8-neighbour of the block it starts from or
      of a block lit before it (with an earlier deadline): the lit blocks form
      one connected cluster grown from the start. */
  lemma {:induction false} WalkChained(cells: seq<Cell>, cur: nat, cluster: seq<nat>, i: nat, count: nat, rolls: seq<real>, now: int)
    requires cur < |cells| && count <= |rolls| && AllDraws(rolls)
    ensures var r := Walk(cells, cur, cluster, i, count, rolls, now);
      forall k :: 0 <= k < |cells| && r[k] != cells[k] ==> Chained(cells, r, cur, k)
    decreases count - i
  {
    var r := Walk(cells, cur, cluster, i, count, rolls, now);
    if i >= count || |Neighbours(cells, cur, cluster)| == 0 {
      return;
    }
    var ns := Neighbours(cells, cur, cluster);
    var k := ns[Roll(rolls[i], |ns|)];
    assert k in ns;
    if cells[k].isActive {
      WalkChained(cells, cur, cluster, i + 1, count, rolls, now);
      return;
    }
    var next := cells[k := Activate(cells[k], Deadline(now, i))];
    WalkChained(next, k, cluster + [k], i + 1, count, rolls, now);
    assert r == Walk(next, k, cluster + [k], i + 1, count, rolls, now);
    assert k in cluster + [k];
    ChainedAfterPick(cells, next, r, cur, k, Deadline(now, i));
  }

  /** One step of the chain: block k, an 8-neighbour of cur, was lit until lo,
      and every block lit after it has a later deadline and is chained to k;
      then every block lit so far is chained to cur. */
  lemma ChainedAfterPick(cells: seq<Cell>, next: seq<Cell>, r: seq<Cell>, cur: nat, k: nat, lo: int)
    requires |cells| == |r| && cur < |cells| && k < |cells|
    requires next == cells[k := Activate(cells[k], lo)]
    requires !cells[k].isActive && r[k] == next[k] && Adjacent(cells[cur], cells[k])
    requires forall k' :: 0 <= k' < |cells| && r[k'] != next[k'] ==>
      Chained(next, r, k, k') && lo < r[k'].highlightEndTime
    ensures forall k' :: 0 <= k' < |cells| && r[k'] != cells[k'] ==> Chained(cells, r, cur, k')
  {
    forall k' | 0 <= k' < |cells| && r[k'] != cells[k']
      ensures Chained(cells, r, cur, k')
    {
      if k' != k {
        assert next[k'] == cells[k'];
        if Adjacent(next[k], next[k']) {
          assert r[k] != cells[k];
          assert Adjacent(cells[k], cells[k']);
        } else {
          var q :| 0 <= q < |next| && r[q] != next[q]
            && r[q].highlightEndTime < r[k'].highlightEndTime && Adjacent(next[q], next[k']);
          assert q != k && next[q] == cells[q];
        }
      }
    }
  }

  /** The blocks a walk lights. */
  function Changed(before: seq<Cell>, after: seq<Cell>): set<nat>
    requires |before| == |after|
  {
    set k: nat | k < |before| && after[k] != before[k]
  }

  lemma SubsetCard(a: set<nat>, b: set<nat>)
    requires a <= b
    ensures |a| <= |b|
  {
    assert b == a + (b - a);
  }

  /** Updating one block k first adds at most k to the blocks that differ. */
  lemma ChangedAfterUpdate(cells: seq<Cell>, next: seq<Cell>, r: seq<Cell>, k: nat)
    requires k < |cells| && |next| == |cells| == |r|
    requires forall j :: 0 <= j < |cells| && j != k ==> next[j] == cells[j]
    ensures |Changed(cells, r)| <= |Changed(next, r)| + 1
  {
    var before, after := Changed(cells, r), Changed(next, r) + {k};
    assert before <= after by {
      forall j | j in before
        ensures j in after
      {
        if j != k {
          assert next[j] == cells[j];
        }
      }
    }
    SubsetCard(before, after);
  }

  /** A walk of steps i .. count - 1 lights at most count - i blocks. */
  lemma {:induction false} WalkLightsAtMost(cells: seq<Cell>, cur: nat, cluster: seq<nat>, i: nat, count: nat, rolls: seq<real>, now: int)
    requires cur < |cells| && i <= count <= |rolls| && AllDraws(rolls)
    ensures |Changed(cells, Walk(cells, cur, cluster, i, count, rolls, now))| <= count - i
    decreases count - i
  {
    var r := Walk(cells, cur, cluster, i, count, rolls, now);
    if i == count {
      assert Changed(cells, r) == {};
    } else {
      var ns := Neighbours(cells, cur, cluster);
      if |ns| == 0 {
        assert Changed(cells, r) == {};
      } else {
        var k := ns[Roll(rolls[i], |ns|)];
        assert k in ns;
        if cells[k].isActive {
          WalkLightsAtMost(cells, cur, cluster, i + 1, count, rolls, now);
        } else {
          var next := cells[k := Activate(cells[k], Deadline(now, i))];
          WalkLightsAtMost(next, k, cluster + [k], i + 1, count, rolls, now);
          ChangedAfterUpdate(cells, next, r, k);
        }
      }
    }
  }

  /** Collects the candidates of the next step by filtering the block list. */
  method CollectNeighbours(a: array<Cell>, cur: nat, cluster: seq<nat>) returns (ns: seq<nat>)
    requires cur < a.Length
    ensures ns == Neighbours(a[..], cur, cluster)
  {
    ns := [];
    for j := 0 to a.Length
      invariant ns == NeighboursUpTo(a[..], cur, cluster, j)
    {
      var dx, dy := AbsInt(a[j].gridX - a[cur].gridX), AbsInt(a[j].gridY - a[cur].gridY);
      if j !in cluster && dx <= 1 && dy <= 1 {
        ns := ns + [j];
      }
    }
  }

  /** Runs the cluster walk from block start, which is already lit, in place. */
  method WalkCluster(a: array<Cell>, start: nat, count: nat, rolls: seq<real>, now: int)
    requires start < a.Length && count <= |rolls| && AllDraws(rolls)
    modifies a
    ensures a[..] == Walk(old(a[..]), start, [start], 0, count, rolls, now)
  {
    var cur: nat, cluster: seq<nat>, i: nat := start, [start], 0;
    while i < count
      invariant i <= count && cur < a.Length
      invariant Walk(a[..], cur, cluster, i, count, rolls, now) == Walk(old(a[..]), start, [start], 0, count, rolls, now)
      decreases count - i
    {
      var ns := CollectNeighbours(a, cur, cluster);
      if |ns| == 0 {
        break;
      }
      var k := ns[Roll(rolls[i], |ns|)];
      assert k in ns;
      if !a[k].isActive {
        a[k] := Activate(a[k], Deadline(now, i));
        cluster := cluster + [k];
        cur := k;
      }
      i := i + 1;
    }
  }

  // ---------------------------------------------------------------------------
  // Expiry and the whole frame
  // ---------------------------------------------------------------------------

  /** A lit block whose deadline is set and has passed goes dark, loses its
      deadline and stops scrambling; any other block is left as it is. */
  function Expire(c: Cell, now: int): Cell {
    if c.isActive && c.highlightEndTime > 0 && now > c.highlightEndTime then
      c.(isActive := false, highlightEndTime := 0, scrambling := false)
    else c
  }

  function ExpireAll(cells: seq<Cell>, now: int): seq<Cell> {
    seq(|cells|, k requires 0 <= k < |cells| => Expire(cells[k], now))
  }

  /** Expiry only switches overdue blocks off: after it, no lit block of a
      consistent grid is overdue, and it keeps the grid consistent. */
  lemma ExpireFacts(c: Cell, now: int)
    requires CellOk(c)
    ensures CellOk(Expire(c, now))
    ensures Expire(c, now).isActive ==> Expire(c, now).highlightEndTime >= now
    ensures Expire(c, now) != c ==> c.isActive && !Expire(c, now).isActive
  {
  }

  method ExpireBlocks(a: array<Cell>, now: int)
    modifies a
    ensures a[..] == ExpireAll(old(a[..]), now)
  {
    for k := 0 to a.Length
      invariant forall j :: 0 <= j < k ==> a[j] == Expire(old(a[j]), now)
      invariant forall j :: k <= j < a.Length ==> a[j] == old(a[j])
    {
      var c := a[k];
      if c.isActive && c.highlightEndTime > 0 && now > c.highlightEndTime {
        a[k] := c.(isActive := false, highlightEndTime := 0, scrambling := false);
      }
    }
  }

  /** The pointer lights the nearest block when it is within 70 pixels (its
      squared distance at most 4900) and dark. */
  predicate Triggers(cells: seq<Cell>, mx: int, my: int) {
    var n := Nearest(cells, mx, my);
    n.Some? && Dist2(cells[n.value], mx, my) <= DetectionRadius * DetectionRadius && !cells[n.value].isActive
  }

  /** The activation half of a frame: light the nearest block, then walk. */
  function Activation(cells: seq<Cell>, mx: int, my: int, now: int, clusterRoll: real, rolls: seq<real>): seq<Cell>
    requires IsDraw(clusterRoll) && |rolls| >= ClusterSize && AllDraws(rolls)
  {
    if Triggers(cells, mx, my) then
      var c := Nearest(cells, mx, my).value;
      Walk(cells[c := Activate(cells[c], now + BlockLifetime)], c, [c], 0, ClusterCount(clusterRoll), rolls, now)
    else cells
  }

  /** One frame of `processGridActivation`. */
  function Pass(cells: seq<Cell>, mx: int, my: int, now: int, clusterRoll: real, rolls: seq<real>): seq<Cell>
    requires IsDraw(clusterRoll) && |rolls| >= ClusterSize && AllDraws(rolls)
  {
    ExpireAll(Activation(cells, mx, my, now, clusterRoll, rolls), now)
  }

  /** The activation half changes a block only by lighting a dark one with a
      deadline between now + 350 and now + 455; when the pointer does not
      trigger, it changes nothing. */
  lemma ActivationLights(cells: seq<Cell>, mx: int, my: int, now: int, clusterRoll: real, rolls: seq<real>)
    requires IsDraw(clusterRoll) && |rolls| >= ClusterSize && AllDraws(rolls)
    ensures var r := Activation(cells, mx, my, now, clusterRoll, rolls);
      && |r| == |cells|
      && (forall k :: 0 <= k < |cells| ==> r[k] == cells[k] || LitBy(cells[k], r[k], now + 350, now + 455))
      && (!Triggers(cells, mx, my) ==> r == cells)
  {
    if Triggers(cells, mx, my) {
      var c := Nearest(cells, mx, my).value;
      var lit := cells[c := Activate(cells[c], now + BlockLifetime)];
      var count := ClusterCount(clusterRoll);
      var r := Walk(lit, c, [c], 0, count, rolls, now);
      forall k | 0 <= k < |cells|
        ensures r[k] == cells[k] || LitBy(cells[k], r[k], now + 350, now + 455)
      {
        if k == c {
          assert r[k] == lit[k];
        } else {
          assert lit[k] == cells[k];
          assert Deadline(now, count - 1) <= now + 455;
        }
      }
    }
  }

  /** The nearest block, when it triggers, is lit by the frame until exactly
      now + 350 and is still lit when the frame ends (for now >= 0). */
  lemma NearestLit(cells: seq<Cell>, mx: int, my: int, now: int, clusterRoll: real, rolls: seq<real>)
    requires IsDraw(clusterRoll) && |rolls| >= ClusterSize && AllDraws(rolls)
    requires now >= 0 && Triggers(cells, mx, my)
    ensures var c := Nearest(cells, mx, my).value;
      var r := Pass(cells, mx, my, now, clusterRoll, rolls);
      c < |r| && r[c].isActive && r[c].highlightEndTime == now + 350
  {
    var c := Nearest(cells, mx, my).value;
    var lit := cells[c := Activate(cells[c], now + BlockLifetime)];
    var w := Walk(lit, c, [c], 0, ClusterCount(clusterRoll), rolls, now);
    assert w[c] == lit[c];
  }

  /** No block goes from dark to lit unless the pointer triggers. */
  lemma QuietPointer(cells: seq<Cell>, mx: int, my: int, now: int, clusterRoll: real, rolls: seq<real>)
    requires IsDraw(clusterRoll) && |rolls| >= ClusterSize && AllDraws(rolls)
    requires !Triggers(cells, mx, my)
    ensures var r := Pass(cells, mx, my, now, clusterRoll, rolls);
      |r| == |cells| && forall k :: 0 <= k < |r| ==> r[k].isActive ==> cells[k].isActive
  {
    ActivationLights(cells, mx, my, now, clusterRoll, rolls);
  }

  /** A frame (for now >= 0) keeps every block consistent; afterwards no lit
      block is overdue; and every block the frame lit is still lit when it ends. */
  lemma PassKeepsOk(cells: seq<Cell>, mx: int, my: int, now: int, clusterRoll: real, rolls: seq<real>)
    requires IsDraw(clusterRoll) && |rolls| >= ClusterSize && AllDraws(rolls)
    requires now >= 0 && AllOk(cells)
    ensures var r := Pass(cells, mx, my, now, clusterRoll, rolls);
      && |r| == |cells|
      && AllOk(r)
      && (forall k :: 0 <= k < |r| && r[k].isActive ==> r[k].highlightEndTime >= now)
      && (forall k ::
            (0 <= k < |r| && !cells[k].isActive && Activation(cells, mx, my, now, clusterRoll, rolls)[k].isActive) ==>
            r[k].isActive)
  {
    var act := Activation(cells, mx, my, now, clusterRoll, rolls);
    ActivationLights(cells, mx, my, now, clusterRoll, rolls);
    forall k | 0 <= k < |act|
      ensures CellOk(act[k])
    {
      assert CellOk(cells[k]);
    }
    forall k | 0 <= k < |act|
      ensures CellOk(Expire(act[k], now))
      ensures Expire(act[k], now).isActive ==> Expire(act[k], now).highlightEndTime >= now
    {
      ExpireFacts(act[k], now);
    }
  }

  /** Before the pointer has ever moved it is taken to be at (0, 0), so a frame
      on a non-empty, dark grid lights the top-left block. */
  lemma IdlePointerLightsCorner(w: nat, h: nat, emptyRolls: seq<real>, scrambleRolls: seq<real>,
                                now: int, clusterRoll: real, rolls: seq<real>)
    requires |emptyRolls| >= Rows(h) * Cols(w) && |scrambleRolls| >= Rows(h) * Cols(w)
    requires w > 0 && h > 0 && now >= 0
    requires IsDraw(clusterRoll) && |rolls| >= ClusterSize && AllDraws(rolls)
    ensures var g := DigitalGrid(w, h, emptyRolls, scrambleRolls);
      |g| > 0 && Pass(g, 0, 0, now, clusterRoll, rolls)[0].isActive
  {
    var g := DigitalGrid(w, h, emptyRolls, scrambleRolls);
    GridCell(w, h, emptyRolls, scrambleRolls, 0, 0);
    assert Nearest(g, 0, 0).value == 0 by {
      var n := Nearest(g, 0, 0).value;
      if n != 0 {
        assert false;
      }
    }
    NearestLit(g, 0, 0, now, clusterRoll, rolls);
  }

  // ---------------------------------------------------------------------------
  // Pointer throttle
  // ---------------------------------------------------------------------------

  /** The pointer target and the time of the last accepted move. */
  datatype Pointer = Pointer(x: int, y: int, lastMove: int)

  /** A move is accepted only when at least 16 ms have passed since the last
      accepted one; an accepted move records its position and time. */
  function AcceptMove(p: Pointer, now: int, x: int, y: int): (r: Pointer)
    ensures r == p || (r == Pointer(x, y, now) && r.lastMove - p.lastMove >= ThrottleDelay)
    ensures now - p.lastMove >= ThrottleDelay ==> r.x == x && r.y == y && r.lastMove == now
    ensures now - p.lastMove < ThrottleDelay ==> r == p
  {
    if now - p.lastMove >= ThrottleDelay then Pointer(x, y, now) else p
  }

  // ---------------------------------------------------------------------------
  // The effect
  // ---------------------------------------------------------------------------

  class DigitalEffect {
    var blocks: array<Cell>
    var mouseX: int
    var mouseY: int
    var lastMouseMoveTime: int

    function PointerState(): Pointer
      reads this
    {
      Pointer(mouseX, mouseY, lastMouseMoveTime)
    }

    predicate Valid()
      reads this, blocks
    {
      AllOk(blocks[..])
    }

    /** Mount: build the grid for the viewport; the pointer starts at (0, 0)
        with its last accepted move at time 0. */
    constructor (w: nat, h: nat, emptyRolls: seq<real>, scrambleRolls: seq<real>)
      requires |emptyRolls| >= Rows(h) * Cols(w) && |scrambleRolls| >= Rows(h) * Cols(w)
      ensures Valid()
      ensures fresh(blocks) && blocks[..] == DigitalGrid(w, h, emptyRolls, scrambleRolls)
      ensures PointerState() == Pointer(0, 0, 0)
    {
      var grid := InitGrid(w, h, emptyRolls, scrambleRolls);
      blocks := grid;
      mouseX, mouseY, lastMouseMoveTime := 0, 0, 0;
      FreshGridOk(w, h, emptyRolls, scrambleRolls);
    }

    /** The throttled mouse-move handler. */
    method ThrottledMouseMove(now: int, x: int, y: int)
      modifies this
      ensures PointerState() == AcceptMove(old(PointerState()), now, x, y)
      ensures blocks == old(blocks)
    {
      if now - lastMouseMoveTime >= ThrottleDelay {
        mouseX, mouseY := x, y;
        lastMouseMoveTime := now;
      }
    }

    /** One animation frame: nearest block, activation, cluster walk, expiry. */
    method ProcessGridActivation(now: int, clusterRoll: real, rolls: seq<real>)
      requires Valid() && now >= 0
      requires IsDraw(clusterRoll) && |rolls| >= ClusterSize && AllDraws(rolls)
      modifies blocks
      ensures Valid()
      ensures blocks[..] == Pass(old(blocks[..]), mouseX, mouseY, now, clusterRoll, rolls)
    {
      ghost var before := blocks[..];
      var c := FindNearest(blocks, mouseX, mouseY);
      if c.Some? && Dist2(blocks[c.value], mouseX, mouseY) <= DetectionRadius * DetectionRadius && !blocks[c.value].isActive {
        blocks[c.value] := Activate(blocks[c.value], now + BlockLifetime);
        WalkCluster(blocks, c.value, ClusterCount(clusterRoll), rolls, now);
      }
      assert blocks[..] == Activation(before, mouseX, mouseY, now, clusterRoll, rolls);
      ExpireBlocks(blocks, now);
      PassKeepsOk(before, mouseX, mouseY, now, clusterRoll, rolls);
    }

    /** The debounced resize handler: stop every scramble timer and rebuild the
        grid for the new viewport. */
    method Resize(w: nat, h: nat, emptyRolls: seq<real>, scrambleRolls: seq<real>)
      requires |emptyRolls| >= Rows(h) * Cols(w) && |scrambleRolls| >= Rows(h) * Cols(w)
      modifies this
      ensures Valid()
      ensures fresh(blocks) && blocks[..] == DigitalGrid(w, h, emptyRolls, scrambleRolls)
      ensures PointerState() == old(PointerState())
    {
      blocks := InitGrid(w, h, emptyRolls, scrambleRolls);
      FreshGridOk(w, h, emptyRolls, scrambleRolls);
    }
  }
}
