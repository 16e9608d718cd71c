/**
 * The navigation menu's pixel-block transition. Opening or closing runs a
 * fixed timeline over a freshly rebuilt full-window grid: fill every block,
 * then switch the menu, then dissolve every block. A `busy` latch ignores
 * further clicks until the whole timeline has completed, and the page body
 * stops scrolling exactly while the menu is open.
 */
module Navbar {
  import opened Wrappers
  import opened BlockGrid

  const BlockSize: nat := 60
  /** Number of entries of `navLinks`; `hoveredIdx` indexes them. */
  const LinkCount: nat := 4

  /** One phase of a menu timeline. */
  datatype Phase =
    | FillBlocks               // every block to opacity 1
    | SetOpen(open: bool)      // `setIsOpen(open)`
    | DissolveBlocks           // every block to opacity 0
    | Finish(clearHover: bool) // the timeline's onComplete

  /** The phases of the open (`opening`) or close timeline, in the order they run. */
  function Timeline(opening: bool): seq<Phase> {
    [FillBlocks, SetOpen(opening), DissolveBlocks, Finish(!opening)]
  }

  /** The timeline in flight: which one, the index of its next phase, and the
      grid generation whose blocks its tweens drive. */
  datatype Running = Running(opening: bool, next: nat, gen: nat)

  /** `buildBlockGrid`: a grid over the whole window, every block transparent. */
  method BuildBlockGrid(w: nat, h: nat) returns (blocks: seq<Block>)
    ensures blocks == Grid(w, h, BlockSize, 0.0)
    ensures AllAt(blocks, 0.0)
  {
    blocks := BuildGrid(w, h, BlockSize, 0.0);
  }

  class Navbar {
    var isOpen: bool
    var hoveredIdx: Option<nat>
    var busy: bool
    /** `document.body.style.overflow == 'hidden'`. */
    var bodyLocked: bool
    /** Whether the overlay container is attached (`blockGridRef.current`). */
    const hasGrid: bool
    var blocks: seq<Block>
    /** Counts rebuilds: a tween started on generation g drives blocks that a later
        rebuild has taken out of the container. */
    var gen: nat
    var timeline: Option<Running>

    ghost predicate Valid()
      reads this
    {
      bodyLocked == isOpen &&
      (busy <==> timeline.Some?) &&
      (hoveredIdx.Some? ==> hoveredIdx.value < LinkCount) &&
      match timeline
      case None => AllAt(blocks, 0.0)
      case Some(t) =>
        t.next < 4 && t.gen <= gen &&
        (if t.gen == gen && 1 <= t.next <= 2 then AllAt(blocks, 1.0) else AllAt(blocks, 0.0)) &&
        (t.next >= 2 ==> isOpen == t.opening) &&
        (!t.opening && t.next < 2 ==> isOpen)
    }

    constructor (hasGrid: bool)
      ensures Valid() && this.hasGrid == hasGrid
      ensures !isOpen && hoveredIdx == None && !busy && !bodyLocked && blocks == [] && timeline == None
    {
      this.hasGrid := hasGrid;
      isOpen := false;
      hoveredIdx := None;
      busy := false;
      bodyLocked := false;
      blocks := [];
      gen := 0;
      timeline := None;
    }

    /** The resize handler: rebuilds the grid when the container is attached. */
    method Rebuild(w: nat, h: nat)
      requires Valid()
      modifies this
      ensures Valid()
      ensures hasGrid ==> blocks == Grid(w, h, BlockSize, 0.0) && gen == old(gen) + 1
      ensures !hasGrid ==> blocks == old(blocks) && gen == old(gen)
      ensures isOpen == old(isOpen) && busy == old(busy) && timeline == old(timeline)
      ensures hoveredIdx == old(hoveredIdx) && bodyLocked == old(bodyLocked)
    {
      if hasGrid {
        blocks := BuildBlockGrid(w, h);
        gen := gen + 1;
      }
    }

    /** `openMenu`: ignored while busy; otherwise latches busy and starts the open
        timeline from a rebuilt grid with every block at 0. */
    method OpenMenu(w: nat, h: nat)
      requires Valid()
      modifies this
      ensures Valid()
      ensures old(busy) ==> blocks == old(blocks) && timeline == old(timeline) && busy && isOpen == old(isOpen) && gen == old(gen)
      ensures !old(busy) ==> (busy && timeline == Some(Running(true, 0, gen)) && isOpen == old(isOpen) &&
                              AllAt(blocks, 0.0) && (hasGrid ==> blocks == Grid(w, h, BlockSize, 0.0)))
      ensures hoveredIdx == old(hoveredIdx)
    {
      if busy {
        return;
      }
      busy := true;
      if hasGrid {
        blocks := BuildBlockGrid(w, h);
        gen := gen + 1;
      }
      blocks := WithOpacity(blocks, 0.0);
      timeline := Some(Running(true, 0, gen));
    }

    /** `closeMenu`: ignored while busy or when the menu is not open; otherwise
        latches busy and starts the close timeline from a rebuilt grid at 0. */
    method CloseMenu(w: nat, h: nat)
      requires Valid()
      modifies this
      ensures Valid()
      ensures old(busy) || !old(isOpen) ==> blocks == old(blocks) && timeline == old(timeline) && busy == old(busy) && gen == old(gen)
      ensures !old(busy) && old(isOpen) ==> (busy && timeline == Some(Running(false, 0, gen)) &&
                                             AllAt(blocks, 0.0) && (hasGrid ==> blocks == Grid(w, h, BlockSize, 0.0)))
      ensures isOpen == old(isOpen) && hoveredIdx == old(hoveredIdx)
    {
      if busy {
        return;
      }
      if !isOpen {
        return;
      }
      busy := true;
      if hasGrid {
        blocks := BuildBlockGrid(w, h);
        gen := gen + 1;
      }
      blocks := WithOpacity(blocks, 0.0);
      timeline := Some(Running(false, 0, gen));
    }

    /** The next phase of the running timeline fires. Fill and dissolve reach the
        displayed blocks only if no rebuild has replaced them since the timeline began. */
    method Step()
      requires Valid() && timeline.Some?
      modifies this
      ensures Valid()
      ensures var t := old(timeline.value);
        match Timeline(t.opening)[t.next]
        case FillBlocks =>
          timeline == Some(t.(next := 1)) && isOpen == old(isOpen) && hoveredIdx == old(hoveredIdx) &&
          (t.gen == gen ==> blocks == WithOpacity(old(blocks), 1.0) && AllAt(blocks, 1.0)) &&
          (t.gen != gen ==> blocks == old(blocks))
        case SetOpen(o) =>
          timeline == Some(t.(next := 2)) && isOpen == o && blocks == old(blocks) &&
          hoveredIdx == old(hoveredIdx) && (t.gen == gen ==> AllAt(blocks, 1.0))
        case DissolveBlocks =>
          timeline == Some(t.(next := 3)) && isOpen == old(isOpen) && hoveredIdx == old(hoveredIdx) &&
          AllAt(blocks, 0.0) && (t.gen == gen ==> blocks == WithOpacity(old(blocks), 0.0)) &&
          (t.gen != gen ==> blocks == old(blocks))
        case Finish(clearHover) =>
          timeline == None && !busy && isOpen == t.opening && AllAt(blocks, 0.0) &&
          blocks == old(blocks) && hoveredIdx == (if clearHover then None else old(hoveredIdx))
      ensures gen == old(gen)
    {
      var t := timeline.value;
      match Timeline(t.opening)[t.next]
      case FillBlocks =>
        if t.gen == gen {
          blocks := WithOpacity(blocks, 1.0);
        }
        timeline := Some(t.(next := 1));
      case SetOpen(o) =>
        isOpen := o;
        bodyLocked := o;
        timeline := Some(t.(next := 2));
      case DissolveBlocks =>
        if t.gen == gen {
          blocks := WithOpacity(blocks, 0.0);
        }
        timeline := Some(t.(next := 3));
      case Finish(clearHover) =>
        if clearHover {
          hoveredIdx := None;
        }
        busy := false;
        timeline := None;
    }

    /** A menu link's mouse enter (`Some(i)`) or leave (`None`). */
    method Hover(i: Option<nat>)
      requires Valid() && (i.Some? ==> i.value < LinkCount)
      modifies this
      ensures Valid() && hoveredIdx == i
      ensures isOpen == old(isOpen) && busy == old(busy) && blocks == old(blocks) && timeline == old(timeline)
    {
      hoveredIdx := i;
    }

    /** The scroll-lock effect's cleanup on unmount. */
    method Unmount()
      modifies this
      ensures !bodyLocked && isOpen == old(isOpen)
      ensures busy == old(busy) && hoveredIdx == old(hoveredIdx)
      ensures blocks == old(blocks) && timeline == old(timeline) && gen == old(gen)
    {
      bodyLocked := false;
    }
  }

  /** A whole open and a whole close, with no resize in between: the menu ends
      closed, unlatched, with no hovered link and every block transparent. */
  method OpenThenClose(n: Navbar, w: nat, h: nat)
    requires n.Valid() && !n.busy && !n.isOpen
    modifies n
    ensures n.Valid() && !n.isOpen && !n.busy && !n.bodyLocked && n.hoveredIdx == None && AllAt(n.blocks, 0.0)
  {
    n.OpenMenu(w, h);
    n.Step();
    n.Step();
    assert n.isOpen && n.bodyLocked;
    n.Step();
    n.Step();
    assert n.isOpen && !n.busy;
    n.CloseMenu(w, h);
    n.Step();
    n.Step();
    n.Step();
    n.Step();
  }

  /** A resize while the menu opens: the running timeline belongs to the old
      grid, so its steps leave the new, transparent grid and the hovered link
      alone. */
  method ResizeWhileOpening(n: Navbar, w: nat, h: nat, w2: nat, h2: nat)
    requires n.Valid() && !n.busy && n.hasGrid
    modifies n
    ensures n.Valid() && n.busy && n.isOpen && n.bodyLocked
    ensures n.blocks == Grid(w2, h2, BlockSize, 0.0) && n.hoveredIdx == old(n.hoveredIdx)
  {
    n.OpenMenu(w, h);
    n.Rebuild(w2, h2);
    n.Step();
    n.Step();
    n.Step();
  }

  /** Opening covers the whole window before the menu is shown: after the fill
      phase every block of the window-sized grid is opaque, the menu is still
      closed, and the next phase is the one that opens it. */
  method OpenCoversFirst(n: Navbar, w: nat, h: nat)
    requires n.Valid() && !n.busy && !n.isOpen && n.hasGrid
    modifies n
    ensures n.Valid() && !n.isOpen && n.busy
    ensures n.blocks == Grid(w, h, BlockSize, 1.0)
    ensures n.timeline.Some? && Timeline(true)[n.timeline.value.next] == SetOpen(true)
  {
    n.OpenMenu(w, h);
    n.Step();
    GridRecoloured(w, h, BlockSize, 0.0, 1.0);
  }

  /** Closing covers the whole window before the menu is hidden. */
  method CloseCoversFirst(n: Navbar, w: nat, h: nat)
    requires n.Valid() && !n.busy && n.isOpen && n.hasGrid
    modifies n
    ensures n.Valid() && n.isOpen && n.busy
    ensures n.blocks == Grid(w, h, BlockSize, 1.0)
    ensures n.timeline.Some? && Timeline(false)[n.timeline.value.next] == SetOpen(false)
  {
    n.CloseMenu(w, h);
    n.Step();
    GridRecoloured(w, h, BlockSize, 0.0, 1.0);
  }
}
