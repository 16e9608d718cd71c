# Portfolio animation core, in Dafny

This project models the small pieces of exact logic inside the portfolio site's
animated React components and proves their properties. The site itself is
markup plus glue to animation libraries. The pieces modelled are:

- **Pixel-block overlays** (`PixelReveal.jsx`, `Navbar.jsx`).
  - The grid builder: ⌈w/b⌉+1 columns and ⌈h/b⌉+1 rows, centred so that the grid overhangs every edge by the same amount.
  - The reveal/cover handle of `PixelReveal`: a `revealed` flag with a guarded `reveal` and an unguarded `cover`.
  - How a `PixelReveal` element chooses its trigger at mount.
  - The full-screen overlay hook `usePixelOverlay`.
  - The navigation menu's timeline: cover, switch the menu, dissolve, under a `busy` latch, with the body scroll locked exactly while the menu is open.
- **The digital hover grid** (`GlobalDigitalEffect.jsx`). An array of block records updated in place, one animation frame at a time:
  - find the nearest block, with the first one winning ties;
  - light it if it is within 70 px and dark;
  - walk a random cluster through its 8-neighbours;
  - switch off the blocks whose deadline has passed.
  Mouse moves are throttled to one every 16 ms.
- **The preloader** (`Preloader.jsx`).
  - A clamped, monotone scroll target in [0, 1], fed by wheel and touch input.
  - A displayed value that moves 8% of the way to the target every frame.
  - A one-shot exit latch.
  - The two-digit percentage counter.
- **The stacking cards** (`StickyCards.jsx`). Which cards pin, and the linear scale, rotation and overlay maps of the next card's entry progress.
- **The scroll progress bar** (`ScrollProgressBar.jsx`). The guarded ratio, and how scroll events are coalesced into at most one pending animation frame.
- **The custom cursor** (`CustomCursor.jsx`). A 15% per-frame smoother that follows the pointer, and the hover detector that re-renders only on change.

Conventions used throughout:

- A DOM element is a value record.
- A tween is modelled by the value it drives to. Starting a new tween replaces, and so cancels, the recorded one.
- Pixel coordinates of the overlay grids are doubled (`left2 == 2 * left`), so that the half-pixel centring offsets stay integers.
- Browser numbers are `real`s, except the pointer coordinates and times of the digital grid, which are integers.
- Clocks, window sizes, pointer positions, event payloads and `Math.random` draws are parameters. Each draw is a real in [0, 1).

Modules:

- `BlockGrid`: the shared overlay geometry and its nested-loop builder.
- `PixelReveal`, `Navbar`, `DigitalEffect`, `Preloader`, `StickyCards`, `ScrollProgressBar`, `CustomCursor`: one module per component.
- `Smoothing`: the lerp smoother shared by the preloader and the cursor, with its convergence proof.
- `Wrappers`: `Option`.

Two consequences of the code worth knowing:

- A container of zero size still gets one block, because of the extra column and row (`PixelReveal.EmptyBoxOneBlock`).
- The last stacking card is never pinned (`StickyCards.PinWindows`).

## Model

| member | source | states |
|---|---|---|
| BlockGrid.CeilDiv | src/components/PixelReveal.jsx:39-40 | ⌈n/d⌉ is the least q with q·d ≥ n: q·d ≥ n and q·d < n + d |
| BlockGrid.Count | src/components/PixelReveal.jsx:39-40 | there is always at least one column and one row |
| BlockGrid.CountBounds | src/components/PixelReveal.jsx:39-40 | the blocks of an extent reach at least one whole block past it and less than two |
| BlockGrid.GridAt | src/components/PixelReveal.jsx:44-52 | index r·cols + c of the grid exists and holds the block of row r and column c (row-major order) |
| BlockGrid.ColumnsAbut | src/components/PixelReveal.jsx:44-52 | horizontally adjacent blocks abut: the next block starts exactly where this one ends, on the same row |
| BlockGrid.RowsAbut | src/components/PixelReveal.jsx:44-52 | vertically adjacent blocks abut: the block one row down starts exactly where this one ends, in the same column |
| BlockGrid.Centred | src/components/PixelReveal.jsx:39-42 | offX ≤ −b/2 and offX > −b; the grid ends at least b/2 past the far edge; the overhang is the same on both sides |
| BlockGrid.CoveringIndex | src/components/PixelReveal.jsx:39-52 | every (half-)pixel coordinate of [0, extent] lies in the span of some column below the column count |
| BlockGrid.GridCovers | src/components/PixelReveal.jsx:39-52 | every point of the box [0, w] × [0, h] lies inside some block of the grid |
| BlockGrid.BuildGrid | src/components/PixelReveal.jsx:32-62 | the nested row/column loops push exactly the blocks of the grid, in row-major order, into a fresh list |
| PixelReveal.FirstNonZero | src/components/PixelReveal.jsx:36-37 | JavaScript `or` on sizes: the first non-zero of own, parent and window; zero only when all three are |
| PixelReveal.BuildContainerGrid | src/components/PixelReveal.jsx:32-62 | the emptied container holds exactly the fresh grid for the measured size, every block opaque |
| PixelReveal.EmptyBoxOneBlock | src/components/PixelReveal.jsx:39-40 | a container of size 0 × 0 still gets exactly one block |
| PixelReveal.AfterReveal | src/components/PixelReveal.jsx:108-119 | reveal ends revealed and keeps the blocks in place; a no-op when already revealed; otherwise every block goes to 0 under a new tween from 1 to 0 |
| PixelReveal.AfterCover | src/components/PixelReveal.jsx:122-133 | cover always ends covered, every block at 1, under a new tween from 0 to 1 that carries the given onComplete |
| PixelReveal.RevealIdempotent | src/components/PixelReveal.jsx:108-110 | two reveals in a row equal one reveal |
| PixelReveal.RunKeepsConsistent | src/components/PixelReveal.jsx:107-133 | any sequence of reveals and covers keeps the flag and the block opacities in agreement and never moves a block |
| PixelReveal.CoverThenRevealEndsRevealed | src/components/PixelReveal.jsx:107-133 | whatever came before, cover then reveal ends revealed with every block transparent |
| PixelReveal.InitGridAsWritten | src/components/PixelReveal.jsx:100-105 | initGrid as written: the fresh grid at opacity 1 or 0 by startCovered, and revealed reset to !startCovered, whatever the state was |
| PixelReveal.Rebuild | src/components/PixelReveal.jsx:100-105 | the corrected rebuild keeps `revealed` and the tween and gives the fresh grid the opacity that agrees with the flag |
| PixelReveal.RebuildAgreesAtMount | src/components/PixelReveal.jsx:97-105 | at mount the corrected rebuild is exactly the written initGrid |
| PixelReveal.PixelReveal.constructor | src/components/PixelReveal.jsx:93-97 | refs before mount: no blocks, revealed == !startCovered, no tween |
| PixelReveal.PixelReveal.InitGrid | src/components/PixelReveal.jsx:100-105 | does nothing without a grid element; otherwise the state becomes the corrected rebuild of the measured grid |
| PixelReveal.PixelReveal.Reveal | src/components/PixelReveal.jsx:108-119 | the handle's new state is AfterReveal of the old one, and consistency is kept |
| PixelReveal.PixelReveal.Cover | src/components/PixelReveal.jsx:122-133 | the handle's new state is AfterCover of the old one, and consistency is kept |
| PixelReveal.MountTrigger | src/components/PixelReveal.jsx:143-167 | exactly one of: a delay timer iff autoRevealDelay is set; a once-only scroll trigger at 85% iff it is not set and scrollReveal holds; none otherwise |
| PixelReveal.MountEffect | src/components/PixelReveal.jsx:139-170 | the mount effect builds the grid and starts only its trigger's resources: the delay timer alone, or the scroll trigger with the resize observer, or nothing |
| PixelReveal.RunKeepsOwnResources | src/components/PixelReveal.jsx:139-167 | whatever timers fire, the element enters, resizes, tweens end or the owner calls the handle, a branch never holds another branch's timer or watcher |
| PixelReveal.TeardownAsWrittenLeaks | src/components/PixelReveal.jsx:143-166 | the written cleanups leak: after the delay timer fires, the tween reveal started is still running after unmount; after the element enters, the onEnter timer is still pending after unmount and its reveal then changes the handle |
| PixelReveal.OnEvent | src/components/PixelReveal.jsx:139-166 | a timer or watcher callback runs only while it is live; a resize re-runs the written initGrid (the flag becomes !startCovered on the fresh grid); the only things an event starts are a tween and the onEnter timer, and that timer only when the scroll trigger fires and retires |
| PixelReveal.CleanupAsWritten | src/components/PixelReveal.jsx:143-169 | what each written cleanup releases: the delay branch only its timer; the scroll branch the trigger, the observer and the tween; the last branch the tween; blocks and flag untouched |
| PixelReveal.ResizeAfterRevealCoversAgain | src/components/PixelReveal.jsx:100-160 | on the event model: after the element enters and its onEnter timer reveals it, a resize covers it again, every fresh block opaque and `revealed` false, with the trigger spent |
| PixelReveal.StaysCovered | src/components/PixelReveal.jsx:100-160 | once covered with the scroll trigger spent, no later timer, resize or tween completion reveals the element again; only the owner's handle can |
| PixelReveal.Cleanup | src/components/PixelReveal.jsx:143-169 | the corrected cleanup leaves live at most what the written one does, and does not touch the blocks or the flag |
| PixelReveal.CleanupReleasesAll | src/components/PixelReveal.jsx:139-170 | after any sequence of events since mount, the corrected cleanup leaves no timer, watcher or tween live |
| PixelReveal.QuietWhenNothingLive | src/components/PixelReveal.jsx:139-170 | with nothing live, no timer, watcher, resize or tween completion changes the handle any more |
| PixelReveal.PixelOverlay.constructor | src/components/PixelReveal.jsx:209-211 | no container, no blocks, no tween |
| PixelReveal.PixelOverlay.Init | src/components/PixelReveal.jsx:213-243 | a null element is ignored; otherwise the element is attached and holds exactly the window-sized grid with every block at 0 |
| PixelReveal.PixelOverlay.Cover | src/components/PixelReveal.jsx:246-256 | unguarded: every block to 1 under a new tween carrying onComplete; blocks stay in place |
| PixelReveal.PixelOverlay.Reveal | src/components/PixelReveal.jsx:259-269 | unguarded: every block to 0 under a new tween with the given delay; blocks stay in place |
| PixelReveal.PixelOverlay.Kill | src/components/PixelReveal.jsx:271 | stops the running tween and changes nothing else |
| Navbar.BuildBlockGrid | src/components/Navbar.jsx:18-46 | the window-sized grid with the same +1 and centring rule, every block at opacity 0 |
| Navbar.Navbar.constructor | src/components/Navbar.jsx:49-56 | closed, nothing hovered, not busy, body not locked |
| Navbar.Navbar.Rebuild | src/components/Navbar.jsx:65-71 | the resize handler rebuilds the grid only when the container exists and changes nothing else |
| Navbar.Navbar.OpenMenu | src/components/Navbar.jsx:74-109 | ignored while busy; otherwise latches busy and starts the open timeline on a freshly rebuilt grid with every block at 0 |
| Navbar.Navbar.CloseMenu | src/components/Navbar.jsx:111-146 | ignored while busy or when closed; otherwise latches busy and starts the close timeline on a freshly rebuilt grid at 0 |
| Navbar.Navbar.Step | src/components/Navbar.jsx:84-145 | phases run in order: blocks reach 1 before isOpen changes, the dissolve to 0 comes after, and only completion clears busy (and, on close, the hovered link); the hovered link is kept until then; on the current grid fill and dissolve set exactly the old blocks to 1 and 0; a timeline started before a resize leaves the new grid alone; body lock == isOpen throughout |
| Navbar.OpenCoversFirst | src/components/Navbar.jsx:74-100 | opening covers the whole window before the menu shows: after the fill phase the blocks are the window-sized grid all at 1, the menu is still closed, and the next phase opens it |
| Navbar.CloseCoversFirst | src/components/Navbar.jsx:111-137 | closing covers the whole window before the menu hides: after the fill phase the blocks are the window-sized grid all at 1, the menu is still open, and the next phase closes it |
| Navbar.Navbar.Hover | src/components/Navbar.jsx:240-241 | sets the hovered link and nothing else |
| Navbar.Navbar.Unmount | src/components/Navbar.jsx:59-62 | the scroll-lock cleanup unlocks the body and changes nothing else: menu state, latch, hovered link, blocks and timeline are kept |
| Navbar.OpenThenClose | src/components/Navbar.jsx:74-146 | a complete open then a complete close end closed, unlatched, unlocked, with nothing hovered and every block at 0 |
| Navbar.ResizeWhileOpening | src/components/Navbar.jsx:65-109 | a resize while the menu opens: the open still completes its phases, and the fresh transparent grid and the hovered link are left as they are |
| Smoothing.LerpGap | src/components/Preloader.jsx:43 | one lerp step multiplies the remaining gap by 1 − t |
| Smoothing.LerpBetween | src/components/Preloader.jsx:43 | with 0 ≤ t ≤ 1 the step lands between the value and its target: no overshoot |
| Smoothing.GapAfter | src/components/Preloader.jsx:57-64 | after n steps towards a fixed target the gap times (1 + n·t) is at most the first gap |
| Smoothing.Converges | src/components/Preloader.jsx:57-64 | with a fixed target and 0 < t ≤ 1, some number of steps brings the value within any ε of it |
| DigitalEffect.Roll | src/components/GlobalDigitalEffect.jsx:150 | ⌊r·n⌋ for a draw r in [0, 1) is an index below n |
| DigitalEffect.ClusterCount | src/components/GlobalDigitalEffect.jsx:134 | the number of cluster steps is between 1 and 8 |
| DigitalEffect.GridCell | src/components/GlobalDigitalEffect.jsx:41-68 | cell (r, c) sits at index r·cols + c, is centred at (28c + 14, 28r + 14), has grid coordinates (c, r), starts dark with end time 0, and is empty iff its draw is below 0.25 |
| DigitalEffect.GridCovers | src/components/GlobalDigitalEffect.jsx:35-36 | no extra row or column: cols·28 ≥ w > (cols − 1)·28 (and so for rows); pixel (px, py) falls in row py/28 and column px/28, inside that block's 28-pixel span on both axes |
| DigitalEffect.CellUnderPixel | src/components/GlobalDigitalEffect.jsx:35-68 | the stored cell at index (py/28)·cols + px/28 exists, has grid coordinates (px/28, py/28), and its centre is within 14 pixels of the pixel on both axes |
| DigitalEffect.FreshGridOk | src/components/GlobalDigitalEffect.jsx:63-67 | a fresh grid is all dark and consistent, and shouldScramble implies not empty |
| DigitalEffect.InitGrid | src/components/GlobalDigitalEffect.jsx:31-73 | the nested loops fill a fresh array with exactly the grid |
| DigitalEffect.NearestUpTo | src/components/GlobalDigitalEffect.jsx:106-118 | the scan's choice exists iff there are blocks; it has the least distance; every earlier block is strictly farther, so the first wins ties |
| DigitalEffect.FindNearest | src/components/GlobalDigitalEffect.jsx:106-118 | the loop over the array returns that nearest block |
| DigitalEffect.NeighboursUpTo | src/components/GlobalDigitalEffect.jsx:139-146 | k is a candidate iff it is within one column and one row of the current block and not in the cluster; candidates keep block order |
| DigitalEffect.NotOwnNeighbour | src/components/GlobalDigitalEffect.jsx:140 | the current block is never its own candidate |
| DigitalEffect.CollectNeighbours | src/components/GlobalDigitalEffect.jsx:139-146 | the filter loop returns exactly the candidates |
| DigitalEffect.Walk | src/components/GlobalDigitalEffect.jsx:138-166 | the walk keeps the cluster's blocks, and changes any other block only by lighting a dark one with a deadline between now + 350 + 15i and now + 350 + 15(count − 1) |
| DigitalEffect.WalkPick | src/components/GlobalDigitalEffect.jsx:138-158 | the step-i pick is a candidate neighbour and, when dark, ends the walk lit with end time now + 350 + 15i |
| DigitalEffect.WalkDeadlines | src/components/GlobalDigitalEffect.jsx:138-166 | every block the walk lights is its old self lit with end time now + 350 + 15j for one of the walk's steps j |
| DigitalEffect.WalkChained | src/components/GlobalDigitalEffect.jsx:138-166 | every block the walk lights is an 8-neighbour of the start block or of a block lit at an earlier step, so the cluster is connected |
| DigitalEffect.WalkLightsAtMost | src/components/GlobalDigitalEffect.jsx:138-166 | a walk of count steps changes at most count blocks |
| DigitalEffect.WalkCluster | src/components/GlobalDigitalEffect.jsx:134-166 | the in-place loop leaves the array equal to the walk from the start block |
| DigitalEffect.ExpireFacts | src/components/GlobalDigitalEffect.jsx:171-185 | expiry keeps a block consistent, leaves no lit block overdue, and changes a block only by switching a lit one off |
| DigitalEffect.ExpireBlocks | src/components/GlobalDigitalEffect.jsx:171-185 | the loop expires each block and no other change is made |
| DigitalEffect.ActivationLights | src/components/GlobalDigitalEffect.jsx:120-168 | activation changes a block only by lighting a dark one with a deadline between now + 350 and now + 455; nothing changes if the pointer does not trigger |
| DigitalEffect.NearestLit | src/components/GlobalDigitalEffect.jsx:121-125 | a triggering nearest block ends the frame lit, with end time exactly now + 350 |
| DigitalEffect.QuietPointer | src/components/GlobalDigitalEffect.jsx:120-122 | without a trigger no block goes from dark to lit |
| DigitalEffect.PassKeepsOk | src/components/GlobalDigitalEffect.jsx:101-186 | for now ≥ 0 a frame keeps isActive ⇔ end time > 0, leaves no lit block overdue, and every block it lit is still lit at its end |
| DigitalEffect.IdlePointerLightsCorner | src/components/GlobalDigitalEffect.jsx:78-79 | before any mouse move the pointer is taken to be at (0, 0), so the first frame lights the top-left block |
| DigitalEffect.AcceptMove | src/components/GlobalDigitalEffect.jsx:90-96 | a move is accepted iff at least 16 ms have passed since the last accepted one; an accepted move records position and time, a rejected one changes nothing |
| DigitalEffect.DigitalEffect.constructor | src/components/GlobalDigitalEffect.jsx:75-87 | the array holds the fresh grid; the pointer is at (0, 0) with last move at 0 |
| DigitalEffect.DigitalEffect.ThrottledMouseMove | src/components/GlobalDigitalEffect.jsx:90-96 | the pointer state becomes AcceptMove of the old one |
| DigitalEffect.DigitalEffect.ProcessGridActivation | src/components/GlobalDigitalEffect.jsx:101-186 | the array becomes the pass (nearest, activation, walk, expiry) of its old contents, and consistency is kept |
| DigitalEffect.DigitalEffect.Resize | src/components/GlobalDigitalEffect.jsx:198-210 | the grid is rebuilt fresh for the new viewport; the pointer state is kept |
| Preloader.AdvanceFacts | src/components/Preloader.jsx:67-70 | ignored once exiting; otherwise the target rises by delta/1200, stops at 1, stays in [0, 1] and never decreases |
| Preloader.TickFacts | src/components/Preloader.jsx:58-64 | a frame keeps 0 ≤ current ≤ target ≤ 1, never moves current back, and starts the exit only when current ≥ 0.998 and target ≥ 1 |
| Preloader.TicksTrack | src/components/Preloader.jsx:58-64 | until the exit, n frames from a full target show the n-th smoothing step |
| Preloader.EventuallyExits | src/components/Preloader.jsx:58-64 | once the target is full, the exit comes after finitely many frames |
| Preloader.PercentBounds | src/components/Preloader.jsx:62 | ⌊current·100⌋ is at most 100, and 100 only when current is 1 |
| Preloader.Decimal | src/components/Preloader.jsx:62 | toString of a whole number: decimal digits only, one digit iff n < 10, two iff 10 ≤ n < 100, and a leading '0' only for 0 itself |
| Preloader.DecimalRoundTrip | src/components/Preloader.jsx:62 | reading the digits back gives the number |
| Preloader.CounterReadsBack | src/components/Preloader.jsx:62 | the counter shows two digits (three only at exactly 100) that read back as the percentage |
| Preloader.Preloader.constructor | src/components/Preloader.jsx:23-96 | body locked, first frame run from 0 with counter "00", frame requested, listeners installed |
| Preloader.Preloader.TriggerExit | src/components/Preloader.jsx:45-55 | the first call latches exiting, cancels the frame and starts the exit tween; later calls change nothing |
| Preloader.Preloader.Tick | src/components/Preloader.jsx:58-64 | the progress becomes AfterTick of the old one and the counter matches it; a next frame is pending iff not exiting |
| Preloader.Preloader.Advance | src/components/Preloader.jsx:67-70 | the progress becomes AfterAdvance of the old one |
| Preloader.Preloader.OnWheel | src/components/Preloader.jsx:73-77 | only a positive deltaY advances, by deltaY; the listeners stay installed and the page stays locked |
| Preloader.Preloader.OnTouchStart | src/components/Preloader.jsx:81-84 | records the touch position and changes nothing else |
| Preloader.Preloader.OnTouchMove | src/components/Preloader.jsx:85-91 | only an upward drag advances, at twice its length; the reference position always moves to the new one; the listeners stay installed and the page stays locked |
| Preloader.Swipe | src/components/Preloader.jsx:81-91 | a touch start and two upward moves advance by twice each dragged distance in turn, with the listeners still installed |
| Preloader.Preloader.Unmount | src/components/Preloader.jsx:98-104 | cancels the frame, removes the listeners and unlocks the body |
| StickyCards.PinWindow | src/components/StickyCards.jsx:53-62 | a card has a pin window iff it is not the last; the window runs from its own top to the last card's top |
| StickyCards.PinWindows | src/components/StickyCards.jsx:53-62 | the last card is never pinned; each other card is pinned at its own top and still pinned when the last card arrives |
| StickyCards.Driver | src/components/StickyCards.jsx:65-70 | card i is driven by card i + 1, and the last card by none |
| StickyCards.EntryProgress | src/components/StickyCards.jsx:67-72 | progress is in [0, 1]: 0 with the next card's top at or below the viewport bottom, 1 at or above the top, linear in between |
| StickyCards.EntryProgressMonotone | src/components/StickyCards.jsx:67-72 | scrolling further never lowers the progress |
| StickyCards.ScaleFacts | src/components/StickyCards.jsx:73 | scale is 1 at progress 0 and 0.9 at 1, within [0.9, 1], and decreasing |
| StickyCards.RotationFacts | src/components/StickyCards.jsx:74 | rotation is within ±3, positive on even and negative on odd cards, opposite on neighbours, and 0 iff progress is 0 |
| StickyCards.OverlayFacts | src/components/StickyCards.jsx:75 | overlay opacity is within [0, 0.6] and 0.6 at full progress |
| StickyCards.CardAt | src/components/StickyCards.jsx:66-81 | the last card keeps its resting transform, and so does every card before its driver enters the viewport |
| ScrollProgressBar.BarScale | src/components/ScrollProgressBar.jsx:24-27 | scale·total == scrolled when total > 0, and 0 otherwise (no division by zero) |
| ScrollProgressBar.BarScaleFacts | src/components/ScrollProgressBar.jsx:27 | 0 at the top, 1 at the bottom, in [0, 1] on the way, and growing with the scroll |
| ScrollProgressBar.ScrollProgressBar.constructor | src/components/ScrollProgressBar.jsx:19-40 | without a bar nothing is installed; otherwise the listener is added and update runs once to seed the scale, with no frame pending |
| ScrollProgressBar.ScrollProgressBar.OnScroll | src/components/ScrollProgressBar.jsx:33-37 | a frame is requested only when none is pending; afterwards exactly one is pending |
| ScrollProgressBar.ScrollProgressBar.Update | src/components/ScrollProgressBar.jsx:23-31 | the frame sets the scale and clears the marker, leaving no frame pending |
| ScrollProgressBar.ScrollProgressBar.Teardown | src/components/ScrollProgressBar.jsx:42-45 | removes the listener and cancels a pending frame, if any |
| ScrollProgressBar.ScrollBurst | src/components/ScrollProgressBar.jsx:33-37 | any burst of scroll events between two frames requests exactly one frame |
| CustomCursor.StepFacts | src/components/CustomCursor.jsx:68-69 | each axis's gap shrinks to 0.85 of what it was, and the cursor lands between itself and the pointer |
| CustomCursor.StepsAxes | src/components/CustomCursor.jsx:66-77 | frame by frame each axis follows the shared smoother |
| CustomCursor.StayClose | src/components/CustomCursor.jsx:68-69 | once within ε of a still pointer, the cursor stays within ε |
| CustomCursor.CatchesUp | src/components/CustomCursor.jsx:66-77 | with the pointer held still, the cursor comes within any ε of it on both axes |
| CustomCursor.Closest | src/components/CustomCursor.jsx:48 | the first element from the target outwards that carries the attribute; none iff no element does |
| CustomCursor.HoverOf | src/components/CustomCursor.jsx:48-50 | hovering iff some element on the path carries the attribute; the text is '' when not hovering |
| CustomCursor.LookOf | src/components/CustomCursor.jsx:99-108 | the labelled cursor shows iff hovering with a non-empty text, and shows that text |
| CustomCursor.CustomCursor.constructor | src/components/CustomCursor.jsx:29-35 | pointer and cursor start at (0, 0), nothing hovered, first frame run |
| CustomCursor.CustomCursor.HandleMouseMove | src/components/CustomCursor.jsx:42-45 | writes the pointer target only, never the cursor position; the listeners stay installed |
| CustomCursor.CustomCursor.Render | src/components/CustomCursor.jsx:66-77 | moves the cursor one smoothing step towards the pointer and requests the next frame; the listeners stay installed |
| CustomCursor.MoveThenFrames | src/components/CustomCursor.jsx:42-77 | a pointer move and two frames take the cursor two smoothing steps towards the new position, with the hover state untouched |
| CustomCursor.CustomCursor.HandleMouseOver | src/components/CustomCursor.jsx:47-61 | afterwards the refs equal the new hover reading; the shape state is set iff the flag or the text changed, and always mirrors the refs |
| CustomCursor.CustomCursor.Unmount | src/components/CustomCursor.jsx:82-86 | removes the listeners and cancels the frame, keeping the points, the hover state and the render count |
| CustomCursor.RepeatedHover | src/components/CustomCursor.jsx:53-60 | repeating an identical event sets the shape at most once in all |

## Left out

- Colours, easing curves, stagger timing and the random stagger order of tweens are not modelled. A tween is its final value. A tween killed half-way is not modelled.
- Timers, `requestAnimationFrame` scheduling and event-listener registration are modelled only as flags. Event dispatch order is whatever the caller chooses. The 250 ms resize debounce of the digital grid is left out: `Resize` is the debounced callback.
- The `matchMedia('(hover: none)')` mobile check is left out. The digital grid and the custom cursor are modelled on a device with hover.
- `Date.now()`, `performance.now()`, window sizes, scroll offsets and pointer coordinates are parameters.
- The `Math.random` draws are parameters in [0, 1). This covers the empty and scramble ratios, the cluster size and the neighbour pick.
- The symbol texts and the scramble interval's text changes are not modelled. A running scramble interval is the flag `scrambling`.
- DigitalEffect: pointer coordinates and times are integers. Fractional `clientX`/`clientY` are not modelled.
- DigitalEffect: distances are compared squared, with no square root. This agrees with the source except where floating-point `Math.sqrt` rounding would tie two distinct squared distances.
- JavaScript numbers are modelled as exact reals. Floating-point rounding in the lerp steps, the ratios and `Math.floor` is not modelled.
- BlockGrid.CeilDiv: requires a positive block size, as do the grid functions built on it. With a block size of 0 the source computes `Math.ceil(w / 0)`, which is Infinity, and its grid loops never end; that case is not modelled.
- PixelReveal: the mount effect is modelled from one mount to its cleanup. Its re-run when a dependency changes is not modelled. A tween's life is a flag that `TweenDone` clears.
- StickyCards.EntryProgress: requires a positive viewport height. The scroll library computes the progress itself and is not part of this model.
- StickyCards: the pin mechanics are not modelled. That is the fixed positioning and spacing of ScrollTrigger.
- Preloader: the text-line intro tween is not modelled. The exit tween's `onComplete` call to the parent is not modelled either.
- Navbar: the menu's link markup, images and Framer Motion transitions are not modelled.
- Not part of this model: StackingSections.jsx, the horizontal track of Works.jsx, HeroScene.jsx, HeroModel.jsx, FractalGlass.jsx and the pure markup components. Their values are computed by animation or 3D libraries.

## Findings

| source | as written | input that shows it | evidently intended | confidence | as-written member | corrected member |
|---|---|---|---|---|---|---|
| src/components/PixelReveal.jsx:100-105 | `initGrid` resets `revealed` to `!startCovered` and sets every block to the starting opacity. The resize observer (line 159) re-runs it. | A `scrollReveal` element that has been revealed is resized. Its blocks go back to 1 and `revealed` to false. The once-only trigger has already fired, so the content stays covered. | A rebuild keeps the aggregate state: the fresh blocks take the opacity that agrees with `revealed`. | not executed | PixelReveal.ResizeAfterRevealCoversAgain | PixelReveal.Rebuild |
| src/components/PixelReveal.jsx:143-166 | The delay branch's cleanup only clears the timer. The scroll branch's cleanup never clears the timer that `onEnter` starts. | Delay branch: the timer fires, `reveal` starts a tween, and the element unmounts; the tween is not killed. Scroll branch: the element enters and unmounts within `delay` seconds; `reveal` still runs afterwards. | Teardown releases every timer and tween still live, so no callback runs after unmount. | not executed | PixelReveal.TeardownAsWrittenLeaks | PixelReveal.Cleanup |
