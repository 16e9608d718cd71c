/**
 * The pixel-block reveal: a grid of opaque blocks laid over some content,
 * dissolved away by `reveal` and filled back in by `cover`; the hook variant
 * used for full-screen overlays; and the choice, at mount, of what triggers
 * the reveal.
 *
 * A tween is modelled by the opacity it drives the blocks to: after `reveal`
 * the blocks hold opacity 0 and the handle records the running tween. Starting
 * a new tween replaces (and so cancels) the one recorded before it.
 */
module PixelReveal {
  import opened Wrappers
  import opened BlockGrid

  const DefaultBlockSize: nat := 60

  /** A width and a height in whole pixels. */
  datatype Box = Box(width: nat, height: nat)

  /** Identity of an `onComplete` callback handed to `cover`. */
  datatype Callback = Callback(id: nat)

  /** A stagger tween over all blocks: the opacity they are set to first, the one
      they are driven to, a start delay in seconds and the completion callback. */
  datatype Tween = Tween(from: real, to: real, delay: real, onComplete: Option<Callback>)

  /** `a || b || c` on extents: JavaScript's `||` skips an extent of 0 (and an absent parent). */
  function FirstNonZero(own: nat, parent: Option<nat>, window: nat): (e: nat)
    ensures e == own || e == parent.GetOr(0) || e == window
    ensures e == 0 <==> own == 0 && parent.GetOr(0) == 0 && window == 0
    ensures own != 0 ==> e == own
    ensures own == 0 && parent.GetOr(0) != 0 ==> e == parent.GetOr(0)
  {
    if own != 0 then own
    else if parent.GetOr(0) != 0 then parent.GetOr(0)
    else window
  }

  /** The size `buildGrid` measures: the container's own size, else its parent's, else the window's, per axis. */
  function MeasuredSize(container: Box, parent: Option<Box>, window: Box): Box {
    Box(FirstNonZero(container.width, if parent.Some? then Some(parent.value.width) else None, window.width),
        FirstNonZero(container.height, if parent.Some? then Some(parent.value.height) else None, window.height))
  }

  /** `buildGrid`: empties the container and fills it with a fully covered grid
      sized to the measured box; the result holds only the fresh blocks. */
  method BuildContainerGrid(container: Box, parent: Option<Box>, window: Box, blockSize: nat)
    returns (blocks: seq<Block>)
    requires blockSize > 0
    ensures var size := MeasuredSize(container, parent, window);
      blocks == Grid(size.width, size.height, blockSize, 1.0)
  {
    var size := MeasuredSize(container, parent, window);
    blocks := BuildGrid(size.width, size.height, blockSize, 1.0);
  }

  /** Even an empty box gets one block: the extra column and row are always there. */
  lemma EmptyBoxOneBlock(b: nat, opacity: real)
    requires b > 0
    ensures |Grid(0, 0, b, opacity)| == 1
  {
    assert Count(0, b) == 1;
  }

  // ---------------------------------------------------------------------------
  // Reveal and cover

  /** What the reveal handle keeps: the blocks, the `revealed` flag and the last tween started. */
  datatype Overlay = Overlay(blocks: seq<Block>, revealed: bool, tween: Option<Tween>)

  /** The aggregate state agrees with the blocks: all transparent when revealed, all opaque otherwise. */
  predicate Consistent(s: Overlay) {
    if s.revealed then AllAt(s.blocks, 0.0) else AllAt(s.blocks, 1.0)
  }

  /** `reveal`: a no-op when already revealed; otherwise marks the grid revealed,
      replaces the running tween and drives every block from 1 to 0. */
  function AfterReveal(s: Overlay): (t: Overlay)
    ensures t.revealed
    ensures SameLayout(t.blocks, s.blocks)
    ensures s.revealed ==> t == s
    ensures !s.revealed ==> AllAt(t.blocks, 0.0) && t.tween == Some(Tween(1.0, 0.0, 0.0, None))
  {
    if s.revealed then s
    else Overlay(WithOpacity(s.blocks, 0.0), true, Some(Tween(1.0, 0.0, 0.0, None)))
  }

  /** `cover`: unguarded; always clears `revealed`, replaces the running tween and
      drives every block from 0 to 1, passing `onComplete` to the new tween. */
  function AfterCover(s: Overlay, onComplete: Option<Callback>): (t: Overlay)
    ensures !t.revealed
    ensures SameLayout(t.blocks, s.blocks)
    ensures AllAt(t.blocks, 1.0)
    ensures t.tween == Some(Tween(0.0, 1.0, 0.0, onComplete))
  {
    Overlay(WithOpacity(s.blocks, 1.0), false, Some(Tween(0.0, 1.0, 0.0, onComplete)))
  }

  /** Two reveals in a row are one reveal. */
  lemma RevealIdempotent(s: Overlay)
    ensures AfterReveal(AfterReveal(s)) == AfterReveal(s)
  {
  }

  /** A call to the handle: `reveal()` or `cover(onComplete)`. */
  datatype Call = RevealCall | CoverCall(onComplete: Option<Callback>)

  function Apply(s: Overlay, c: Call): Overlay {
    match c
    case RevealCall => AfterReveal(s)
    case CoverCall(f) => AfterCover(s, f)
  }

  /** Any sequence of calls, in order. */
  function Run(s: Overlay, calls: seq<Call>): Overlay
    decreases |calls|
  {
    if calls == [] then s else Run(Apply(s, calls[0]), calls[1..])
  }

  /** Any sequence of calls keeps the blocks where they are and keeps the flag
      and the blocks in agreement. */
  lemma {:induction false} RunKeepsConsistent(s: Overlay, calls: seq<Call>)
    requires Consistent(s)
    ensures Consistent(Run(s, calls))
    ensures SameLayout(Run(s, calls).blocks, s.blocks)
    decreases |calls|
  {
    if calls != [] {
      RunKeepsConsistent(Apply(s, calls[0]), calls[1..]);
    }
  }

  /** However many reveals and covers came before, a cover followed by a reveal
      ends revealed with every block transparent. */
  lemma {:induction false} CoverThenRevealEndsRevealed(s: Overlay, calls: seq<Call>, f: Option<Callback>)
    ensures Run(s, calls + [CoverCall(f), RevealCall]).revealed
    ensures AllAt(Run(s, calls + [CoverCall(f), RevealCall]).blocks, 0.0)
    ensures SameLayout(Run(s, calls + [CoverCall(f), RevealCall]).blocks, s.blocks)
    decreases |calls|
  {
    if calls == [] {
      var covered := AfterCover(s, f);
      assert calls + [CoverCall(f), RevealCall] == [CoverCall(f), RevealCall];
      assert [CoverCall(f), RevealCall][1..] == [RevealCall];
      assert Run(s, [CoverCall(f), RevealCall]) == Run(covered, [RevealCall]);
      assert Run(covered, [RevealCall]) == Run(AfterReveal(covered), []);
    } else {
      assert (calls + [CoverCall(f), RevealCall])[1..] == calls[1..] + [CoverCall(f), RevealCall];
      CoverThenRevealEndsRevealed(Apply(s, calls[0]), calls[1..], f);
    }
  }

  // ---------------------------------------------------------------------------
  // Rebuilding the grid (initGrid), as written and corrected

  /** `initGrid` as written: the built grid is set to opacity 1 when the component
      starts covered and 0 otherwise, and `revealed` is reset to `!startCovered`,
      whatever the handle's state was. */
  function InitGridAsWritten(s: Overlay, built: seq<Block>, startCovered: bool): (t: Overlay)
    ensures t.revealed == !startCovered
    ensures AllAt(t.blocks, if startCovered then 1.0 else 0.0)
    ensures SameLayout(t.blocks, built) && t.tween == s.tween
  {
    Overlay(WithOpacity(built, if startCovered then 1.0 else 0.0), !startCovered, s.tween)
  }

  /** The state right after mount. */
  function Mounted(built: seq<Block>, startCovered: bool): Overlay {
    InitGridAsWritten(Overlay([], !startCovered, None), built, startCovered)
  }

  /** The rebuild that keeps what the viewer sees: the built grid takes the
      opacity of the current aggregate state, and `revealed` is kept. */
  function Rebuild(s: Overlay, built: seq<Block>): (t: Overlay)
    ensures t.revealed == s.revealed && t.tween == s.tween
    ensures SameLayout(t.blocks, built)
    ensures Consistent(t)
  {
    Overlay(WithOpacity(built, if s.revealed then 0.0 else 1.0), s.revealed, s.tween)
  }

  /** At mount, when `revealed` still holds its initial `!startCovered`, the
      corrected rebuild is exactly the written `initGrid`. */
  lemma RebuildAgreesAtMount(s: Overlay, built: seq<Block>, startCovered: bool)
    requires s.revealed == !startCovered
    ensures Rebuild(s, built) == InitGridAsWritten(s, built, startCovered)
  {
  }

  /** The reveal handle of one `PixelReveal` element. */
  class PixelReveal {
    const startCovered: bool
    const blockSize: nat
    /** Whether the grid container element is attached (`gridRef.current`). */
    var hasGrid: bool
    var blocks: seq<Block>
    var revealed: bool
    var tween: Option<Tween>

    function State(): Overlay
      reads this
    {
      Overlay(blocks, revealed, tween)
    }

    ghost predicate Valid()
      reads this
    {
      blockSize > 0 && Consistent(State())
    }

    /** The refs before mount: no blocks, `revealed == !startCovered`, no tween. */
    constructor (startCovered: bool, blockSize: nat, hasGrid: bool)
      requires blockSize > 0
      ensures Valid()
      ensures this.startCovered == startCovered && this.blockSize == blockSize && this.hasGrid == hasGrid
      ensures State() == Overlay([], !startCovered, None)
    {
      this.startCovered := startCovered;
      this.blockSize := blockSize;
      this.hasGrid := hasGrid;
      blocks := [];
      revealed := !startCovered;
      tween := None;
    }

    /** `initGrid` (corrected): does nothing without a grid container; otherwise
        rebuilds the grid from the measured size, at the opacity of the current state. */
    method InitGrid(container: Box, parent: Option<Box>, window: Box)
      requires Valid()
      modifies this
      ensures Valid() && hasGrid == old(hasGrid)
      ensures !hasGrid ==> State() == old(State())
      ensures hasGrid ==> var size := MeasuredSize(container, parent, window);
        State() == Rebuild(old(State()), Grid(size.width, size.height, blockSize, 1.0))
    {
      if !hasGrid {
        return;
      }
      var built := BuildContainerGrid(container, parent, window, blockSize);
      blocks := WithOpacity(built, if revealed then 0.0 else 1.0);
    }

    /** `reveal()`. */
    method Reveal()
      requires Valid()
      modifies this
      ensures Valid() && hasGrid == old(hasGrid)
      ensures State() == AfterReveal(old(State()))
    {
      if revealed {
        return;
      }
      revealed := true;
      tween := Some(Tween(1.0, 0.0, 0.0, None));
      blocks := WithOpacity(blocks, 0.0);
    }

    /** `cover(onComplete)`. */
    method Cover(onComplete: Option<Callback>)
      requires Valid()
      modifies this
      ensures Valid() && hasGrid == old(hasGrid)
      ensures State() == AfterCover(old(State()), onComplete)
    {
      revealed := false;
      tween := Some(Tween(0.0, 1.0, 0.0, onComplete));
      blocks := WithOpacity(blocks, 1.0);
    }
  }

  // ---------------------------------------------------------------------------
  // Mount-time trigger and teardown

  /** What reveals the element after mount. */
  datatype Trigger =
    | DelayTimer(ms: nat)                                   // `setTimeout(reveal, autoRevealDelay)`
    | ScrollOnce(startViewportPercent: nat, revealDelayMs: real) // once-only trigger at 'top 85%'
    | NoTrigger                                             // only the imperative handle

  /** At most one trigger: a delay timer when `autoRevealDelay` is set (scroll
      reveal is then ignored), else a once-only scroll trigger when `scrollReveal`, else none. */
  function MountTrigger(autoRevealDelay: Option<nat>, scrollReveal: bool, delaySeconds: real): (t: Trigger)
    ensures t.DelayTimer? <==> autoRevealDelay.Some?
    ensures t.DelayTimer? ==> t.ms == autoRevealDelay.value
    ensures t.ScrollOnce? <==> autoRevealDelay.None? && scrollReveal
    ensures t.ScrollOnce? ==> t.startViewportPercent == 85 && t.revealDelayMs == delaySeconds * 1000.0
    ensures t.NoTrigger? <==> autoRevealDelay.None? && !scrollReveal
  {
    if autoRevealDelay.Some? then DelayTimer(autoRevealDelay.value)
    else if scrollReveal then ScrollOnce(85, delaySeconds * 1000.0)
    else NoTrigger
  }

  /** The mount effect of one element while it runs: the trigger chosen at
      mount, the reveal handle, and what the effect has started that can still
      call back into the handle. */
  datatype Effect = Effect(
    trigger: Trigger,
    startCovered: bool,   // the prop `initGrid` reads
    handle: Overlay,
    revealTimer: bool,    // `setTimeout(reveal, autoRevealDelay)`, not yet fired
    scrollWatcher: bool,  // the scroll trigger, until its one `onEnter`
    resizeWatcher: bool,  // the resize observer that rebuilds the grid
    enterTimer: bool)     // the `setTimeout` that `onEnter` starts, not yet fired

  /** Things that can call back into the handle after the effect started them. */
  datatype Resource = RevealTimer | ScrollWatcher | ResizeWatcher | EnterTimer | RunningTween

  /** Whether resource x is live in an effect state; a recorded tween is one still running. */
  predicate Holds(m: Effect, x: Resource) {
    match x
    case RevealTimer => m.revealTimer
    case ScrollWatcher => m.scrollWatcher
    case ResizeWatcher => m.resizeWatcher
    case EnterTimer => m.enterTimer
    case RunningTween => m.handle.tween.Some?
  }

  /** What is live in an effect state. */
  function Live(m: Effect): (r: set<Resource>)
    ensures forall x :: x in r <==> Holds(m, x)
  {
    (if m.revealTimer then {RevealTimer} else {}) +
    (if m.scrollWatcher then {ScrollWatcher} else {}) +
    (if m.resizeWatcher then {ResizeWatcher} else {}) +
    (if m.enterTimer then {EnterTimer} else {}) +
    (if m.handle.tween.Some? then {RunningTween} else {})
  }

  /** The effect right after mount: the grid is built, then the trigger is
      started; a delay timer alone, or a scroll trigger with a resize observer,
      or nothing. */
  function MountEffect(autoRevealDelay: Option<nat>, scrollReveal: bool, delaySeconds: real,
                       built: seq<Block>, startCovered: bool): (m: Effect)
    ensures m.handle == Mounted(built, startCovered) && m.startCovered == startCovered
    ensures m.trigger == MountTrigger(autoRevealDelay, scrollReveal, delaySeconds)
    ensures Live(m) == if autoRevealDelay.Some? then {RevealTimer}
                       else if scrollReveal then {ScrollWatcher, ResizeWatcher}
                       else {}
  {
    var t := MountTrigger(autoRevealDelay, scrollReveal, delaySeconds);
    Effect(t, startCovered, Mounted(built, startCovered), t.DelayTimer?, t.ScrollOnce?, t.ScrollOnce?, false)
  }

  /** What happens to a mounted element. */
  datatype Event =
    | DelayElapsed          // the auto-reveal timer fires and calls `reveal`
    | Enter                 // the element scrolls past 85%: `onEnter` starts its timer
    | EnterDelayElapsed     // the timer `onEnter` started fires and calls `reveal`
    | Resized(built: seq<Block>) // the resize observer re-runs `initGrid`
    | TweenDone             // the running tween completes
    | HandleCall(c: Call)   // the owner calls `reveal()` or `cover(onComplete)`

  /** A callback runs only while what delivers it is live; the scroll trigger is
      once-only, so `onEnter` also retires it. The only things an event can
      start are the `onEnter` timer, which only the scroll trigger's one firing
      starts, and a tween. */
  function OnEvent(m: Effect, e: Event): (r: Effect)
    ensures r.trigger == m.trigger && r.startCovered == m.startCovered
    ensures Live(r) - Live(m) <= {EnterTimer, RunningTween}
    ensures EnterTimer in Live(r) - Live(m) ==> e.Enter? && ScrollWatcher in Live(m) - Live(r)
    ensures e.DelayElapsed? && RevealTimer !in Live(m) ==> r == m
    ensures e.Enter? && ScrollWatcher !in Live(m) ==> r == m
    ensures e.EnterDelayElapsed? && EnterTimer !in Live(m) ==> r == m
    ensures e.Resized? && ResizeWatcher !in Live(m) ==> r == m
    ensures e.Resized? && ResizeWatcher in Live(m) ==>
      r.handle.revealed == !m.startCovered && SameLayout(r.handle.blocks, e.built)
  {
    match e
    case DelayElapsed =>
      if m.revealTimer then m.(revealTimer := false, handle := AfterReveal(m.handle)) else m
    case Enter =>
      if m.scrollWatcher then m.(scrollWatcher := false, enterTimer := true) else m
    case EnterDelayElapsed =>
      if m.enterTimer then m.(enterTimer := false, handle := AfterReveal(m.handle)) else m
    case Resized(built) =>
      if m.resizeWatcher then m.(handle := InitGridAsWritten(m.handle, built, m.startCovered)) else m
    case TweenDone =>
      m.(handle := m.handle.(tween := None))
    case HandleCall(c) =>
      m.(handle := Apply(m.handle, c))
  }

  /** Any sequence of events, in order. */
  function RunEffect(m: Effect, events: seq<Event>): Effect
    decreases |events|
  {
    if events == [] then m else RunEffect(OnEvent(m, events[0]), events[1..])
  }

  /** `tweenRef.current?.kill()`. */
  function KillTween(m: Effect): Effect {
    m.(handle := m.handle.(tween := None))
  }

  /** The cleanup each branch returns, as written: the delay branch clears its
      timer; the scroll branch kills the trigger, disconnects the observer and
      kills the tween; the last branch kills the tween. */
  function CleanupAsWritten(m: Effect): (r: Effect)
    ensures r.handle.blocks == m.handle.blocks && r.handle.revealed == m.handle.revealed
    ensures m.trigger.DelayTimer? ==> Live(r) == Live(m) - {RevealTimer}
    ensures m.trigger.ScrollOnce? ==> Live(r) == Live(m) - {ScrollWatcher, ResizeWatcher, RunningTween}
    ensures m.trigger.NoTrigger? ==> Live(r) == Live(m) - {RunningTween}
  {
    match m.trigger
    case DelayTimer(_) => m.(revealTimer := false)
    case ScrollOnce(_, _) => KillTween(m.(scrollWatcher := false, resizeWatcher := false))
    case NoTrigger => KillTween(m)
  }

  /** The cleanup the element needs: the written one, plus killing the tween in
      the delay branch and clearing the `onEnter` timer in the scroll branch. */
  function Cleanup(m: Effect): (r: Effect)
    ensures Live(r) <= Live(CleanupAsWritten(m))
    ensures r.handle.blocks == m.handle.blocks && r.handle.revealed == m.handle.revealed
  {
    var w := CleanupAsWritten(m);
    match m.trigger
    case DelayTimer(_) => KillTween(w)
    case ScrollOnce(_, _) => w.(enterTimer := false)
    case NoTrigger => w
  }

  /** Only the chosen trigger's own timers and watchers are ever started. */
  predicate OwnResources(m: Effect) {
    && (!m.trigger.DelayTimer? ==> !m.revealTimer)
    && (!m.trigger.ScrollOnce? ==> !m.scrollWatcher && !m.resizeWatcher && !m.enterTimer)
  }

  /** Every event keeps the trigger and the ownership of resources. */
  lemma {:induction false} RunKeepsOwnResources(m: Effect, events: seq<Event>)
    requires OwnResources(m)
    ensures OwnResources(RunEffect(m, events)) && RunEffect(m, events).trigger == m.trigger
    decreases |events|
  {
    if events != [] {
      RunKeepsOwnResources(OnEvent(m, events[0]), events[1..]);
    }
  }

  /** The written cleanups leave something live: in the delay branch, once the
      timer has fired, the tween `reveal` started survives unmount; in the scroll
      branch, once the element has entered, the `onEnter` timer survives and its
      `reveal` still changes the handle after unmount. */
  lemma TeardownAsWrittenLeaks(ms: nat, delaySeconds: real, built: seq<Block>)
    ensures var m := RunEffect(MountEffect(Some(ms), false, 0.0, built, true), [DelayElapsed]);
      RunningTween in Live(CleanupAsWritten(m))
    ensures var m := RunEffect(MountEffect(None, true, delaySeconds, built, true), [Enter]);
      var after := CleanupAsWritten(m);
      && EnterTimer in Live(after)
      && !after.handle.revealed
      && RunEffect(after, [EnterDelayElapsed]).handle.revealed
  {
    var d := MountEffect(Some(ms), false, 0.0, built, true);
    assert RunEffect(d, [DelayElapsed]) == RunEffect(OnEvent(d, DelayElapsed), []);
    var s := MountEffect(None, true, delaySeconds, built, true);
    assert RunEffect(s, [Enter]) == RunEffect(OnEvent(s, Enter), []);
    var after := CleanupAsWritten(OnEvent(s, Enter));
    assert RunEffect(after, [EnterDelayElapsed]) == RunEffect(OnEvent(after, EnterDelayElapsed), []);
  }

  /** Whatever happened since mount, the corrected cleanup leaves nothing live. */
  lemma CleanupReleasesAll(autoRevealDelay: Option<nat>, scrollReveal: bool, delaySeconds: real,
                           built: seq<Block>, startCovered: bool, events: seq<Event>)
    ensures Live(Cleanup(RunEffect(MountEffect(autoRevealDelay, scrollReveal, delaySeconds, built, startCovered), events))) == {}
  {
    RunKeepsOwnResources(MountEffect(autoRevealDelay, scrollReveal, delaySeconds, built, startCovered), events);
  }

  /** With nothing live, no timer, watcher or tween changes the handle: after the
      corrected cleanup no callback touches an unmounted element. */
  lemma {:induction false} QuietWhenNothingLive(m: Effect, events: seq<Event>)
    requires Live(m) == {}
    requires forall i :: 0 <= i < |events| ==> !events[i].HandleCall?
    ensures RunEffect(m, events).handle == m.handle
    ensures Live(RunEffect(m, events)) == {}
    decreases |events|
  {
    if events != [] {
      assert RunningTween !in Live(m);
      assert OnEvent(m, events[0]) == m;
      QuietWhenNothingLive(m, events[1..]);
    }
  }

  /** The written `initGrid`, re-run by the resize observer after a scroll
      reveal, covers the content again: every fresh block is opaque and
      `revealed` is false. */
  lemma ResizeAfterRevealCoversAgain(delaySeconds: real, built: seq<Block>, resized: seq<Block>)
    ensures var m := RunEffect(MountEffect(None, true, delaySeconds, built, true), [Enter, EnterDelayElapsed]);
      m.handle.revealed && AllAt(m.handle.blocks, 0.0)
    ensures var m := RunEffect(MountEffect(None, true, delaySeconds, built, true), [Enter, EnterDelayElapsed, Resized(resized)]);
      && !m.handle.revealed && AllAt(m.handle.blocks, 1.0) && SameLayout(m.handle.blocks, resized)
      && !m.scrollWatcher && !m.enterTimer && !m.revealTimer
  {
    var m0 := MountEffect(None, true, delaySeconds, built, true);
    var m1 := OnEvent(m0, Enter);
    var m2 := OnEvent(m1, EnterDelayElapsed);
    var m3 := OnEvent(m2, Resized(resized));
    assert RunEffect(m0, [Enter, EnterDelayElapsed]) == RunEffect(m1, [EnterDelayElapsed]);
    assert RunEffect(m1, [EnterDelayElapsed]) == RunEffect(m2, []);
    assert RunEffect(m0, [Enter, EnterDelayElapsed, Resized(resized)]) == RunEffect(m1, [EnterDelayElapsed, Resized(resized)]);
    assert RunEffect(m1, [EnterDelayElapsed, Resized(resized)]) == RunEffect(m2, [Resized(resized)]);
    assert RunEffect(m2, [Resized(resized)]) == RunEffect(m3, []);
  }

  /** Once covered with the scroll trigger spent, nothing but the owner's handle
      reveals the element again: timers, resizes and tween completions keep it
      covered with every block opaque. */
  lemma {:induction false} StaysCovered(m: Effect, events: seq<Event>)
    requires m.startCovered && !m.handle.revealed && AllAt(m.handle.blocks, 1.0)
    requires !m.scrollWatcher && !m.enterTimer && !m.revealTimer
    requires forall i :: 0 <= i < |events| ==> !events[i].HandleCall?
    ensures !RunEffect(m, events).handle.revealed && AllAt(RunEffect(m, events).handle.blocks, 1.0)
    decreases |events|
  {
    if events != [] {
      StaysCovered(OnEvent(m, events[0]), events[1..]);
    }
  }

  // ---------------------------------------------------------------------------
  // usePixelOverlay

  /** The full-screen overlay hook: `init`, unguarded `cover` and `reveal`, and `kill`. */
  class PixelOverlay {
    const blockSize: nat
    /** The container element given to `init` (`containerRef.current`), by identity. */
    var container: Option<nat>
    var blocks: seq<Block>
    var tween: Option<Tween>

    constructor (blockSize: nat)
      requires blockSize > 0
      ensures this.blockSize == blockSize && container == None && blocks == [] && tween == None
    {
      this.blockSize := blockSize;
      container := None;
      blocks := [];
      tween := None;
    }

    /** `init(el)`: ignores a null element; otherwise attaches to it and fills it
        with a grid sized to the window, every block transparent. */
    method Init(el: Option<nat>, window: Box)
      requires blockSize > 0
      modifies this
      ensures el.None? ==> container == old(container) && blocks == old(blocks) && tween == old(tween)
      ensures el.Some? ==>
        container == el && tween == old(tween) && blocks == Grid(window.width, window.height, blockSize, 0.0)
    {
      if el.None? {
        return;
      }
      container := el;
      blocks := BuildGrid(window.width, window.height, blockSize, 0.0);
    }

    /** `cover(onComplete)`: replaces the running tween and fills every block. */
    method Cover(onComplete: Option<Callback>)
      modifies this
      ensures container == old(container) && SameLayout(blocks, old(blocks)) && AllAt(blocks, 1.0)
      ensures tween == Some(Tween(0.0, 1.0, 0.0, onComplete))
    {
      tween := Some(Tween(0.0, 1.0, 0.0, onComplete));
      blocks := WithOpacity(blocks, 1.0);
    }

    /** `reveal(delay2)`: replaces the running tween and dissolves every block after the delay. */
    method Reveal(delay2: real)
      modifies this
      ensures container == old(container) && SameLayout(blocks, old(blocks)) && AllAt(blocks, 0.0)
      ensures tween == Some(Tween(1.0, 0.0, delay2, None))
    {
      tween := Some(Tween(1.0, 0.0, delay2, None));
      blocks := WithOpacity(blocks, 0.0);
    }

    /** `kill()`: stops the running tween, if any. */
    method Kill()
      modifies this
      ensures container == old(container) && blocks == old(blocks) && tween == None
    {
      tween := None;
    }
  }
}
