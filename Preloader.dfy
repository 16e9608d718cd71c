/**
 * The scroll-driven preloader. Wheel and touch input feed a progress `target`
 * in [0, 1]; every animation frame a displayed value `current` moves 8% of the
 * way towards it, the revealer square is scaled by `current` and a two-digit
 * counter shows it as a percentage. When the display has all but caught up
 * with a full target the preloader exits, once, and ignores further input.
 */
module Preloader {
  import Smoothing

  /** Wheel distance, in pixels of delta, that takes the target from 0 to 1. */
  const ScrollBudget: real := 1200.0
  /** Fraction of the remaining distance the display covers per frame. */
  const Smooth: real := 0.08
  /** The display value from which a full target triggers the exit. */
  const ExitAt: real := 0.998

  /** The closure variables shared by the handlers. */
  datatype Progress = Progress(target: real, current: real, exiting: bool)

  /** The display never runs ahead of the target, and both stay in [0, 1]. */
  predicate ProgressOk(p: Progress) {
    0.0 <= p.current <= p.target <= 1.0
  }

  function Min(a: real, b: real): real {
    if a <= b then a else b
  }

  /** `advance(delta)`: ignored once exiting, otherwise the target grows by
      delta / 1200, clamped to 1. */
  function AfterAdvance(p: Progress, delta: real): Progress {
    if p.exiting then p else p.(target := Min(1.0, p.target + delta / ScrollBudget))
  }

  /** One frame of `tick`: the display moves 8% of the way to the target, and
      the exit is triggered when it has reached 0.998 of a full target. */
  function AfterTick(p: Progress): Progress {
    var c := Smoothing.Lerp(p.current, p.target, Smooth);
    p.(current := c, exiting := p.exiting || (c >= ExitAt && p.target >= 1.0))
  }

  /** A positive delta keeps the progress consistent and never lowers the
      target; once exiting nothing changes; otherwise the target rises by
      exactly delta / 1200 unless that would pass 1, where it stops at 1. */
  lemma AdvanceFacts(p: Progress, delta: real)
    requires ProgressOk(p) && delta > 0.0
    ensures var r := AfterAdvance(p, delta);
      && ProgressOk(r)
      && p.target <= r.target
      && r.current == p.current && r.exiting == p.exiting
      && (p.exiting ==> r == p)
      && (!p.exiting ==> (r.target == 1.0 || r.target == p.target + delta / 1200.0))
      && (!p.exiting && p.target + delta / 1200.0 >= 1.0 ==> r.target == 1.0)
  {
  }

  /** A frame keeps the progress consistent, never moves the display backwards
      nor past the target, and leaves the target alone; the exit starts only
      when the display is at 0.998 or more and the target is full, and an exit
      once started stays. */
  lemma TickFacts(p: Progress)
    requires ProgressOk(p)
    ensures var r := AfterTick(p);
      && ProgressOk(r)
      && p.current <= r.current
      && r.target == p.target
      && (r.exiting && !p.exiting ==> r.current >= 0.998 && r.target >= 1.0)
      && (p.exiting ==> r.exiting)
  {
    Smoothing.LerpBetween(p.current, p.target, Smooth);
  }

  /** Frames with no input in between, stopping at the exit (which cancels the
      frame loop). */
  function Ticks(p: Progress, n: nat): Progress {
    if n == 0 then p
    else
      var q := Ticks(p, n - 1);
      if q.exiting then q else AfterTick(q)
  }

  /** Until it exits, n frames from a full target show the n-th smoothing step. */
  lemma {:induction false} TicksTrack(p: Progress, n: nat)
    requires ProgressOk(p) && p.target == 1.0
    ensures var q := Ticks(p, n);
      && ProgressOk(q) && q.target == 1.0
      && (q.exiting || q.current == Smoothing.Iterate(p.current, 1.0, Smooth, n))
  {
    if n > 0 {
      TicksTrack(p, n - 1);
      TickFacts(Ticks(p, n - 1));
    }
  }

  /** Once the target is full, the preloader exits after finitely many frames. */
  lemma EventuallyExits(p: Progress) returns (n: nat)
    requires ProgressOk(p) && p.target == 1.0
    ensures Ticks(p, n).exiting
  {
    var m := Smoothing.Converges(p.current, 1.0, Smooth, 1.0 - ExitAt);
    n := m + 1;
    TicksTrack(p, m);
    var q := Ticks(p, m);
    if !q.exiting {
      assert q.current > ExitAt;
      Smoothing.LerpBetween(q.current, 1.0, Smooth);
    }
  }

  // ---------------------------------------------------------------------------
  // Counter text
  // ---------------------------------------------------------------------------

  /** `Math.floor(current * 100)`. */
  function Percent(current: real): nat
    requires current >= 0.0
  {
    (current * 100.0).Floor
  }

  /** A display value in [0, 1] is at most 100 percent, and 100 only when full. */
  lemma PercentBounds(current: real)
    requires 0.0 <= current <= 1.0
    ensures Percent(current) <= 100
    ensures Percent(current) == 100 ==> current == 1.0
  {
  }

  predicate IsDigit(ch: char) {
    '0' <= ch <= '9'
  }

  function DigitChar(d: nat): (ch: char)
    requires d < 10
    ensures IsDigit(ch)
  {
    ('0' as int + d) as char
  }

  /** `n.toString()`: decimal digits, most significant first, no leading zero. */
  function Decimal(n: nat): (s: string)
    ensures 1 <= |s| && forall i :: 0 <= i < |s| ==> IsDigit(s[i])
    ensures n < 10 <==> |s| == 1
    ensures 10 <= n < 100 <==> |s| == 2
    ensures s[0] == '0' <==> n == 0
  {
    if n < 10 then [DigitChar(n)] else Decimal(n / 10) + [DigitChar(n % 10)]
  }

  /** The number a string of decimal digits denotes. */
  function DecimalValue(s: string): nat
    requires forall i :: 0 <= i < |s| ==> IsDigit(s[i])
  {
    if |s| == 0 then 0
    else
      assert IsDigit(s[|s| - 1]);
      DecimalValue(s[..|s| - 1]) * 10 + (s[|s| - 1] as int - '0' as int)
  }

  /** Reading the digits of n back gives n. */
  lemma {:induction false} DecimalRoundTrip(n: nat)
    ensures DecimalValue(Decimal(n)) == n
  {
    if n >= 10 {
      DecimalRoundTrip(n / 10);
      var s := Decimal(n);
      assert s[..|s| - 1] == Decimal(n / 10);
    }
  }

  /** `padStart(2, '0')`. */
  function PadStart2(s: string): string {
    if |s| >= 2 then s else seq(2 - |s|, _ => '0') + s
  }

  function CounterText(current: real): string
    requires current >= 0.0
  {
    PadStart2(Decimal(Percent(current)))
  }

  /** For a display value in [0, 1] the counter shows two digits, three only at
      exactly 100, and reads back as the whole percentage. */
  lemma CounterReadsBack(current: real)
    requires 0.0 <= current <= 1.0
    ensures var s := CounterText(current);
      && (forall i :: 0 <= i < |s| ==> IsDigit(s[i]))
      && DecimalValue(s) == Percent(current)
      && (|s| == 2 || (|s| == 3 && Percent(current) == 100))
  {
    var n := Percent(current);
    var d := Decimal(n);
    PercentBounds(current);
    DecimalRoundTrip(n);
    if n < 10 {
      var s := CounterText(current);
      assert s == ['0'] + d;
      assert s[..1] == ['0'];
    } else if n == 100 {
      assert |d| == 3 by {
        assert Decimal(10) == Decimal(1) + [DigitChar(0)];
      }
    }
  }

  // ---------------------------------------------------------------------------
  // The component
  // ---------------------------------------------------------------------------

  class Preloader {
    var target: real
    var current: real
    var exiting: bool
    /** An animation frame is requested and not yet run or cancelled. */
    var framePending: bool
    var touchStartY: real
    var counterText: string
    /** Page scrolling is blocked (`overflow: hidden` on the body). */
    var bodyLocked: bool
    /** The wheel and touch listeners are installed. */
    var listening: bool
    /** The closing clip-path tween has been started. */
    var exitTween: bool

    function State(): Progress
      reads this
    {
      Progress(target, current, exiting)
    }

    predicate Valid()
      reads this
    {
      && ProgressOk(State())
      && counterText == CounterText(current)
      && (exiting ==> !framePending && exitTween)
      && (!exiting ==> !exitTween)
    }

    /** Mount: lock the page, start from zero, run the first frame (which
        requests the next), install the listeners. */
    constructor ()
      ensures Valid()
      ensures State() == AfterTick(Progress(0.0, 0.0, false))
      ensures framePending && bodyLocked && listening && touchStartY == 0.0
      ensures counterText == "00"
    {
      target, current, exiting := 0.0, 0.0, false;
      exitTween := false;
      bodyLocked := true;
      framePending := true;
      var shown := Smoothing.Lerp(0.0, 0.0, Smooth);
      current := shown;
      counterText := CounterText(shown);
      touchStartY := 0.0;
      listening := true;
      assert Decimal(0) == ['0'];
    }

    /** `triggerExit`: the first call latches `exiting`, cancels the pending
        frame and starts the closing tween; later calls do nothing. */
    method TriggerExit()
      requires Valid()
      modifies this
      ensures Valid() && exiting && !framePending && exitTween
      ensures target == old(target) && current == old(current) && counterText == old(counterText)
      ensures bodyLocked == old(bodyLocked) && listening == old(listening) && touchStartY == old(touchStartY)
      ensures old(exiting) ==> framePending == old(framePending) && exitTween == old(exitTween)
    {
      if exiting {
        return;
      }
      exiting := true;
      framePending := false;
      exitTween := true;
    }

    /** One animation frame (`tick`). */
    method Tick()
      requires Valid() && framePending
      modifies this
      ensures Valid()
      ensures State() == AfterTick(old(State()))
      ensures counterText == CounterText(current)
      ensures framePending <==> !exiting
      ensures bodyLocked == old(bodyLocked) && listening == old(listening) && touchStartY == old(touchStartY)
    {
      framePending := true;
      TickFacts(State());
      current := Smoothing.Lerp(current, target, Smooth);
      counterText := CounterText(current);
      if current >= ExitAt && target >= 1.0 {
        TriggerExit();
      }
    }

    method Advance(delta: real)
      requires Valid() && delta > 0.0
      modifies this
      ensures Valid()
      ensures State() == AfterAdvance(old(State()), delta)
      ensures framePending == old(framePending) && touchStartY == old(touchStartY)
      ensures bodyLocked == old(bodyLocked) && listening == old(listening)
    {
      AdvanceFacts(State(), delta);
      if exiting {
        return;
      }
      target := Min(1.0, target + delta / ScrollBudget);
    }

    /** The wheel handler: only a downward scroll advances. */
    method OnWheel(deltaY: real)
      requires Valid() && listening
      modifies this
      ensures Valid()
      ensures State() == if deltaY > 0.0 then AfterAdvance(old(State()), deltaY) else old(State())
      ensures framePending == old(framePending) && touchStartY == old(touchStartY)
      ensures listening == old(listening) && bodyLocked == old(bodyLocked)
    {
      if deltaY > 0.0 {
        Advance(deltaY);
      }
    }

    method OnTouchStart(clientY: real)
      requires Valid() && listening
      modifies this
      ensures Valid() && State() == old(State()) && touchStartY == clientY
      ensures framePending == old(framePending)
      ensures listening == old(listening) && bodyLocked == old(bodyLocked)
    {
      touchStartY := clientY;
    }

    /** The touch-move handler: only an upward drag advances, at twice its
        length, and the reference point always moves to the new position. */
    method OnTouchMove(clientY: real)
      requires Valid() && listening
      modifies this
      ensures Valid() && touchStartY == clientY
      ensures var dy := old(touchStartY) - clientY;
        State() == if dy > 0.0 then AfterAdvance(old(State()), dy * 2.0) else old(State())
      ensures framePending == old(framePending)
      ensures listening == old(listening) && bodyLocked == old(bodyLocked)
    {
      var dy := touchStartY - clientY;
      if dy > 0.0 {
        Advance(dy * 2.0);
      }
      touchStartY := clientY;
    }

    /** Unmount: cancel the frame, remove the listeners, unlock the page. */
    method Unmount()
      requires Valid()
      modifies this
      ensures Valid() && !framePending && !listening && !bodyLocked
      ensures State() == old(State())
    {
      framePending := false;
      listening := false;
      bodyLocked := false;
    }
  }

  /** A swipe: a touch start followed by two touch moves upwards. Each move
      advances by twice the distance dragged since the previous position,
      and the page stays locked with the listeners installed. */
  method Swipe(p: Preloader, y0: real, y1: real, y2: real)
    requires p.Valid() && p.listening && y0 > y1 > y2
    modifies p
    ensures p.Valid() && p.listening && p.bodyLocked == old(p.bodyLocked)
    ensures p.touchStartY == y2
    ensures p.State() == AfterAdvance(AfterAdvance(old(p.State()), (y0 - y1) * 2.0), (y1 - y2) * 2.0)
  {
    p.OnTouchStart(y0);
    p.OnTouchMove(y1);
    p.OnTouchMove(y2);
  }
}
