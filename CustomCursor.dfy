/**
 * The custom cursor: a square that trails the pointer, moving 15% of the way
 * to it every frame, and that turns into a labelled pill while the pointer is
 * over an element carrying a `data-cursor` attribute with a non-empty value.
 */
module CustomCursor {
  import opened Wrappers
  import Smoothing

  /** Fraction of the remaining distance covered per frame. */
  const Follow: real := 0.15

  datatype Point = Point(x: real, y: real)

  /** One frame of `render`: each axis moves 15% of the way to the pointer. */
  function Step(current: Point, mouse: Point): Point {
    Point(Smoothing.Lerp(current.x, mouse.x, Follow), Smoothing.Lerp(current.y, mouse.y, Follow))
  }

  /** On each axis the remaining distance shrinks to 85% of what it was, keeping
      its sign, so the cursor never overshoots the pointer. */
  lemma StepFacts(current: Point, mouse: Point)
    ensures var r := Step(current, mouse);
      && mouse.x - r.x == 0.85 * (mouse.x - current.x)
      && mouse.y - r.y == 0.85 * (mouse.y - current.y)
      && (current.x <= mouse.x ==> current.x <= r.x <= mouse.x)
      && (mouse.x <= current.x ==> mouse.x <= r.x <= current.x)
      && (current.y <= mouse.y ==> current.y <= r.y <= mouse.y)
      && (mouse.y <= current.y ==> mouse.y <= r.y <= current.y)
  {
    Smoothing.LerpGap(current.x, mouse.x, Follow);
    Smoothing.LerpGap(current.y, mouse.y, Follow);
    Smoothing.LerpBetween(current.x, mouse.x, Follow);
    Smoothing.LerpBetween(current.y, mouse.y, Follow);
  }

  /** n frames with the pointer held still. */
  function Steps(current: Point, mouse: Point, n: nat): Point {
    if n == 0 then current else Step(Steps(current, mouse, n - 1), mouse)
  }

  /** Frame by frame the cursor follows the smoother on each axis. */
  lemma {:induction false} StepsAxes(current: Point, mouse: Point, n: nat)
    ensures Steps(current, mouse, n).x == Smoothing.Iterate(current.x, mouse.x, Follow, n)
    ensures Steps(current, mouse, n).y == Smoothing.Iterate(current.y, mouse.y, Follow, n)
  {
    if n > 0 {
      StepsAxes(current, mouse, n - 1);
    }
  }

  /** With the pointer held still the cursor comes as close to it as asked. */
  lemma CatchesUp(current: Point, mouse: Point, eps: real) returns (n: nat)
    requires eps > 0.0
    ensures Smoothing.Abs(mouse.x - Steps(current, mouse, n).x) < eps
    ensures Smoothing.Abs(mouse.y - Steps(current, mouse, n).y) < eps
  {
    var nx := Smoothing.Converges(current.x, mouse.x, Follow, eps);
    var ny := Smoothing.Converges(current.y, mouse.y, Follow, eps);
    n := if nx >= ny then nx else ny;
    StepsAxes(current, mouse, n);
    StayClose(current.x, mouse.x, nx, n, eps);
    StayClose(current.y, mouse.y, ny, n, eps);
  }

  /** Once within eps of the target the smoother stays within eps. */
  lemma {:induction false} StayClose(a: real, b: real, m: nat, n: nat, eps: real)
    requires m <= n && Smoothing.Abs(b - Smoothing.Iterate(a, b, Follow, m)) < eps
    ensures Smoothing.Abs(b - Smoothing.Iterate(a, b, Follow, n)) < eps
    decreases n - m
  {
    if m < n {
      var x := Smoothing.Iterate(a, b, Follow, m);
      Smoothing.AbsStep(x, b, Follow);
      assert Smoothing.Iterate(a, b, Follow, m + 1) == Smoothing.Lerp(x, b, Follow);
      StayClose(a, b, m + 1, n, eps);
    }
  }

  /** `e.target.closest('[data-cursor]')`: the first element, from the target
      outwards, that carries the attribute; `path` lists each element's
      attribute value, if it has one. */
  function Closest(path: seq<Option<string>>): (r: Option<string>)
    ensures r.None? <==> forall i :: 0 <= i < |path| ==> path[i].None?
    ensures r.Some? ==> exists i :: 0 <= i < |path| && path[i] == r && forall j :: 0 <= j < i ==> path[j].None?
  {
    if |path| == 0 then None
    else if path[0].Some? then path[0]
    else
      var r := Closest(path[1..]);
      assert forall i :: 1 <= i < |path| ==> path[i] == path[1..][i - 1];
      if r.Some? then
        var k :| 0 <= k < |path[1..]| && path[1..][k] == r && forall j :: 0 <= j < k ==> path[1..][j].None?;
        assert path[k + 1] == r;
        r
      else r
  }

  /** The hover refs and the rendered shape. */
  datatype Hover = Hover(isHovering: bool, hoverText: string)

  /** The hover reading of a `mouseover` event: hovering iff some element on
      the path carries the attribute, with its value as the text (or ''). */
  function HoverOf(path: seq<Option<string>>): (h: Hover)
    ensures h.isHovering <==> exists i :: 0 <= i < |path| && path[i].Some?
    ensures !h.isHovering ==> h.hoverText == ""
  {
    var t := Closest(path);
    Hover(t.Some?, t.GetOr(""))
  }

  /** The enlarged, labelled cursor shows only while hovering with a non-empty text. */
  datatype Look = Dot | Label(text: string)

  function LookOf(shape: Hover): (l: Look)
    ensures l.Label? <==> shape.isHovering && shape.hoverText != ""
    ensures l.Label? ==> l.text == shape.hoverText
  {
    if shape.isHovering && shape.hoverText != "" then Label(shape.hoverText) else Dot
  }

  /** Width and height of the cursor in pixels. */
  function Size(l: Look): (int, int) {
    if l.Label? then (120, 40) else (28, 28)
  }

  class CustomCursor {
    var mouse: Point
    var current: Point
    /** `isHoveringRef` and `hoverTextRef`. */
    var refs: Hover
    /** The React state `cursorShape`. */
    var shape: Hover
    /** How many times `setCursorShape` has been called. */
    var shapeUpdates: nat
    var framePending: bool
    var listening: bool

    /** The rendered shape always mirrors the refs. */
    predicate Valid()
      reads this
    {
      shape == refs
    }

    /** Mount on a device with hover: both points at the origin, nothing
        hovered, listeners installed, then the first frame runs. */
    constructor ()
      ensures Valid()
      ensures mouse == Point(0.0, 0.0) && current == Step(Point(0.0, 0.0), Point(0.0, 0.0))
      ensures refs == Hover(false, "") && shapeUpdates == 0
      ensures framePending && listening
    {
      mouse := Point(0.0, 0.0);
      current := Point(0.0, 0.0);
      refs := Hover(false, "");
      shape := Hover(false, "");
      shapeUpdates := 0;
      listening := true;
      current := Step(Point(0.0, 0.0), Point(0.0, 0.0));
      framePending := true;
    }

    /** `handleMouseMove` writes the target only; the cursor itself moves only
        in `render`. */
    method HandleMouseMove(x: real, y: real)
      requires Valid() && listening
      modifies this
      ensures Valid() && mouse == Point(x, y)
      ensures current == old(current) && refs == old(refs) && shape == old(shape)
      ensures shapeUpdates == old(shapeUpdates) && framePending == old(framePending)
      ensures listening == old(listening)
    {
      mouse := Point(x, y);
    }

    /** One frame of `render`: move towards the pointer and request the next frame. */
    method Render()
      requires Valid() && framePending
      modifies this
      ensures Valid() && current == Step(old(current), mouse) && framePending
      ensures mouse == old(mouse) && refs == old(refs) && shapeUpdates == old(shapeUpdates)
      ensures listening == old(listening)
    {
      current := Step(current, mouse);
      framePending := true;
    }

    /** `handleMouseOver`: update the refs and the shape only when the hover
        flag or the text actually changes. */
    method HandleMouseOver(path: seq<Option<string>>)
      requires Valid() && listening
      modifies this
      ensures Valid() && refs == HoverOf(path)
      ensures shapeUpdates == old(shapeUpdates) + (if old(refs) == HoverOf(path) then 0 else 1)
      ensures mouse == old(mouse) && current == old(current)
      ensures framePending == old(framePending) && listening == old(listening)
    {
      var target := Closest(path);
      var nowHovering := target.Some?;
      var nowText := target.GetOr("");
      if nowHovering != refs.isHovering || nowText != refs.hoverText {
        refs := Hover(nowHovering, nowText);
        shape := Hover(nowHovering, nowText);
        shapeUpdates := shapeUpdates + 1;
      }
    }

    method Unmount()
      requires Valid()
      modifies this
      ensures Valid() && !listening && !framePending
      ensures mouse == old(mouse) && current == old(current) && refs == old(refs) && shape == old(shape)
      ensures shapeUpdates == old(shapeUpdates)
    {
      listening := false;
      framePending := false;
    }
  }

  /** A pointer move followed by two frames: the cursor takes two steps
      towards the new pointer position and the listeners stay installed. */
  method MoveThenFrames(c: CustomCursor, x: real, y: real)
    requires c.Valid() && c.listening && c.framePending
    modifies c
    ensures c.Valid() && c.listening && c.framePending
    ensures c.current == Steps(old(c.current), Point(x, y), 2)
    ensures c.refs == old(c.refs) && c.shapeUpdates == old(c.shapeUpdates)
  {
    ghost var start := c.current;
    c.HandleMouseMove(x, y);
    c.Render();
    assert c.current == Steps(start, Point(x, y), 1);
    c.HandleMouseMove(x, y);
    c.Render();
  }

  /** The same `mouseover` twice in a row re-renders at most once. */
  method RepeatedHover(c: CustomCursor, path: seq<Option<string>>)
    requires c.Valid() && c.listening
    modifies c
    ensures c.Valid() && c.refs == HoverOf(path)
    ensures c.shapeUpdates == old(c.shapeUpdates) + (if old(c.refs) == HoverOf(path) then 0 else 1)
  {
    c.HandleMouseOver(path);
    c.HandleMouseOver(path);
  }
}
