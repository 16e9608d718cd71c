/**
 * The stacking cards: full-screen sections that pin at the top of the viewport
 * and, as the next card slides up over them, shrink, tilt and darken. Scroll
 * positions are document offsets in pixels; the progress handed to the update
 * callback is the next card's travel from the bottom of the viewport to its top.
 */
module StickyCards {
  import opened Wrappers

  /** What the update callback sets on a card. */
  datatype Transform = Transform(scale: real, rotation: real, overlay: real)

  /** A card before any update: full size, upright, overlay off. */
  const Rest: Transform := Transform(1.0, 0.0, 0.0)

  /** Every card but the last is pinned. */
  predicate Pinned(index: nat, count: nat) {
    index + 1 < count
  }

  /** A pinned card stays pinned from its own top reaching the top of the
      viewport until the last card's top does; the last card never pins. */
  function PinWindow(index: nat, tops: seq<real>): (w: Option<(real, real)>)
    requires index < |tops|
    ensures w.Some? <==> Pinned(index, |tops|)
    ensures w.Some? ==> w.value.0 == tops[index] && w.value.1 == tops[|tops| - 1]
  {
    if index + 1 < |tops| then Some((tops[index], tops[|tops| - 1])) else None
  }

  /** Is card `index` pinned at scroll position y? */
  predicate PinnedAt(index: nat, tops: seq<real>, y: real)
    requires index < |tops|
  {
    var w := PinWindow(index, tops);
    w.Some? && w.value.0 <= y <= w.value.1
  }

  /** With the cards stacked top to bottom, each pinned card's window is
      non-empty, and once the last card arrives every earlier card is held. */
  lemma PinWindows(tops: seq<real>)
    requires |tops| > 0
    requires forall i, j :: 0 <= i < j < |tops| ==> tops[i] <= tops[j]
    ensures !PinnedAt(|tops| - 1, tops, tops[|tops| - 1])
    ensures forall i :: 0 <= i < |tops| - 1 ==> PinnedAt(i, tops, tops[i]) && PinnedAt(i, tops, tops[|tops| - 1])
  {
    forall i | 0 <= i < |tops| - 1
      ensures PinnedAt(i, tops, tops[i]) && PinnedAt(i, tops, tops[|tops| - 1])
    {
      assert tops[i] <= tops[|tops| - 1];
    }
  }

  /** The card whose travel drives card `index`: the next one, or none for the last. */
  function Driver(index: nat, count: nat): (d: Option<nat>)
    requires index < count
    ensures d.Some? <==> Pinned(index, count)
    ensures d.Some? ==> d.value == index + 1 && d.value < count
  {
    if index + 1 < count then Some(index + 1) else None
  }

  /** The driving card's progress at scroll position y: 0 while its top is at or
      below the bottom of a viewport of height vh, 1 once it is at or above the
      top, linear in between. */
  function EntryProgress(y: real, nextTop: real, vh: real): (p: real)
    requires vh > 0.0
    ensures 0.0 <= p <= 1.0
    ensures y <= nextTop - vh ==> p == 0.0
    ensures y >= nextTop ==> p == 1.0
    ensures nextTop - vh <= y <= nextTop ==> p * vh == y - (nextTop - vh)
  {
    var raw := (y - (nextTop - vh)) / vh;
    if raw <= 0.0 then 0.0 else if raw >= 1.0 then 1.0 else raw
  }

  /** Scrolling further never lowers the progress. */
  lemma EntryProgressMonotone(y1: real, y2: real, nextTop: real, vh: real)
    requires vh > 0.0 && y1 <= y2
    ensures EntryProgress(y1, nextTop, vh) <= EntryProgress(y2, nextTop, vh)
  {
    var a, b := (y1 - (nextTop - vh)) / vh, (y2 - (nextTop - vh)) / vh;
    assert a <= b by {
      assert b - a == (y2 - y1) / vh;
    }
  }

  /** The update callback of card `index` at progress p. */
  function CardTransform(index: nat, p: real): Transform {
    Transform(1.0 - p * 0.1, (if index % 2 == 0 then 3.0 else -3.0) * p, p * 0.6)
  }

  /** Over the card's travel the scale goes from 1 down to 0.9, shrinking as
      the progress grows. */
  lemma ScaleFacts(index: nat, p: real, q: real)
    requires 0.0 <= p <= q <= 1.0
    ensures 0.9 <= CardTransform(index, p).scale <= 1.0
    ensures CardTransform(index, q).scale <= CardTransform(index, p).scale
    ensures CardTransform(index, 0.0).scale == 1.0 && CardTransform(index, 1.0).scale == 0.9
  {
  }

  /** The tilt is at most 3 degrees either way, clockwise on even cards and
      anticlockwise on odd ones, so neighbouring cards lean opposite ways; it
      is zero exactly at progress 0. */
  lemma RotationFacts(index: nat, p: real)
    requires 0.0 <= p <= 1.0
    ensures var r := CardTransform(index, p).rotation;
      && -3.0 <= r <= 3.0
      && (index % 2 == 0 ==> r >= 0.0)
      && (index % 2 == 1 ==> r <= 0.0)
      && (r == 0.0 <==> p == 0.0)
      && CardTransform(index + 1, p).rotation == -r
  {
  }

  /** The overlay darkens from 0 to 0.6. */
  lemma OverlayFacts(index: nat, p: real)
    requires 0.0 <= p <= 1.0
    ensures 0.0 <= CardTransform(index, p).overlay <= 0.6
    ensures CardTransform(index, 1.0).overlay == 0.6
  {
  }

  /** The transform of card `index` of `count` at scroll position y: driven by
      the next card's progress, and the resting transform for the last card. */
  function CardAt(index: nat, tops: seq<real>, vh: real, y: real): (t: Transform)
    requires index < |tops| && vh > 0.0
    ensures !Pinned(index, |tops|) ==> t == Rest
    ensures Pinned(index, |tops|) && y <= tops[index + 1] - vh ==> t == Rest
  {
    match Driver(index, |tops|)
    case None => Rest
    case Some(next) => CardTransform(index, EntryProgress(y, tops[next], vh))
  }
}
