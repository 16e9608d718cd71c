/**
 * The scroll progress bar: a full-height bar scaled vertically by the share of
 * the page scrolled so far. Scroll events are coalesced: a frame is requested
 * only when none is pending, and the frame clears the marker when it runs.
 */
module ScrollProgressBar {
  import opened Wrappers

  /** `total > 0 ? scrolled / total : 0`, with total the scrollable distance. */
  function BarScale(scrolled: real, total: real): (s: real)
    ensures total > 0.0 ==> s * total == scrolled
    ensures total <= 0.0 ==> s == 0.0
  {
    if total > 0.0 then scrolled / total else 0.0
  }

  /** The bar is empty at the top, full at the bottom, in between on the way,
      and grows as the page scrolls down. */
  lemma BarScaleFacts(scrolled: real, further: real, total: real)
    requires total > 0.0 && 0.0 <= scrolled <= further
    ensures BarScale(0.0, total) == 0.0 && BarScale(total, total) == 1.0
    ensures scrolled <= total ==> 0.0 <= BarScale(scrolled, total) <= 1.0
    ensures BarScale(scrolled, total) <= BarScale(further, total)
  {
    assert BarScale(further, total) - BarScale(scrolled, total) == (further - scrolled) / total;
  }

  class ScrollProgressBar {
    /** `rafRef.current`: the id of the requested frame, if any. */
    var rafRef: Option<nat>
    /** The frames this bar has requested and that have neither run nor been
        cancelled. */
    var pending: set<nat>
    /** The id the next `requestAnimationFrame` returns. */
    var nextId: nat
    var listening: bool
    /** The bar's `scaleY`. */
    var scale: real

    /** At most one frame is ever pending, and `rafRef` names it; while the
        listener is installed, a set `rafRef` means that frame is pending. */
    predicate Valid()
      reads this
    {
      && (rafRef.None? ==> pending == {})
      && (rafRef.Some? ==> pending <= {rafRef.value})
      && (rafRef.Some? && listening ==> pending == {rafRef.value})
      && (forall id :: id in pending ==> id < nextId)
    }

    /** Mount. Without a bar element nothing is installed; otherwise the scroll
        listener is added and `update` runs once to seed the scale. */
    constructor (hasBar: bool, scrolled: real, total: real)
      ensures Valid() && rafRef == None && pending == {}
      ensures listening == hasBar
      ensures scale == if hasBar then BarScale(scrolled, total) else 0.0
    {
      rafRef, pending, nextId := None, {}, 1;
      listening := hasBar;
      scale := if hasBar then BarScale(scrolled, total) else 0.0;
    }

    /** The scroll handler: request a frame unless one is already pending. */
    method OnScroll()
      requires Valid() && listening
      modifies this
      ensures Valid() && rafRef.Some? && |pending| == 1
      ensures old(rafRef).Some? ==> rafRef == old(rafRef) && pending == old(pending) && nextId == old(nextId)
      ensures old(rafRef).None? ==> rafRef == Some(old(nextId)) && pending == {old(nextId)} && nextId == old(nextId) + 1
      ensures scale == old(scale) && listening == old(listening)
    {
      if rafRef.None? {
        rafRef := Some(nextId);
        pending := pending + {nextId};
        nextId := nextId + 1;
      }
    }

    /** The frame callback `update`: set the scale and clear the marker, so the
        next scroll schedules again. */
    method Update(id: nat, scrolled: real, total: real)
      requires Valid() && id in pending
      modifies this
      ensures Valid() && rafRef == None && pending == {}
      ensures scale == BarScale(scrolled, total)
      ensures nextId == old(nextId) && listening == old(listening)
    {
      pending := pending - {id};
      scale := BarScale(scrolled, total);
      rafRef := None;
    }

    /** Teardown: remove the listener and cancel a pending frame, if any. */
    method Teardown()
      requires Valid()
      modifies this
      ensures Valid() && !listening && pending == {}
      ensures scale == old(scale)
    {
      listening := false;
      if rafRef.Some? {
        pending := pending - {rafRef.value};
      }
    }
  }

  /** Any burst of scroll events between two frames requests exactly one frame. */
  method ScrollBurst(bar: ScrollProgressBar, n: nat)
    requires bar.Valid() && bar.listening && bar.rafRef.None? && n > 0
    modifies bar
    ensures bar.Valid() && |bar.pending| == 1 && bar.nextId == old(bar.nextId) + 1
  {
    var i := 0;
    while i < n
      invariant 0 <= i <= n && bar.Valid() && bar.listening
      invariant i == 0 ==> bar.rafRef.None? && bar.nextId == old(bar.nextId)
      invariant i > 0 ==> bar.rafRef.Some? && |bar.pending| == 1 && bar.nextId == old(bar.nextId) + 1
    {
      bar.OnScroll();
      i := i + 1;
    }
  }
}
