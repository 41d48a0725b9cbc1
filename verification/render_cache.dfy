/**
 The render-parameter cache: CheckSize, the early return at the top of
 DrawRadialMenu, and the OnPaint gate. The pixel work DrawRadialMenu does
 after the early return is not modelled; its only trace here is the
 updated cache and the repaint request (Invalidate) it ends with.
 */
module RenderCache {
  import opened ControlState
  import opened Interpolation

  /** The cache as DrawRadialMenu compares against it once CheckSize has run. */
  function CacheAfterCheck(s: Control, size: Size): Frame {
    if s.surface == Allocated(size) then s.cache else ZeroFrame
  }

  /**
   CheckSize: when the backing surfaces do not match the control's size they
   are reallocated at that size and the cache is reset.
   */
  function CheckSize(s: Control, size: Size): (t: Control)
    ensures t.surface == Allocated(size)
    ensures s.surface == Allocated(size) ==> t == s
    ensures s.surface != Allocated(size) ==> t.cache == ZeroFrame
    ensures SameAnimation(s, t) && SameFocus(s, t)
  {
    if s.surface == Allocated(size) then s
    else s.(surface := Allocated(size), cache := ZeroFrame)
  }

  /**
   DrawRadialMenu up to its early return: work is done, and a repaint
   requested, exactly when the triple differs from the cache as it stands
   after CheckSize; either way the cache ends up holding the triple.
   */
  function Draw(s: Control, size: Size, f: Frame): (r: Reaction)
    ensures r.repaint <==> f != CacheAfterCheck(s, size)
    ensures r.next.cache == f && r.next.surface == Allocated(size)
    ensures SameAnimation(s, r.next) && SameFocus(s, r.next)
  {
    var c := CheckSize(s, size);
    if c.cache == f then Reaction(c, false)
    else Reaction(c.(cache := f), true)
  }

  /**
   OnPaint: once the opening animation has stopped, every paint redraws the
   fully shown frame; while a timer runs, or after closing, paint draws
   nothing.
   */
  function Paint(s: Control, size: Size): (r: Reaction)
    ensures s.timerEnabled || s.anim == Leave ==> r == Reaction(s, false)
    ensures !s.timerEnabled && s.anim == Enter ==>
              && (r.repaint <==> CacheAfterCheck(s, size) != FullyShown)
              && r.next.cache == FullyShown && r.next.surface == Allocated(size)
    ensures SameAnimation(s, r.next) && SameFocus(s, r.next)
  {
    if !s.timerEnabled && s.anim == Enter then Draw(s, size, FullyShown)
    else Reaction(s, false)
  }

  /** Drawing the same triple twice on an unchanged size does the work at most once. */
  lemma DrawIdempotent(s: Control, size: Size, f: Frame)
    ensures Draw(Draw(s, size, f).next, size, f) == Reaction(Draw(s, size, f).next, false)
  {
  }

  /** A size change discards the cache, so any frame but the reset value is drawn afresh. */
  lemma SizeChangeForcesWork(s: Control, size: Size, f: Frame)
    requires s.surface != Allocated(size) && f != ZeroFrame
    ensures Draw(s, size, f).repaint
  {
  }

  /**
   The repaint a paint requests leads to a second paint that does nothing, so
   the Invalidate at the end of DrawRadialMenu cannot start an endless
   repaint loop.
   */
  lemma PaintSettles(s: Control, size: Size)
    ensures Paint(Paint(s, size).next, size) == Reaction(Paint(s, size).next, false)
  {
  }

  /** After a reset of the cache (a focus change), the next idle paint does fresh work. */
  lemma PaintAfterResetWorks(s: Control, size: Size)
    requires !s.timerEnabled && s.anim == Enter && s.cache == ZeroFrame
    ensures Paint(s, size).repaint
  {
    NoFrameIsZero(Enter, Duration);
  }
}
