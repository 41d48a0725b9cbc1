/**
 DrawEnter and DrawLeave: how the progress counter becomes the
 (angle, scale, alpha) triple handed to the renderer.
 */
module Interpolation {
  import opened ControlState

  /** The frame shown once the menu is fully open, and the one OnPaint redraws. */
  const FullyShown: Frame := Frame(0.0, 1.0, 1.0)

  /** Opening: spins in from -60 degrees while growing and fading in. */
  function EnterFrame(count: real): (f: Frame)
    ensures f.alpha == f.scale
    ensures 0.0 <= count <= Duration ==> -Duration <= f.angle <= 0.0 && 0.0 <= f.scale <= 1.0
  {
    Frame(count - Duration, count / Duration, count / Duration)
  }

  /** Closing: spins out towards +60 degrees while shrinking and fading out. */
  function LeaveFrame(count: real): (f: Frame)
    ensures f.alpha == f.scale
    ensures 0.0 <= count <= Duration ==> 0.0 <= f.angle <= Duration && 0.0 <= f.scale <= 1.0
  {
    Frame(count, 1.0 - count / Duration, 1.0 - count / Duration)
  }

  /** The frame a tick draws for the running profile. */
  function FrameAt(a: AnimationState, count: real): (f: Frame)
    ensures 0.0 <= count <= Duration ==> 0.0 <= f.scale <= 1.0 && f.alpha == f.scale
  {
    match a
    case Enter => EnterFrame(count)
    case Leave => LeaveFrame(count)
  }

  /** Both profiles run between the collapsed and the fully shown extreme, in opposite directions. */
  lemma Endpoints()
    ensures EnterFrame(0.0) == Frame(-60.0, 0.0, 0.0)
    ensures EnterFrame(Duration) == FullyShown
    ensures LeaveFrame(0.0) == FullyShown
    ensures LeaveFrame(Duration) == Frame(60.0, 0.0, 0.0)
  {
  }

  /** Leave is Enter played backwards in scale, shifted by a full span in angle. */
  lemma ProfilesMirror(count: real)
    ensures EnterFrame(count).scale + LeaveFrame(count).scale == 1.0
    ensures LeaveFrame(count).angle - EnterFrame(count).angle == Duration
    ensures EnterFrame(count) == LeaveFrame(Duration - count).(angle := count - Duration)
  {
  }

  /** Opening never shrinks, closing never grows, as progress advances. */
  lemma ScaleMonotone(c1: real, c2: real)
    requires c1 <= c2
    ensures EnterFrame(c1).scale <= EnterFrame(c2).scale
    ensures LeaveFrame(c2).scale <= LeaveFrame(c1).scale
    ensures EnterFrame(c1).angle <= EnterFrame(c2).angle && LeaveFrame(c1).angle <= LeaveFrame(c2).angle
  {
  }

  /** Different progress values give different frames, so every advancing tick has fresh work. */
  lemma FramesDistinct(a: AnimationState, c1: real, c2: real)
    requires c1 != c2
    ensures FrameAt(a, c1) != FrameAt(a, c2)
  {
  }

  /** No frame of either profile equals the reset value of the cache, so a reset always forces work. */
  lemma NoFrameIsZero(a: AnimationState, count: real)
    ensures FrameAt(a, count) != ZeroFrame
    ensures FullyShown != ZeroFrame
  {
  }
}
