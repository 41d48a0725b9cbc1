/**
 The control as a whole: the events the host delivers, their effect on the
 control's state, and what holds of every state reachable from the
 constructor.
 */
module RadialMenu {
  import opened ControlState
  import opened Interpolation
  import opened HitTest
  import opened RenderCache
  import opened Animation
  import opened Selection

  /**
   The events the control reacts to, each with the control's size when it
   arrives where the handler reads it. StartAnimation is internal, so other
   code in the assembly may restart either animation at any time.
   */
  datatype Event =
    | Start(profile: AnimationState)
    | TimerTick(size: Size)
    | PointerMove(size: Size, x: int, y: int, direction: Turn)
    | PointerClick
    | Repaint(size: Size)

  /**
   The effect of one event. The timer fires only while enabled. Every event
   keeps the focus invariant, and with a non-negative Step the counter in
   [0, 60].
   */
  function Apply(cfg: Config, s: Control, e: Event): (t: Control)
    requires ValidConfig(cfg)
    ensures FocusInvariant(cfg.itemCount, s) ==> FocusInvariant(cfg.itemCount, t)
    ensures 0.0 <= cfg.step && CountInRange(s) ==> CountInRange(t)
  {
    match e
    case Start(a) => StartAnimation(s, a)
    case TimerTick(size) => if s.timerEnabled then Tick(cfg, s, size).next else s
    case PointerMove(size, x, y, d) => MouseMove(cfg, s, size, x, y, d).next
    case PointerClick => Click(s).next
    case Repaint(size) => Paint(s, size).next
  }

  /** A sequence of events applied in order; the invariants of Apply carry over. */
  function Replay(cfg: Config, s: Control, events: seq<Event>): (t: Control)
    requires ValidConfig(cfg)
    ensures FocusInvariant(cfg.itemCount, s) ==> FocusInvariant(cfg.itemCount, t)
    ensures 0.0 <= cfg.step && CountInRange(s) ==> CountInRange(t)
    decreases |events|
  {
    if |events| == 0 then s else Replay(cfg, Apply(cfg, s, events[0]), events[1..])
  }

  /**
   Every state the constructor and any events lead to, restarts included, has the centre focused
   only with index -1, an index in [-1, n), and with a non-negative Step a
   counter in [0, 60].
   */
  lemma ReachableStatesWellFormed(cfg: Config, events: seq<Event>)
    requires ValidConfig(cfg)
    ensures FocusInvariant(cfg.itemCount, Replay(cfg, New(), events))
    ensures 0.0 <= cfg.step ==> CountInRange(Replay(cfg, New(), events))
  {
  }

  /** k timer events at one size are the run of k ticks. */
  lemma {:induction false} TickEventsAreRun(cfg: Config, s: Control, size: Size, k: nat)
    requires ValidConfig(cfg)
    ensures Replay(cfg, s, seq(k, i => TimerTick(size))) == RunTicks(cfg, s, size, k)
    decreases k
  {
    var events := seq(k, i => TimerTick(size));
    if k != 0 {
      assert events[1..] == seq(k - 1, i => TimerTick(size));
      TickEventsAreRun(cfg, Apply(cfg, s, events[0]), size, k - 1);
      if !s.timerEnabled {
        NotRunningIgnoresTicks(cfg, s, size, k - 1);
      }
    }
  }

  /** Timer events do nothing to a control whose timer is stopped. */
  lemma {:induction false} NotRunningIgnoresTicks(cfg: Config, s: Control, size: Size, k: nat)
    requires ValidConfig(cfg) && !s.timerEnabled
    ensures Replay(cfg, s, seq(k, i => TimerTick(size))) == s
    decreases k
  {
    if k != 0 {
      assert seq(k, i => TimerTick(size))[1..] == seq(k - 1, i => TimerTick(size));
      NotRunningIgnoresTicks(cfg, s, size, k - 1);
    }
  }

  /**
   Once the opening animation has stopped, the idle repaint of the fully
   shown frame finds it already in the cache and does nothing.
   */
  lemma EnterSettledPaintIsNoOp(cfg: Config, size: Size, k: nat)
    requires 0.0 <= cfg.step && !RunTicks(cfg, New(), size, k).timerEnabled
    ensures var t := RunTicks(cfg, New(), size, k);
            t.count == Duration && Paint(t, size) == Reaction(t, false)
  {
    StoppedRunDrewLastFrame(cfg, New(), size, k);
  }

  /**
   A focus change in between makes that idle repaint do fresh work: the move
   reset the cache, and no frame equals the reset value.
   */
  lemma FocusChangeForcesPaint(cfg: Config, s: Control, size: Size, x: int, y: int, t: Turn)
    requires ValidConfig(cfg) && !s.timerEnabled && s.anim == Enter
    requires MouseMove(cfg, s, size, x, y, t).repaint
    ensures Paint(MouseMove(cfg, s, size, x, y, t).next, size).repaint
  {
    PaintAfterResetWorks(MouseMove(cfg, s, size, x, y, t).next, size);
  }

  /** With the default Step of 4 the counter visits 0, 4, ..., 60 on the first 15 ticks. */
  lemma DefaultRunCounts(size: Size, k: nat)
    requires k <= 15
    ensures RunTicks(DefaultConfig, New(), size, k).timerEnabled
    ensures RunTicks(DefaultConfig, New(), size, k).count == 4.0 * k as real
  {
    AfterStepsIsProduct(0.0, 4.0, k);
    RunAdvances(DefaultConfig, New(), size, k);
  }

  /**
   With the default Step the timer is still running after 15 ticks and stops
   on the 16th, which draws the fully shown frame.
   */
  lemma DefaultRunStopsOnSixteenthTick(size: Size)
    ensures RunTicks(DefaultConfig, New(), size, 15).timerEnabled
    ensures var t := RunTicks(DefaultConfig, New(), size, 16);
            !t.timerEnabled && t.count == Duration && t.cache == FullyShown
  {
    assert TicksToStop(4.0, 0.0) == 16;
    TimerStops(DefaultConfig, New(), size);
    StoppedRunDrewLastFrame(DefaultConfig, New(), size, 16);
  }

  /** The default control is 200 x 200 in the session below. */
  const SessionSize: Size := Size(200, 200)

  /**
   On the settled default control the pointer at (150, 100), straight right
   of the centre (atan2 = 0), focuses wedge 0 and asks for a repaint; at the
   centre (100, 100) it focuses the centre disc.
   */
  lemma DefaultPointerHits(s: Control)
    requires !s.timerEnabled && !s.focusedCenter && s.focusedIndex == -1
    ensures var moved := MouseMove(DefaultConfig, s, SessionSize, 150, 100, 0.0);
            moved.repaint && !moved.next.focusedCenter && moved.next.focusedIndex == 0
    ensures MouseMove(DefaultConfig, s, SessionSize, 100, 100, 0.0).next.focusedCenter
  {
    assert OffsetX(SessionSize, 150) == 50.0 && OffsetY(SessionSize, 100) == 0.0;
    assert !PointerInCenter(DefaultConfig, SessionSize, 150, 100);
    assert WedgeIndex(6, 0.0) == 0;
    assert PointerInCenter(DefaultConfig, SessionSize, 100, 100);
  }

  /**
   A session with the default configuration on a 200 x 200 control: the
   opening animation settles after 16 ticks with nothing focused and an idle
   paint that does nothing; the pointer at (150, 100) focuses wedge 0; a
   click then reports (false, 0) and starts closing.
   */
  lemma DefaultSession()
    ensures var settled := RunTicks(DefaultConfig, New(), SessionSize, 16);
            var moved := MouseMove(DefaultConfig, settled, SessionSize, 150, 100, 0.0);
            var clicked := Click(moved.next);
            && !settled.timerEnabled && !settled.focusedCenter && settled.focusedIndex == -1
            && Paint(settled, SessionSize) == Reaction(settled, false)
            && clicked.notice == MenuClick(false, 0)
            && clicked.next.timerEnabled && clicked.next.anim == Leave && clicked.next.count == 0.0
  {
    DefaultRunStopsOnSixteenthTick(SessionSize);
    EnterSettledPaintIsNoOp(DefaultConfig, SessionSize, 16);
    var settled := RunTicks(DefaultConfig, New(), SessionSize, 16);
    DefaultPointerHits(settled);
  }
}
