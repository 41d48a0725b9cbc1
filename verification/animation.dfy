/**
 StartAnimation and AnimationTimer_Tick: the progress counter that runs from
 0 to 60 in Step increments while the timer is enabled. Timer scheduling is
 host behaviour; a tick is an explicit call, and RunTicks applies them one
 after another for as long as the timer stays enabled.
 */
module Animation {
  import opened ControlState
  import opened Interpolation
  import opened RenderCache
  import opened RealArith

  /** The fields of a control before its constructor body runs: all defaults. */
  const Blank: Control := Control(false, Enter, 0.0, false, 0, ZeroFrame, Unallocated)

  /**
   StartAnimation: restarts the counter under the given profile and enables
   the timer; only opening clears the focus.
   */
  function StartAnimation(s: Control, a: AnimationState): (t: Control)
    ensures t.timerEnabled && t.anim == a && t.count == 0.0
    ensures a == Enter ==> !t.focusedCenter && t.focusedIndex == -1
    ensures a == Leave ==> SameFocus(s, t)
    ensures t.cache == s.cache && t.surface == s.surface
  {
    var restarted := s.(count := 0.0, anim := a);
    var cleared := if a == Enter then restarted.(focusedCenter := false, focusedIndex := -1) else restarted;
    cleared.(timerEnabled := true)
  }

  /** The constructor: a control that is opening, with nothing focused and no surfaces yet. */
  function New(): (s: Control)
    ensures s.timerEnabled && s.anim == Enter && s.count == 0.0
    ensures !s.focusedCenter && s.focusedIndex == -1
    ensures s.cache == ZeroFrame && s.surface == Unallocated
  {
    StartAnimation(Blank, Enter)
  }

  /** Math.Min on two values. */
  function Min(a: real, b: real): real {
    if a <= b then a else b
  }

  /**
   AnimationTimer_Tick: draws the frame for the current count, then either
   stops the timer (the count had already reached 60) or advances the count
   by Step without passing 60.
   */
  function Tick(cfg: Config, s: Control, size: Size): (r: Reaction)
    ensures r.next.cache == FrameAt(s.anim, s.count) && r.next.surface == Allocated(size)
    ensures r.repaint <==> FrameAt(s.anim, s.count) != CacheAfterCheck(s, size)
    ensures Duration <= s.count ==> !r.next.timerEnabled && r.next.count == s.count
    ensures s.count < Duration ==> r.next.timerEnabled == s.timerEnabled && r.next.count <= Duration
    ensures s.count < Duration && s.count + cfg.step <= Duration ==> r.next.count == s.count + cfg.step
    ensures s.count < Duration < s.count + cfg.step ==> r.next.count == Duration
    ensures 0.0 <= cfg.step ==> s.count <= r.next.count
    ensures r.next.anim == s.anim && SameFocus(s, r.next)
  {
    var drawn := Draw(s, size, FrameAt(s.anim, s.count));
    var c := drawn.next;
    if Duration <= c.count then Reaction(c.(timerEnabled := false), drawn.repaint)
    else Reaction(c.(count := Min(Duration, c.count + cfg.step)), drawn.repaint)
  }

  /**
   k timer ticks; a stopped timer fires no more. Ticks keep the profile and
   the focus, and with a non-negative Step never lower the counter or take
   it out of [0, 60].
   */
  function RunTicks(cfg: Config, s: Control, size: Size, k: nat): (t: Control)
    ensures !s.timerEnabled ==> t == s
    ensures t.anim == s.anim && SameFocus(s, t)
    ensures 0.0 <= cfg.step ==> s.count <= t.count
    ensures 0.0 <= cfg.step && CountInRange(s) ==> CountInRange(t)
    decreases k
  {
    if k == 0 || !s.timerEnabled then s
    else RunTicks(cfg, Tick(cfg, s, size).next, size, k - 1)
  }

  /** Running a ticks and then b more is running a + b ticks. */
  lemma {:induction false} RunSplit(cfg: Config, s: Control, size: Size, a: nat, b: nat)
    ensures RunTicks(cfg, s, size, a + b) == RunTicks(cfg, RunTicks(cfg, s, size, a), size, b)
    decreases a
  {
    if a != 0 && s.timerEnabled {
      RunSplit(cfg, Tick(cfg, s, size).next, size, a - 1, b);
    }
  }

  /** The counter after k advances by step, with no clamping. */
  function AfterSteps(count: real, step: real, k: nat): (r: real)
    ensures 0.0 <= step ==> count <= r
    ensures 0.0 < step && 0 < k ==> count + step <= r
    decreases k
  {
    if k == 0 then count else AfterSteps(count + step, step, k - 1)
  }

  /** k advances by step add k * step. */
  lemma {:induction false} AfterStepsIsProduct(count: real, step: real, k: nat)
    ensures AfterSteps(count, step, k) == count + k as real * step
    decreases k
  {
    if k != 0 {
      AfterStepsIsProduct(count + step, step, k - 1);
      assert k as real * step == (k - 1) as real * step + step;
    }
  }

  /**
   Below 60 every tick adds exactly Step: while the un-clamped sum stays at
   or below 60, k ticks advance the counter by k steps, with no overshoot,
   and the timer keeps running.
   */
  lemma {:induction false} RunAdvances(cfg: Config, s: Control, size: Size, k: nat)
    requires 0.0 < cfg.step && s.timerEnabled
    requires AfterSteps(s.count, cfg.step, k) <= Duration
    ensures RunTicks(cfg, s, size, k).timerEnabled
    ensures RunTicks(cfg, s, size, k).count == AfterSteps(s.count, cfg.step, k)
    decreases k
  {
    if k != 0 {
      var s' := Tick(cfg, s, size).next;
      assert s'.count == s.count + cfg.step && s'.timerEnabled;
      RunAdvances(cfg, s', size, k - 1);
    }
  }

  /** Smallest integer at or above q. */
  function Ceiling(q: real): (c: int)
    ensures q <= c as real < q + 1.0
  {
    -((-q).Floor)
  }

  /** The number of ticks after which a running timer with this Step has stopped. */
  function TicksToStop(step: real, count: real): (k: nat)
    requires 0.0 < step
    ensures 1 <= k
  {
    if Duration <= count then 1 else Ceiling((Duration - count) / step) + 1
  }

  /**
   From a count below 60, TicksToStop - 2 full steps stay below 60 and one
   more step would reach or pass it.
   */
  lemma LastStepReachesEnd(count: real, step: real)
    requires 0.0 < step && count < Duration
    ensures 0 <= TicksToStop(step, count) - 2
    ensures AfterSteps(count, step, TicksToStop(step, count) - 2) < Duration
    ensures Duration <= AfterSteps(count, step, TicksToStop(step, count) - 2) + step
  {
    var q := (Duration - count) / step;
    assert q * step == Duration - count;
    assert step * q == q * step;
    assert 0.0 < q by {
      if q <= 0.0 {
        MulMonotone(step, q, 0.0);
      }
    }
    var c := Ceiling(q);
    assert TicksToStop(step, count) == c + 1;
    var k: nat := c - 1;
    AfterStepsIsProduct(count, step, k);
    MulStrictMonotone(step, k as real, q);
    MulMonotone(step, q, k as real + 1.0);
    calc {
      AfterSteps(count, step, k);
    == count + k as real * step;
    == count + step * (k as real);
    <  count + step * q;
    == Duration;
    }
    calc {
      Duration;
    == count + step * q;
    <= count + step * (k as real + 1.0);
    == count + k as real * step + step;
    == AfterSteps(count, step, k) + step;
    }
  }

  /**
   With a positive Step the timer stops after finitely many ticks: exactly on
   tick TicksToStop, the first tick that begins at a count of 60 or more.
   */
  lemma {:induction false} TimerStops(cfg: Config, s: Control, size: Size)
    requires 0.0 < cfg.step && s.timerEnabled
    ensures RunTicks(cfg, s, size, TicksToStop(cfg.step, s.count) - 1).timerEnabled
    ensures !RunTicks(cfg, s, size, TicksToStop(cfg.step, s.count)).timerEnabled
  {
    if s.count < Duration {
      LastStepReachesEnd(s.count, cfg.step);
      var k: nat := TicksToStop(cfg.step, s.count) - 2;
      // k ticks stay below 60 ...
      RunAdvances(cfg, s, size, k);
      var p := RunTicks(cfg, s, size, k);
      // ... one more reaches 60 and keeps running ...
      var p' := Tick(cfg, p, size).next;
      assert p'.timerEnabled && p'.count == Duration;
      RunSplit(cfg, s, size, k, 1);
      assert RunTicks(cfg, p, size, 1) == p';
      // ... and the next one stops it.
      RunSplit(cfg, s, size, k + 1, 1);
      assert RunTicks(cfg, p', size, 1) == Tick(cfg, p', size).next;
    }
  }

  /** With Step <= 0 a timer started below 60 never stops, however many ticks fire. */
  lemma {:induction false} NonPositiveStepNeverStops(cfg: Config, s: Control, size: Size, k: nat)
    requires cfg.step <= 0.0 && s.timerEnabled && s.count < Duration
    ensures RunTicks(cfg, s, size, k).timerEnabled
    ensures RunTicks(cfg, s, size, k).count <= s.count
    decreases k
  {
    if k != 0 {
      NonPositiveStepNeverStops(cfg, Tick(cfg, s, size).next, size, k - 1);
    }
  }

  /**
   With Step = 0 a closing animation restarted at count 0 (a click) never
   ends, and every tick draws the fully shown frame again.
   */
  lemma {:induction false} ZeroStepCloseShowsMenu(cfg: Config, s: Control, size: Size, k: nat)
    requires cfg.step == 0.0 && s.timerEnabled && s.anim == Leave && s.count == 0.0
    ensures RunTicks(cfg, s, size, k).timerEnabled && RunTicks(cfg, s, size, k).count == 0.0
    ensures 0 < k ==> RunTicks(cfg, s, size, k).cache == FullyShown
    decreases k
  {
    if k != 0 {
      var s' := Tick(cfg, s, size).next;
      assert s'.cache == FullyShown;
      ZeroStepCloseShowsMenu(cfg, s', size, k - 1);
    }
  }

  /**
   A run that ends with the timer stopped ended on a tick that began at a
   count of 60 or more, left that count in place, and drew that count's
   frame on a surface of the control's size.
   */
  lemma {:induction false} StoppedRunDrewLastFrame(cfg: Config, s: Control, size: Size, k: nat)
    requires s.timerEnabled && !RunTicks(cfg, s, size, k).timerEnabled
    ensures var t := RunTicks(cfg, s, size, k);
            Duration <= t.count && t.cache == FrameAt(t.anim, t.count) && t.surface == Allocated(size)
    decreases k
  {
    var s' := Tick(cfg, s, size).next;
    if s'.timerEnabled {
      StoppedRunDrewLastFrame(cfg, s', size, k - 1);
    }
  }
}
