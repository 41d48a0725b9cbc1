# Radial menu control — a Dafny model

This project models the non-drawing logic of `RadialMenuControl`, a WinForms
picture box that shows a pie-shaped menu: a ring of equal wedges, one per
item, around a centre "back" disc. The control:

- animates opening (`Enter`) and closing (`Leave`) with a progress counter
  that a 1 ms timer advances from 0 to 60 in `Step` increments;
- turns the counter into a rotation angle, a scale and an opacity;
- hit-tests the pointer in polar coordinates to focus the centre or a wedge,
  and clears its render cache only when the focus changes;
- reports a click as a `(FocusedCenter, MenuIndex)` pair and starts closing;
- skips rendering when asked to draw the same (angle, scale, alpha) triple on
  an unchanged surface.

The whole control is one immutable record (`ControlState.Control`). Every
event handler is a pure function from a state to the next state, and says
whether it requested a repaint (`Invalidate`).

Modules, leaf first:

| file | module | models |
|---|---|---|
| `control_state.dfy` | `ControlState` | the control's fields, configuration, invariants |
| `real_arith.dfy` | `RealArith` | multiplication facts used by the proofs |
| `interpolation.dfy` | `Interpolation` | `DrawEnter` / `DrawLeave` |
| `hit_test.dfy` | `HitTest` | the centre test and wedge index of `OnMouseMove`, with C# `(int)` and `%` |
| `render_cache.dfy` | `RenderCache` | `CheckSize`, the early return of `DrawRadialMenu`, `OnPaint` |
| `animation.dfy` | `Animation` | constructor, `StartAnimation`, `AnimationTimer_Tick`, runs of ticks |
| `selection.dfy` | `Selection` | `OnMouseMove`, `OnMouseClick`, the `MenuClickEventArgs` payload |
| `radial_menu.dfy` | `RadialMenu` | events as a state machine, reachable-state invariants, a default session |

Library calls are handled as follows:

- `Math.Atan2` is an input. `HitTest.Turn` is its value divided by 2π, so it
  lies in [-1/2, 1/2]. `RadialMenuControl`'s expression `n * (2π + atan2) / 2π` then becomes
  `n * (1 + turn)`.
- `Math.Sqrt(d²) <= radius` is written as `0 <= radius && d² <= radius²`.
  `HitTest.CenterTestMatchesDistance` proves the two agree for every radius.
- `Items.Count` is `Config.itemCount`, fixed and at least 1.
- Float arithmetic is exact `real` arithmetic.

Behaviours of the code worth noting:

- A click has no guard. `OnMouseClick` reports the focus and restarts the
  closing animation even while an animation is running, so `Selection.Click`
  has no precondition.
- The opening angle is `count - 60`, negative until the last frame.
- Focus is the pair `(FocusedCenter, FocusedMenuIndex)`. "Nothing focused"
  is `(false, -1)`.
- The cache check compares the whole (angle, scale, alpha) triple. Rendering
  is skipped exactly when the triple equals the cache, whatever the focus.
  A focus change forces new work because the move resets the cache.
- `Step` is a public `float` property with no validation. In exact
  arithmetic a positive `Step` stops the timer (`Animation.TimerStops`).
  A `Step` of zero or less never stops it
  (`Animation.NonPositiveStepNeverStops`): opening never finishes, and the
  pointer is ignored while the timer runs. A click still restarts the
  closing animation; with `Step` = 0 its ticks keep drawing (0, 1, 1)
  forever (`Animation.ZeroStepCloseShowsMenu`).
- `StartAnimation` is `internal`, so other code in the assembly may restart
  either animation at any time; `RadialMenu.Event` has a case for it.

## Model

All source paths are in `WinFormsApp16/`. The helpers `HitTest.InCenter`,
`Selection.CenterRadius`, `Selection.OffsetX`, `Selection.OffsetY` and
`Selection.PointerInCenter` model the centre test of
RadialMenuControl.cs:115-120 (offsets from `Width / 2`, `Height / 2`, and
radius `(CenterSize + CenterBorder) / 2`); their meaning is stated by
`HitTest.CenterTestMatchesDistance` and `Selection.MouseMove`.

| member | source | states |
|---|---|---|
| `Animation.New` | WinFormsApp16/RadialMenuControl.cs:35-43 | a new control is opening: timer on, count 0, nothing focused `(false, -1)`, empty cache, no surfaces |
| `Animation.StartAnimation` | WinFormsApp16/RadialMenuControl.cs:48-58 | count becomes 0 and the profile is set; the timer is enabled; `Enter` clears focus to `(false, -1)`; `Leave` keeps the focus; the cache and surfaces are untouched |
| `Animation.Tick` | WinFormsApp16/RadialMenuControl.cs:60-73 | draws the frame for the current count first; a count already at 60 or more stops the timer and stays put; otherwise the count grows by exactly `Step` if that stays ≤ 60, else lands on 60; it never exceeds 60 or decreases when `Step ≥ 0`; profile and focus are untouched |
| `Animation.RunTicks` | WinFormsApp16/RadialMenuControl.cs:60-73 | a stopped timer fires no ticks; any number of ticks keeps the profile and focus; with `Step ≥ 0` they never lower the counter and keep it in [0, 60] |
| `Animation.RunSplit` | WinFormsApp16/RadialMenuControl.cs:60-73 | a ticks followed by b ticks equals a + b ticks |
| `Animation.RunAdvances` | WinFormsApp16/RadialMenuControl.cs:67-72 | with `Step > 0`, while the unclamped sum stays ≤ 60, k ticks add exactly k steps (no overshoot), and the timer keeps running |
| `Animation.TicksToStop` | WinFormsApp16/RadialMenuControl.cs:67-72 | the tick count to stop is at least one |
| `Animation.TimerStops` | WinFormsApp16/RadialMenuControl.cs:67-72 | with `Step > 0` a running timer is still on after `TicksToStop - 1` ticks and off after `TicksToStop` ticks: it stops on the first tick that starts at a count ≥ 60 |
| `Animation.NonPositiveStepNeverStops` | WinFormsApp16/RadialMenuControl.cs:67-72 | with `Step ≤ 0`, a timer started below 60 stays running and below 60 after any number of ticks |
| `Animation.ZeroStepCloseShowsMenu` | WinFormsApp16/RadialMenuControl.cs:60-73 | with `Step` = 0, a closing animation started at count 0 keeps the timer running and the count at 0 for any number of ticks, and after any tick the cache holds the fully shown frame (0, 1, 1) |
| `Animation.StoppedRunDrewLastFrame` | WinFormsApp16/RadialMenuControl.cs:60-73 | a run that stopped the timer ended on a tick that began at a count ≥ 60; the cache holds that count's frame, on a surface of the control's size |
| `Interpolation.EnterFrame` | WinFormsApp16/RadialMenuControl.cs:75-81 | opening: alpha equals scale; for a count in [0, 60] the angle is in [-60, 0] and the scale in [0, 1] |
| `Interpolation.LeaveFrame` | WinFormsApp16/RadialMenuControl.cs:83-89 | closing: alpha equals scale; for a count in [0, 60] the angle is in [0, 60] and the scale in [0, 1] |
| `Interpolation.FrameAt` | WinFormsApp16/RadialMenuControl.cs:62-65 | for either profile and a count in [0, 60]: scale equals alpha and lies in [0, 1] |
| `Interpolation.Endpoints` | WinFormsApp16/RadialMenuControl.cs:75-89 | Enter(0) = (-60, 0, 0), Enter(60) = (0, 1, 1), Leave(0) = (0, 1, 1), Leave(60) = (60, 0, 0) |
| `Interpolation.ProfilesMirror` | WinFormsApp16/RadialMenuControl.cs:75-89 | at every count the two scales sum to 1 and the two angles differ by 60; Enter is Leave read backwards, with its angle shifted |
| `Interpolation.ScaleMonotone` | WinFormsApp16/RadialMenuControl.cs:75-89 | as the count grows, opening scale never falls and closing scale never rises; both angles never fall |
| `Interpolation.FramesDistinct` | WinFormsApp16/RadialMenuControl.cs:75-89 | two different counts give two different frames in the same profile |
| `Interpolation.NoFrameIsZero` | WinFormsApp16/RadialMenuControl.cs:75-89 | no frame of either profile, and not the fully shown frame, equals the cache's reset value (0, 0, 0), so a reset can never hide a frame |
| `HitTest.Truncate` | WinFormsApp16/RadialMenuControl.cs:136 | C# `(int)` conversion: for x ≥ 0 the result is the greatest integer ≤ x; for x < 0, the least integer ≥ x |
| `HitTest.Remainder` | WinFormsApp16/RadialMenuControl.cs:136 | C# `%`: dividend = truncated quotient × divisor + remainder; the remainder takes the dividend's sign and is smaller in size than the divisor |
| `HitTest.NormalizedTurn` | WinFormsApp16/RadialMenuControl.cs:134 | the pointer's direction, moved by a whole turn or not at all, lies in [0, 1) of a turn |
| `HitTest.TurnsScaled` | WinFormsApp16/RadialMenuControl.cs:134-136 | `n * (2π + atan2) / 2π` lies in [n/2, 3n/2], because 2π + atan2 lies in [π, 3π]; so truncation acts like floor |
| `HitTest.WedgeIndex` | WinFormsApp16/RadialMenuControl.cs:136 | the computed index lies in [0, n) |
| `HitTest.WedgeIndexIsFloorMod` | WinFormsApp16/RadialMenuControl.cs:134-136 | `RadialMenuControl`'s `(int)` and C# `%` give the same index as floor followed by a non-negative modulo, for every value atan2 can return |
| `HitTest.WedgeIndexInSector` | WinFormsApp16/RadialMenuControl.cs:134-136 | the computed index i is the wedge whose sector [i/n, (i+1)/n) of a turn holds the pointer's direction |
| `HitTest.WedgeIndexUnique` | WinFormsApp16/RadialMenuControl.cs:134-136 | any wedge whose sector holds the direction is the computed one, so sectors do not overlap |
| `HitTest.SectorsPartitionTurn` | WinFormsApp16/RadialMenuControl.cs:134-136 | every direction lies in exactly one of the n sectors |
| `HitTest.BoundaryGoesToHigherWedge` | WinFormsApp16/RadialMenuControl.cs:136 | a direction exactly on boundary i/n belongs to wedge i |
| `HitTest.BranchCutConsistent` | WinFormsApp16/RadialMenuControl.cs:134 | atan2 = -π and atan2 = +π, the two sides of the negative x-axis, give the same wedge |
| `HitTest.CenterTestMatchesDistance` | WinFormsApp16/RadialMenuControl.cs:117-120 | for any radius, negative included, `sqrt(dx² + dy²) <= radius` holds exactly when the squared test holds |
| `HitTest.Classify` | WinFormsApp16/RadialMenuControl.cs:115-136 | the pointer is on the centre exactly when the centre test holds; otherwise the wedge index is in [0, n) and its sector holds the direction |
| `RenderCache.CheckSize` | WinFormsApp16/RadialMenuControl.cs:152-164 | afterwards the surfaces match the control's size; at a matching size nothing changes; after a size change the cache is (0, 0, 0); animation and focus are untouched |
| `RenderCache.Draw` | WinFormsApp16/RadialMenuControl.cs:172-181 | work is done (and a repaint requested) exactly when the triple differs from the cache as it stands after the size check; afterwards the cache holds the triple and the surfaces match the size |
| `RenderCache.DrawIdempotent` | WinFormsApp16/RadialMenuControl.cs:175-181 | drawing the same triple again at the same size does nothing, so two identical draws do the work at most once |
| `RenderCache.SizeChangeForcesWork` | WinFormsApp16/RadialMenuControl.cs:152-164 | after a size change, any triple other than (0, 0, 0) is rendered afresh |
| `RenderCache.Paint` | WinFormsApp16/RadialMenuControl.cs:98-105 | while a timer runs, or after closing, painting changes nothing; once opening has stopped it draws (0, 1, 1), doing work exactly when the cache after the size check differs from it, and leaves the surfaces at the control's size |
| `RenderCache.PaintSettles` | WinFormsApp16/RadialMenuControl.cs:98-105 | a second paint right after a first does nothing, so the repaint request at the end of a render cannot loop |
| `RenderCache.PaintAfterResetWorks` | WinFormsApp16/RadialMenuControl.cs:98-103 | after the cache was reset, the idle paint of the opened menu does work |
| `Selection.MouseMove` | WinFormsApp16/RadialMenuControl.cs:107-143 | with the timer on, nothing changes; otherwise the centre is focused (index -1) exactly when the pointer is within the centre radius, else the wedge whose sector holds the direction; the focus invariant holds; under the invariant, the cache is reset to zeros and a repaint requested exactly when the focus pair changed; otherwise the cache is kept; animation and surfaces are untouched |
| `Selection.MouseMoveIdempotent` | WinFormsApp16/RadialMenuControl.cs:119-142 | repeating a move to the same point changes nothing and requests no repaint |
| `Selection.MoveCacheCases` | WinFormsApp16/RadialMenuControl.cs:122-141 | centre to centre and a wedge to the same wedge keep state and cache; centre to a wedge always resets the cache and requests a repaint |
| `Selection.Click` | WinFormsApp16/RadialMenuControl.cs:145-150 | the notification carries exactly the current focus pair; the closing animation restarts from 0 with the timer on, even mid-animation; focus, cache and surfaces are kept |
| `Selection.ClickNoticeWellFormed` | WinFormsApp16/MenuClickEventArgs.cs:8-12 | under the focus invariant a reported centre has index -1, and every reported index lies in [-1, n) |
| `RadialMenu.Apply` | WinFormsApp16/RadialMenuControl.cs:48-150 | every event (start, tick, move, click, paint) keeps the focus invariant, and with `Step ≥ 0` keeps the counter in [0, 60] |
| `RadialMenu.Replay` | WinFormsApp16/RadialMenuControl.cs:48-150 | any sequence of events keeps both invariants |
| `RadialMenu.ReachableStatesWellFormed` | WinFormsApp16/RadialMenuControl.cs:28-58 | every state reachable from the constructor through any events, restarts by `StartAnimation` included, satisfies the focus invariant and, with `Step ≥ 0`, has a counter in [0, 60] |
| `RadialMenu.TickEventsAreRun` | WinFormsApp16/RadialMenuControl.cs:60-73 | k timer events at one size have the same effect as k ticks |
| `RadialMenu.NotRunningIgnoresTicks` | WinFormsApp16/RadialMenuControl.cs:67-68 | timer events do nothing once the timer has stopped |
| `RadialMenu.EnterSettledPaintIsNoOp` | WinFormsApp16/RadialMenuControl.cs:98-103 | when the opening animation has stopped, the counter is 60 and the idle repaint of (0, 1, 1) does nothing |
| `RadialMenu.FocusChangeForcesPaint` | WinFormsApp16/RadialMenuControl.cs:122-141 | a move that changed the focus on the opened menu makes the next paint do work |
| `RadialMenu.DefaultRunCounts` | WinFormsApp16/RadialMenuControl.cs:16 | with the default `Step` of 4, after k ≤ 15 ticks the counter is exactly 4k and the timer still runs |
| `RadialMenu.DefaultRunStopsOnSixteenthTick` | WinFormsApp16/RadialMenuControl.cs:60-73 | with `Step` 4 the timer runs after 15 ticks and is stopped after 16, at count 60 with (0, 1, 1) drawn |
| `RadialMenu.DefaultPointerHits` | WinFormsApp16/RadialMenuControl.cs:115-136 | on a settled 200×200 default control with nothing focused, the pointer at (150, 100) focuses wedge 0 and asks for a repaint; the pointer at (100, 100) focuses the centre (radius 32.5) |
| `RadialMenu.DefaultSession` | WinFormsApp16/RadialMenuControl.cs:35-150 | with the default items, sizes and `Step` on a 200×200 control: opening settles after 16 ticks with nothing focused, and its idle paint does nothing; after the pointer moves to (150, 100), a click reports (false, 0) and starts closing from 0 |

## Left out

- All GDI+ drawing is not modelled: labels, wedges (including the integer `360 / n` sweep of `DrawPie`), separator lines, the centre disc, transparency keys, the colour matrix and the rotate/scale transforms. It is pixel output through a library outside the model. A render shows up only as the updated cache and the repaint request. The scale/offset step is skipped when `scale <= 0` (RadialMenuControl.cs:234-239); nothing here depends on that.
- Bitmap allocation and disposal are not modelled. `Surface` records only whether the two bitmaps exist and at what size. `new Bitmap` at a zero or negative size throws in .NET; this is not modelled.
- Assigning `PictureBox.Image` from outside is not modelled. The model keeps `Image` and `TmpImage` allocated together.
- `SuspendLayout`/`ResumeLayout` and `base.OnPaint`/`base.OnMouseMove` are host plumbing. The early return on a cache hit (RadialMenuControl.cs:177-178) skips the `ResumeLayout(true)` that balances line 174's `SuspendLayout()`, so each cache hit leaves layout suspended one level deeper; the model has no layout state and does not show this. `Invalidate` is only the `repaint` flag.
- Timer scheduling (the 1 ms `System.Windows.Forms.Timer`, its wiring) is host event-loop behaviour. A tick is an explicit call, and a stopped timer delivers none.
- IEEE single and double rounding (`float` counters, `Math.Sqrt`, `Math.Atan2`, `Math.PI`) is not modelled: all arithmetic is exact.
- Changing `Items`, `Font`, `CenterSize`, `CenterBorder` or `Step` while the control runs is not modelled. They are a fixed `Config` with `Items.Count >= 1`. `Font` and `FocusBorder` only affect drawing.
- HitTest.Classify: the direction `t` is an input with the range of `Math.Atan2`. It is not computed from `(dx, dy)`, so the model does not prove that the focused wedge is the one geometrically under the pointer. It proves only that the wedge is the one whose sector holds the direction atan2 reports.
- HitTest.BoundaryGoesToHigherWedge: the tie-break at a wedge boundary is proved for exact reals only. `RadialMenuControl.cs:134-136` computes in `double`, and rounding decides exact ties; the double code can pick the lower wedge. With n = 11 and atan2 = 0, `11 * 2π / 2π` evaluates to 10.999999999999998, so the code picks wedge 10 where `WedgeIndex(11, 0.0)` is 0. With the default n = 6 the boundary values are exact.
- HitTest.BranchCutConsistent: proved for exact reals only. In `double`, with n = 10 and atan2 = +π the argument evaluates to 14.999999999999998, so the code picks wedge 4, while atan2 = -π gives wedge 5; `WedgeIndex(10, 0.5)` is 5.
- HitTest.WedgeIndexInSector: at a direction exactly on a sector boundary, the `double` code may land in the neighbouring lower wedge (the examples above); the sector property is proved for exact reals.
- HitTest.Classify: at a direction exactly on a sector boundary the same `double` rounding caveat applies to the wedge it returns.
- Animation.TimerStops: proved for an exact-real counter only. With a `float` counter, a positive `Step` below half an ulp of the count is lost in `AnimationCount + Step`, so the count sticks and the timer never stops: `Step` = 1e-7f sticks at 2.0, 1e-6f at 32.0. Rounding can also move the stopping tick: with `Step` = 0.1f the float code stops on tick 602, while `TicksToStop(0.1, 0.0)` is 601.
- Animation.RunAdvances: "k ticks add exactly k steps" holds for exact reals; with a `float` counter the sum rounds, as for `Animation.TimerStops`.
- Animation.Tick: with a float counter, `AnimationCount + Step` may round. The exact-real contract does not cover that rounding. With the default `Step` of 4 every value 0, 4, …, 60 is exact in `float`.
- `MenuClickEventArgs` is the `Selection.MenuClick` pair. The `OnMenuClick` delegate invocation is the `notice` field of `Selection.ClickOutcome`.
