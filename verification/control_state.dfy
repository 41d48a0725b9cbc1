/**
 The state of the radial menu control: the fields RadialMenuControl keeps
 between events, as one immutable record, plus the configuration it reads.
 */
module ControlState {

  /** The two animation profiles: opening (Enter) and closing (Leave). */
  datatype AnimationState = Enter | Leave

  /** A render parameter triple: rotation in degrees, uniform scale, opacity. */
  datatype Frame = Frame(angle: real, scale: real, alpha: real)

  /** The value the parameter cache is reset to. */
  const ZeroFrame: Frame := Frame(0.0, 0.0, 0.0)

  /** The progress value at which an animation ends. */
  const Duration: real := 60.0

  /** The control's client size, Width x Height. */
  datatype Size = Size(width: int, height: int)

  /** The two backing bitmaps (Image and TmpImage), always (re)allocated together. */
  datatype Surface = Unallocated | Allocated(size: Size)

  /**
   The configuration read by the core: Items.Count, CenterSize,
   CenterBorder and Step.
   */
  datatype Config = Config(itemCount: int, centerSize: real, centerBorder: real, step: real)

  /** The property defaults: six items, CenterSize 60, CenterBorder 5, Step 4. */
  const DefaultConfig: Config := Config(6, 60.0, 5.0, 4.0)

  /** The angle arithmetic divides by the item count. */
  predicate ValidConfig(cfg: Config) {
    cfg.itemCount >= 1
  }

  /**
   Everything the control remembers: whether the animation timer is enabled,
   the running profile and its progress counter, the focus pair, the
   last-rendered parameter triple and the backing surfaces.
   */
  datatype Control = Control(
    timerEnabled: bool,
    anim: AnimationState,
    count: real,
    focusedCenter: bool,
    focusedIndex: int,
    cache: Frame,
    surface: Surface)

  /** The state after an event, and whether the event requested a repaint (Invalidate). */
  datatype Reaction = Reaction(next: Control, repaint: bool)

  /** Focus is the centre disc (index -1), no wedge (-1), or one of the n wedges. */
  predicate FocusInvariant(n: int, s: Control) {
    && (s.focusedCenter ==> s.focusedIndex == -1)
    && -1 <= s.focusedIndex < n
  }

  /** The progress counter lies within one animation's span. */
  predicate CountInRange(s: Control) {
    0.0 <= s.count <= Duration
  }

  /** Two states agree on the focus pair. */
  predicate SameFocus(s: Control, t: Control) {
    s.focusedCenter == t.focusedCenter && s.focusedIndex == t.focusedIndex
  }

  /** Two states agree on the timer, the profile and the progress counter. */
  predicate SameAnimation(s: Control, t: Control) {
    s.timerEnabled == t.timerEnabled && s.anim == t.anim && s.count == t.count
  }
}
