/**
 OnMouseMove and OnMouseClick: the focus state machine. A pointer move is
 ignored while the animation timer runs; otherwise it classifies the pointer
 and, only when the focus actually changes, resets the render cache and
 requests a repaint. A click reports the focus to the host and starts the
 closing animation.
 */
module Selection {
  import opened ControlState
  import opened HitTest
  import opened Animation

  /** The payload of the OnMenuClick notification (MenuClickEventArgs). */
  datatype MenuClick = MenuClick(focusedCenter: bool, menuIndex: int)

  /** The state after a click together with the notification it raised. */
  datatype ClickOutcome = ClickOutcome(next: Control, notice: MenuClick)

  /** The radius of the centre zone: half of CenterSize + CenterBorder. */
  function CenterRadius(cfg: Config): real {
    (cfg.centerSize + cfg.centerBorder) / 2.0
  }

  /** The pointer's horizontal offset from the control's centre, Width / 2. */
  function OffsetX(size: Size, x: int): real {
    x as real - size.width as real / 2.0
  }

  /** The pointer's vertical offset from the control's centre, Height / 2. */
  function OffsetY(size: Size, y: int): real {
    y as real - size.height as real / 2.0
  }

  /** True when the pointer at (x, y) is over the centre disc. */
  predicate PointerInCenter(cfg: Config, size: Size, x: int, y: int) {
    InCenter(CenterRadius(cfg), OffsetX(size, x), OffsetY(size, y))
  }

  /**
   OnMouseMove with the pointer at (x, y), in direction t from the centre.
   While the timer runs nothing changes. Otherwise the focus becomes the
   centre (index -1) or the wedge whose sector holds the direction, the
   cache is reset and a repaint requested exactly when the focus changed,
   and the animation and surfaces are untouched.
   */
  function MouseMove(cfg: Config, s: Control, size: Size, x: int, y: int, t: Turn): (r: Reaction)
    requires ValidConfig(cfg)
    ensures s.timerEnabled ==> r == Reaction(s, false)
    ensures !s.timerEnabled ==> FocusInvariant(cfg.itemCount, r.next)
    ensures !s.timerEnabled ==> (r.next.focusedCenter <==> PointerInCenter(cfg, size, x, y))
    ensures !s.timerEnabled && !r.next.focusedCenter ==>
              InSector(cfg.itemCount, r.next.focusedIndex, NormalizedTurn(t))
    ensures FocusInvariant(cfg.itemCount, s) ==> (r.repaint <==> !SameFocus(s, r.next))
    ensures r.repaint ==> r.next.cache == ZeroFrame
    ensures !r.repaint ==> r.next.cache == s.cache
    ensures SameAnimation(s, r.next) && r.next.surface == s.surface
  {
    if s.timerEnabled then Reaction(s, false)
    else
      match Classify(cfg.itemCount, CenterRadius(cfg), OffsetX(size, x), OffsetY(size, y), t)
      case CenterHit =>
        var isUpdate := !s.focusedCenter;
        var focused := s.(focusedCenter := true, focusedIndex := -1);
        if isUpdate then Reaction(focused.(cache := ZeroFrame), true) else Reaction(focused, false)
      case WedgeHit(index) =>
        var oldItem := s.focusedIndex;
        var focused := s.(focusedCenter := false, focusedIndex := index);
        if oldItem != index then Reaction(focused.(cache := ZeroFrame), true) else Reaction(focused, false)
  }

  /** Moving to the same point twice: the second move changes nothing and requests no repaint. */
  lemma {:induction false} MouseMoveIdempotent(cfg: Config, s: Control, size: Size, x: int, y: int, t: Turn)
    requires ValidConfig(cfg)
    ensures var r := MouseMove(cfg, s, size, x, y, t);
            MouseMove(cfg, r.next, size, x, y, t) == Reaction(r.next, false)
  {
    var r := MouseMove(cfg, s, size, x, y, t);
    if !s.timerEnabled && !r.next.focusedCenter {
      WedgeIndexUnique(cfg.itemCount, t, r.next.focusedIndex);
    }
  }

  /**
   The three cache cases of a move: centre to centre and a wedge to the same
   wedge keep the cache; leaving the centre for a wedge always resets it.
   */
  lemma {:induction false} MoveCacheCases(cfg: Config, s: Control, size: Size, x: int, y: int, t: Turn)
    requires ValidConfig(cfg) && FocusInvariant(cfg.itemCount, s) && !s.timerEnabled
    ensures s.focusedCenter && PointerInCenter(cfg, size, x, y) ==>
              MouseMove(cfg, s, size, x, y, t) == Reaction(s, false)
    ensures !s.focusedCenter && !PointerInCenter(cfg, size, x, y) && s.focusedIndex == WedgeIndex(cfg.itemCount, t) ==>
              MouseMove(cfg, s, size, x, y, t) == Reaction(s, false)
    ensures s.focusedCenter && !PointerInCenter(cfg, size, x, y) ==>
              MouseMove(cfg, s, size, x, y, t).repaint && MouseMove(cfg, s, size, x, y, t).next.cache == ZeroFrame
  {
    if !s.focusedCenter && !PointerInCenter(cfg, size, x, y) && s.focusedIndex == WedgeIndex(cfg.itemCount, t) {
      WedgeIndexInSector(cfg.itemCount, t);
      WedgeIndexUnique(cfg.itemCount, t, MouseMove(cfg, s, size, x, y, t).next.focusedIndex);
    }
  }

  /**
   OnMouseClick: notifies the host of exactly the current focus pair and then
   restarts the closing animation, whether or not an animation is running;
   the focus itself is kept.
   */
  function Click(s: Control): (r: ClickOutcome)
    ensures r.notice.focusedCenter == s.focusedCenter && r.notice.menuIndex == s.focusedIndex
    ensures r.next.timerEnabled && r.next.anim == Leave && r.next.count == 0.0
    ensures SameFocus(s, r.next) && r.next.cache == s.cache && r.next.surface == s.surface
  {
    ClickOutcome(StartAnimation(s, Leave), MenuClick(s.focusedCenter, s.focusedIndex))
  }

  /**
   Under the focus invariant a notification names the centre with index -1,
   a wedge in [0, n), or nothing focused as (false, -1).
   */
  lemma ClickNoticeWellFormed(n: int, s: Control)
    requires FocusInvariant(n, s)
    ensures Click(s).notice.focusedCenter ==> Click(s).notice.menuIndex == -1
    ensures -1 <= Click(s).notice.menuIndex < n
    ensures FocusInvariant(n, Click(s).next)
  {
  }
}
