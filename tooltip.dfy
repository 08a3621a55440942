/**
 * useTooltip: where the tooltip goes (calculatePosition) and the three
 * flags that drive its enter and exit animations. Coordinates are reals;
 * the halving used for centring is exact here, which IEEE-754 doubles only
 * approximate. Timers and animation frames are explicit pending counts that
 * the environment fires.
 */
module Tooltip {
  import opened JsText

  /** What getBoundingClientRect reports. */
  datatype Rect = Rect(left: real, top: real, right: real, bottom: real, width: real, height: real)

  datatype Placement = Right | Left | Bottom | Top

  datatype Position = Position(x: real, y: real)

  datatype Layout = Layout(position: Position, placement: Placement)

  const Margin: real := 12.0

  function Min(a: real, b: real): real { if a <= b then a else b }
  function Max(a: real, b: real): real { if a >= b then a else b }

  /** `Math.max(lo, Math.min(v, hi))` */
  function Clamp(lo: real, v: real, hi: real): (r: real)
    ensures r >= lo
    ensures hi >= lo ==> r <= hi
    ensures lo <= v <= hi ==> r == v
  {
    Max(lo, Min(v, hi))
  }

  /** Whether the tooltip fits on a side of the trigger, keeping the margin from the trigger and inside the viewport. */
  predicate Fits(p: Placement, trigger: Rect, tip: Rect, vw: real, vh: real)
  {
    match p
    case Right => trigger.right + Margin + tip.width <= vw
    case Left => trigger.left - Margin - tip.width >= 0.0
    case Bottom => trigger.bottom + Margin + tip.height <= vh
    case Top => trigger.top - Margin - tip.height >= 0.0
  }

  /** The vertical coordinate that centres the tooltip on the trigger. */
  function CentreY(trigger: Rect, tip: Rect): real
  {
    trigger.top + (trigger.height - tip.height) / 2.0
  }

  /** The horizontal coordinate that centres the tooltip on the trigger. */
  function CentreX(trigger: Rect, tip: Rect): real
  {
    trigger.left + (trigger.width - tip.width) / 2.0
  }

  /** The cascade: right, left, bottom, top, and a squeezed right when none fits. */
  function Candidate(trigger: Rect, tip: Rect, vw: real, vh: real): Layout
  {
    if Fits(Right, trigger, tip, vw, vh) then
      Layout(Position(trigger.right + Margin, CentreY(trigger, tip)), Right)
    else if Fits(Left, trigger, tip, vw, vh) then
      Layout(Position(trigger.left - Margin - tip.width, CentreY(trigger, tip)), Left)
    else if Fits(Bottom, trigger, tip, vw, vh) then
      Layout(Position(CentreX(trigger, tip), trigger.bottom + Margin), Bottom)
    else if Fits(Top, trigger, tip, vw, vh) then
      Layout(Position(CentreX(trigger, tip), trigger.top - Margin - tip.height), Top)
    else
      Layout(Position(Min(trigger.right + Margin, vw - tip.width - Margin),
                      Clamp(Margin, trigger.top, vh - tip.height - Margin)), Right)
  }

  /**
   * calculatePosition: the candidate position clamped into the viewport. The
   * left and top edges always keep the margin; the right and bottom edges keep
   * it whenever the viewport leaves room for that.
   */
  function CalculatePosition(trigger: Rect, tip: Rect, vw: real, vh: real): (r: Layout)
    ensures r.position.x >= Margin && r.position.y >= Margin
    ensures vw - tip.width - Margin >= Margin ==> r.position.x <= vw - tip.width - Margin
    ensures vh - tip.height - Margin >= Margin ==> r.position.y <= vh - tip.height - Margin
  {
    var c := Candidate(trigger, tip, vw, vh);
    Layout(Position(Clamp(Margin, c.position.x, vw - tip.width - Margin),
                    Clamp(Margin, c.position.y, vh - tip.height - Margin)),
           c.placement)
  }

  /**
   * The placement is the first side in the order right, left, bottom, top on
   * which the tooltip fits, and right when it fits on none.
   */
  lemma PlacementIsFirstFit(trigger: Rect, tip: Rect, vw: real, vh: real)
    ensures var p := CalculatePosition(trigger, tip, vw, vh).placement;
      (p == Right <==> Fits(Right, trigger, tip, vw, vh)
                       || (!Fits(Left, trigger, tip, vw, vh) && !Fits(Bottom, trigger, tip, vw, vh)
                           && !Fits(Top, trigger, tip, vw, vh)))
      && (p == Left <==> !Fits(Right, trigger, tip, vw, vh) && Fits(Left, trigger, tip, vw, vh))
      && (p == Bottom <==> !Fits(Right, trigger, tip, vw, vh) && !Fits(Left, trigger, tip, vw, vh)
                           && Fits(Bottom, trigger, tip, vw, vh))
      && (p == Top <==> !Fits(Right, trigger, tip, vw, vh) && !Fits(Left, trigger, tip, vw, vh)
                        && !Fits(Bottom, trigger, tip, vw, vh) && Fits(Top, trigger, tip, vw, vh))
  {
  }

  /**
   * A side placement is centred vertically on the trigger and a top or bottom
   * one horizontally, unless the clamp has to move it back into the viewport.
   */
  lemma SidePlacementsCentre(trigger: Rect, tip: Rect, vw: real, vh: real)
    ensures var r := CalculatePosition(trigger, tip, vw, vh);
      (Fits(Right, trigger, tip, vw, vh) || Fits(Left, trigger, tip, vw, vh))
      && Margin <= CentreY(trigger, tip) <= vh - tip.height - Margin
      ==> r.position.y == CentreY(trigger, tip)
    ensures var r := CalculatePosition(trigger, tip, vw, vh);
      (r.placement == Bottom || r.placement == Top)
      && Margin <= CentreX(trigger, tip) <= vw - tip.width - Margin
      ==> r.position.x == CentreX(trigger, tip)
  {
  }

  /** A tooltip placed on the right by fitting starts a margin to the right of the trigger, room permitting. */
  lemma RightSitsBesideTrigger(trigger: Rect, tip: Rect, vw: real, vh: real)
    requires Fits(Right, trigger, tip, vw, vh)
    requires Margin <= trigger.right + Margin <= vw - tip.width - Margin
    ensures CalculatePosition(trigger, tip, vw, vh).position.x == trigger.right + Margin
  {
  }

  /** When nothing fits the tooltip goes right, no further than the viewport's right margin allows. */
  lemma FallbackGoesRight(trigger: Rect, tip: Rect, vw: real, vh: real)
    requires !Fits(Right, trigger, tip, vw, vh) && !Fits(Left, trigger, tip, vw, vh)
    requires !Fits(Bottom, trigger, tip, vw, vh) && !Fits(Top, trigger, tip, vw, vh)
    ensures Candidate(trigger, tip, vw, vh).placement == Right
    ensures Candidate(trigger, tip, vw, vh).position.x <= trigger.right + Margin
    ensures Candidate(trigger, tip, vw, vh).position.x <= vw - tip.width - Margin
    ensures Candidate(trigger, tip, vw, vh).position.x == trigger.right + Margin
            || Candidate(trigger, tip, vw, vh).position.x == vw - tip.width - Margin
  {
  }

  /** The class list `[tooltip, placement, visible?, exit?].filter(Boolean)`. */
  function PlacementClass(p: Placement): string
  {
    match p
    case Right => "right"
    case Left => "left"
    case Bottom => "bottom"
    case Top => "top"
  }

  /** What TooltipPortal renders: its classes, its offsets and whether it is hidden. */
  datatype PortalView = PortalView(classes: seq<string>, left: real, top: real, hidden: bool)

  /** The hook's state, including the callbacks that are scheduled but have not run. */
  datatype Snapshot = Snapshot(visible: bool, animatingIn: bool, exiting: bool,
                               position: Position, placement: Placement,
                               pendingReveals: nat, pendingHides: nat)

  const Initial: Snapshot := Snapshot(false, false, false, Position(0.0, 0.0), Right, 0, 0)

  /** showTooltip: clears the exit, shows, and asks for the enter animation two frames later. */
  function AfterShow(s: Snapshot): (r: Snapshot)
    ensures r.visible && !r.exiting
    ensures r.pendingReveals == s.pendingReveals + 1 && r.pendingHides == s.pendingHides
    ensures r.animatingIn == s.animatingIn && r.position == s.position && r.placement == s.placement
  {
    s.(exiting := false, visible := true, pendingReveals := s.pendingReveals + 1)
  }

  /** The second animation frame after a show: the enter animation starts. */
  function AfterReveal(s: Snapshot): (r: Snapshot)
    requires s.pendingReveals > 0
    ensures r.animatingIn && r.pendingReveals == s.pendingReveals - 1
    ensures r.visible == s.visible && r.exiting == s.exiting && r.pendingHides == s.pendingHides
  {
    s.(animatingIn := true, pendingReveals := s.pendingReveals - 1)
  }

  /** hideTooltip: stops the enter animation, starts the exit, and sets a 220 ms timer. */
  function AfterHide(s: Snapshot): (r: Snapshot)
    ensures !r.animatingIn && r.exiting
    ensures r.pendingHides == s.pendingHides + 1 && r.pendingReveals == s.pendingReveals
    ensures r.visible == s.visible && r.position == s.position && r.placement == s.placement
  {
    s.(animatingIn := false, exiting := true, pendingHides := s.pendingHides + 1)
  }

  /** The hide timer fires: hidden, and no longer exiting. Nothing cancels it. */
  function AfterHideTimer(s: Snapshot): (r: Snapshot)
    requires s.pendingHides > 0
    ensures !r.visible && !r.exiting && r.pendingHides == s.pendingHides - 1
    ensures r.animatingIn == s.animatingIn && r.pendingReveals == s.pendingReveals
  {
    s.(visible := false, exiting := false, pendingHides := s.pendingHides - 1)
  }

  /** calculatePosition's effect on the state: nothing when either element is missing. */
  function AfterReposition(s: Snapshot, trigger: Option<Rect>, tip: Option<Rect>, vw: real, vh: real): Snapshot
  {
    if trigger.None? || tip.None? then s
    else
      var l := CalculatePosition(trigger.value, tip.value, vw, vh);
      s.(position := l.position, placement := l.placement)
  }

  /** TooltipPortal: nothing unless visible or exiting; hidden while still at the initial (0, 0). */
  function Portal(s: Snapshot): (r: Option<PortalView>)
    ensures r.Some? <==> s.visible || s.exiting
    ensures r.Some? ==> (r.value.hidden <==> s.position == Position(0.0, 0.0))
    ensures r.Some? ==> ("visible" in r.value.classes <==> s.animatingIn && !s.exiting)
    ensures r.Some? ==> ("exit" in r.value.classes <==> s.exiting)
  {
    if !s.visible && !s.exiting then None
    else
      var classes := ["tooltip", PlacementClass(s.placement)]
                     + (if s.animatingIn && !s.exiting then ["visible"] else [])
                     + (if s.exiting then ["exit"] else []);
      Some(PortalView(classes, s.position.x, s.position.y, s.position.x == 0.0 && s.position.y == 0.0))
  }

  /** A reposition with an element missing changes nothing. */
  lemma RepositionNeedsBothElements(s: Snapshot, trigger: Option<Rect>, tip: Option<Rect>, vw: real, vh: real)
    ensures trigger.None? || tip.None? ==> AfterReposition(s, trigger, tip, vw, vh) == s
    ensures trigger.Some? && tip.Some? ==>
      var r := AfterReposition(s, trigger, tip, vw, vh);
      r.position.x >= Margin && r.position.y >= Margin
      && r.visible == s.visible && r.animatingIn == s.animatingIn && r.exiting == s.exiting
  {
  }

  /**
   * Once positioned, the tooltip is never at (0, 0), so a shown tooltip that
   * has been positioned is not hidden.
   */
  lemma PositionedIsNotHidden(s: Snapshot, trigger: Rect, tip: Rect, vw: real, vh: real)
    requires s.visible
    ensures var r := AfterReposition(s, Some(trigger), Some(tip), vw, vh);
      Portal(r).Some? && !Portal(r).value.hidden
  {
  }

  /** Hovering shows the tooltip; leaving keeps it rendered, exiting, until the timer fires. */
  lemma HideKeepsRenderingUntilTimer(s: Snapshot)
    ensures Portal(AfterShow(s)).Some?
    ensures Portal(AfterHide(AfterShow(s))).Some?
    ensures "exit" in Portal(AfterHide(AfterShow(s))).value.classes
    ensures AfterHide(AfterShow(s)).pendingHides > 0
    ensures Portal(AfterHideTimer(AfterHide(AfterShow(s)))).None?
  {
  }

  /**
   * The timer is not cancelled: hiding, showing again within 220 ms and
   * letting the timer fire leaves the tooltip hidden although the pointer is
   * back on the trigger.
   */
  lemma ShowDoesNotCancelHide(s: Snapshot)
    ensures AfterHide(s).pendingHides > 0
    ensures AfterShow(AfterHide(s)).pendingHides > 0
    ensures Portal(AfterShow(AfterHide(s))).Some?
    ensures Portal(AfterHideTimer(AfterShow(AfterHide(s)))).None?
  {
  }

  /** The enter animation class shows only after the reveal frames and never during an exit. */
  lemma EnterAnimationAfterReveal(s: Snapshot)
    requires !s.animatingIn
    ensures Portal(AfterShow(s)).Some? && "visible" !in Portal(AfterShow(s)).value.classes
    ensures "visible" in Portal(AfterReveal(AfterShow(s))).value.classes
    ensures "visible" !in Portal(AfterReveal(AfterHide(AfterShow(s)))).value.classes
  {
  }

  /** The hook's state as React holds it, with the scheduled callbacks. */
  class TooltipHook {
    var isVisible: bool
    var isAnimatingIn: bool
    var isExiting: bool
    var position: Position
    var placement: Placement
    var pendingReveals: nat
    var pendingHides: nat

    function State(): Snapshot
      reads this
    {
      Snapshot(isVisible, isAnimatingIn, isExiting, position, placement, pendingReveals, pendingHides)
    }

    constructor ()
      ensures State() == Initial
    {
      isVisible, isAnimatingIn, isExiting := false, false, false;
      position, placement := Position(0.0, 0.0), Right;
      pendingReveals, pendingHides := 0, 0;
    }

    method ShowTooltip()
      modifies this
      ensures State() == AfterShow(old(State()))
    {
      isExiting := false;
      isVisible := true;
      pendingReveals := pendingReveals + 1;
    }

    /** The nested requestAnimationFrame callback of showTooltip runs. */
    method RevealFrame()
      requires pendingReveals > 0
      modifies this
      ensures State() == AfterReveal(old(State()))
    {
      isAnimatingIn := true;
      pendingReveals := pendingReveals - 1;
    }

    method HideTooltip()
      modifies this
      ensures State() == AfterHide(old(State()))
    {
      isAnimatingIn := false;
      isExiting := true;
      pendingHides := pendingHides + 1;
    }

    /** The 220 ms timer of hideTooltip runs. */
    method HideTimer()
      requires pendingHides > 0
      modifies this
      ensures State() == AfterHideTimer(old(State()))
    {
      isVisible := false;
      isExiting := false;
      pendingHides := pendingHides - 1;
    }

    /** calculatePosition with the two elements, either of which may be missing, and the viewport size. */
    method CalculatePositionFor(trigger: Option<Rect>, tip: Option<Rect>, vw: real, vh: real)
      modifies this
      ensures State() == AfterReposition(old(State()), trigger, tip, vw, vh)
    {
      if trigger.None? || tip.None? {
        return;
      }
      var layout := CalculatePosition(trigger.value, tip.value, vw, vh);
      position := layout.position;
      placement := layout.placement;
    }
  }
}
