/**
 * Adaptive placement of a bubble: where its top-left corner goes for each
 * pair of placement facets, the cut-off check that flips at most one facet
 * per call, and the outcome of repeating that check until it passes.
 */
module Placement {
  import opened Geometry

  datatype BubbleDisplayLocation = BelowParent | AboveParent

  datatype BubblePointCenteredOnParent = TopRightCorner | TopLeftCorner

  const DefaultDisplayLocation := BelowParent
  const DefaultPointCentered := TopLeftCorner

  /** The two placement facets a bubble carries. */
  datatype Facets = Facets(displayLocation: BubbleDisplayLocation,
                           pointCentered: BubblePointCenteredOnParent)

  const DefaultFacets := Facets(DefaultDisplayLocation, DefaultPointCentered)

  /** The bubbled item as placement sees it: its location already mapped to
      display coordinates, and its size. */
  datatype Anchor = Anchor(location: Point, size: Point)

  /** One placement problem, as read from the toolkit during one show():
      the anchor, the bubble's containing rectangle and the display's
      client area, all taken to stay the same while show() runs. */
  datatype Scene = Scene(anchor: Anchor, bubble: Rectangle, display: Rectangle)

  /** The x coordinate the bubble points at: the middle of the anchor,
      halved with Java's truncating division. */
  function ItemCentreX(anchor: Anchor): int {
    anchor.location.x + JavaHalf(anchor.size.x)
  }

  /** getShellDisplayLocation: the bubble's top-left corner on the display. */
  function ShellDisplayLocation(anchor: Anchor, facets: Facets, bubble: Rectangle): (p: Point)
    // above: the bubble's bottom edge lies on the anchor's top edge
    ensures facets.displayLocation == AboveParent ==> p.y + bubble.height == anchor.location.y
    // below: the bubble's top edge lies on the anchor's bottom edge
    ensures facets.displayLocation == BelowParent ==> p.y == anchor.location.y + anchor.size.y
    // left corner: the bubble's left edge starts at the anchor's middle
    ensures facets.pointCentered == TopLeftCorner ==> p.x == ItemCentreX(anchor)
    // right corner: the bubble's right edge ends at the anchor's middle
    ensures facets.pointCentered == TopRightCorner ==> p.x + bubble.width == ItemCentreX(anchor)
  {
    var y := match facets.displayLocation
      case AboveParent => anchor.location.y - bubble.height
      case BelowParent => anchor.location.y + anchor.size.y;
    var x := match facets.pointCentered
      case TopLeftCorner => anchor.location.x + JavaHalf(anchor.size.x)
      case TopRightCorner => anchor.location.x - bubble.width + JavaHalf(anchor.size.x);
    Point(x, y)
  }

  function Location(scene: Scene, facets: Facets): Point {
    ShellDisplayLocation(scene.anchor, facets, scene.bubble)
  }

  /** The point configureBubbleIfBottomCutOff probes: the bubble's
      bottom-left corner. */
  function LowestYPosition(location: Point, bubble: Rectangle): Point {
    Point(location.x, location.y + bubble.height)
  }

  /** The point configureBubbleIfRightmostTextCutOff probes: the bubble's
      top-right corner. */
  function FarthestXPosition(location: Point, bubble: Rectangle): Point {
    Point(location.x + bubble.width, location.y)
  }

  predicate BottomCutOff(display: Rectangle, location: Point, bubble: Rectangle) {
    !Contains(display, LowestYPosition(location, bubble))
  }

  predicate RightmostTextCutOff(display: Rectangle, location: Point, bubble: Rectangle) {
    !Contains(display, FarthestXPosition(location, bubble))
  }

  /** The result of one configureBubbleIfWouldBeCutOff call: its boolean
      result and the facets it leaves behind. */
  datatype Step = Step(fullyConfigured: bool, facets: Facets)

  /** configureBubbleIfWouldBeCutOff: the bottom check runs first and, when
      it fails, moves the bubble above the parent; only a passing bottom
      check lets a failing right check move it to the right corner. */
  function ConfigureIfWouldBeCutOff(display: Rectangle, location: Point, bubble: Rectangle,
                                    facets: Facets): Step
  {
    if BottomCutOff(display, location, bubble) then
      Step(false, facets.(displayLocation := AboveParent))
    else if RightmostTextCutOff(display, location, bubble) then
      Step(false, facets.(pointCentered := TopRightCorner))
    else
      Step(true, facets)
  }

  /** One pass of the placement loop in show(), at the location the current
      facets give. */
  function StepAt(scene: Scene, facets: Facets): Step {
    ConfigureIfWouldBeCutOff(scene.display, Location(scene, facets), scene.bubble, facets)
  }

  /** Both probed corners of the placement at these facets are on the display. */
  predicate Fits(scene: Scene, facets: Facets) {
    && !BottomCutOff(scene.display, Location(scene, facets), scene.bubble)
    && !RightmostTextCutOff(scene.display, Location(scene, facets), scene.bubble)
  }

  // ---- Properties of one call ----

  lemma NoClippingMeansNoChange(display: Rectangle, location: Point, bubble: Rectangle, facets: Facets)
    ensures var s := ConfigureIfWouldBeCutOff(display, location, bubble, facets);
            s.fullyConfigured <==> (Contains(display, LowestYPosition(location, bubble)) &&
                                    Contains(display, FarthestXPosition(location, bubble)))
    ensures var s := ConfigureIfWouldBeCutOff(display, location, bubble, facets);
            s.fullyConfigured ==> s.facets == facets
  {
  }

  lemma BottomCheckedFirst(display: Rectangle, location: Point, bubble: Rectangle, facets: Facets)
    requires BottomCutOff(display, location, bubble)
    ensures ConfigureIfWouldBeCutOff(display, location, bubble, facets)
            == Step(false, Facets(AboveParent, facets.pointCentered))
  {
  }

  lemma RightCheckedOnlyAfterBottomPasses(display: Rectangle, location: Point, bubble: Rectangle,
                                          facets: Facets)
    ensures var s := ConfigureIfWouldBeCutOff(display, location, bubble, facets);
            s.facets.pointCentered != facets.pointCentered ==>
              !BottomCutOff(display, location, bubble) &&
              RightmostTextCutOff(display, location, bubble) &&
              s.facets == Facets(facets.displayLocation, TopRightCorner)
    ensures !BottomCutOff(display, location, bubble) && RightmostTextCutOff(display, location, bubble)
            ==> ConfigureIfWouldBeCutOff(display, location, bubble, facets)
                == Step(false, Facets(facets.displayLocation, TopRightCorner))
  {
  }

  /** At most one facet changes per call, and no call ever moves a facet
      back to BELOW_PARENT or TOP_LEFT_CORNER. */
  lemma OneFacetPerCallOneWay(display: Rectangle, location: Point, bubble: Rectangle, facets: Facets)
    ensures var s := ConfigureIfWouldBeCutOff(display, location, bubble, facets);
            s.facets.displayLocation == facets.displayLocation ||
            s.facets.pointCentered == facets.pointCentered
    ensures var s := ConfigureIfWouldBeCutOff(display, location, bubble, facets);
            && (s.facets.displayLocation == BelowParent ==> facets.displayLocation == BelowParent)
            && (s.facets.pointCentered == TopLeftCorner ==> facets.pointCentered == TopLeftCorner)
  {
  }

  // ---- The placement loop ----

  /** How the loop `while (!bubbleIsFullyConfigured)` in show() ends. */
  datatype Outcome = Settled(facets: Facets) | NeverSettles

  /** Facets still at their default, that is, corrections still available. */
  function Unflipped(facets: Facets): nat {
    (if facets.displayLocation == BelowParent then 1 else 0) +
    (if facets.pointCentered == TopLeftCorner then 1 else 0)
  }

  /** The placement loop run from `facets`. A failing pass that changes no
      facet (the facet it would flip is already flipped) recomputes the same
      location, so every later pass fails the same way: the loop never ends. */
  function Settle(scene: Scene, facets: Facets): Outcome
    decreases Unflipped(facets)
  {
    var s := StepAt(scene, facets);
    if s.fullyConfigured then Settled(facets)
    else if s.facets == facets then NeverSettles
    else Settle(scene, s.facets)
  }

  /** When the loop ends, both probed corners of the final placement are on
      the display. */
  lemma {:induction false} SettledPlacementFits(scene: Scene, facets: Facets)
    requires Settle(scene, facets).Settled?
    ensures Fits(scene, Settle(scene, facets).facets)
    decreases Unflipped(facets)
  {
    var s := StepAt(scene, facets);
    if !s.fullyConfigured {
      SettledPlacementFits(scene, s.facets);
    }
  }

  /** The loop only ever corrects toward ABOVE_PARENT and TOP_RIGHT_CORNER,
      so it never ends with more facets at their default than it started with. */
  lemma {:induction false} SettleIsOneWay(scene: Scene, facets: Facets)
    requires Settle(scene, facets).Settled?
    ensures var f := Settle(scene, facets).facets;
            && (f.displayLocation == BelowParent ==> facets.displayLocation == BelowParent)
            && (f.pointCentered == TopLeftCorner ==> facets.pointCentered == TopLeftCorner)
            && Unflipped(f) <= Unflipped(facets)
    decreases Unflipped(facets)
  {
    var s := StepAt(scene, facets);
    if !s.fullyConfigured {
      OneFacetPerCallOneWay(scene.display, Location(scene, facets), scene.bubble, facets);
      SettleIsOneWay(scene, s.facets);
    }
  }

  /** A placement that already fits is kept as it is. */
  lemma FittingPlacementIsKept(scene: Scene, facets: Facets)
    requires Fits(scene, facets)
    ensures Settle(scene, facets) == Settled(facets)
  {
  }

  /** The four outcomes the placement integration test expects, starting
      from the default facets: no cut-off keeps the defaults; a bottom
      cut-off moves the bubble above; a right cut-off alone moves it to the
      right corner; and a bottom cut-off whose above placement is cut off on
      the right ends above and in the right corner. Each holds when the
      corrected placement itself fits. */
  lemma IntegrationOutcomes(scene: Scene)
    ensures Fits(scene, DefaultFacets) ==> Settle(scene, DefaultFacets) == Settled(DefaultFacets)
    ensures var below := Location(scene, DefaultFacets);
            BottomCutOff(scene.display, below, scene.bubble) &&
            Fits(scene, Facets(AboveParent, TopLeftCorner))
            ==> Settle(scene, DefaultFacets) == Settled(Facets(AboveParent, TopLeftCorner))
    ensures var below := Location(scene, DefaultFacets);
            !BottomCutOff(scene.display, below, scene.bubble) &&
            RightmostTextCutOff(scene.display, below, scene.bubble) &&
            Fits(scene, Facets(BelowParent, TopRightCorner))
            ==> Settle(scene, DefaultFacets) == Settled(Facets(BelowParent, TopRightCorner))
    ensures var below := Location(scene, DefaultFacets);
            var above := Location(scene, Facets(AboveParent, TopLeftCorner));
            BottomCutOff(scene.display, below, scene.bubble) &&
            !BottomCutOff(scene.display, above, scene.bubble) &&
            RightmostTextCutOff(scene.display, above, scene.bubble) &&
            Fits(scene, Facets(AboveParent, TopRightCorner))
            ==> Settle(scene, DefaultFacets) == Settled(Facets(AboveParent, TopRightCorner))
  {
  }

  /** The loop does not always end: when the anchor's middle is left of the
      display, the bottom-left probe is off the display for both vertical
      facets, so the bottom check fails again after the flip to ABOVE_PARENT. */
  lemma {:induction false} NeverSettlesLeftOfDisplay(scene: Scene, facets: Facets)
    requires facets.pointCentered == TopLeftCorner
    requires ItemCentreX(scene.anchor) < scene.display.x
    ensures Settle(scene, facets) == NeverSettles
  {
    var s := StepAt(scene, facets);
    assert BottomCutOff(scene.display, Location(scene, facets), scene.bubble);
    if facets.displayLocation == BelowParent {
      var above := Facets(AboveParent, TopLeftCorner);
      assert s.facets == above;
      assert BottomCutOff(scene.display, Location(scene, above), scene.bubble);
      assert StepAt(scene, above).facets == above;
    }
  }

  /** An item at (0,0) of size 50x20 and a 120x40 bubble on an 800x600
      display: the default placement at (25, 20) fits and is kept. */
  lemma ScenarioNoCutOff()
    ensures var scene := Scene(Anchor(Point(0, 0), Point(50, 20)),
                               Rectangle(0, 0, 120, 40), Rectangle(0, 0, 800, 600));
            && Settle(scene, DefaultFacets) == Settled(DefaultFacets)
            && Location(scene, DefaultFacets) == Point(25, 20)
  {
  }

  /** An item at (780,580) of size 20x20 and a 150x60 bubble on an 800x600
      display: the bubble ends above the item, right corner, at (640, 520). */
  lemma ScenarioBothCutOff()
    ensures var scene := Scene(Anchor(Point(780, 580), Point(20, 20)),
                               Rectangle(0, 0, 150, 60), Rectangle(0, 0, 800, 600));
            && Settle(scene, DefaultFacets) == Settled(Facets(AboveParent, TopRightCorner))
            && Location(scene, Facets(AboveParent, TopRightCorner)) == Point(640, 520)
  {
    var scene := Scene(Anchor(Point(780, 580), Point(20, 20)),
                       Rectangle(0, 0, 150, 60), Rectangle(0, 0, 800, 600));
    assert Location(scene, DefaultFacets) == Point(790, 600);
    assert StepAt(scene, DefaultFacets).facets == Facets(AboveParent, TopLeftCorner);
    assert Location(scene, Facets(AboveParent, TopLeftCorner)) == Point(790, 520);
    assert StepAt(scene, Facets(AboveParent, TopLeftCorner)).facets
        == Facets(AboveParent, TopRightCorner);
    assert Location(scene, Facets(AboveParent, TopRightCorner)) == Point(640, 520);
  }
}
