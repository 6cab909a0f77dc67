/**
 * The Bubble widget's own state: the two placement facets, the flags of
 * its show/hide/fade state machine, and what it last handed to its tooltip
 * surface (region, size, location, alpha, visibility). Toolkit reads are
 * parameters: the item's location mapped to the display, its size, the
 * text extent and the display's client area.
 */
module Notifications {
  import opened Geometry
  import opened Placement
  import LineBreaking

  datatype Option<T> = None | Some(value: T)

  const FullyVisibleAlpha := 255

  class Bubble {
    /** The text as shown, after line breaking. */
    const tooltipText: string

    var bubbleDisplayLocation: BubbleDisplayLocation
    var bubblePointCenteredOnParent: BubblePointCenteredOnParent
    var bubbleIsFullyConfigured: bool
    var fadeEffectInProgress: bool
    var disableAutoHide: bool

    /** Null until the first show(). */
    var containingRectangle: Option<Rectangle>
    var borderRectangle: Option<Rectangle>

    /** What the tooltip surface was last given. */
    var tooltipVisible: bool
    var tooltipAlpha: int
    var tooltipSize: Point
    var tooltipLocation: Point

    /** The bubble is placed exactly while it is on screen, a hidden bubble
        has the default facets, and the border rectangle always belongs to
        the containing rectangle. */
    ghost predicate Valid()
      reads this
    {
      && bubbleIsFullyConfigured == tooltipVisible
      && (!tooltipVisible ==> CurrentFacets() == DefaultFacets)
      && (tooltipVisible ==> containingRectangle.Some?)
      && (containingRectangle.Some? <==> borderRectangle.Some?)
      && (containingRectangle.Some? ==>
            borderRectangle.value == BorderRectangle(containingRectangle.value))
    }

    function CurrentFacets(): Facets
      reads this
    {
      Facets(bubbleDisplayLocation, bubblePointCenteredOnParent)
    }

    /** The private constructor: the text is line-broken once, here, and the
        bubble starts hidden with the default facets and every flag clear. */
    constructor (text: string, measure: string -> int, fullExtent: string -> int)
      ensures Valid()
      ensures tooltipText == LineBreaking.BrokenLines(text, measure, fullExtent)
      ensures CurrentFacets() == DefaultFacets
      ensures !bubbleIsFullyConfigured && !fadeEffectInProgress && !disableAutoHide
      ensures !tooltipVisible && containingRectangle == None
    {
      var broken := LineBreaking.MaybeBreakLines(text, measure, fullExtent);
      tooltipText := broken;
      bubbleDisplayLocation := DefaultDisplayLocation;
      bubblePointCenteredOnParent := DefaultPointCentered;
      bubbleIsFullyConfigured := false;
      fadeEffectInProgress := false;
      disableAutoHide := false;
      containingRectangle := None;
      borderRectangle := None;
      tooltipVisible := false;
      tooltipAlpha := FullyVisibleAlpha;
      tooltipSize := Point(0, 0);
      tooltipLocation := Point(0, 0);
    }

    // ---- Placement ----

    method ConfigureBubbleIfBottomCutOff(displayBounds: Rectangle, location: Point,
                                         containing: Rectangle)
      returns (cutOff: bool)
      modifies this`bubbleDisplayLocation
      ensures cutOff == BottomCutOff(displayBounds, location, containing)
      ensures bubbleDisplayLocation == if cutOff then AboveParent else old(bubbleDisplayLocation)
    {
      var lowestYPosition := Point(location.x, location.y + containing.height);
      if !Contains(displayBounds, lowestYPosition) {
        bubbleDisplayLocation := AboveParent;
        cutOff := true;
      } else {
        cutOff := false;
      }
    }

    method ConfigureBubbleIfRightmostTextCutOff(displayBounds: Rectangle, location: Point,
                                                containing: Rectangle)
      returns (cutOff: bool)
      modifies this`bubblePointCenteredOnParent
      ensures cutOff == RightmostTextCutOff(displayBounds, location, containing)
      ensures bubblePointCenteredOnParent
              == if cutOff then TopRightCorner else old(bubblePointCenteredOnParent)
    {
      var farthestXPosition := Point(location.x + containing.width, location.y);
      if !Contains(displayBounds, farthestXPosition) {
        bubblePointCenteredOnParent := TopRightCorner;
        cutOff := true;
      } else {
        cutOff := false;
      }
    }

    method ConfigureBubbleIfWouldBeCutOff(displayBounds: Rectangle, location: Point,
                                          containing: Rectangle)
      returns (fullyConfigured: bool)
      modifies this`bubbleDisplayLocation, this`bubblePointCenteredOnParent
      ensures Step(fullyConfigured, CurrentFacets())
              == ConfigureIfWouldBeCutOff(displayBounds, location, containing, old(CurrentFacets()))
    {
      var bottomCutOff := ConfigureBubbleIfBottomCutOff(displayBounds, location, containing);
      if bottomCutOff {
        return false;
      }
      var rightCutOff := ConfigureBubbleIfRightmostTextCutOff(displayBounds, location, containing);
      if rightCutOff {
        return false;
      }
      return true;
    }

    /** show(): pads the text extent, places the bubble (running the cut-off
        loop unless the bubble is already configured) and makes the tooltip
        fully opaque and visible at that location. The loop ends only when
        Settle says so; otherwise show() never returns. */
    method Show(anchor: Anchor, textExtent: Point, clientArea: Rectangle)
      requires Valid()
      requires bubbleIsFullyConfigured ||
               Settle(Scene(anchor, ContainingRectangleRegion(textExtent), clientArea),
                      CurrentFacets()).Settled?
      modifies this
      ensures Valid()
      ensures var scene := Scene(anchor, ContainingRectangleRegion(textExtent), clientArea);
              if old(bubbleIsFullyConfigured) then CurrentFacets() == old(CurrentFacets())
              else Settled(CurrentFacets()) == Settle(scene, old(CurrentFacets()))
    ensures var scene := Scene(anchor, ContainingRectangleRegion(textExtent), clientArea);
            !old(tooltipVisible) ==> Settled(CurrentFacets()) == Settle(scene, DefaultFacets)
      ensures tooltipLocation
              == ShellDisplayLocation(anchor, CurrentFacets(), ContainingRectangleRegion(textExtent))
      ensures containingRectangle == Some(ContainingRectangleRegion(textExtent))
      ensures borderRectangle == Some(BorderRectangle(ContainingRectangleRegion(textExtent)))
      ensures tooltipSize == Point(textExtent.x + TextWidthPadding, textExtent.y + TextHeightPadding)
      ensures bubbleIsFullyConfigured && tooltipVisible && tooltipAlpha == FullyVisibleAlpha
      ensures fadeEffectInProgress == old(fadeEffectInProgress)
      ensures disableAutoHide == old(disableAutoHide)
    {
      var containing := ContainingRectangleRegion(textExtent);
      containingRectangle := Some(containing);
      borderRectangle := Some(BorderRectangle(containing));
      ghost var scene := Scene(anchor, containing, clientArea);
      ghost var start := CurrentFacets();

      var location := ShellDisplayLocation(anchor, CurrentFacets(), containing);
      while !bubbleIsFullyConfigured
        invariant location == ShellDisplayLocation(anchor, CurrentFacets(), containing)
        invariant old(bubbleIsFullyConfigured) ==> CurrentFacets() == start
        invariant !old(bubbleIsFullyConfigured) ==>
                    if bubbleIsFullyConfigured then Settled(CurrentFacets()) == Settle(scene, start)
                    else Settle(scene, CurrentFacets()) == Settle(scene, start) &&
                         Settle(scene, start).Settled?
        invariant fadeEffectInProgress == old(fadeEffectInProgress)
        invariant disableAutoHide == old(disableAutoHide)
        invariant containingRectangle == Some(containing)
        invariant borderRectangle == Some(BorderRectangle(containing))
        decreases Unflipped(CurrentFacets()) + (if bubbleIsFullyConfigured then 0 else 1)
      {
        bubbleIsFullyConfigured := ConfigureBubbleIfWouldBeCutOff(clientArea, location, containing);
        location := ShellDisplayLocation(anchor, CurrentFacets(), containing);
      }

      tooltipSize := Point(containing.width, containing.height);
      tooltipLocation := location;
      tooltipAlpha := FullyVisibleAlpha;
      tooltipVisible := true;
    }

    // ---- Show/hide/fade state machine ----

    /** fadeOut(): a no-op while a fade is in progress; otherwise the flag is
        set only when the fade effect starts (`effectStarts` is false when
        building or starting it throws InvalidEffectArgumentException). */
    method FadeOut(effectStarts: bool)
      requires Valid()
      modifies this`fadeEffectInProgress
      ensures Valid()
      ensures old(fadeEffectInProgress) ==> fadeEffectInProgress
      ensures !old(fadeEffectInProgress) ==> fadeEffectInProgress == effectStarts
    {
      if fadeEffectInProgress {
        return;
      }
      if effectStarts {
        fadeEffectInProgress := true;
      }
    }

    /** resetState(): the facets back to their defaults and every flag clear. */
    method ResetState()
      modifies this`bubbleDisplayLocation, this`bubblePointCenteredOnParent,
               this`bubbleIsFullyConfigured, this`fadeEffectInProgress, this`disableAutoHide
      ensures CurrentFacets() == DefaultFacets
      ensures !bubbleIsFullyConfigured && !fadeEffectInProgress && !disableAutoHide
    {
      bubbleDisplayLocation := DefaultDisplayLocation;
      bubblePointCenteredOnParent := DefaultPointCentered;
      bubbleIsFullyConfigured := false;
      fadeEffectInProgress := false;
      disableAutoHide := false;
    }

    /** hide(): the tooltip is made invisible and the state reset. */
    method Hide()
      requires Valid()
      modifies this
      ensures Valid()
      ensures !tooltipVisible
      ensures CurrentFacets() == DefaultFacets
      ensures !bubbleIsFullyConfigured && !fadeEffectInProgress && !disableAutoHide
      ensures tooltipAlpha == old(tooltipAlpha) && tooltipSize == old(tooltipSize)
      ensures tooltipLocation == old(tooltipLocation)
      ensures containingRectangle == old(containingRectangle)
      ensures borderRectangle == old(borderRectangle)
    {
      tooltipVisible := false;
      ResetState();
    }

    /** The fade effect's completion callback hides the bubble. */
    method OnFadeComplete()
      requires Valid()
      modifies this
      ensures Valid()
      ensures !tooltipVisible && CurrentFacets() == DefaultFacets
      ensures !bubbleIsFullyConfigured && !fadeEffectInProgress && !disableAutoHide
      ensures tooltipAlpha == old(tooltipAlpha) && tooltipSize == old(tooltipSize)
      ensures tooltipLocation == old(tooltipLocation)
      ensures containingRectangle == old(containingRectangle)
      ensures borderRectangle == old(borderRectangle)
    {
      Hide();
    }

    method SetDisableAutoHide(disable: bool)
      modifies this`disableAutoHide
      ensures disableAutoHide == disable
    {
      disableAutoHide := disable;
    }

    /** A mouse-down on the tooltip hides the bubble unless auto-hide is
        disabled, in which case nothing changes. */
    method OnMouseDown()
      requires Valid()
      modifies this
      ensures Valid()
      ensures old(disableAutoHide) ==> unchanged(this)
      ensures !old(disableAutoHide) ==>
                !tooltipVisible && CurrentFacets() == DefaultFacets &&
                !bubbleIsFullyConfigured && !fadeEffectInProgress && !disableAutoHide &&
                tooltipAlpha == old(tooltipAlpha) && tooltipSize == old(tooltipSize) &&
                tooltipLocation == old(tooltipLocation) &&
                containingRectangle == old(containingRectangle) &&
                borderRectangle == old(borderRectangle)
    {
      if !disableAutoHide {
        Hide();
      }
    }

    // ---- Fadeable ----

    /** fadeComplete(targetAlpha): whether the tooltip has reached the alpha. */
    predicate FadeComplete(targetAlpha: int)
      reads this
    {
      tooltipAlpha == targetAlpha
    }

    /** fade(alpha): sets the tooltip's alpha; the fade toward exactly that
        alpha is then complete, and toward any other it is not. */
    method Fade(alpha: int)
      modifies this`tooltipAlpha
      ensures tooltipAlpha == alpha
      ensures forall target :: FadeComplete(target) <==> target == alpha
    {
      tooltipAlpha := alpha;
    }
  }
}
