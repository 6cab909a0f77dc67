# Bubble: placement, show/hide/fade state and line breaking

A model, in Dafny, of the core of the `Bubble` widget of swt-bling: a
transient tooltip ("bubble") attached to an SWT control. The model covers
the three parts of `Bubble` that are logic rather than toolkit glue:

- **Adaptive placement.** `getShellDisplayLocation` computes the bubble's
  top-left corner from the anchor's on-display location and size, the
  bubble's containing rectangle, and two facets: above/below the parent and
  top-left/top-right corner. `configureBubbleIfWouldBeCutOff` probes the
  bubble's bottom-left and top-right corners against the display's client
  area. It flips at most one facet per call. The `while` loop in `show()`
  repeats it until it passes. `Rectangle.contains` is modelled as SWT's
  half-open test.
- **The show/hide/fade state machine.** The facets, `bubbleIsFullyConfigured`,
  `fadeEffectInProgress`, `disableAutoHide` and the tooltip's alpha,
  visibility, size and location are fields of the class
  `Notifications.Bubble`. Its methods change them in place, as the source does.
- **Line breaking.** `maybeBreakLines` is a greedy word wrap against a
  400-pixel line (`MAX_STRING_LENGTH`). It runs over Java's
  `String.split(" ")`, which is modelled exactly, trailing empty pieces
  included. Text measurement is abstract: `measure` is the width of one
  string and `fullExtent` the width of the whole text.

Files: `geometry.dfy` (points, rectangles, `contains`, Java's truncating
`/ 2`, the padding helpers), `placement.dfy` (facets, location, the cut-off
step, the outcome of the placement loop), `line_breaking.dfy` (split, the
wrap, its properties), `bubble.dfy` (the `Bubble` class).

The placement loop is specified by `Placement.Settle`, which returns
`Settled(facets)` or `NeverSettles`. Each facet flips only one way, so one
might expect the loop to end after at most two corrections. It does not: a
failing pass that changes no facet probes the same location again and fails
the same way, forever. `NeverSettlesLeftOfDisplay` proves that this happens
whenever the anchor's middle lies left of the display, and `Bubble.Show`
requires that the loop ends.

The model follows the code in these points:
- The wrap width is the constant `MAX_STRING_LENGTH`, 400 pixels.
- The constructor rejects only a null text, so the empty text is accepted.
- The integration test's four expected placements hold when the corrected
  placement itself fits. `IntegrationOutcomes` states each of them with that
  condition.
- Wrapping is proved idempotent provided the empty text is not wider than
  400 pixels. `BrokenLinesIdempotent` carries that condition.
- A hidden bubble always has the default facets: the constructor and
  `hide()` set them, and only `show()` changes them. `Bubble.Valid` keeps
  this, so `Show` on a hidden bubble places it as `Settle` does from the
  defaults, the starting point of `IntegrationOutcomes`.

## Model

| member | source | states |
|---|---|---|
| `Geometry.JavaHalf` | src/main/java/com/readytalk/swt/widgets/notifications/Bubble.java:385-388 | Java's `x / 2` truncates toward zero: the remainder is 0 or 1 for a non-negative dividend and 0 or -1 for a negative one |
| `Geometry.BorderOutlineOnRegionEdge` | src/main/java/com/readytalk/swt/widgets/notifications/Bubble.java:395-406 | the region is the text extent plus 10 x 5 pixels at the origin and the border is 1 pixel narrower and shorter; so the one-pixel outline lies exactly on the region's outermost pixels, and text drawn at the half-padding offset fits inside |
| `Placement.ShellDisplayLocation` | src/main/java/com/readytalk/swt/widgets/notifications/Bubble.java:368-393 | above: the bubble's bottom edge is on the anchor's top edge; below: its top edge is on the anchor's bottom edge; left corner: its left edge starts at the anchor's (truncated) middle; right corner: its right edge ends there |
| `Placement.NoClippingMeansNoChange` | src/main/java/com/readytalk/swt/widgets/notifications/Bubble.java:336-366 | the check returns true exactly when both probed corners are inside the display, and then leaves both facets unchanged |
| `Placement.BottomCheckedFirst` | src/main/java/com/readytalk/swt/widgets/notifications/Bubble.java:336-355 | a bottom cut-off sets ABOVE_PARENT and returns false whatever the right edge does, leaving the horizontal facet alone |
| `Placement.RightCheckedOnlyAfterBottomPasses` | src/main/java/com/readytalk/swt/widgets/notifications/Bubble.java:336-366 | when the bottom check passes and the right check fails, the step sets TOP_RIGHT_CORNER, keeps the vertical facet and returns false; the horizontal facet changes only in that case |
| `Placement.OneFacetPerCallOneWay` | src/main/java/com/readytalk/swt/widgets/notifications/Bubble.java:336-366 | one call changes at most one facet, and never sets BELOW_PARENT or TOP_LEFT_CORNER |
| `Placement.SettledPlacementFits` | src/main/java/com/readytalk/swt/widgets/notifications/Bubble.java:199-204 | when the placement loop ends, both probed corners of the final placement are on the display |
| `Placement.SettleIsOneWay` | src/main/java/com/readytalk/swt/widgets/notifications/Bubble.java:199-204 | the loop only corrects toward ABOVE_PARENT and TOP_RIGHT_CORNER, so it never ends with more default facets than it started with |
| `Placement.FittingPlacementIsKept` | src/main/java/com/readytalk/swt/widgets/notifications/Bubble.java:199-204 | a placement that already fits ends the loop at once with the facets unchanged |
| `Placement.NeverSettlesLeftOfDisplay` | src/main/java/com/readytalk/swt/widgets/notifications/Bubble.java:346-355 | with the left corner and the anchor's middle left of the display, the bottom check keeps failing after the flip to ABOVE_PARENT, so the loop in show() never ends |
| `Placement.IntegrationOutcomes` | src/integTest/java/com/readytalk/swt/widgets/notifications/PopOverShellIntegTest.java:57-64 | from the defaults: no cut-off keeps BELOW/TOP_LEFT; a bottom cut-off gives ABOVE/TOP_LEFT; a right cut-off alone gives BELOW/TOP_RIGHT; a bottom cut-off whose above placement is cut off on the right gives ABOVE/TOP_RIGHT (each when the corrected placement fits) |
| `Placement.ScenarioNoCutOff` | src/main/java/com/readytalk/swt/widgets/notifications/Bubble.java:196-204 | a 50x20 item at the origin with a 120x40 bubble on 800x600 keeps the defaults at (25, 20) |
| `Placement.ScenarioBothCutOff` | src/main/java/com/readytalk/swt/widgets/notifications/Bubble.java:196-204 | a 20x20 item at (780, 580) with a 150x60 bubble on 800x600 ends ABOVE_PARENT / TOP_RIGHT_CORNER at (640, 520) |
| `Notifications.Bubble.constructor` | src/main/java/com/readytalk/swt/widgets/notifications/Bubble.java:139-172 | the text is line-broken once, at construction; the bubble starts hidden, with the default facets and every flag clear |
| `Notifications.Bubble.ConfigureBubbleIfBottomCutOff` | src/main/java/com/readytalk/swt/widgets/notifications/Bubble.java:346-355 | returns whether the bottom-left corner is off the display and, if so, sets ABOVE_PARENT; changes nothing else |
| `Notifications.Bubble.ConfigureBubbleIfRightmostTextCutOff` | src/main/java/com/readytalk/swt/widgets/notifications/Bubble.java:357-366 | returns whether the top-right corner is off the display and, if so, sets TOP_RIGHT_CORNER; changes nothing else |
| `Notifications.Bubble.ConfigureBubbleIfWouldBeCutOff` | src/main/java/com/readytalk/swt/widgets/notifications/Bubble.java:336-344 | its result and the new facets are those of the pure cut-off step, whose properties are the lemmas above |
| `Notifications.Bubble.Show` | src/main/java/com/readytalk/swt/widgets/notifications/Bubble.java:187-211 | an unconfigured bubble ends with the facets the placement loop settles on; a configured one keeps its facets; a hidden bubble is placed as the loop settles from the default facets; either way the tooltip goes to the location of those facets with the padded size, fully opaque and visible, and the bubble stays configured |
| `Notifications.Bubble.FadeOut` | src/main/java/com/readytalk/swt/widgets/notifications/Bubble.java:245-263 | a no-op while a fade is in progress; otherwise the flag becomes true exactly when the fade effect starts, and stays false when starting it throws |
| `Notifications.Bubble.ResetState` | src/main/java/com/readytalk/swt/widgets/notifications/Bubble.java:408-414 | facets back to BELOW_PARENT / TOP_LEFT_CORNER; configured, fade-in-progress and auto-hide-disabled all false |
| `Notifications.Bubble.Hide` | src/main/java/com/readytalk/swt/widgets/notifications/Bubble.java:284-287 | the tooltip becomes invisible and the state is reset; alpha, size, location and rectangles are kept |
| `Notifications.Bubble.OnFadeComplete` | src/main/java/com/readytalk/swt/widgets/notifications/Bubble.java:590-594 | the fade's completion callback hides and resets the bubble, keeping its alpha, size, location and rectangles |
| `Notifications.Bubble.SetDisableAutoHide` | src/main/java/com/readytalk/swt/widgets/notifications/Bubble.java:301-303 | sets only the auto-hide flag |
| `Notifications.Bubble.OnMouseDown` | src/main/java/com/readytalk/swt/widgets/notifications/Bubble.java:455-459 | with auto-hide disabled nothing changes; otherwise the bubble is hidden and reset, keeping its alpha, size, location and rectangles |
| `Notifications.Bubble.Fade` | src/main/java/com/readytalk/swt/widgets/notifications/Bubble.java:570-588 | after fade(a), fadeComplete(t) holds exactly for t = a |
| `LineBreaking.SplitOnSpace` | src/main/java/com/readytalk/swt/widgets/notifications/Bubble.java:479 | the pieces between spaces contain no space and no character foreign to the text, and joined with single spaces give the text back |
| `LineBreaking.DropTrailingEmpty` | src/main/java/com/readytalk/swt/widgets/notifications/Bubble.java:479 | the result is the longest prefix not ending in an empty piece; only empty pieces are dropped |
| `LineBreaking.JavaSplitSpaceWords` | src/main/java/com/readytalk/swt/widgets/notifications/Bubble.java:479 | split(" ") returns the text itself when it has no space; no word contains a space; the words use only the text's characters; with a space in the text the last word is never empty |
| `LineBreaking.MaybeBreakLines` | src/main/java/com/readytalk/swt/widgets/notifications/Bubble.java:469-504 | returns the text unchanged when its full extent is at most 400 or it contains a line break; otherwise the greedy wrap of its split words |
| `LineBreaking.BreakWords` | src/main/java/com/readytalk/swt/widgets/notifications/Bubble.java:482-495 | the loop's StringBuilder ends holding the layout of all words started from an empty line |
| `LineBreaking.LayoutIsAssembled` | src/main/java/com/readytalk/swt/widgets/notifications/Bubble.java:483-495 | the output is the words in order, each followed by one space, with a line break in front of exactly the words that break: words are never split |
| `LineBreaking.PixelCountIsLineWidth` | src/main/java/com/readytalk/swt/widgets/notifications/Bubble.java:482-495 | the running pixel count is the width (word plus space each) of the words already on the current line |
| `LineBreaking.BreakExactlyWhenLineFull` | src/main/java/com/readytalk/swt/widgets/notifications/Bubble.java:485-494 | a word starts a new line exactly when current line width + word width + space width reaches 400, the first word included; a word added to a line leaves it under 400 |
| `LineBreaking.FirstWordBreaksWhenAloneTooWide` | src/main/java/com/readytalk/swt/widgets/notifications/Bubble.java:485-494 | the output starts with a line break exactly when the first word and its space alone reach 400 |
| `LineBreaking.LayoutWithoutNewlines` | src/main/java/com/readytalk/swt/widgets/notifications/Bubble.java:483-495 | deleting every line break from the output gives each word followed by one space |
| `LineBreaking.SplitOfSpacedWords` | src/main/java/com/readytalk/swt/widgets/notifications/Bubble.java:479 | splitting the words-with-spaces text again gives the same words back |
| `LineBreaking.BrokenLinesIdempotent` | src/main/java/com/readytalk/swt/widgets/notifications/Bubble.java:469-504 | line breaking its own output changes nothing, provided the empty text is not wider than 400 |

## Left out

- `Notifications.Bubble.Show`: requires that the placement loop ends. When it does not, `show()` never returns. The model cannot run that loop, so it exhibits the case in `Placement.NeverSettlesLeftOfDisplay` instead.
- `Notifications.Bubble.FadeOut`: `FadeEffect` is not part of this model. Whether building and starting the effect succeeds is the parameter `effectStarts`. The effect's ticks, its timing (200 ms from alpha 255 to 0), and its promise to call the completion callback once are not modelled.
- `Notifications.Bubble.Fade`: assumes the tooltip surface stores the alpha exactly as set, because SWT's clamping or rounding of alpha is not part of this model.
- `Placement.ShellDisplayLocation`: does not model Java's 32-bit wrap-around. Coordinates and sizes are unbounded integers.
- `LineBreaking.BreakWords`: does not model 32-bit wrap-around of `currentPixelCount`.
- The `fadeLock` synchronisation: `fade` and `fadeComplete` are modelled sequentially, since the lock is only about concurrency.
- `BubbleRegistry`: registration, tags, `addTags`, `removeTags`, `deactivateBubble` and tag-based bulk show/hide. Their source is not part of this model.
- Toolkit plumbing: creating and disposing the `Shell`, `Region`, colours and bold font; `onDispose`; `onPaint`; listener wiring; accessibility hooks. All of it is calls into SWT.
- `BubbledItem` and the four `createBubble...` factories. `Show` receives the item's display-mapped location and size as an `Anchor`, and the display client area as a rectangle. The bold font is created after the constructor has already wrapped the text, so wrapping always measures with the plain font: `measure` and `fullExtent` are the plain font's widths. The bold font affects only the text extent measured in `show()`, which is the `textExtent` argument of `Show`, and painting. Bold text can therefore be drawn wider than the widths it was wrapped with.
- `getTextSize` and `GC.textExtent`. The text extent is a parameter of `Show`, and widths are the abstract functions `measure` and `fullExtent`.
- `Show` reads the display's client area and the anchor's location and size once. The source reads them again on every pass of the loop. The model takes them to stay the same while `show()` runs.
- The trivial getters `isVisible`, `getIsFadeEffectInProgress` and `isDisableAutoHide`. They read fields that the model exposes directly.
- The tooltip's position and size before the first `show()`. The constructor gives them placeholder values and promises nothing about them.
