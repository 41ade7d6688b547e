# SwipeRemoveLayout, modelled in Dafny

`SwipeRemoveLayout` is an Android `ViewGroup` for a list row whose content can
be swiped sideways to reveal an action menu ("pin", "mark unread", "delete").
Child 0 is the content view. Every later child that is not GONE is a menu
button. This project models the row's three integer-valued parts and proves
properties about them:

- **Geometry** (`geometry.dfy`, module `Geometry`). `onMeasure` and `onLayout`
  become loop methods over a sequence of children. Each child is
  `(width, height, gone, matchParentHeight)`. The loops keep the source's
  accumulators and its `left` / `right` cursors. They are proved against
  cursor functions (`MenuWidthBefore`, `Advance`) and against the placement
  predicate `Placed`. Lemmas about `Placed` give the edge-to-edge adjacency
  of the menu children and the region the menu occupies in each direction.
- **Gesture rules** (`gesture.dfy`, module `Gesture`):
  - the out-of-bounds correction after a drag step (`ClampScroll`, proved to
    be the nearest in-range offset);
  - the release decision table (`ReleaseVerdict`);
  - the two intercept conditions of `onInterceptTouchEvent`.
- **Rows and shared state** (`swipe_remove_layout.dfy`, module `SwipeRemove`).
  Class `SwipeGroup` holds two pieces of process-wide state and one map:
  - `open`, the static `sViewCache`: the row registered as open;
  - `touching`, the static `mIsTouching` guard;
  - `rows`, a map from row identity to per-row state (`Row`).

  Its methods are the row's handlers: `onMeasure`, `onLayout`,
  `dispatchTouchEvent` split by action (`Down`, `Move`, `Release` for
  UP/CANCEL), `onInterceptTouchEvent` (`InterceptMove`, `InterceptRelease`),
  `smoothExpand`, `smoothClose`, `close()` and `onDetachedFromWindow`. Each
  method states the whole new state. `Valid()` is preserved throughout:
  - the registered row exists and is expanded;
  - every row's threshold is four tenths of its menu width;
  - every row's scroll offset stays on its menu's side: non-negative in
    Left mode, non-positive in Right mode.

  `Scenario` is a client method. Its proved assertions walk through two rows:
  one is dragged open, a second finger is refused, and a DOWN on the other
  row closes the first.

Coordinate conventions follow Android. A positive `scrollX` moves the content
to the left. A positive velocity is a rightward fling. In Left mode the menu
is revealed at `scrollX == menuWidth`, in Right mode at `-menuWidth`.

Consequences of the code as written that the model makes explicit:
- A DOWN refused by the touch guard still gets a velocity tracker, because
  `acquireVelocityTracker` runs before the action switch. The model records
  this as `tracking := true` and nothing else changes.
- `smoothClose` clears the registry whichever row it closes.
- In Right mode the release branch of `onInterceptTouchEvent` requires
  `getScrollX() > touchSlop`. A Right-mode offset never rises above zero, so
  that branch can never fire (`RightReleaseNeverIntercepts`,
  `SwipeGroup.RightRowNeverInterceptsRelease`). `InterceptRelease` marks it
  with `assert false`.

## Model

| member | source | states |
|---|---|---|
| Geometry.LimitWidth | library/src/main/java/com/shijingfeng/library/SwipeRemoveLayout.java:283 | the open threshold is four tenths of the menu width rounded down, so 0 <= limit <= menuWidth |
| Geometry.Measure | library/src/main/java/com/shijingfeng/library/SwipeRemoveLayout.java:238-283 | a pass starting from zero: menu width is the sum of the visible children at index >= 1; content width comes from child 0 alone; height is the tallest visible child's (an upper bound that is attained); measured size adds the padding; a uniform-height re-measure is needed exactly when the height is not EXACTLY and some visible child is MATCH_PARENT |
| Geometry.Layout | library/src/main/java/com/shijingfeng/library/SwipeRemoveLayout.java:291-318 | GONE children get no frame; each visible child runs from paddingTop to paddingTop plus its height and is as wide as measured; the content starts at paddingLeft; in Left mode each child's left edge is paddingLeft plus the widths of the visible children before it; in Right mode each menu child's right edge is paddingLeft minus the widths of the visible menu children before it |
| Geometry.GoneRunAddsNothing | library/src/main/java/com/shijingfeng/library/SwipeRemoveLayout.java:299 | GONE children do not move the menu cursor |
| Geometry.MenuWidthBeforeMonotone | library/src/main/java/com/shijingfeng/library/SwipeRemoveLayout.java:276 | the accumulated menu width never decreases along the children |
| Geometry.MenuChildFits | library/src/main/java/com/shijingfeng/library/SwipeRemoveLayout.java:276 | every visible menu child, at its accumulated offset, fits inside the total menu width |
| Geometry.MenuWidthIgnoresContent | library/src/main/java/com/shijingfeng/library/SwipeRemoveLayout.java:268-277 | replacing child 0 does not change the menu width |
| Geometry.HidingShrinksMenu | library/src/main/java/com/shijingfeng/library/SwipeRemoveLayout.java:252-277 | making a visible menu child GONE takes exactly its width off the menu width |
| Geometry.MenuWidthBeforeOfSame | library/src/main/java/com/shijingfeng/library/SwipeRemoveLayout.java:246-279 | the menu width up to n depends only on the first n children |
| Geometry.LeftModeAdjacent | library/src/main/java/com/shijingfeng/library/SwipeRemoveLayout.java:300-309 | in Left mode each visible child's left edge equals the previous visible child's right edge |
| Geometry.RightModeFirstAtPadding | library/src/main/java/com/shijingfeng/library/SwipeRemoveLayout.java:293-294 | in Right mode the first visible menu child's right edge is paddingLeft |
| Geometry.RightModeAdjacent | library/src/main/java/com/shijingfeng/library/SwipeRemoveLayout.java:310-313 | in Right mode each visible menu child's right edge equals the previous visible menu child's left edge |
| Geometry.LeftModeMenuBeyondContent | library/src/main/java/com/shijingfeng/library/SwipeRemoveLayout.java:306-309 | in Left mode every menu child lies between the content's right edge and that edge plus the menu width |
| Geometry.RightModeMenuBeforePadding | library/src/main/java/com/shijingfeng/library/SwipeRemoveLayout.java:310-313 | in Right mode every menu child lies between paddingLeft minus the menu width and paddingLeft |
| Gesture.ExpandTarget | library/src/main/java/com/shijingfeng/library/SwipeRemoveLayout.java:178 | the expanded offset is in range and its magnitude is the menu width |
| Gesture.ClampScroll | library/src/main/java/com/shijingfeng/library/SwipeRemoveLayout.java:375-388 | after the correction the offset is in [0, menuWidth] (Left) or [-menuWidth, 0] (Right); an in-range offset is kept; the result is the in-range offset nearest the input |
| Gesture.ReleaseVerdict | library/src/main/java/com/shijingfeng/library/SwipeRemoveLayout.java:403-448 | never expands unless moved; a slow release expands iff moved and abs(scrollX) > threshold; a fast fling away from the menu closes; a fast fling toward the menu expands iff moved |
| Gesture.InterceptOnMove | library/src/main/java/com/shijingfeng/library/SwipeRemoveLayout.java:464 | a move intercepts iff the finger is more than the slop to either side of the down point |
| Gesture.InterceptOnRelease | library/src/main/java/com/shijingfeng/library/SwipeRemoveLayout.java:470-480 | the release test as the source compares raw x with the row width and offset; its contract: an offset at or below the slop never intercepts, a Right-mode offset at or below zero never intercepts, and a Left-mode intercept lifts left of width - slop (the main promise about it is RightReleaseNeverIntercepts / SwipeGroup.RightRowNeverInterceptsRelease) |
| Gesture.RightReleaseNeverIntercepts | library/src/main/java/com/shijingfeng/library/SwipeRemoveLayout.java:382-388 | after the Right-mode correction, the release intercept can never fire |
| SwipeRemove.NewRow | library/src/main/java/com/shijingfeng/library/SwipeRemoveLayout.java:97-114 | a new row keeps its attributes and starts closed, unscrolled, with zero menu width and no tracker |
| SwipeRemove.SwipeGroup.constructor | library/src/main/java/com/shijingfeng/library/SwipeRemoveLayout.java:47-51 | initially no row is registered and the touch guard is clear |
| SwipeRemove.SwipeGroup.AddRow | library/src/main/java/com/shijingfeng/library/SwipeRemoveLayout.java:97-114 | inflating a row adds it and leaves the shared state alone |
| SwipeRemove.SwipeGroup.SmoothClose | library/src/main/java/com/shijingfeng/library/SwipeRemoveLayout.java:141-162 | the registry becomes empty; the row's offset becomes 0 and it is no longer expanded; no other row changes |
| SwipeRemove.SwipeGroup.SmoothExpand | library/src/main/java/com/shijingfeng/library/SwipeRemoveLayout.java:167-189 | the registry names this row; its offset becomes +menuWidth (Left) or -menuWidth (Right) and it is expanded; no other row changes |
| SwipeRemove.SwipeGroup.OnMeasure | library/src/main/java/com/shijingfeng/library/SwipeRemoveLayout.java:231-288 | the pass satisfies everything Measure promises for the row's own padding (menu width, content width, attained maximum height, threshold, measured size, re-measure flag), and the row keeps the new menu width, height and threshold whatever it held before |
| SwipeRemove.SwipeGroup.OnLayout | library/src/main/java/com/shijingfeng/library/SwipeRemoveLayout.java:291-318 | the frames satisfy the placement for the row's own padding and direction |
| SwipeRemove.SwipeGroup.Down | library/src/main/java/com/shijingfeng/library/SwipeRemoveLayout.java:330-356 | with swipe disabled nothing changes; while the guard is set the DOWN is refused (false) and only the tracker is acquired; otherwise the guard is set, moved and user-swiped are reset, both points become (x, y), a different registered row is closed (the registry becomes empty), and the parent is asked not to intercept iff some row was registered |
| SwipeRemove.SwipeGroup.Move | library/src/main/java/com/shijingfeng/library/SwipeRemoveLayout.java:357-391 | with swipe disabled nothing changes; a near-horizontal step scrolls by lastX - x and sets moved iff that exceeds the slop; the offset is then clamped into the menu's range; the last point becomes (x, y); the parent is asked not to intercept iff the step or the old offset exceeds the slop |
| SwipeRemove.SwipeGroup.Release | library/src/main/java/com/shijingfeng/library/SwipeRemoveLayout.java:392-451 | with swipe disabled nothing changes; otherwise user-swiped records a lift more than the slop from the down point, the verdict expands and registers the row or closes it and empties the registry, the tracker is released and the guard cleared |
| SwipeRemove.SwipeGroup.InterceptMove | library/src/main/java/com/shijingfeng/library/SwipeRemoveLayout.java:461-467 | a move is intercepted iff swipe is enabled and the finger is past the slop from the down point |
| SwipeRemove.SwipeGroup.InterceptRelease | library/src/main/java/com/shijingfeng/library/SwipeRemoveLayout.java:468-481 | a release at raw x is intercepted iff swipe is enabled and the release test holds for the row width, and then the row is closed and the registry emptied; otherwise nothing changes |
| SwipeRemove.SwipeGroup.RightRowNeverInterceptsRelease | library/src/main/java/com/shijingfeng/library/SwipeRemoveLayout.java:475-479 | for any Right-mode row in a valid state, the release intercept condition is false |
| SwipeRemove.SwipeGroup.Close | library/src/main/java/com/shijingfeng/library/SwipeRemoveLayout.java:507-511 | closes the row and empties the registry iff it is the registered row; otherwise nothing changes |
| SwipeRemove.SwipeGroup.Detach | library/src/main/java/com/shijingfeng/library/SwipeRemoveLayout.java:522-527 | a detached row closes and empties the registry iff it is the registered row; otherwise nothing changes |

## Left out

- Animations (`ValueAnimator`, Overshoot and Accelerate interpolators, `cancelAnim`): frame-driven floating-point timing. Each animation is an instant jump to its target, and the expanded flag is set as at the animation's end. So `InterceptRelease`, run right after a `Release`, sees the target offset rather than the offset at release time.
- `VelocityTracker` computation and `mPointerId`: the X velocity is an integer parameter of `Release`. Only whether a tracker is held is recorded.
- Raw float coordinates, the `tan20` ratio test and the `(int)` cast in `scrollBy`: coordinates and deltas are integers. "Within 20 degrees of horizontal" is the boolean parameter `horizontal` of `Move`.
- 32-bit `int` arithmetic: widths, offsets and `mMenuWidth * 4` are unbounded integers. Overflow of the Java sums and products is not modelled.
- `MeasureSpec` encoding, `measureChildWithMargins`, margins and `forceUniformHeight`: the children's measured sizes are inputs. Whether the height spec is EXACTLY is a boolean. The uniform-height re-measure is reported only as the flag `needUniformHeight`.
- `requestDisallowInterceptTouchEvent`: reported as the `disallowParent` result of `Down` and `Move`. The parent's own handling is not modelled.
- `setClickable`, `setLongClickable` on the content view, `mContentView`, `performLongClick` (which compares the float `getScaleX()`), `onDraw` and the `CustomLayoutParams` constructors: Android view calls with no logic of their own here.
- `super.dispatchTouchEvent` and `super.onInterceptTouchEvent`: framework calls. `Down` reports `dispatched == true` where the source hands the event on. The intercept methods return false where the source falls back to the default `ViewGroup` answer.
- `getWidth()`: the width set by the parent's layout is the `width` parameter of `InterceptRelease`.
- The swipe direction attribute is an integer in the source. It is modelled as the two values `Left` and `Right`; a value from neither would lay out no menu children and take no clamp branch.
- Which events reach which handler, and in what order, is up to the host framework. The methods accept any order. For that reason the model does not claim that at most one row is expanded: a `Release` on a row whose DOWN was refused can close that row and clear the registry while another row stays expanded.
- SwipeRemoveAdapter.java and MainActivity.java: list binding, image loading and toasts, with no logic of their own.
