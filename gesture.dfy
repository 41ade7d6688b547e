/**
 * The integer rules behind a swipe row's gesture handling: where a drag may
 * leave the scroll offset, what a release decides, and when the row takes
 * the touch stream away from its children.
 *
 * The scroll offset follows Android's convention: a positive offset moves
 * the content to the left. In Left mode the menu sits to the right of the
 * content and is revealed at offset menuWidth; in Right mode it sits to the
 * left and is revealed at offset -menuWidth.
 */
module Gesture {
  import opened Geometry

  /** Release speeds (pixels per second) above this count as a fling. */
  const MaxSwipeSpeed: int := 1000

  /** What a release does to the row. */
  datatype Verdict = Expand | Close

  function Abs(x: int): nat {
    if x < 0 then -x else x
  }

  /** The offsets a drag may leave the row at. */
  predicate InRange(s: int, menuWidth: nat, dir: Direction) {
    match dir
    case Left => 0 <= s <= menuWidth
    case Right => -(menuWidth as int) <= s <= 0
  }

  /** The offset at which the menu is fully revealed. */
  function ExpandTarget(dir: Direction, menuWidth: nat): (s: int)
    ensures InRange(s, menuWidth, dir) && Abs(s) == menuWidth
  {
    if dir == Left then menuWidth else -(menuWidth as int)
  }

  /** The out-of-bounds correction applied after every drag step. */
  function ClampScroll(s: int, menuWidth: nat, dir: Direction): (r: int)
    ensures InRange(r, menuWidth, dir)
    ensures InRange(s, menuWidth, dir) ==> r == s
    ensures forall t :: InRange(t, menuWidth, dir) ==> Abs(r - s) <= Abs(t - s)
  {
    match dir
    case Left => if s < 0 then 0 else if s > menuWidth then menuWidth else s
    case Right => if s > 0 then 0 else if s < -(menuWidth as int) then -(menuWidth as int) else s
  }

  /** A release velocity (positive: rightward) that moves toward revealing the menu. */
  predicate TowardMenu(velocityX: int, dir: Direction) {
    match dir
    case Left => velocityX < 0
    case Right => velocityX > 0
  }

  /**
   * The release decision table. A fast fling away from the menu closes; a
   * fast fling toward it expands exactly when the finger has really moved;
   * a slow release expands exactly when the finger has moved and the
   * offset is past the open threshold. A release never expands unless the
   * finger has moved.
   */
  function ReleaseVerdict(velocityX: int, dir: Direction, scrollX: int, limitWidth: int, moved: bool): (v: Verdict)
    ensures v == Expand ==> moved
    ensures Abs(velocityX) <= MaxSwipeSpeed ==> (v == Expand <==> moved && Abs(scrollX) > limitWidth)
    ensures Abs(velocityX) > MaxSwipeSpeed && !TowardMenu(velocityX, dir) ==> v == Close
    ensures Abs(velocityX) > MaxSwipeSpeed && TowardMenu(velocityX, dir) ==> (v == Expand <==> moved)
  {
    if Abs(velocityX) > MaxSwipeSpeed then
      if velocityX > 0 then
        match dir
        case Left => Close
        case Right => if moved then Expand else Close
      else
        match dir
        case Left => if moved then Expand else Close
        case Right => Close
    else if Abs(scrollX) > limitWidth then
      if moved then Expand else Close
    else
      Close
  }

  /** On a move, the row intercepts once the finger is more than the slop away from where it went down. */
  function InterceptOnMove(downX: int, x: int, slop: nat): (b: bool)
    ensures b <==> x < downX - slop || x > downX + slop
  {
    Abs(downX - x) > slop
  }

  /**
   * The release test of onInterceptTouchEvent, as the source compares its
   * values: `x` is the raw (screen) coordinate of the lift and `width` the
   * row's own width. Left mode asks for x < width - scrollX, Right mode for
   * x > -scrollX, and both ask for an offset above the slop. So an offset at
   * or below the slop never intercepts, and an offset on the Right-mode side
   * of zero never does in Right mode; a Left-mode intercept lifts left of
   * width - slop.
   */
  function InterceptOnRelease(dir: Direction, scrollX: int, slop: nat, x: int, width: int): (b: bool)
    ensures scrollX <= slop ==> !b
    ensures dir == Right && scrollX <= 0 ==> !b
    ensures dir == Left && b ==> x < width - slop
  {
    match dir
    case Left => scrollX > slop && x < width - scrollX
    case Right => scrollX > slop && x > -scrollX
  }

  /**
   * In Right mode every offset a drag can leave is at most zero, so the
   * release intercept, which asks for an offset above the slop, never fires.
   */
  lemma RightReleaseNeverIntercepts(s: int, menuWidth: nat, slop: nat, x: int, width: int)
    ensures !InterceptOnRelease(Right, ClampScroll(s, menuWidth, Right), slop, x, width)
  {
  }
}
