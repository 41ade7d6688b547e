/**
 * Measuring and laying out the children of a swipe row.
 *
 * Child 0 is the content view; every later child that is not GONE belongs to
 * the action menu. Sizes are the children's measured sizes, which Android
 * never makes negative.
 */
module Geometry {
  import opened Wrappers

  /** Which way the row is swiped to reveal its menu. */
  datatype Direction = Left | Right

  /** A child view: its measured size, whether it is GONE, and whether its
      layout height is MATCH_PARENT. */
  datatype Child = Child(width: nat, height: nat, gone: bool, matchParentHeight: bool)

  datatype Padding = Padding(left: int, top: int, right: int, bottom: int)

  /** What one measure pass leaves behind. */
  datatype Measurement = Measurement(
    menuWidth: nat,
    height: nat,
    limitWidth: nat,
    contentWidth: nat,
    measuredWidth: int,
    measuredHeight: int,
    needUniformHeight: bool)

  /** A child's frame in the row's coordinates. */
  datatype Rect = Rect(left: int, top: int, right: int, bottom: int)

  /** The horizontal room a child takes: nothing when it is GONE. */
  function Span(c: Child): nat {
    if c.gone then 0 else c.width
  }

  /** Sum of the widths of the visible menu children among cs[1..n]. */
  function MenuWidthBefore(cs: seq<Child>, n: nat): nat
    requires n <= |cs|
  {
    if n <= 1 then 0 else MenuWidthBefore(cs, n - 1) + Span(cs[n - 1])
  }

  /** The width of the whole menu. */
  function MenuWidth(cs: seq<Child>): nat {
    MenuWidthBefore(cs, |cs|)
  }

  /** The content width, taken from child 0 alone. */
  function ContentWidth(cs: seq<Child>): nat {
    if |cs| == 0 then 0 else Span(cs[0])
  }

  /** Width taken by the visible children among cs[..n], content included. */
  function Advance(cs: seq<Child>, n: nat): nat
    requires n <= |cs|
  {
    if n == 0 then 0 else ContentWidth(cs) + MenuWidthBefore(cs, n)
  }

  /** The open threshold: four tenths of the menu width, rounded down. */
  function LimitWidth(menuWidth: nat): (r: nat)
    ensures r <= menuWidth
    ensures 10 * r <= 4 * menuWidth < 10 * (r + 1)
  {
    menuWidth * 4 / 10
  }

  /**
   * What a measure pass computes from the children alone. Its accumulators
   * start at zero, so nothing from an earlier pass survives: the menu width
   * is the sum of the visible menu children, the content width comes from
   * child 0, the height is the tallest visible child (an upper bound that
   * some visible child attains, or 0), the threshold is four tenths of the
   * menu width, the measured size adds the padding, and a uniform-height
   * re-measure is asked for exactly when the height is not EXACTLY and some
   * visible child is MATCH_PARENT high.
   */
  ghost predicate MeasuredFrom(cs: seq<Child>, padding: Padding, heightExactly: bool, m: Measurement) {
    && m.menuWidth == MenuWidth(cs)
    && m.contentWidth == ContentWidth(cs)
    && (forall k :: 0 <= k < |cs| && !cs[k].gone ==> cs[k].height <= m.height)
    && (m.height == 0 || exists k :: 0 <= k < |cs| && !cs[k].gone && cs[k].height == m.height)
    && m.limitWidth == LimitWidth(m.menuWidth) && m.limitWidth <= m.menuWidth
    && m.measuredWidth == padding.left + m.contentWidth + padding.right
    && m.measuredHeight == padding.top + m.height + padding.bottom
    && (m.needUniformHeight <==>
          !heightExactly && exists k :: 0 <= k < |cs| && !cs[k].gone && cs[k].matchParentHeight)
  }

  /** One measure pass (onMeasure). */
  method Measure(cs: seq<Child>, padding: Padding, heightExactly: bool) returns (m: Measurement)
    ensures MeasuredFrom(cs, padding, heightExactly, m)
  {
    var menuWidth: nat := 0;
    var height: nat := 0;
    var contentWidth: nat := 0;
    var needUniform := false;
    var i := 0;
    while i < |cs|
      invariant 0 <= i <= |cs|
      invariant menuWidth == MenuWidthBefore(cs, i)
      invariant contentWidth == (if i == 0 then 0 else ContentWidth(cs))
      invariant forall k :: 0 <= k < i && !cs[k].gone ==> cs[k].height <= height
      invariant height == 0 || exists k :: 0 <= k < i && !cs[k].gone && cs[k].height == height
      invariant needUniform <==>
                  !heightExactly && exists k :: 0 <= k < i && !cs[k].gone && cs[k].matchParentHeight
    {
      var c := cs[i];
      if !c.gone {
        if c.height > height {
          height := c.height;
        }
        if !heightExactly && c.matchParentHeight {
          needUniform := true;
        }
        if i == 0 {
          contentWidth := c.width;
        } else {
          menuWidth := menuWidth + c.width;
        }
      }
      i := i + 1;
    }
    m := Measurement(menuWidth, height, menuWidth * 4 / 10, contentWidth,
                     padding.left + contentWidth + padding.right,
                     padding.top + height + padding.bottom, needUniform);
  }

  /**
   * The placement onLayout gives the children: GONE children get no frame;
   * every visible child is as wide and as high as measured and starts at
   * the top padding; the content starts at the left padding; in Left mode
   * the menu children follow the content left to right, in Right mode they
   * are stacked leftward from the left padding.
   */
  ghost predicate Placed(cs: seq<Child>, frames: seq<Option<Rect>>, pl: int, pt: int, dir: Direction) {
    |frames| == |cs| && PlacedBefore(cs, frames, |cs|, pl, pt, dir)
  }

  /** The placement of the children cs[..n]. */
  ghost predicate PlacedBefore(cs: seq<Child>, frames: seq<Option<Rect>>, n: nat, pl: int, pt: int, dir: Direction)
    requires n <= |cs| && n <= |frames|
  {
    forall i :: 0 <= i < n ==> PlacedAt(cs, i, frames[i], pl, pt, dir)
  }

  /** The placement of child i. */
  ghost predicate PlacedAt(cs: seq<Child>, i: nat, f: Option<Rect>, pl: int, pt: int, dir: Direction)
    requires i < |cs|
  {
    (f.None? <==> cs[i].gone) &&
    (f.Some? ==>
       f.value.top == pt &&
       f.value.bottom == pt + cs[i].height &&
       f.value.right == f.value.left + cs[i].width &&
       ((i == 0 || dir == Left) ==> f.value.left == pl + Advance(cs, i)) &&
       ((i > 0 && dir == Right) ==> f.value.right == pl - MenuWidthBefore(cs, i)))
  }

  /** One layout pass (onLayout), advancing a left cursor and a right cursor. */
  method Layout(cs: seq<Child>, pl: int, pt: int, dir: Direction) returns (frames: seq<Option<Rect>>)
    ensures Placed(cs, frames, pl, pt, dir)
  {
    var left := pl;
    var right := pl;
    frames := [];
    var i := 0;
    while i < |cs|
      invariant 0 <= i <= |cs|
      invariant |frames| == i
      invariant dir == Left ==> left == pl + Advance(cs, i)
      invariant dir == Right ==> left == pl + (if i == 0 then 0 else ContentWidth(cs))
      invariant right == pl - (if dir == Right then MenuWidthBefore(cs, i) else 0)
      invariant PlacedBefore(cs, frames, i, pl, pt, dir)
    {
      var c := cs[i];
      var f: Option<Rect> := None;
      if !c.gone {
        if i == 0 {
          f := Some(Rect(left, pt, left + c.width, pt + c.height));
          left := left + c.width;
        } else if dir == Left {
          f := Some(Rect(left, pt, left + c.width, pt + c.height));
          left := left + c.width;
        } else {
          f := Some(Rect(right - c.width, pt, right, pt + c.height));
          right := right - c.width;
        }
      }
      assert PlacedAt(cs, i, f, pl, pt, dir);
      PlacedExtends(cs, frames, f, i, pl, pt, dir);
      frames := frames + [f];
      i := i + 1;
    }
  }

  /** Placing one more child keeps the children already placed where they are. */
  lemma {:induction false} PlacedExtends(cs: seq<Child>, frames: seq<Option<Rect>>, f: Option<Rect>, n: nat,
                      pl: int, pt: int, dir: Direction)
    requires n < |cs| && n == |frames|
    requires PlacedBefore(cs, frames, n, pl, pt, dir)
    requires PlacedAt(cs, n, f, pl, pt, dir)
    ensures PlacedBefore(cs, frames + [f], n + 1, pl, pt, dir)
  {
  }

  /** A run of GONE menu children adds nothing to the menu width. */
  lemma {:induction false} GoneRunAddsNothing(cs: seq<Child>, a: nat, b: nat)
    requires 1 <= a <= b <= |cs|
    requires forall k :: a <= k < b ==> cs[k].gone
    ensures MenuWidthBefore(cs, b) == MenuWidthBefore(cs, a)
  {
    if b > a {
      GoneRunAddsNothing(cs, a, b - 1);
    }
  }

  /** The menu width accumulated so far never decreases. */
  lemma {:induction false} MenuWidthBeforeMonotone(cs: seq<Child>, a: nat, b: nat)
    requires a <= b <= |cs|
    ensures MenuWidthBefore(cs, a) <= MenuWidthBefore(cs, b)
  {
    if b > a {
      MenuWidthBeforeMonotone(cs, a, b - 1);
    }
  }

  /** Every visible menu child fits inside the menu. */
  lemma {:induction false} MenuChildFits(cs: seq<Child>, k: nat)
    requires 1 <= k < |cs| && !cs[k].gone
    ensures MenuWidthBefore(cs, k) + cs[k].width <= MenuWidth(cs)
  {
    assert MenuWidthBefore(cs, k + 1) == MenuWidthBefore(cs, k) + cs[k].width;
    MenuWidthBeforeMonotone(cs, k + 1, |cs|);
  }

  /** The content child has no say in the menu width. */
  lemma {:induction false} MenuWidthIgnoresContent(cs: seq<Child>, c: Child, n: nat)
    requires 1 <= n <= |cs|
    ensures MenuWidthBefore(cs[0 := c], n) == MenuWidthBefore(cs, n)
  {
    if n > 1 {
      MenuWidthIgnoresContent(cs, c, n - 1);
    }
  }

  /** Hiding menu child k takes exactly its width off the menu. */
  lemma {:induction false} HidingShrinksMenu(cs: seq<Child>, k: nat, n: nat)
    requires 1 <= k < n <= |cs| && !cs[k].gone
    ensures MenuWidthBefore(cs[k := cs[k].(gone := true)], n) + cs[k].width == MenuWidthBefore(cs, n)
  {
    var hidden := cs[k := cs[k].(gone := true)];
    if n - 1 == k {
      MenuWidthBeforeOfSame(cs, hidden, k);
    } else {
      HidingShrinksMenu(cs, k, n - 1);
    }
  }

  lemma {:induction false} MenuWidthBeforeOfSame(cs: seq<Child>, ds: seq<Child>, n: nat)
    requires n <= |cs| && n <= |ds|
    requires forall j :: 0 <= j < n ==> cs[j] == ds[j]
    ensures MenuWidthBefore(cs, n) == MenuWidthBefore(ds, n)
  {
    if n > 1 {
      MenuWidthBeforeOfSame(cs, ds, n - 1);
    }
  }

  /** Left mode: each visible child starts where the previous visible child ends. */
  lemma {:induction false} LeftModeAdjacent(cs: seq<Child>, frames: seq<Option<Rect>>, pl: int, pt: int, i: nat, j: nat)
    requires Placed(cs, frames, pl, pt, Left)
    requires i < j < |cs| && !cs[i].gone && !cs[j].gone
    requires forall k :: i < k < j ==> cs[k].gone
    ensures frames[j].Some? && frames[i].Some?
    ensures frames[j].value.left == frames[i].value.right
  {
    GoneRunAddsNothing(cs, i + 1, j);
  }

  /** Right mode: the first visible menu child ends at the left padding. */
  lemma {:induction false} RightModeFirstAtPadding(cs: seq<Child>, frames: seq<Option<Rect>>, pl: int, pt: int, j: nat)
    requires Placed(cs, frames, pl, pt, Right)
    requires 1 <= j < |cs| && !cs[j].gone
    requires forall k :: 1 <= k < j ==> cs[k].gone
    ensures frames[j].Some? && frames[j].value.right == pl
  {
    GoneRunAddsNothing(cs, 1, j);
  }

  /** Right mode: each visible menu child ends where the previous visible menu child starts. */
  lemma {:induction false} RightModeAdjacent(cs: seq<Child>, frames: seq<Option<Rect>>, pl: int, pt: int, i: nat, j: nat)
    requires Placed(cs, frames, pl, pt, Right)
    requires 1 <= i < j < |cs| && !cs[i].gone && !cs[j].gone
    requires forall k :: i < k < j ==> cs[k].gone
    ensures frames[j].Some? && frames[i].Some?
    ensures frames[j].value.right == frames[i].value.left
  {
    GoneRunAddsNothing(cs, i + 1, j);
  }

  /**
   * Left mode: the menu lies between the content's right edge and that edge
   * plus the menu width, so scrolling by the menu width reveals all of it.
   */
  lemma {:induction false} LeftModeMenuBeyondContent(cs: seq<Child>, frames: seq<Option<Rect>>, pl: int, pt: int, k: nat)
    requires Placed(cs, frames, pl, pt, Left)
    requires 1 <= k < |cs| && !cs[k].gone
    ensures frames[k].Some?
    ensures pl + ContentWidth(cs) <= frames[k].value.left
    ensures frames[k].value.right <= pl + ContentWidth(cs) + MenuWidth(cs)
  {
    MenuChildFits(cs, k);
  }

  /**
   * Right mode: the menu lies between the left padding minus the menu width
   * and the left padding, so scrolling by minus the menu width reveals it.
   */
  lemma {:induction false} RightModeMenuBeforePadding(cs: seq<Child>, frames: seq<Option<Rect>>, pl: int, pt: int, k: nat)
    requires Placed(cs, frames, pl, pt, Right)
    requires 1 <= k < |cs| && !cs[k].gone
    ensures frames[k].Some?
    ensures pl - MenuWidth(cs) <= frames[k].value.left
    ensures frames[k].value.right <= pl
  {
    MenuChildFits(cs, k);
  }
}
