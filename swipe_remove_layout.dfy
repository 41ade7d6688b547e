/**
 * The rows of a list, each a SwipeRemoveLayout, together with the two
 * pieces of state every row shares: the row whose menu is currently open
 * (at most one is registered at a time) and the guard that lets only one
 * finger drive a gesture.
 *
 * Animations are instant: closing jumps the offset to 0 and clears the
 * expanded flag, expanding jumps it to the revealed position and sets the
 * flag, as the animators' end callbacks do.
 */
module SwipeRemove {
  import opened Wrappers
  import opened Geometry
  import opened Gesture

  /** Names a row; stands for the identity of a SwipeRemoveLayout object. */
  type RowId = nat

  /** What a row is given when it is inflated: its style attributes, the system touch slop and its padding. */
  datatype Config = Config(swipeEnabled: bool, direction: Direction, touchSlop: nat, padding: Padding)

  /** The per-row state of one SwipeRemoveLayout. */
  datatype Row = Row(
    cfg: Config,
    // left behind by the last measure pass
    menuWidth: nat,
    height: nat,
    limitWidth: nat,
    // where the finger went down, and where it was last seen
    downX: int,
    downY: int,
    lastX: int,
    lastY: int,
    // the horizontal scroll offset
    scrollX: int,
    // the finger made a near-horizontal step longer than the slop in this gesture
    moved: bool,
    // the finger lifted more than the slop away from where it went down
    userSwiped: bool,
    // the menu is open
    expanded: bool,
    // a velocity tracker is held
    tracking: bool)

  function NewRow(cfg: Config): (r: Row)
    ensures r.cfg == cfg && r.scrollX == 0 && !r.expanded && !r.tracking && r.menuWidth == 0
  {
    Row(cfg, 0, 0, 0, 0, 0, 0, 0, 0, false, false, false, false)
  }

  /**
   * What every row keeps true: the threshold belongs to the current menu
   * width, and the offset never leaves the menu's side (non-negative in
   * Left mode, non-positive in Right mode).
   */
  ghost predicate RowValid(r: Row) {
    r.limitWidth == LimitWidth(r.menuWidth) &&
    (r.cfg.direction == Left ==> r.scrollX >= 0) &&
    (r.cfg.direction == Right ==> r.scrollX <= 0)
  }

  /** The row after its close animation has run. */
  function Closed(r: Row): Row {
    r.(scrollX := 0, expanded := false)
  }

  /** The row after its expand animation has run. */
  function Opened(r: Row): Row {
    r.(scrollX := ExpandTarget(r.cfg.direction, r.menuWidth), expanded := true)
  }

  /** The row just after a DOWN it accepted. */
  function Pressed(r: Row, x: int, y: int): Row {
    r.(tracking := true, moved := false, userSwiped := false, downX := x, downY := y, lastX := x, lastY := y)
  }

  class SwipeGroup {
    /** The row registered as open (the static sViewCache). */
    var open: Option<RowId>
    /** A finger is already driving a gesture (the static mIsTouching). */
    var touching: bool
    var rows: map<RowId, Row>

    /** The registered row exists and its menu is open; every row keeps RowValid. */
    ghost predicate Valid()
      reads this
    {
      (open.Some? ==> open.value in rows && rows[open.value].expanded) &&
      forall id :: id in rows ==> RowValid(rows[id])
    }

    constructor ()
      ensures Valid() && open == None && !touching && rows == map[]
    {
      open := None;
      touching := false;
      rows := map[];
    }

    /** A new SwipeRemoveLayout is inflated with the given attributes. */
    method AddRow(id: RowId, cfg: Config)
      requires Valid() && id !in rows
      modifies this
      ensures Valid()
      ensures rows == old(rows)[id := NewRow(cfg)] && open == old(open) && touching == old(touching)
    {
      rows := rows[id := NewRow(cfg)];
    }

    /** smoothClose: clears the registry, whichever row it names, and closes this row. */
    method SmoothClose(id: RowId)
      requires Valid() && id in rows
      modifies this
      ensures Valid()
      ensures open == None && touching == old(touching)
      ensures rows == old(rows)[id := Closed(old(rows[id]))]
    {
      open := None;
      rows := rows[id := Closed(rows[id])];
    }

    /** smoothExpand: registers this row and opens it in its own direction. */
    method SmoothExpand(id: RowId)
      requires Valid() && id in rows
      modifies this
      ensures Valid()
      ensures open == Some(id) && touching == old(touching)
      ensures rows == old(rows)[id := Opened(old(rows[id]))]
    {
      open := Some(id);
      var r := rows[id];
      rows := rows[id := r.(scrollX := if r.cfg.direction == Left then r.menuWidth else -(r.menuWidth as int),
                            expanded := true)];
    }

    /** onMeasure: a fresh measure pass whose menu width, height and threshold the row keeps. */
    method OnMeasure(id: RowId, cs: seq<Child>, heightExactly: bool) returns (m: Measurement)
      requires Valid() && id in rows
      modifies this
      ensures Valid() && open == old(open) && touching == old(touching)
      ensures MeasuredFrom(cs, old(rows[id]).cfg.padding, heightExactly, m)
      ensures rows == old(rows)[id := old(rows[id]).(menuWidth := m.menuWidth, height := m.height,
                                                     limitWidth := LimitWidth(m.menuWidth))]
    {
      var r := rows[id];
      m := Measure(cs, r.cfg.padding, heightExactly);
      rows := rows[id := r.(menuWidth := m.menuWidth, height := m.height, limitWidth := m.limitWidth)];
    }

    /** onLayout: the frames this row's children get from its padding and direction. */
    method OnLayout(id: RowId, cs: seq<Child>) returns (frames: seq<Option<Rect>>)
      requires id in rows
      ensures Placed(cs, frames, rows[id].cfg.padding.left, rows[id].cfg.padding.top, rows[id].cfg.direction)
    {
      var r := rows[id];
      frames := Layout(cs, r.cfg.padding.left, r.cfg.padding.top, r.cfg.direction);
    }

    /**
     * dispatchTouchEvent for ACTION_DOWN at (x, y). `dispatched` is false
     * when the row refuses the event (another finger is already down);
     * `disallowParent` says the row asked its parent not to intercept.
     * A refused DOWN still acquires the velocity tracker and changes
     * nothing else. An accepted DOWN closes the registered row if that is
     * another row, which leaves the registry empty.
     */
    method Down(id: RowId, x: int, y: int) returns (dispatched: bool, disallowParent: bool)
      requires Valid() && id in rows
      modifies this
      ensures Valid()
      ensures !old(rows[id]).cfg.swipeEnabled ==>
                dispatched && !disallowParent &&
                rows == old(rows) && open == old(open) && touching == old(touching)
      ensures old(rows[id]).cfg.swipeEnabled && old(touching) ==>
                !dispatched && !disallowParent && touching && open == old(open) &&
                rows == old(rows)[id := old(rows[id]).(tracking := true)]
      ensures old(rows[id]).cfg.swipeEnabled && !old(touching) ==>
                dispatched && touching && disallowParent == old(open).Some? &&
                open == (if old(open) == Some(id) then Some(id) else None) &&
                rows == (if old(open).Some? && old(open).value != id
                         then old(rows)[id := Pressed(old(rows[id]), x, y)]
                                       [old(open).value := Closed(old(rows)[old(open).value])]
                         else old(rows)[id := Pressed(old(rows[id]), x, y)])
    {
      var r := rows[id];
      if !r.cfg.swipeEnabled {
        return true, false;
      }
      rows := rows[id := r.(tracking := true)];
      if touching {
        return false, false;
      }
      touching := true;
      rows := rows[id := Pressed(r, x, y)];
      disallowParent := false;
      if open.Some? {
        if open.value != id {
          SmoothClose(open.value);
        }
        disallowParent := true;
      }
      dispatched := true;
    }

    /**
     * dispatchTouchEvent for ACTION_MOVE to (x, y); `horizontal` says the
     * step is within 20 degrees of horizontal. A near-horizontal step
     * scrolls by the horizontal distance from the last point (and marks the
     * gesture as moved when that distance exceeds the slop); then the
     * offset is brought back into the menu's range and the last point
     * becomes (x, y).
     */
    method Move(id: RowId, x: int, y: int, horizontal: bool) returns (disallowParent: bool)
      requires Valid() && id in rows
      modifies this
      ensures Valid() && open == old(open) && touching == old(touching)
      ensures !old(rows[id]).cfg.swipeEnabled ==> !disallowParent && rows == old(rows)
      ensures var r := old(rows[id]); var dx := r.lastX - x;
              r.cfg.swipeEnabled ==>
                disallowParent == (Abs(dx) > r.cfg.touchSlop || Abs(r.scrollX) > r.cfg.touchSlop) &&
                rows == old(rows)[id := r.(
                  tracking := true,
                  scrollX := ClampScroll(if horizontal then r.scrollX + dx else r.scrollX,
                                         r.menuWidth, r.cfg.direction),
                  moved := r.moved || (horizontal && Abs(dx) > r.cfg.touchSlop),
                  lastX := x,
                  lastY := y)]
      ensures old(rows[id]).cfg.swipeEnabled ==>
                id in rows && InRange(rows[id].scrollX, rows[id].menuWidth, rows[id].cfg.direction)
    {
      var r := rows[id];
      if !r.cfg.swipeEnabled {
        return false;
      }
      var slop := r.cfg.touchSlop;
      var dx := r.lastX - x;
      disallowParent := Abs(dx) > slop || Abs(r.scrollX) > slop;
      var scroll := r.scrollX;
      var moved := r.moved;
      if horizontal {
        if Abs(dx) > slop {
          moved := true;
        }
        scroll := scroll + dx;
      }
      // out-of-bounds correction
      if r.cfg.direction == Left {
        if scroll < 0 {
          scroll := 0;
        } else if scroll > r.menuWidth {
          scroll := r.menuWidth;
        }
      } else {
        if scroll > 0 {
          scroll := 0;
        } else if scroll < -(r.menuWidth as int) {
          scroll := -(r.menuWidth as int);
        }
      }
      rows := rows[id := r.(tracking := true, scrollX := scroll, moved := moved, lastX := x, lastY := y)];
    }

    /**
     * dispatchTouchEvent for ACTION_UP or ACTION_CANCEL at x, with the
     * tracker's horizontal velocity. The release verdict expands (and
     * registers) or closes (and clears the registry); the tracker is
     * released and the touch guard cleared.
     */
    method Release(id: RowId, x: int, velocityX: int)
      requires Valid() && id in rows
      modifies this
      ensures Valid()
      ensures !old(rows[id]).cfg.swipeEnabled ==>
                rows == old(rows) && open == old(open) && touching == old(touching)
      ensures var r := old(rows[id]);
              var v := ReleaseVerdict(velocityX, r.cfg.direction, r.scrollX, r.limitWidth, r.moved);
              var lifted := r.(userSwiped := r.userSwiped || Abs(x - r.downX) > r.cfg.touchSlop,
                               tracking := false);
              r.cfg.swipeEnabled ==>
                !touching &&
                open == (if v == Expand then Some(id) else None) &&
                rows == old(rows)[id := if v == Expand then Opened(lifted) else Closed(lifted)]
    {
      var r := rows[id];
      if !r.cfg.swipeEnabled {
        return;
      }
      var swiped := r.userSwiped;
      if Abs(x - r.downX) > r.cfg.touchSlop {
        swiped := true;
      }
      // the tracker acquired for this event is read and released within it
      rows := rows[id := r.(userSwiped := swiped, tracking := false)];
      touching := false;
      if ReleaseVerdict(velocityX, r.cfg.direction, r.scrollX, r.limitWidth, r.moved) == Expand {
        SmoothExpand(id);
      } else {
        SmoothClose(id);
      }
    }

    /** onInterceptTouchEvent for ACTION_MOVE at x: takes the stream once the finger is past the slop. */
    method InterceptMove(id: RowId, x: int) returns (intercept: bool)
      requires id in rows
      ensures intercept <==>
                rows[id].cfg.swipeEnabled && InterceptOnMove(rows[id].downX, x, rows[id].cfg.touchSlop)
    {
      var r := rows[id];
      intercept := r.cfg.swipeEnabled && Abs(r.downX - x) > r.cfg.touchSlop;
    }

    /**
     * onInterceptTouchEvent for ACTION_UP or ACTION_CANCEL at raw x, for a
     * row `width` wide: when the release test holds, the row is closed and
     * the event is taken from its children.
     */
    method InterceptRelease(id: RowId, x: int, width: int) returns (intercept: bool)
      requires Valid() && id in rows
      modifies this
      ensures Valid() && touching == old(touching)
      ensures var r := old(rows[id]);
              intercept <==> r.cfg.swipeEnabled &&
                             InterceptOnRelease(r.cfg.direction, r.scrollX, r.cfg.touchSlop, x, width)
      ensures intercept ==> open == None && rows == old(rows)[id := Closed(old(rows[id]))]
      ensures !intercept ==> open == old(open) && rows == old(rows)
    {
      var r := rows[id];
      intercept := false;
      if r.cfg.swipeEnabled {
        var slop := r.cfg.touchSlop;
        if r.cfg.direction == Left {
          if r.scrollX > slop && x < width - r.scrollX {
            SmoothClose(id);
            intercept := true;
          }
        } else {
          if r.scrollX > slop && x > -r.scrollX {
            // unreachable: RowValid keeps a Right-mode offset at or below zero
            assert false;
          }
        }
      }
    }

    /** In Right mode the release intercept never fires, whatever the gestures so far. */
    lemma RightRowNeverInterceptsRelease(id: RowId, x: int, width: int)
      requires Valid() && id in rows && rows[id].cfg.direction == Right
      ensures !InterceptOnRelease(Right, rows[id].scrollX, rows[id].cfg.touchSlop, x, width)
    {
    }

    /** close(): closes this row only when it is the registered one. */
    method Close(id: RowId)
      requires Valid() && id in rows
      modifies this
      ensures Valid() && touching == old(touching)
      ensures old(open) == Some(id) ==> open == None && rows == old(rows)[id := Closed(old(rows[id]))]
      ensures old(open) != Some(id) ==> open == old(open) && rows == old(rows)
    {
      if open == Some(id) {
        SmoothClose(id);
      }
    }

    /** onDetachedFromWindow: a detached row closes only when it is the registered one. */
    method Detach(id: RowId)
      requires Valid() && id in rows
      modifies this
      ensures Valid() && touching == old(touching)
      ensures old(open) == Some(id) ==> open == None && rows == old(rows)[id := Closed(old(rows[id]))]
      ensures old(open) != Some(id) ==> open == old(open) && rows == old(rows)
    {
      if open == Some(id) {
        SmoothClose(id);
      }
    }
  }

  /**
   * Two Left-mode rows with a 100-pixel menu: dragging row 1 left past the
   * threshold opens and registers it; a DOWN on row 2 closes row 1 and
   * empties the registry; a second finger meanwhile is refused.
   */
  method Scenario() {
    var g := new SwipeGroup();
    var cfg := Config(true, Left, 8, Padding(0, 0, 0, 0));
    g.AddRow(1, cfg);
    g.AddRow(2, cfg);
    var cs := [Child(300, 60, false, false), Child(60, 60, false, true), Child(40, 60, false, true)];
    var m := g.OnMeasure(1, cs, true);
    assert MenuWidthBefore(cs, 2) == 60;
    assert m.menuWidth == 100;
    assert g.rows[1].height == 60 && g.rows[1].limitWidth == 40;
    m := g.OnMeasure(2, cs, true);

    var ok, _ := g.Down(1, 250, 30);
    assert ok && g.touching;
    var _ := g.Move(1, 190, 32, true);
    assert g.rows[1].scrollX == 60 && g.rows[1].moved;
    var second, _ := g.Down(2, 100, 90);
    assert !second;
    g.Release(1, 190, -200);
    assert g.open == Some(1) && g.rows[1].scrollX == 100 && g.rows[1].expanded && !g.touching;

    var accepted, disallow := g.Down(2, 100, 90);
    assert accepted && disallow;
    assert g.open == None && g.rows[1].scrollX == 0 && !g.rows[1].expanded;
  }
}
