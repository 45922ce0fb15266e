/** MSliderMagneticPoint: an event filter on a slider that pulls the
    slider onto one magnetic value when the mouse drags toward it. It is
    armed by leaving the zone around the point and snaps only on a move
    toward the point while armed and inside the zone. Positions are pixel
    coordinates along the slider's orientation; the value/pixel
    conversions of the slider's style are function parameters. */
module MagneticPoint {
  import opened QtString

  /** The part of an event the filter looks at: whether it is addressed to
      the watched slider, whether it is a mouse move, the slider's
      pressed and focus state, and the cursor coordinate along the slider. */
  datatype MouseEvent = MouseEvent(onSlider: bool, isMove: bool, sliderDown: bool, focused: bool, pos: int)

  /** What the filter does with an event: let it through, swallow it, or
      consume it after moving the slider onto the magnetic value or onto
      the value under the cursor at pixel `pos`. */
  datatype Reaction = PassThrough | Swallow | SnapToMagnet | FollowCursor(pos: int)

  /** The filter's own state: the last handled coordinate and whether the
      next move toward the point may snap. */
  datatype Filter = Filter(previousPos: int, armed: bool)

  /** Only mouse moves on the watched slider while it is held down and
      focused are looked at. */
  predicate Handled(e: MouseEvent) {
    e.onSlider && e.isMove && e.sliderDown && e.focused
  }

  /** The zone of `dist` pixels around the magnetic point, bounds included. */
  predicate Inside(cur: int, magneticPos: int, dist: int) {
    magneticPos - dist <= cur <= magneticPos + dist
  }

  /** Moving from `prev` to `cur` approaches the point: the direction of
      the move and the direction to the point have the same sign. */
  predicate Toward(prev: int, cur: int, magneticPos: int) {
    (cur - prev) * (magneticPos - cur) > 0
  }

  /** One event through the filter: the new state and the reaction. */
  function React(f: Filter, e: MouseEvent, magneticPos: int, dist: int): (r: (Filter, Reaction))
    ensures !Handled(e) ==> r == (f, PassThrough)
    ensures Handled(e) && e.pos == f.previousPos ==> r == (f, Swallow)
    ensures r.1 == SnapToMagnet <==>
      Handled(e) && e.pos != f.previousPos && Toward(f.previousPos, e.pos, magneticPos)
      && Inside(e.pos, magneticPos, dist) && f.armed
    ensures Handled(e) && e.pos != f.previousPos ==> r.0.previousPos == e.pos
    ensures Handled(e) && e.pos != f.previousPos && !Toward(f.previousPos, e.pos, magneticPos) ==>
      r.0.armed == !Inside(e.pos, magneticPos, dist)
    ensures Toward(f.previousPos, e.pos, magneticPos) ==> r.0.armed == f.armed
    ensures Handled(e) && e.pos != f.previousPos && !Inside(e.pos, magneticPos, dist) ==> r.1 == PassThrough
    ensures r.1.FollowCursor? <==>
      Handled(e) && e.pos != f.previousPos && Inside(e.pos, magneticPos, dist)
      && !(Toward(f.previousPos, e.pos, magneticPos) && f.armed)
    ensures r.1.FollowCursor? ==> r.1.pos == e.pos
  {
    if !Handled(e) then (f, PassThrough)
    else if e.pos == f.previousPos then (f, Swallow)
    else
      var inside := Inside(e.pos, magneticPos, dist);
      var toward := Toward(f.previousPos, e.pos, magneticPos);
      var snap := toward && inside && f.armed;
      var armed := if toward then f.armed else !inside;
      var next := Filter(e.pos, armed);
      if !inside then (next, PassThrough)
      else if snap then (next, SnapToMagnet)
      else (next, FollowCursor(e.pos))
  }

  /** The states the filter passes through on a sequence of events,
      starting from `f`: one more than there are events. */
  function States(f: Filter, es: seq<MouseEvent>, magneticPos: int, dist: int): (ss: seq<Filter>)
    ensures |ss| == |es| + 1 && ss[0] == f
    ensures forall i :: 0 <= i < |es| ==> ss[i + 1] == React(ss[i], es[i], magneticPos, dist).0
    decreases |es|
  {
    if es == [] then [f]
    else [f] + States(React(f, es[0], magneticPos, dist).0, es[1..], magneticPos, dist)
  }

  /** The event moved the cursor away from the point (or across it)
      outside the zone: the move that arms the filter. */
  predicate LeftZone(f: Filter, e: MouseEvent, magneticPos: int, dist: int) {
    Handled(e) && e.pos != f.previousPos && !Toward(f.previousPos, e.pos, magneticPos)
    && !Inside(e.pos, magneticPos, dist)
  }

  /** A filter that starts unarmed is armed after a run of events only if
      one of them left the zone. */
  lemma {:induction false} ArmedOnlyAfterLeaving(f: Filter, es: seq<MouseEvent>, magneticPos: int, dist: int, k: nat)
    requires !f.armed && k <= |es|
    requires States(f, es, magneticPos, dist)[k].armed
    ensures exists j :: 0 <= j < k && LeftZone(States(f, es, magneticPos, dist)[j], es[j], magneticPos, dist)
  {
    var ss := States(f, es, magneticPos, dist);
    if k == 0 {
      assert false;
    } else if LeftZone(ss[k - 1], es[k - 1], magneticPos, dist) {
    } else {
      assert ss[k] == React(ss[k - 1], es[k - 1], magneticPos, dist).0;
      assert ss[k - 1].armed;
      ArmedOnlyAfterLeaving(f, es, magneticPos, dist, k - 1);
      var j :| 0 <= j < k - 1 && LeftZone(ss[j], es[j], magneticPos, dist);
      assert 0 <= j < k;
    }
  }

  /** The filter, as documented: starting unarmed, the slider snaps on an
      event only after some earlier event took the cursor outside the zone
      while not moving toward the point. */
  lemma {:induction false} SnapsOnlyAfterLeaving(f: Filter, es: seq<MouseEvent>, magneticPos: int, dist: int, k: nat)
    requires !f.armed && k < |es|
    requires React(States(f, es, magneticPos, dist)[k], es[k], magneticPos, dist).1 == SnapToMagnet
    ensures exists j :: 0 <= j < k && LeftZone(States(f, es, magneticPos, dist)[j], es[j], magneticPos, dist)
  {
    ArmedOnlyAfterLeaving(f, es, magneticPos, dist, k);
  }

  /** Snapping does not disarm: after a snap, another move toward the
      point that stays inside the zone snaps again. */
  lemma {:induction false} SnapKeepsArmed(f: Filter, e1: MouseEvent, e2: MouseEvent, magneticPos: int, dist: int)
    requires React(f, e1, magneticPos, dist).1 == SnapToMagnet
    requires Handled(e2) && Inside(e2.pos, magneticPos, dist) && e2.pos != e1.pos
    requires Toward(e1.pos, e2.pos, magneticPos)
    ensures React(React(f, e1, magneticPos, dist).0, e2, magneticPos, dist).1 == SnapToMagnet
  {
  }

  /** A repeated event at the same coordinate is swallowed and changes
      nothing, whatever the first one did. */
  lemma {:induction false} RepeatSwallowed(f: Filter, e: MouseEvent, magneticPos: int, dist: int)
    requires Handled(e)
    ensures var g := React(f, e, magneticPos, dist).0;
      React(g, e, magneticPos, dist) == (g, Swallow)
  {
  }

  /** The filter object: the magnetic value and zone width it was built
      with, and its state. */
  class MSliderMagneticPoint {
    const magneticValue: int32
    const magneticDist: int32
    var previousPos: int
    var needMagnetize: bool

    /** The state as a value. */
    function State(): Filter
      reads this
    {
      Filter(previousPos, needMagnetize)
    }

    /** Built unarmed, with the previous position at the magnetic value's
        pixel position. */
    constructor (value: int32, distPx: int32, valueToPos: int -> int)
      ensures magneticValue == value && magneticDist == distPx
      ensures previousPos == valueToPos(value) && !needMagnetize
    {
      magneticValue, magneticDist := value, distPx;
      previousPos := valueToPos(value);
      needMagnetize := false;
    }

    /** eventFilter: returns whether the event is consumed and the slider
        position it sets, if any. valueToPos and posToValue are the
        slider's current conversions. */
    method EventFilter(e: MouseEvent, valueToPos: int -> int, posToValue: int -> int)
      returns (consumed: bool, setPosition: Option<int>)
      modifies this
      ensures var r := React(old(State()), e, valueToPos(magneticValue), magneticDist);
        State() == r.0
        && consumed == (r.1 != PassThrough)
        && setPosition == (match r.1
          case SnapToMagnet => Some(magneticValue as int)
          case FollowCursor(p) => Some(posToValue(p))
          case _ => None)
    {
      if !(e.onSlider && e.isMove) {
        return false, None;
      }
      if !e.sliderDown || !e.focused {
        return false, None;
      }
      var magneticPos := valueToPos(magneticValue);
      var curPos := e.pos;
      var direction := curPos - previousPos;
      if direction == 0 {
        return true, None;
      }
      var inside := curPos >= magneticPos - magneticDist as int && curPos <= magneticPos + magneticDist as int;
      var moveToMagneticPoint := direction * (magneticPos - curPos) > 0;
      var shouldMagnetize := false;
      if moveToMagneticPoint {
        shouldMagnetize := inside && needMagnetize;
      } else {
        needMagnetize := !inside;
      }
      previousPos := curPos;
      if !inside {
        return false, None;
      }
      if shouldMagnetize {
        setPosition := Some(magneticValue as int);
      } else {
        setPosition := Some(posToValue(curPos));
      }
      consumed := true;
    }
  }
}
