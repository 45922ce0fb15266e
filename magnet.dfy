/** MMagnet: a magnet that remembers its previous position and snaps to the
    first attached point whose attraction zone the new position falls in.
    Each point has four zones, chosen by the side of the previous position
    the point lies on and by the direction of the move. */
module Magnet {

  /** The four zone widths of a point, as held by value in the magnet's map. */
  datatype Zones = Zones(leftMoveIn: int, leftMoveOut: int, rightMoveIn: int, rightMoveOut: int)

  /** MMagnet::Magnetism: the four zone widths of one point, with setters. */
  class Magnetism {
    var leftMoveIn: int
    var leftMoveOut: int
    var rightMoveIn: int
    var rightMoveOut: int

    /** Magnetism(distance): every zone `distance` wide. */
    constructor Uniform(distance: int)
      ensures leftMoveIn == distance && leftMoveOut == distance
      ensures rightMoveIn == distance && rightMoveOut == distance
    {
      leftMoveIn, leftMoveOut := distance, distance;
      rightMoveIn, rightMoveOut := distance, distance;
    }

    /** Magnetism(leftMoveIn, leftMoveOut, rightMoveIn, rightMoveOut). */
    constructor (leftIn: int, leftOut: int, rightIn: int, rightOut: int)
      ensures leftMoveIn == leftIn && leftMoveOut == leftOut
      ensures rightMoveIn == rightIn && rightMoveOut == rightOut
    {
      leftMoveIn, leftMoveOut := leftIn, leftOut;
      rightMoveIn, rightMoveOut := rightIn, rightOut;
    }

    /** The value copied into the magnet's map. */
    function Value(): Zones
      reads this
    {
      Zones(leftMoveIn, leftMoveOut, rightMoveIn, rightMoveOut)
    }

    /** setLeftMove(in, out): the two left zones only. */
    method SetLeftMove(moveIn: int, moveOut: int)
      modifies this
      ensures Value() == old(Value()).(leftMoveIn := moveIn, leftMoveOut := moveOut)
    {
      leftMoveIn := moveIn;
      leftMoveOut := moveOut;
    }

    /** setLeftMove(distance): both left zones `distance` wide. */
    method SetLeftMoveBoth(distance: int)
      modifies this
      ensures Value() == old(Value()).(leftMoveIn := distance, leftMoveOut := distance)
    {
      SetLeftMove(distance, distance);
    }

    /** setRightMove(in, out): the two right zones only. */
    method SetRightMove(moveIn: int, moveOut: int)
      modifies this
      ensures Value() == old(Value()).(rightMoveIn := moveIn, rightMoveOut := moveOut)
    {
      rightMoveIn := moveIn;
      rightMoveOut := moveOut;
    }

    method SetRightMoveBoth(distance: int)
      modifies this
      ensures Value() == old(Value()).(rightMoveIn := distance, rightMoveOut := distance)
    {
      SetRightMove(distance, distance);
    }

    /** setMoveIn(left, right): the two move-in zones only. */
    method SetMoveIn(left: int, right: int)
      modifies this
      ensures Value() == old(Value()).(leftMoveIn := left, rightMoveIn := right)
    {
      leftMoveIn := left;
      rightMoveIn := right;
    }

    method SetMoveInBoth(distance: int)
      modifies this
      ensures Value() == old(Value()).(leftMoveIn := distance, rightMoveIn := distance)
    {
      SetMoveIn(distance, distance);
    }

    /** setMoveOut(left, right): the two move-out zones only. */
    method SetMoveOut(left: int, right: int)
      modifies this
      ensures Value() == old(Value()).(leftMoveOut := left, rightMoveOut := right)
    {
      leftMoveOut := left;
      rightMoveOut := right;
    }

    method SetMoveOutBoth(distance: int)
      modifies this
      ensures Value() == old(Value()).(leftMoveOut := distance, rightMoveOut := distance)
    {
      SetMoveOut(distance, distance);
    }

    /** setDistance(distance): every zone `distance` wide. */
    method SetDistance(distance: int)
      modifies this
      ensures Value() == Zones(distance, distance, distance, distance)
    {
      SetLeftMoveBoth(distance);
      SetRightMoveBoth(distance);
    }

    /** setDistance(leftMoveIn, leftMoveOut, rightMoveIn, rightMoveOut). */
    method SetDistances(leftIn: int, leftOut: int, rightIn: int, rightOut: int)
      modifies this
      ensures Value() == Zones(leftIn, leftOut, rightIn, rightOut)
    {
      SetLeftMove(leftIn, leftOut);
      SetRightMove(rightIn, rightOut);
    }
  }

  /** MMagnetFixedPoint: a point that stays where it was created. */
  class FixedPoint {
    const position: int

    constructor (position: int)
      ensures Position() == position
    {
      this.position := position;
    }

    function Position(): int {
      position
    }
  }

  /** Points are told apart by identity; their numeric order is the order a
      QMap keyed by pointer visits them in. Where a point is at the time of a
      move is given by a function from point to position (a fixed point's
      constant, or the value of a slider thumb). */
  type PointId = nat

  /** The zone that applies to a point at `point` when the magnet moves from
      `prev` to `n`: "left" zones for a point ahead of the previous position,
      "right" zones for one behind it, and for a point exactly at it the
      out-zone of the side the magnet leaves to; 0 when the magnet does not
      move. */
  function ZoneWidth(z: Zones, point: int, prev: int, n: int): int {
    if point > prev then
      (if n > prev then z.leftMoveIn else if n < prev then z.leftMoveOut else 0)
    else if point < prev then
      (if n > prev then z.rightMoveOut else if n < prev then z.rightMoveIn else 0)
    else
      (if n > prev then z.rightMoveOut else if n < prev then z.leftMoveOut else 0)
  }

  /** `n` falls in the zone of point `p`. */
  predicate Attracts(points: map<PointId, Zones>, pos: PointId -> int, prev: int, n: int, p: PointId)
    requires p in points
  {
    var d := pos(p) - n;
    (if d < 0 then -d else d) <= ZoneWidth(points[p], pos(p), prev, n)
  }

  /** The position moveTo reports: the position of the first point, in map
      order, that attracts `n`, and `n` itself when none does. */
  function Snap(order: seq<PointId>, points: map<PointId, Zones>, pos: PointId -> int, prev: int, n: int): (r: int)
    requires forall i :: 0 <= i < |order| ==> order[i] in points
    ensures n == prev ==> r == prev
  {
    if order == [] then n
    else if Attracts(points, pos, prev, n, order[0]) then pos(order[0])
    else Snap(order[1..], points, pos, prev, n)
  }

  predicate StrictlyIncreasing(s: seq<PointId>) {
    forall i, j :: 0 <= i < j < |s| ==> s[i] < s[j]
  }

  /** Inserts `p` into an increasing sequence, keeping it increasing. */
  function Insert(s: seq<PointId>, p: PointId): (r: seq<PointId>)
    requires StrictlyIncreasing(s)
    ensures StrictlyIncreasing(r)
    ensures forall x :: x in r <==> x in s || x == p
  {
    if s == [] then [p]
    else if p < s[0] then [p] + s
    else if p == s[0] then s
    else
      var rest := Insert(s[1..], p);
      assert forall j :: 0 <= j < |rest| ==> rest[j] in rest;
      [s[0]] + rest
  }

  /** The sequence without `p`. */
  function Remove(s: seq<PointId>, p: PointId): (r: seq<PointId>)
    requires StrictlyIncreasing(s)
    ensures StrictlyIncreasing(r)
    ensures forall x :: x in r <==> x in s && x != p
  {
    if s == [] then []
    else if s[0] == p then Remove(s[1..], p)
    else
      var rest := Remove(s[1..], p);
      assert forall j :: 0 <= j < |rest| ==> rest[j] in rest;
      [s[0]] + rest
  }

  /** MMagnet. `order` lists the attached points in map order. */
  class MMagnet {
    var points: map<PointId, Zones>
    var order: seq<PointId>
    var previous: int

    ghost predicate Valid()
      reads this
    {
      StrictlyIncreasing(order) && (forall p :: p in points <==> p in order)
    }

    constructor (initialPosition: int)
      ensures Valid() && points == map[] && order == [] && previous == initialPosition
    {
      points := map[];
      order := [];
      previous := initialPosition;
    }

    /** attachPoint: sets (or overwrites) the zones of `point`. */
    method AttachPoint(point: PointId, magnetism: Magnetism)
      requires Valid()
      modifies this
      ensures Valid()
      ensures points == old(points)[point := magnetism.Value()]
      ensures order == Insert(old(order), point)
      ensures previous == old(previous)
    {
      points := points[point := magnetism.Value()];
      order := Insert(order, point);
    }

    /** detachPoint: removes `point`; an unknown point is left alone. */
    method DetachPoint(point: PointId)
      requires Valid()
      modifies this
      ensures Valid()
      ensures points == old(points) - {point}
      ensures order == Remove(old(order), point)
      ensures previous == old(previous)
    {
      points := points - {point};
      order := Remove(order, point);
    }

    /** moveTo: walks the points in map order, stops at the first one that
      attracts the new position and returns that point's position, and
      remembers the result as the previous position. */
    method MoveTo(newPosition: int, pos: PointId -> int) returns (r: int)
      requires Valid()
      modifies this`previous
      ensures Valid()
      ensures r == Snap(order, points, pos, old(previous), newPosition)
      ensures previous == r
    {
      var n := newPosition;
      var i := 0;
      while i < |order|
        invariant 0 <= i <= |order|
        invariant Snap(order, points, pos, previous, newPosition) == Snap(order[i..], points, pos, previous, newPosition)
      {
        var p := order[i];
        var magnetism := ZoneWidth(points[p], pos(p), previous, newPosition);
        var distance := if pos(p) - newPosition < 0 then newPosition - pos(p) else pos(p) - newPosition;
        assert order[i..][1..] == order[i + 1..];
        if distance <= magnetism {
          n := pos(p);
          break;
        }
        i := i + 1;
      }
      previous := n;
      r := n;
    }
  }

  /** The position moveTo reports is the new position itself or the
      position of one of the attached points. */
  lemma {:induction false} SnapIsPointOrSelf(order: seq<PointId>, points: map<PointId, Zones>, pos: PointId -> int, prev: int, n: int)
    requires forall i :: 0 <= i < |order| ==> order[i] in points
    ensures var r := Snap(order, points, pos, prev, n);
      r == n || exists i :: 0 <= i < |order| && r == pos(order[i])
  {
    if order != [] && !Attracts(points, pos, prev, n, order[0]) {
      SnapIsPointOrSelf(order[1..], points, pos, prev, n);
      var r := Snap(order, points, pos, prev, n);
      if r != n {
        var i :| 0 <= i < |order[1..]| && r == pos(order[1..][i]);
        assert r == pos(order[i + 1]);
      }
    }
  }

  /** order[i] attracts `n` and no point before it does. */
  predicate FirstAttracting(order: seq<PointId>, points: map<PointId, Zones>, pos: PointId -> int, prev: int, n: int, i: int)
    requires forall i :: 0 <= i < |order| ==> order[i] in points
  {
    0 <= i < |order| && Attracts(points, pos, prev, n, order[i])
    && forall k :: 0 <= k < i ==> !Attracts(points, pos, prev, n, order[k])
  }

  /** The first attracting point, in map order, wins; with none, the new
      position is kept. */
  lemma {:induction false} SnapFirstWins(order: seq<PointId>, points: map<PointId, Zones>, pos: PointId -> int, prev: int, n: int)
    requires forall i :: 0 <= i < |order| ==> order[i] in points
    ensures (forall i :: 0 <= i < |order| ==> !Attracts(points, pos, prev, n, order[i])) ==> Snap(order, points, pos, prev, n) == n
    ensures forall i :: FirstAttracting(order, points, pos, prev, n, i) ==> Snap(order, points, pos, prev, n) == pos(order[i])
  {
    if order != [] {
      SnapFirstWins(order[1..], points, pos, prev, n);
      forall i | 0 < i < |order| && FirstAttracting(order, points, pos, prev, n, i)
        ensures Snap(order, points, pos, prev, n) == pos(order[i])
      {
        assert order[1..][i - 1] == order[i];
        assert forall k :: 0 <= k < i - 1 ==> order[1..][k] == order[k + 1];
      }
      if forall i :: 0 <= i < |order| ==> !Attracts(points, pos, prev, n, order[i]) {
        assert forall i :: 0 <= i < |order[1..]| ==> order[1..][i] == order[i + 1];
      }
    }
  }

  /** With no attached point, moveTo is the identity. */
  lemma {:induction false} SnapWithoutPoints(points: map<PointId, Zones>, pos: PointId -> int, prev: int, n: int)
    ensures Snap([], points, pos, prev, n) == n
  {
  }

  /** The zone read for a point, told by the direction of the move: moving
      right, the left move-in zone of a point ahead and the right move-out
      zone of any other; moving left, the right move-in zone of a point
      behind and the left move-out zone of any other. */
  lemma {:induction false} ZoneByDirection(z: Zones, point: int, prev: int, n: int)
    ensures n > prev ==> ZoneWidth(z, point, prev, n) == if point > prev then z.leftMoveIn else z.rightMoveOut
    ensures n < prev ==> ZoneWidth(z, point, prev, n) == if point < prev then z.rightMoveIn else z.leftMoveOut
    ensures n == prev ==> ZoneWidth(z, point, prev, n) == 0
  {
  }

  lemma {:induction false} NeitherAttracts(order: seq<PointId>, points: map<PointId, Zones>, pos: PointId -> int, prev: int, n: int, a: PointId, b: PointId)
    requires order == [a, b] || order == [b, a]
    requires a in points && b in points
    requires !Attracts(points, pos, prev, n, a) && !Attracts(points, pos, prev, n, b)
    ensures Snap(order, points, pos, prev, n) == n
  {
    assert order[1..] == [order[1]];
    assert order[1..][1..] == [];
    assert Snap(order[1..][1..], points, pos, prev, n) == n;
    assert Snap(order[1..], points, pos, prev, n) == n;
  }

  lemma {:induction false} OnlyFirstAttracts(order: seq<PointId>, points: map<PointId, Zones>, pos: PointId -> int, prev: int, n: int, a: PointId, b: PointId)
    requires order == [a, b] || order == [b, a]
    requires a in points && b in points
    requires Attracts(points, pos, prev, n, a) && !Attracts(points, pos, prev, n, b)
    ensures Snap(order, points, pos, prev, n) == pos(a)
  {
    assert order[1..] == [order[1]];
  }

  lemma {:induction false} InsertSecond(a: PointId, b: PointId)
    requires a != b
    ensures Insert([a], b) == [a, b] || Insert([a], b) == [b, a]
  {
    if a < b {
      assert [a][1..] == [];
    }
  }

  /** The moves of the documented example, on a magnet at 0 holding the
      two points. */
  method DocumentedMoves(magnet: MMagnet, pos: PointId -> int, a: PointId, b: PointId) returns (results: seq<int>)
    requires magnet.Valid() && magnet.previous == 0
    requires magnet.points == map[a := Zones(10, 10, 10, 10), b := Zones(40, 40, 0, 0)]
    requires magnet.order == [a, b] || magnet.order == [b, a]
    requires pos(a) == 30 && pos(b) == 100
    modifies magnet`previous
    ensures results == [15, 30, 30, 55, 100, 105]
  {
    ghost var order, points := magnet.order, magnet.points;
    var r1 := magnet.MoveTo(15, pos);
    assert r1 == 15 by { NeitherAttracts(order, points, pos, 0, 15, a, b); }
    var r2 := magnet.MoveTo(25, pos);
    assert r2 == 30 by { OnlyFirstAttracts(order, points, pos, 15, 25, a, b); }
    var r3 := magnet.MoveTo(35, pos);
    assert r3 == 30 by { OnlyFirstAttracts(order, points, pos, 30, 35, a, b); }
    var r4 := magnet.MoveTo(55, pos);
    assert r4 == 55 by { NeitherAttracts(order, points, pos, 30, 55, a, b); }
    var r5 := magnet.MoveTo(75, pos);
    assert r5 == 100 by { OnlyFirstAttracts(order, points, pos, 55, 75, b, a); }
    var r6 := magnet.MoveTo(105, pos);
    assert r6 == 105 by { NeitherAttracts(order, points, pos, 100, 105, a, b); }
    results := [r1, r2, r3, r4, r5, r6];
  }

  /** The example of MMagnet's documentation: points at 30 (all zones 10)
      and 100 (left zones 40, right zones 0), magnet starting at 0; the
      moves to 15, 25, 35, 55, 75 and 105 report 15, 30, 30, 55, 100, 105,
      whichever of the two points comes first in map order. */
  method DocumentedScenario(a: PointId, b: PointId) returns (results: seq<int>)
    requires a != b
    ensures results == [15, 30, 30, 55, 100, 105]
  {
    var point1 := new FixedPoint(30);
    var point2 := new FixedPoint(100);
    var at1, at2 := point1.Position(), point2.Position();
    var pos := (p: PointId) => if p == a then at1 else at2;
    var magnet := new MMagnet(0);
    var m1 := new Magnetism.Uniform(10);
    var m2 := new Magnetism(40, 40, 0, 0);
    magnet.AttachPoint(a, m1);
    assert magnet.points == map[a := Zones(10, 10, 10, 10)];
    assert magnet.order == [a];
    magnet.AttachPoint(b, m2);
    assert magnet.points == map[a := Zones(10, 10, 10, 10), b := Zones(40, 40, 0, 0)];
    InsertSecond(a, b);
    results := DocumentedMoves(magnet, pos, a, b);
  }
}
