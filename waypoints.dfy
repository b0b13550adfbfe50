/** The box path generator (`calculate_box`): twelve waypoints that walk a
    15 by 15 square in 5-unit steps, anchored at the vehicle's current local
    position and 3.0 above its current altitude. */
module Waypoints {
  import opened Geometry

  /** Added to the current altitude for every waypoint. */
  const BoxClimb: real := 3.0

  /** Length of one step between consecutive waypoints. */
  const Leg: real := 5.0

  /** Length of a side of the square. */
  const Side: real := 15.0

  /** `b` is one step away from `a`: exactly `Leg` along one horizontal axis,
      unchanged along the other. */
  predicate SideStep(a: Vec3, b: Vec3)
  {
    || (b.y == a.y && (b.x - a.x == Leg || a.x - b.x == Leg))
    || (b.x == a.x && (b.y - a.y == Leg || a.y - b.y == Leg))
  }

  /** `p` lies on the square whose south-west corner is (x, y). */
  predicate OnSquare(x: real, y: real, p: Vec3)
  {
    && x <= p.x <= x + Side && y <= p.y <= y + Side
    && (p.x == x || p.x == x + Side || p.y == y || p.y == y + Side)
  }

  /** The reference point of the box: the local position with the down
      coordinate turned into an altitude. Its ensures spell out the body
      field by field; they are kept so that the reference-mission proofs
      need not unfold the function. */
  function Reference(localPosition: Vec3): (cp: Vec3)
    ensures cp.x == localPosition.x && cp.y == localPosition.y
    ensures cp.z == -localPosition.z
  {
    Vec3(localPosition.x, localPosition.y, -localPosition.z)
  }

  /** The twelve waypoints of the box, in flying order. */
  function CalculateBox(localPosition: Vec3): (r: seq<Vec3>)
    ensures |r| == 12
    ensures forall i :: 0 <= i < |r| ==> r[i].z == -localPosition.z + BoxClimb
    ensures forall i :: 0 <= i < |r| ==> OnSquare(localPosition.x, localPosition.y, r[i])
    ensures SideStep(Reference(localPosition), r[0])
    ensures forall i, j :: 0 <= i && j == i + 1 && j < |r| ==> SideStep(r[i], r[j])
    ensures r[|r| - 1].x == localPosition.x && r[|r| - 1].y == localPosition.y
  {
    var cp := Reference(localPosition);
    [ Add(cp, Vec3(5.0, 0.0, 3.0)), Add(cp, Vec3(10.0, 0.0, 3.0)), Add(cp, Vec3(15.0, 0.0, 3.0)),
      Add(cp, Vec3(15.0, 5.0, 3.0)), Add(cp, Vec3(15.0, 10.0, 3.0)), Add(cp, Vec3(15.0, 15.0, 3.0)),
      Add(cp, Vec3(10.0, 15.0, 3.0)), Add(cp, Vec3(5.0, 15.0, 3.0)), Add(cp, Vec3(0.0, 15.0, 3.0)),
      Add(cp, Vec3(0.0, 10.0, 3.0)), Add(cp, Vec3(0.0, 5.0, 3.0)), Add(cp, Vec3(0.0, 0.0, 3.0)) ]
  }

  /** Horizontal offset of the point reached after walking `d` units along the
      perimeter of the square: north first, then east, then south, then west. */
  function PerimeterOffset(d: real): (real, real)
    requires 0.0 <= d <= 4.0 * Side
  {
    if d <= Side then (d, 0.0)
    else if d <= 2.0 * Side then (Side, d - Side)
    else if d <= 3.0 * Side then (3.0 * Side - d, Side)
    else (0.0, 4.0 * Side - d)
  }

  /** Waypoint i is the perimeter point at distance 5(i+1) from the reference:
      the box goes once round the square, ending where it started. */
  lemma BoxWalksPerimeter(localPosition: Vec3, i: nat)
    requires i < 12
    ensures (5 * (i + 1)) as real <= 4.0 * Side
    ensures CalculateBox(localPosition)[i] ==
      Vec3(localPosition.x + PerimeterOffset((5 * (i + 1)) as real).0,
           localPosition.y + PerimeterOffset((5 * (i + 1)) as real).1,
           -localPosition.z + BoxClimb)
  {
  }

  /** A sequence of waypoints is a box exactly when it is the box generated
      from the reference its last waypoint determines. */
  predicate IsBox(s: seq<Vec3>)
  {
    |s| == 12 && s == CalculateBox(Vec3(s[11].x, s[11].y, BoxClimb - s[11].z))
  }

  /** Every generated box is recognised by `IsBox`: the last waypoint
      determines the local position it was generated from. */
  lemma CalculateBoxIsBox(localPosition: Vec3)
    ensures IsBox(CalculateBox(localPosition))
  {
    var w := CalculateBox(localPosition)[11];
    assert Vec3(w.x, w.y, BoxClimb - w.z) == localPosition;
  }
}
