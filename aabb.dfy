/**
 * The axis-aligned bounding box collider. AABB is a value type in the engine,
 * so it is a datatype here; its in-place updates (offset, setBounds) become
 * functions from the old box to the new one. Coordinates are reals: the
 * comparisons and additions below are exact in the model.
 */
module Colliders {
  import opened Common

  datatype Vec3 = Vec3(x: real, y: real, z: real)

  function Plus(a: Vec3, b: Vec3): (r: Vec3)
  {
    Vec3(a.x + b.x, a.y + b.y, a.z + b.z)
  }

  /** The opposite direction: adding it to a cancels a. */
  function Negate(a: Vec3): (r: Vec3)
    ensures Plus(a, r) == Vec3(0.0, 0.0, 0.0)
  {
    Vec3(-a.x, -a.y, -a.z)
  }

  /** The collider kinds the engine switches on. */
  datatype ColliderType = AabbCollider | PointCollider

  datatype Aabb = Aabb(minBounds: Vec3, maxBounds: Vec3)
  {
    function MinX(): real { minBounds.x }
    function MinY(): real { minBounds.y }
    function MinZ(): real { minBounds.z }
    function MaxX(): real { maxBounds.x }
    function MaxY(): real { maxBounds.y }
    function MaxZ(): real { maxBounds.z }

    /** The corners are in order on every axis. */
    predicate WellFormed()
    {
      minBounds.x <= maxBounds.x && minBounds.y <= maxBounds.y && minBounds.z <= maxBounds.z
    }

    /** Half the box's size on an axis: the distance from either face to the centre. */
    function ExtentX(): (r: real)
      ensures minBounds.x + r == maxBounds.x - r
      ensures minBounds.x <= maxBounds.x ==> r >= 0.0
    {
      (maxBounds.x - minBounds.x) / 2.0
    }

    function ExtentY(): (r: real)
      ensures minBounds.y + r == maxBounds.y - r
      ensures minBounds.y <= maxBounds.y ==> r >= 0.0
    {
      (maxBounds.y - minBounds.y) / 2.0
    }

    function ExtentZ(): (r: real)
      ensures minBounds.z + r == maxBounds.z - r
      ensures minBounds.z <= maxBounds.z ==> r >= 0.0
    {
      (maxBounds.z - minBounds.z) / 2.0
    }

    /** getType: an AABB always reports itself as the AABB collider kind. */
    function GetType(): (r: ColliderType)
      ensures r == AabbCollider && r != PointCollider
    {
      AabbCollider
    }
  }

  /**
   * setBounds: the given bounds, shifted by the parent's position when there is
   * a parent. The centre-relative direction vectors it also sets are not modelled.
   */
  function SetBounds(minBounds: Vec3, maxBounds: Vec3, parentPosition: Option<Vec3>): (r: Aabb)
    ensures parentPosition.None? ==> r == Aabb(minBounds, maxBounds)
    ensures parentPosition.Some? ==>
      r == Offset(Aabb(minBounds, maxBounds), parentPosition.value)
  {
    match parentPosition
    case Some(p) => Aabb(Plus(p, minBounds), Plus(p, maxBounds))
    case None => Aabb(minBounds, maxBounds)
  }

  /** areBoxesNotTouching: some axis on which one box lies wholly beyond the other. */
  predicate AreBoxesNotTouching(a: Aabb, b: Aabb): (r: bool)
    ensures !r <==>
      && a.MinX() <= b.MaxX() && b.MinX() <= a.MaxX()
      && a.MinY() <= b.MaxY() && b.MinY() <= a.MaxY()
      && a.MinZ() <= b.MaxZ() && b.MinZ() <= a.MaxZ()
  {
    a.MinX() > b.MaxX() || a.MinY() > b.MaxY() || a.MinZ() > b.MaxZ()
    || a.MaxX() < b.MinX() || a.MaxY() < b.MinY() || a.MaxZ() < b.MinZ()
  }

  /** isPositionNotInsideBox: the point lies outside the closed box on some axis. */
  predicate IsPositionNotInsideBox(box: Aabb, p: Vec3): (r: bool)
    ensures !r <==>
      && box.MinX() <= p.x <= box.MaxX()
      && box.MinY() <= p.y <= box.MaxY()
      && box.MinZ() <= p.z <= box.MaxZ()
  {
    p.x > box.MaxX() || p.x < box.MinX()
    || p.y > box.MaxY() || p.y < box.MinY()
    || p.z > box.MaxZ() || p.z < box.MinZ()
  }

  function Larger(u: real, v: real): real { if u >= v then u else v }
  function Smaller(u: real, v: real): real { if u <= v then u else v }

  /**
   * overlappingX/Y/Z: the open intervals of the two boxes on that axis
   * intersect: for boxes of positive width on that axis, the later of the two
   * low ends lies below the earlier of the two high ends.
   */
  predicate OverlappingX(a: Aabb, b: Aabb): (r: bool)
    ensures a.MinX() < a.MaxX() && b.MinX() < b.MaxX() ==>
      (r <==> Larger(a.MinX(), b.MinX()) < Smaller(a.MaxX(), b.MaxX()))
  {
    a.MaxX() > b.MinX() && b.MaxX() > a.MinX()
  }

  predicate OverlappingY(a: Aabb, b: Aabb): (r: bool)
    ensures a.MinY() < a.MaxY() && b.MinY() < b.MaxY() ==>
      (r <==> Larger(a.MinY(), b.MinY()) < Smaller(a.MaxY(), b.MaxY()))
  {
    a.MaxY() > b.MinY() && b.MaxY() > a.MinY()
  }

  predicate OverlappingZ(a: Aabb, b: Aabb): (r: bool)
    ensures a.MinZ() < a.MaxZ() && b.MinZ() < b.MaxZ() ==>
      (r <==> Larger(a.MinZ(), b.MinZ()) < Smaller(a.MaxZ(), b.MaxZ()))
  {
    a.MaxZ() > b.MinZ() && b.MaxZ() > a.MinZ()
  }

  /** offset(Vector3): both corners move by the direction. */
  function Offset(box: Aabb, direction: Vec3): (r: Aabb)
    ensures r.minBounds.x - box.minBounds.x == direction.x == r.maxBounds.x - box.maxBounds.x
    ensures r.minBounds.y - box.minBounds.y == direction.y == r.maxBounds.y - box.maxBounds.y
    ensures r.minBounds.z - box.minBounds.z == direction.z == r.maxBounds.z - box.maxBounds.z
  {
    Aabb(Plus(box.minBounds, direction), Plus(box.maxBounds, direction))
  }

  /** offset(x, y, z): each coordinate of each corner moves by its own amount, one field at a time. */
  function OffsetXYZ(box: Aabb, x: real, y: real, z: real): (r: Aabb)
    ensures r == Offset(box, Vec3(x, y, z))
  {
    var minB := box.minBounds.(x := box.minBounds.x + x);
    var minB := minB.(y := minB.y + y);
    var minB := minB.(z := minB.z + z);
    var maxB := box.maxBounds.(x := box.maxBounds.x + x);
    var maxB := maxB.(y := maxB.y + y);
    var maxB := maxB.(z := maxB.z + z);
    Aabb(minB, maxB)
  }

  lemma NotTouchingSymmetric(a: Aabb, b: Aabb)
    ensures AreBoxesNotTouching(a, b) == AreBoxesNotTouching(b, a)
  {
  }

  /** Boxes whose corners are in order touch exactly when some point lies inside both. */
  lemma TouchingIff(a: Aabb, b: Aabb)
    requires a.WellFormed() && b.WellFormed()
    ensures !AreBoxesNotTouching(a, b) <==>
      exists p :: !IsPositionNotInsideBox(a, p) && !IsPositionNotInsideBox(b, p)
  {
    if !AreBoxesNotTouching(a, b) {
      var p := Vec3(Larger(a.MinX(), b.MinX()), Larger(a.MinY(), b.MinY()), Larger(a.MinZ(), b.MinZ()));
      assert !IsPositionNotInsideBox(a, p) && !IsPositionNotInsideBox(b, p);
    }
  }

  lemma OverlappingSymmetric(a: Aabb, b: Aabb)
    ensures OverlappingX(a, b) == OverlappingX(b, a)
    ensures OverlappingY(a, b) == OverlappingY(b, a)
    ensures OverlappingZ(a, b) == OverlappingZ(b, a)
  {
  }

  /** Strict overlap on every axis is a special case of touching. */
  lemma OverlapImpliesTouching(a: Aabb, b: Aabb)
    requires OverlappingX(a, b) && OverlappingY(a, b) && OverlappingZ(a, b)
    ensures !AreBoxesNotTouching(a, b)
  {
  }

  /** A box contains a point exactly when it touches the degenerate box at that point. */
  lemma InsideIff(box: Aabb, p: Vec3)
    ensures !IsPositionNotInsideBox(box, p) <==> !AreBoxesNotTouching(box, Aabb(p, p))
  {
  }

  /** Moving a box keeps its extents, and moving it back restores it. */
  lemma OffsetKeepsExtents(box: Aabb, d: Vec3)
    ensures Offset(box, d).ExtentX() == box.ExtentX()
    ensures Offset(box, d).ExtentY() == box.ExtentY()
    ensures Offset(box, d).ExtentZ() == box.ExtentZ()
    ensures Offset(Offset(box, d), Negate(d)) == box
  {
  }

  /** Moving two boxes and a point by the same amount changes no collision answer. */
  lemma OffsetKeepsCollisions(a: Aabb, b: Aabb, p: Vec3, d: Vec3)
    ensures AreBoxesNotTouching(Offset(a, d), Offset(b, d)) == AreBoxesNotTouching(a, b)
    ensures IsPositionNotInsideBox(Offset(a, d), Plus(p, d)) == IsPositionNotInsideBox(a, p)
    ensures OverlappingX(Offset(a, d), Offset(b, d)) == OverlappingX(a, b)
    ensures OverlappingY(Offset(a, d), Offset(b, d)) == OverlappingY(a, b)
    ensures OverlappingZ(Offset(a, d), Offset(b, d)) == OverlappingZ(a, b)
  {
  }
}
