/** `src/cube.rs`: an axis-aligned box, the slab test of a ray against it,
    and the classification of the face and normal at the hit point.
    Directions have no zero component: the slab test divides by each of
    them. */
module Cubes {
  import opened Numeric
  import opened Vectors
  import opened Intersections
  import Materials

  datatype Cube = Cube(min: Vec3, max: Vec3, material: Materials.Material)

  /** A box whose corners are ordered on every axis. */
  predicate ValidBox(c: Cube) {
    c.min.x <= c.max.x && c.min.y <= c.max.y && c.min.z <= c.max.z
  }

  /** `p` lies in the closed box. */
  predicate InBox(c: Cube, p: Vec3) {
    && c.min.x <= p.x <= c.max.x
    && c.min.y <= p.y <= c.max.y
    && c.min.z <= p.z <= c.max.z
  }

  // ---------------------------------------------------------------------
  // Faces and normals
  // ---------------------------------------------------------------------

  /** The tolerance `1e-4` of the face tests. */
  const EPSILON: real := 0.0001

  /** `(a - b).abs() < 1e-4`. */
  predicate Near(a: real, b: real) {
    Abs(a - b) < EPSILON
  }

  /** The point lies within the tolerance of the plane that carries face
      `f`: min.x for Left, max.x for Right, min.y for Bottom, max.y for
      Top, min.z for Back and max.z for Front. */
  predicate OnPlane(c: Cube, p: Vec3, f: CubeFace) {
    match f
    case Left => Near(p.x, c.min.x)
    case Right => Near(p.x, c.max.x)
    case Bottom => Near(p.y, c.min.y)
    case Top => Near(p.y, c.max.y)
    case Back => Near(p.z, c.min.z)
    case Front => Near(p.z, c.max.z)
  }

  /** An axis-aligned unit vector: one component is 1 or -1, the others 0. */
  predicate IsAxisUnit(n: Vec3) {
    || ((n.x == 1.0 || n.x == -1.0) && n.y == 0.0 && n.z == 0.0)
    || (n.x == 0.0 && (n.y == 1.0 || n.y == -1.0) && n.z == 0.0)
    || (n.x == 0.0 && n.y == 0.0 && (n.z == 1.0 || n.z == -1.0))
  }

  /** An axis-aligned unit vector has length 1. */
  lemma AxisUnitHasLengthOne(n: Vec3)
    requires IsAxisUnit(n)
    ensures IsLength(n, 1.0)
  {
  }

  /** The outward unit normal of each face. */
  function FaceNormal(f: CubeFace): (n: Vec3)
    ensures IsAxisUnit(n)
  {
    match f
    case Left => Vec3(-1.0, 0.0, 0.0)
    case Right => Vec3(1.0, 0.0, 0.0)
    case Bottom => Vec3(0.0, -1.0, 0.0)
    case Top => Vec3(0.0, 1.0, 0.0)
    case Back => Vec3(0.0, 0.0, -1.0)
    case Front => Vec3(0.0, 0.0, 1.0)
  }

  /** `calculate_normal`: the first of five plane tests that holds chooses
      the normal; when none holds the normal is +z. */
  function CalculateNormal(c: Cube, p: Vec3): (n: Vec3)
    ensures IsAxisUnit(n)
  {
    if Near(p.x, c.min.x) then Vec3(-1.0, 0.0, 0.0)
    else if Near(p.x, c.max.x) then Vec3(1.0, 0.0, 0.0)
    else if Near(p.y, c.min.y) then Vec3(0.0, -1.0, 0.0)
    else if Near(p.y, c.max.y) then Vec3(0.0, 1.0, 0.0)
    else if Near(p.z, c.min.z) then Vec3(0.0, 0.0, -1.0)
    else Vec3(0.0, 0.0, 1.0)
  }

  /** None of the five planes the face chain tests is near. */
  predicate NoTestedPlane(c: Cube, p: Vec3) {
    && !OnPlane(c, p, Left) && !OnPlane(c, p, Right)
    && !OnPlane(c, p, Bottom) && !OnPlane(c, p, Top)
    && !OnPlane(c, p, Back)
  }

  /** The order in which the face tests are tried; Front is the fallback. */
  const PRIORITY: seq<CubeFace> := [Left, Right, Bottom, Top, Back]

  /** The first face of `faces` whose plane the point is near, or Front. */
  function FirstOnPlane(c: Cube, p: Vec3, faces: seq<CubeFace>): (f: CubeFace)
    ensures f == Front || (f in faces && OnPlane(c, p, f))
    ensures (forall g :: g in faces ==> !OnPlane(c, p, g)) ==> f == Front
  {
    if |faces| == 0 then Front
    else if OnPlane(c, p, faces[0]) then faces[0]
    else FirstOnPlane(c, p, faces[1..])
  }

  /** The face chain of `intersect` and `ray_intersect`. A reported face
      other than Front is one whose plane the point is near; Front is
      reported exactly when none of the five tested planes is near. */
  function FaceAt(c: Cube, p: Vec3): (f: CubeFace)
    ensures f != Front ==> OnPlane(c, p, f)
    ensures f == Front <==> NoTestedPlane(c, p)
  {
    if Near(p.x, c.min.x) then Left
    else if Near(p.x, c.max.x) then Right
    else if Near(p.y, c.min.y) then Bottom
    else if Near(p.y, c.max.y) then Top
    else if Near(p.z, c.min.z) then Back
    else Front
  }

  /** Face priority: the chain picks the first face in the order Left,
      Right, Bottom, Top, Back whose plane is near, and Front otherwise,
      so at an edge or corner the earlier face wins. */
  lemma FacePriority(c: Cube, p: Vec3)
    ensures FaceAt(c, p) == FirstOnPlane(c, p, PRIORITY)
  {
    var s0 := PRIORITY;
    var s1 := [Right, Bottom, Top, Back];
    var s2 := [Bottom, Top, Back];
    var s3 := [Top, Back];
    var s4 := [Back];
    assert s0[0] == Left && s0[1..] == s1;
    assert s1[0] == Right && s1[1..] == s2;
    assert s2[0] == Bottom && s2[1..] == s3;
    assert s3[0] == Top && s3[1..] == s4;
    assert s4[0] == Back && s4[1..] == [];
    assert FirstOnPlane(c, p, s4) == if OnPlane(c, p, Back) then Back else Front;
    assert FirstOnPlane(c, p, s3) == if OnPlane(c, p, Top) then Top else FirstOnPlane(c, p, s4);
    assert FirstOnPlane(c, p, s2) == if OnPlane(c, p, Bottom) then Bottom else FirstOnPlane(c, p, s3);
    assert FirstOnPlane(c, p, s1) == if OnPlane(c, p, Right) then Right else FirstOnPlane(c, p, s2);
    assert FirstOnPlane(c, p, s0) == if OnPlane(c, p, Left) then Left else FirstOnPlane(c, p, s1);
  }

  /** The normal and the face agree, because both run the same tests in the
      same order. */
  lemma NormalMatchesFace(c: Cube, p: Vec3)
    ensures CalculateNormal(c, p) == FaceNormal(FaceAt(c, p))
  {
  }

  // ---------------------------------------------------------------------
  // The slab test
  // ---------------------------------------------------------------------

  /** One axis of the slab test: the parameters at which the ray crosses
      the planes `lo` and `hi`, swapped when out of order. */
  function AxisInterval(lo: real, hi: real, o: real, d: real): (iv: (real, real))
    requires d != 0.0
    ensures iv.0 <= iv.1
    ensures || (iv.0 == Quotient(lo - o, d) && iv.1 == Quotient(hi - o, d))
            || (iv.0 == Quotient(hi - o, d) && iv.1 == Quotient(lo - o, d))
  {
    var t0 := Quotient(lo - o, d);
    var t1 := Quotient(hi - o, d);
    if t0 > t1 then (t1, t0) else (t0, t1)
  }

  /** The interval is exactly the set of parameters at which the ray lies
      between the two planes. */
  lemma AxisIntervalContains(lo: real, hi: real, o: real, d: real, t: real)
    requires d != 0.0 && lo <= hi
    ensures var iv := AxisInterval(lo, hi, o, d);
      iv.0 <= t <= iv.1 <==> lo <= o + Product(d, t) <= hi
  {
    var q0 := Quotient(lo - o, d);
    var q1 := Quotient(hi - o, d);
    QuotientFacts(lo - o, d);
    QuotientFacts(hi - o, d);
    ProductOrder(d, q0, t);
    ProductOrder(d, t, q1);
    ProductOrder(d, t, q0);
    ProductOrder(d, q1, t);
    ProductOrder(d, q0, q1);
  }

  /** A strict interior coordinate is crossed at a negative and a positive
      parameter. */
  lemma AxisIntervalStraddles(lo: real, hi: real, o: real, d: real)
    requires d != 0.0 && lo < o < hi
    ensures AxisInterval(lo, hi, o, d).0 < 0.0 < AxisInterval(lo, hi, o, d).1
  {
    QuotientFacts(lo - o, d);
    QuotientFacts(hi - o, d);
  }

  function XInterval(c: Cube, o: Vec3, d: Vec3): (real, real)
    requires NonZero(d)
  {
    AxisInterval(c.min.x, c.max.x, o.x, d.x)
  }

  function YInterval(c: Cube, o: Vec3, d: Vec3): (real, real)
    requires NonZero(d)
  {
    AxisInterval(c.min.y, c.max.y, o.y, d.y)
  }

  function ZInterval(c: Cube, o: Vec3, d: Vec3): (real, real)
    requires NonZero(d)
  {
    AxisInterval(c.min.z, c.max.z, o.z, d.z)
  }

  /** The parameter at which the ray enters the last of the three slabs. */
  function Entry(c: Cube, o: Vec3, d: Vec3): real
    requires NonZero(d)
  {
    Max(Max(XInterval(c, o, d).0, YInterval(c, o, d).0), ZInterval(c, o, d).0)
  }

  /** The parameter at which the ray leaves the first of the three slabs. */
  function Exit(c: Cube, o: Vec3, d: Vec3): real
    requires NonZero(d)
  {
    Min(Min(XInterval(c, o, d).1, YInterval(c, o, d).1), ZInterval(c, o, d).1)
  }

  /** The early rejections of the slab test, on three ordered intervals:
      the x and y intervals are disjoint, or their overlap and the z
      interval are, exactly when the entry exceeds the exit; and once the
      overlap is non-empty, both bounds are negative exactly when the exit
      is. */
  lemma RejectionsMatchOverlap(x: (real, real), y: (real, real), z: (real, real))
    requires x.0 <= x.1 && y.0 <= y.1 && z.0 <= z.1
    ensures (x.0 > y.1 || y.0 > x.1) ==> Max(Max(x.0, y.0), z.0) > Min(Min(x.1, y.1), z.1)
    ensures !(x.0 > y.1 || y.0 > x.1) ==>
      ((Max(x.0, y.0) > z.1 || z.0 > Min(x.1, y.1)) <==> Max(Max(x.0, y.0), z.0) > Min(Min(x.1, y.1), z.1))
    ensures Max(Max(x.0, y.0), z.0) <= Min(Min(x.1, y.1), z.1) ==>
      (Max(Max(x.0, y.0), z.0) < 0.0 && Min(Min(x.1, y.1), z.1) < 0.0 <==> Min(Min(x.1, y.1), z.1) < 0.0)
  {
  }

  /** The record built for a hit at parameter `t`. */
  function Hit(c: Cube, o: Vec3, d: Vec3, t: real): Intersections.Intersect {
    var p := Along(o, d, t);
    Intersections.Intersect(true, p, CalculateNormal(c, p), t, c.material, FaceAt(c, p))
  }

  /** What the slab test computes: a hit at the entry parameter when the
      three slabs overlap and the overlap does not lie wholly behind the
      origin, and the empty record otherwise. */
  function Slab(c: Cube, o: Vec3, d: Vec3): Intersections.Intersect
    requires NonZero(d)
  {
    if Entry(c, o, d) <= Exit(c, o, d) && Exit(c, o, d) >= 0.0 then Hit(c, o, d, Entry(c, o, d))
    else Empty()
  }

  /** `Cube::intersect`, step by step: the x and y intervals, an early
      rejection when they are disjoint, the running maximum and minimum,
      the same for z, and a rejection when both bounds lie behind the
      origin. The distance is the entry parameter, not clamped to 0. */
  method Intersect(c: Cube, o: Vec3, d: Vec3) returns (r: Intersections.Intersect)
    requires NonZero(d)
    ensures r == Slab(c, o, d)
  {
    RejectionsMatchOverlap(XInterval(c, o, d), YInterval(c, o, d), ZInterval(c, o, d));
    var tmin := Quotient(c.min.x - o.x, d.x);
    var tmax := Quotient(c.max.x - o.x, d.x);
    if tmin > tmax {
      tmin, tmax := tmax, tmin;
    }
    assert (tmin, tmax) == XInterval(c, o, d);
    var tymin := Quotient(c.min.y - o.y, d.y);
    var tymax := Quotient(c.max.y - o.y, d.y);
    if tymin > tymax {
      tymin, tymax := tymax, tymin;
    }
    assert (tymin, tymax) == YInterval(c, o, d);
    if tmin > tymax || tymin > tmax {
      return Empty();
    }
    tmin := Max(tmin, tymin);
    tmax := Min(tmax, tymax);
    assert tmin == Max(XInterval(c, o, d).0, YInterval(c, o, d).0);
    assert tmax == Min(XInterval(c, o, d).1, YInterval(c, o, d).1);
    var tzmin := Quotient(c.min.z - o.z, d.z);
    var tzmax := Quotient(c.max.z - o.z, d.z);
    if tzmin > tzmax {
      tzmin, tzmax := tzmax, tzmin;
    }
    assert (tzmin, tzmax) == ZInterval(c, o, d);
    if tmin > tzmax || tzmin > tmax {
      return Empty();
    }
    tmin := Max(tmin, tzmin);
    tmax := Min(tmax, tzmax);
    assert tmin == Entry(c, o, d) && tmax == Exit(c, o, d);
    if tmin < 0.0 && tmax < 0.0 {
      return Empty();
    }
    return Hit(c, o, d, tmin);
  }

  /** `RayIntersect::ray_intersect` for `Cube`, a line-for-line copy of
      `intersect`; it computes the same record. */
  method RayIntersect(c: Cube, o: Vec3, d: Vec3) returns (r: Intersections.Intersect)
    requires NonZero(d)
    ensures r == Slab(c, o, d)
  {
    r := Intersect(c, o, d);
  }

  // ---------------------------------------------------------------------
  // What the slab test means
  // ---------------------------------------------------------------------

  /** The ray lies in the box exactly between the entry and the exit. */
  lemma InBoxBetweenEntryAndExit(c: Cube, o: Vec3, d: Vec3, t: real)
    requires NonZero(d) && ValidBox(c)
    ensures InBox(c, Along(o, d, t)) <==> Entry(c, o, d) <= t <= Exit(c, o, d)
  {
    AxisIntervalContains(c.min.x, c.max.x, o.x, d.x, t);
    AxisIntervalContains(c.min.y, c.max.y, o.y, d.y, t);
    AxisIntervalContains(c.min.z, c.max.z, o.z, d.z, t);
  }

  /** The test reports a hit exactly when some point of the ray at a
      non-negative parameter lies in the box. */
  lemma HitIffRayMeetsBox(c: Cube, o: Vec3, d: Vec3)
    requires NonZero(d) && ValidBox(c)
    ensures Slab(c, o, d).isIntersecting <==> exists t :: t >= 0.0 && InBox(c, Along(o, d, t))
  {
    if Slab(c, o, d).isIntersecting {
      InBoxBetweenEntryAndExit(c, o, d, Exit(c, o, d));
    }
    if exists t :: t >= 0.0 && InBox(c, Along(o, d, t)) {
      var t :| t >= 0.0 && InBox(c, Along(o, d, t));
      InBoxBetweenEntryAndExit(c, o, d, t);
    }
  }

  /** On a hit the record holds the entry parameter as its distance and the
      ray's point there, which lies in the box; no point of the line in the
      box has a smaller parameter; the material is the cube's and the face
      and the normal are derived from the point and agree. A miss is the
      empty record. */
  lemma HitRecord(c: Cube, o: Vec3, d: Vec3)
    requires NonZero(d) && ValidBox(c)
    ensures var r := Slab(c, o, d);
      r.isIntersecting ==>
        && r.distance == Entry(c, o, d)
        && r.point == Along(o, d, r.distance)
        && InBox(c, r.point)
        && (forall t :: InBox(c, Along(o, d, t)) ==> r.distance <= t)
        && r.material == c.material
        && r.face == FaceAt(c, r.point)
        && r.normal == FaceNormal(r.face)
    ensures !Slab(c, o, d).isIntersecting ==> Slab(c, o, d) == Empty()
  {
    if Slab(c, o, d).isIntersecting {
      InBoxBetweenEntryAndExit(c, o, d, Entry(c, o, d));
      forall t | InBox(c, Along(o, d, t))
        ensures Entry(c, o, d) <= t
      {
        InBoxBetweenEntryAndExit(c, o, d, t);
      }
      NormalMatchesFace(c, Along(o, d, Entry(c, o, d)));
    }
  }

  /** The distance is not clamped: a ray whose origin is strictly inside
      the box hits it at a negative distance, the parameter at which the
      line entered the box behind the origin. */
  lemma InsideOriginHitsBehind(c: Cube, o: Vec3, d: Vec3)
    requires NonZero(d)
    requires c.min.x < o.x < c.max.x && c.min.y < o.y < c.max.y && c.min.z < o.z < c.max.z
    ensures Slab(c, o, d).isIntersecting && Slab(c, o, d).distance < 0.0
  {
    AxisIntervalStraddles(c.min.x, c.max.x, o.x, d.x);
    AxisIntervalStraddles(c.min.y, c.max.y, o.y, d.y);
    AxisIntervalStraddles(c.min.z, c.max.z, o.z, d.z);
  }
}
