/** `src/ray_intersect.rs`: the record a ray-object test returns, and the
    projection of a hit point to texture coordinates. */
module Intersections {
  import opened Numeric
  import opened Vectors
  import Materials

  /** The face of an axis-aligned box a ray hit. */
  datatype CubeFace = Top | Bottom | Left | Right | Front | Back

  datatype Intersect = Intersect(
    isIntersecting: bool,
    point: Vec3,
    normal: Vec3,
    distance: real,
    material: Materials.Material,
    face: CubeFace)

  /** The "no hit" record: nothing intersected, at the largest finite
      distance, with the black material and the default face. */
  predicate IsNoHit(r: Intersect) {
    && !r.isIntersecting
    && r.point == ZERO && r.normal == ZERO
    && r.distance == F32_MAX
    && r.material == Materials.Black()
    && r.face == Top
  }

  /** `Intersect::new`. */
  function New(): (r: Intersect)
    ensures IsNoHit(r)
  {
    Intersect(false, ZERO, ZERO, F32_MAX, Materials.Black(), Top)
  }

  /** `Intersect::empty`, returned by every test that misses. */
  function Empty(): (r: Intersect)
    ensures IsNoHit(r)
  {
    Intersect(false, ZERO, ZERO, F32_MAX, Materials.Black(), Top)
  }

  /** `IsNoHit` pins the record down completely, so `new` and `empty`
      build the same value. */
  lemma NoHitIsUnique(r: Intersect)
    ensures IsNoHit(r) <==> r == Empty()
    ensures New() == Empty()
  {
  }

  /** The magnitude of a coordinate's fractional part, `|fract(c)|`. */
  function UvCoordinate(c: real): (w: real)
    ensures 0.0 <= w < 1.0
    ensures w == Abs(c) - Abs(c).Floor as real
  {
    AbsFractIsFractOfAbs(c);
    Abs(Fract(c))
  }

  /** `texture_coords`: the two coordinates of the hit point that lie in
      the plane of the face, reduced to [0, 1). */
  function TextureCoords(i: Intersect): (uv: (real, real))
    ensures 0.0 <= uv.0 < 1.0 && 0.0 <= uv.1 < 1.0
    ensures i.face == Top || i.face == Bottom ==> uv == (UvCoordinate(i.point.x), UvCoordinate(i.point.z))
    ensures i.face == Left || i.face == Right ==> uv == (UvCoordinate(i.point.z), UvCoordinate(i.point.y))
    ensures i.face == Front || i.face == Back ==> uv == (UvCoordinate(i.point.x), UvCoordinate(i.point.y))
  {
    match i.face
    case Top | Bottom => (UvCoordinate(i.point.x), UvCoordinate(i.point.z))
    case Left | Right => (UvCoordinate(i.point.z), UvCoordinate(i.point.y))
    case Front | Back => (UvCoordinate(i.point.x), UvCoordinate(i.point.y))
  }

  /** A whole-numbered coordinate maps to 0. */
  lemma UvCoordinateOfWhole(n: int)
    ensures UvCoordinate(n as real) == 0.0
  {
    FractOfWhole(n);
  }

  /** The projection is symmetric about 0: `c` and `-c` map to the same
      value, so across a coordinate plane through the origin a texture is
      mirrored rather than repeated. */
  lemma UvCoordinateIsEven(c: real)
    ensures UvCoordinate(-c) == UvCoordinate(c)
  {
  }

  /** A hit point with whole-numbered coordinates has texture coordinates
      (0, 0), whatever the face. */
  lemma WholePointMapsToOrigin(i: Intersect, x: int, y: int, z: int)
    requires i.point == Vec3(x as real, y as real, z as real)
    ensures TextureCoords(i) == (0.0, 0.0)
  {
    UvCoordinateOfWhole(x);
    UvCoordinateOfWhole(y);
    UvCoordinateOfWhole(z);
  }

  /** The coordinate along a face's normal does not take part: moving the
      hit point along that axis leaves the texture coordinates unchanged. */
  lemma NormalAxisIgnored(i: Intersect, c: real)
    ensures i.face == Top || i.face == Bottom ==> TextureCoords(i.(point := i.point.(y := c))) == TextureCoords(i)
    ensures i.face == Left || i.face == Right ==> TextureCoords(i.(point := i.point.(x := c))) == TextureCoords(i)
    ensures i.face == Front || i.face == Back ==> TextureCoords(i.(point := i.point.(z := c))) == TextureCoords(i)
  {
  }
}
