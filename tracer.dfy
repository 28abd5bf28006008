/** The control logic of `cast_ray` and its helpers in `src/main.rs`: the
    origin bias, mirror reflection, the shadow test, the nearest-hit scan,
    the texture choice and the recursion that follows reflected and
    refracted rays. The floating-point shading (the light loop, the sky's
    sun glow, `normalize` and `refract`) is supplied as a `Shading` value
    of uninterpreted functions. */
module Tracer {
  import opened Numeric
  import opened Vectors
  import Colors
  import Textures
  import Materials
  import opened Intersections
  import Cubes
  import Lights

  /** How far a secondary ray's origin is moved off the surface. */
  const ORIGIN_BIAS: real := 0.0001

  /** The colour of a ray whose recursion depth is exhausted. */
  const SKYBOX_COLOR: Colors.Color := Colors.Color(68, 142, 228)

  // ---------------------------------------------------------------------
  // Secondary-ray geometry
  // ---------------------------------------------------------------------

  /** `offset_origin`: move the hit point by the bias along the normal, to
      the side that `direction` leaves into. */
  function OffsetOrigin(i: Intersect, direction: Vec3): Vec3 {
    var offset := Scale(i.normal, ORIGIN_BIAS);
    if Dot(direction, i.normal) < 0.0 then Minus(i.point, offset) else Plus(i.point, offset)
  }

  /** For a unit normal, the origin moves exactly the bias away from the
      hit point, behind the surface (against the normal) when the new ray
      points against the normal and in front of it otherwise. */
  lemma OffsetSide(i: Intersect, direction: Vec3)
    requires IsLength(i.normal, 1.0)
    ensures IsLength(Minus(OffsetOrigin(i, direction), i.point), ORIGIN_BIAS)
    ensures Dot(direction, i.normal) < 0.0 ==> Dot(Minus(OffsetOrigin(i, direction), i.point), i.normal) == -ORIGIN_BIAS
    ensures Dot(direction, i.normal) >= 0.0 ==> Dot(Minus(OffsetOrigin(i, direction), i.point), i.normal) == ORIGIN_BIAS
  {
    var n := i.normal;
    var sign := if Dot(direction, n) < 0.0 then -1.0 else 1.0;
    var b := sign * ORIGIN_BIAS;
    var moved := Minus(OffsetOrigin(i, direction), i.point);
    assert moved == Scale(n, b);
    DotScaleLeft(n, b, n);
    DotScaleLeft(n, b, Scale(n, b));
    DotSymmetric(n, Scale(n, b));
    assert Dot(moved, moved) == Product(b, Product(b, 1.0));
  }

  /** `reflect`: `incident - 2 (incident . normal) normal`. */
  function Reflect(incident: Vec3, normal: Vec3): Vec3 {
    Minus(incident, Scale(normal, 2.0 * Dot(incident, normal)))
  }

  /** About a unit normal, reflection negates the normal component, keeps
      the length, and undoes itself. */
  lemma ReflectProperties(incident: Vec3, normal: Vec3)
    requires IsLength(normal, 1.0)
    ensures Dot(Reflect(incident, normal), normal) == -Dot(incident, normal)
    ensures Dot(Reflect(incident, normal), Reflect(incident, normal)) == Dot(incident, incident)
    ensures Reflect(Reflect(incident, normal), normal) == incident
  {
    var d := Dot(incident, normal);
    var k := 2.0 * d;
    var s := Scale(normal, k);
    var r := Reflect(incident, normal);
    DotMinusLeft(incident, s, normal);
    DotScaleLeft(normal, k, normal);
    assert Dot(r, normal) == -d;
    DotMinusLeft(incident, s, r);
    DotSymmetric(incident, r);
    DotMinusLeft(incident, s, incident);
    DotScaleLeft(normal, k, incident);
    DotSymmetric(normal, incident);
    DotScaleLeft(normal, k, r);
    DotSymmetric(normal, r);
    assert Dot(r, r) == Dot(incident, incident) - Product(k, d) - Product(k, -d);
    assert Scale(normal, 2.0 * Dot(r, normal)) == Scale(normal, -k);
  }

  /** Reflection leaves every direction orthogonal to the normal alone:
      the tangential part of the ray is kept, whatever the normal's length. */
  lemma ReflectKeepsTangent(incident: Vec3, normal: Vec3, tangent: Vec3)
    requires Dot(tangent, normal) == 0.0
    ensures Dot(Reflect(incident, normal), tangent) == Dot(incident, tangent)
  {
    var k := 2.0 * Dot(incident, normal);
    DotMinusLeft(incident, Scale(normal, k), tangent);
    DotScaleLeft(normal, k, tangent);
    DotSymmetric(normal, tangent);
  }

  /** Reflecting about an axis-aligned unit normal negates one component
      and keeps the others, so a direction with no zero component keeps
      none, also after `normalize`. */
  lemma ReflectedRayIsNonZero(d: Vec3, n: Vec3, sh: Shading)
    requires NonZero(d) && Cubes.IsAxisUnit(n)
    ensures NonZero(Reflect(d, n))
    ensures Traceable(sh) ==> NonZero(sh.normalize(Reflect(d, n)))
  {
  }

  // ---------------------------------------------------------------------
  // Shadows
  // ---------------------------------------------------------------------

  /** `shadow_ray_origin`: the hit point moved 0.001 toward the light. */
  function ShadowOrigin(i: Intersect, lightDir: Vec3): Vec3 {
    Along(i.point, lightDir, 0.001)
  }

  /** `c` reports a hit on the shadow ray that is nearer than the light. */
  predicate Blocks(c: Cubes.Cube, origin: Vec3, dir: Vec3, distance: real)
    requires NonZero(dir)
  {
    Cubes.Slab(c, origin, dir).isIntersecting && Cubes.Slab(c, origin, dir).distance < distance
  }

  /** Some object blocks the shadow ray. */
  predicate Blocked(objects: seq<Cubes.Cube>, origin: Vec3, dir: Vec3, distance: real)
    requires NonZero(dir)
  {
    exists j :: 0 <= j < |objects| && Blocks(objects[j], origin, dir, distance)
  }

  /** `cast_shadow`. `distance` is `light_dir.magnitude()`, the length of
      the vector toward the light, and `dir` is `light_dir.normalize()`.
      The result is 1.0 out of range, 0.95 when an object reports a hit
      nearer than the light, and 0.0 otherwise. */
  method CastShadow(i: Intersect, light: Lights.Light, objects: seq<Cubes.Cube>, distance: real, dir: Vec3)
    returns (s: real)
    requires IsLength(Minus(light.position, i.point), distance)
    requires distance <= light.radius ==> NonZero(dir)
    ensures s == 1.0 || s == 0.95 || s == 0.0
    ensures s == 1.0 <==> distance > light.radius
    ensures distance <= light.radius ==>
      (s == 0.95 <==> Blocked(objects, ShadowOrigin(i, dir), dir, distance))
  {
    if distance > light.radius {
      return 1.0;
    }
    var origin := Along(i.point, dir, 0.001);
    for k := 0 to |objects|
      invariant forall j :: 0 <= j < k ==> !Blocks(objects[j], origin, dir, distance)
    {
      var hit := Cubes.Intersect(objects[k], origin, dir);
      if hit.isIntersecting && hit.distance < distance {
        return 0.95;
      }
    }
    return 0.0;
  }

  // ---------------------------------------------------------------------
  // The nearest hit
  // ---------------------------------------------------------------------

  /** `zbuffer`: the distance of the nearest hit so far, or `f32::INFINITY`. */
  datatype Depth = Infinity | Finite(value: real)

  /** `t < zbuffer`. */
  predicate Closer(t: real, z: Depth) {
    z.Infinity? || t < z.value
  }

  /** What each object reports for the ray, in object order. */
  function Hits(objects: seq<Cubes.Cube>, o: Vec3, d: Vec3): (hits: seq<Intersect>)
    requires NonZero(d)
    ensures |hits| == |objects|
    ensures forall j :: 0 <= j < |objects| ==> hits[j] == Cubes.Slab(objects[j], o, d)
  {
    seq(|objects|, j requires 0 <= j < |objects| => Cubes.Slab(objects[j], o, d))
  }

  /** No record reports a hit. */
  predicate NoneHit(hits: seq<Intersect>) {
    forall j :: 0 <= j < |hits| ==> !hits[j].isIntersecting
  }

  /** Among the first `n` records, record `k` is a hit, no hit is strictly
      nearer, and every earlier hit is strictly farther (the first of
      equally near hits wins). */
  predicate NearestWithin(hits: seq<Intersect>, k: int, n: int)
    requires n <= |hits|
  {
    && 0 <= k < n
    && hits[k].isIntersecting
    && (forall j :: 0 <= j < n && hits[j].isIntersecting ==> hits[k].distance <= hits[j].distance)
    && (forall j :: 0 <= j < k && hits[j].isIntersecting ==> hits[k].distance < hits[j].distance)
  }

  /** The tie-breaking rule makes the nearest hit unique. */
  lemma NearestIsUnique(hits: seq<Intersect>, k1: int, k2: int, n: int)
    requires n <= |hits|
    requires NearestWithin(hits, k1, n) && NearestWithin(hits, k2, n)
    ensures k1 == k2
  {
  }

  /** Whenever one of the first `n` records is a hit, a nearest one exists. */
  lemma {:induction false} NearestExists(hits: seq<Intersect>, n: int)
    requires 0 <= n <= |hits|
    requires exists j :: 0 <= j < n && hits[j].isIntersecting
    ensures exists k :: NearestWithin(hits, k, n)
  {
    var last := n - 1;
    if exists j :: 0 <= j < last && hits[j].isIntersecting {
      NearestExists(hits, last);
      var k :| NearestWithin(hits, k, last);
      if hits[last].isIntersecting && hits[last].distance < hits[k].distance {
        assert NearestWithin(hits, last, n);
      } else {
        assert NearestWithin(hits, k, n);
      }
    } else {
      assert NearestWithin(hits, last, n);
    }
  }

  /** The record the scan in `cast_ray` ends with: the nearest hit, or
      the empty record when nothing is hit. */
  function Nearest(hits: seq<Intersect>): (r: Intersect)
    ensures NoneHit(hits) ==> r == Empty()
    ensures !NoneHit(hits) ==> exists k :: NearestWithin(hits, k, |hits|) && r == hits[k]
  {
    if NoneHit(hits) then Empty()
    else
      NearestExists(hits, |hits|);
      var k :| NearestWithin(hits, k, |hits|);
      hits[k]
  }

  /** The scan in `cast_ray`: keep the hit with the strictly smallest
      distance, starting from the empty record and an infinite `zbuffer`. */
  method NearestHit(objects: seq<Cubes.Cube>, o: Vec3, d: Vec3) returns (r: Intersect)
    requires NonZero(d)
    ensures r == Nearest(Hits(objects, o, d))
  {
    ghost var hits := Hits(objects, o, d);
    r := Empty();
    var zbuffer := Infinity;
    ghost var best := -1;
    for k := 0 to |objects|
      invariant zbuffer.Infinity? <==> forall j :: 0 <= j < k ==> !hits[j].isIntersecting
      invariant zbuffer.Infinity? ==> r == Empty()
      invariant zbuffer.Finite? ==>
        NearestWithin(hits, best, k) && r == hits[best] && zbuffer.value == r.distance
    {
      var i := Cubes.RayIntersect(objects[k], o, d);
      assert i == hits[k];
      if i.isIntersecting && Closer(i.distance, zbuffer) {
        zbuffer := Finite(i.distance);
        r := i;
        best := k;
        assert NearestWithin(hits, k, k + 1);
      } else if zbuffer.Finite? {
        assert NearestWithin(hits, best, k + 1);
      }
    }
    if zbuffer.Finite? {
      ghost var k :| NearestWithin(hits, k, |hits|) && Nearest(hits) == hits[k];
      NearestIsUnique(hits, k, best, |hits|);
    }
  }

  // ---------------------------------------------------------------------
  // Surface colour
  // ---------------------------------------------------------------------

  /** The base colour that marks grass. */
  const GRASS_COLOR: Colors.Color := Colors.Color(0, 255, 0)

  /** The base colour that marks stone. */
  const STONE_COLOR: Colors.Color := Colors.Color(128, 128, 128)

  /** `texture_index`: grass uses its first texture on the top face and
      its second on every other face; every other material uses its first. */
  function TextureIndex(color: Colors.Color, face: CubeFace): (k: nat)
    ensures color == GRASS_COLOR ==> (k == 0 <==> face == Top) && k <= 1
    ensures color != GRASS_COLOR ==> k == 0
  {
    if color == GRASS_COLOR then
      match face
      case Top => 0
      case _ => 1
    else if color == STONE_COLOR then 0
    else 0
  }

  /** A material's texture lookup is in bounds and samples a loaded,
      non-empty texture on face `face`; without textures, nothing is looked up. */
  predicate TexturesUsable(m: Materials.Material, face: CubeFace) {
    |m.textures| > 0 ==>
      var k := TextureIndex(m.color, face);
      && k < |m.textures|
      && Textures.Loaded(m.textures[k])
      && m.textures[k].width >= 1 && m.textures[k].height >= 1
  }

  /** A material with two loaded textures works on every face, and so does
      a non-grass material with one. */
  lemma TwoTexturesSuffice(m: Materials.Material, face: CubeFace)
    requires |m.textures| >= 2 || (|m.textures| == 1 && m.color != GRASS_COLOR)
    requires forall t :: t in m.textures ==> Textures.Loaded(t) && t.width >= 1 && t.height >= 1
    ensures TexturesUsable(m, face)
  {
    assert m.textures[TextureIndex(m.color, face)] in m.textures;
  }

  /** `(w * 2.0) % 1.0`: Rust's float remainder keeps the sign of the
      dividend, so it is the fractional part. */
  function Repeat(w: real): (s: real)
    ensures 0.0 <= w < 0.5 ==> s == 2.0 * w
    ensures 0.5 <= w < 1.0 ==> s == 2.0 * w - 1.0
    ensures 0.0 <= w < 1.0 ==> 0.0 <= s < 1.0
  {
    Fract(Product(w, 2.0))
  }

  /** `material_color`: the flat colour of an untextured material, else a
      sample of the chosen texture at twice the face's coordinates, so that
      the texture repeats twice across a face. */
  function SurfaceColor(i: Intersect): (c: Colors.Color)
    requires TexturesUsable(i.material, i.face)
    ensures |i.material.textures| == 0 ==> c == i.material.color
    ensures |i.material.textures| > 0 ==> c in i.material.textures[TextureIndex(i.material.color, i.face)].pixels
  {
    if |i.material.textures| > 0 then
      var k := TextureIndex(i.material.color, i.face);
      var uv := TextureCoords(i);
      Textures.Sample(i.material.textures[k], Repeat(uv.0), Repeat(uv.1))
    else
      i.material.color
  }

  // ---------------------------------------------------------------------
  // Shading and recursion
  // ---------------------------------------------------------------------

  /** The floating-point parts of `cast_ray` that are left uninterpreted. */
  datatype Shading = Shading(
    // `ray_direction.dot(&sun_dir).max(0.0).powf(20.0)`, for the ray's
    // direction and the position of the first light
    sunGlow: (Vec3, Vec3) -> real,
    // `magnitude()`
    length: Vec3 -> real,
    // `normalize()`
    normalize: Vec3 -> Vec3,
    // the Lambert term of one light: for the hit, its surface colour, the
    // light, the unit direction and distance to it, and the shadow factor
    diffuse: (Intersect, Colors.Color, Lights.Light, Vec3, real, real) -> Colors.Color,
    // the Blinn-Phong term of one light: for the hit, the light, the unit
    // direction to it, the ray's origin, the distance and the shadow factor
    specular: (Intersect, Lights.Light, Vec3, Vec3, real, real) -> Colors.Color,
    // `refract(incident, normal, eta_t)`
    refract: (Vec3, Vec3, real) -> Vec3)

  /** What the model needs of the uninterpreted functions: `length` is the
      Euclidean length, and normalizing a direction with no zero component
      keeps every component non-zero (it scales by a positive factor). */
  ghost predicate Traceable(sh: Shading) {
    && (forall v :: IsLength(v, sh.length(v)))
    && (forall v :: NonZero(v) ==> NonZero(sh.normalize(v)))
  }

  /** Every light within its radius of the hit point lies off the three
      axis-parallel lines through it, so the shadow ray toward it has no
      zero component. */
  ghost predicate Lit(hit: Intersect, lights: seq<Lights.Light>, sh: Shading) {
    forall l :: l in lights && sh.length(Minus(l.position, hit.point)) <= l.radius ==>
      NonZero(Minus(l.position, hit.point))
  }

  /** The directions `cast_ray` traces for this ray, at depth `depth`, have
      no zero component: the ray itself, the shadow rays of its nearest hit,
      and, recursively, the reflected and refracted rays it follows. A ray
      past the depth limit is not traced, so nothing is asked of it. */
  ghost predicate Traced(o: Vec3, d: Vec3, objects: seq<Cubes.Cube>, lights: seq<Lights.Light>, depth: nat, sh: Shading)
    decreases 4 - depth
  {
    depth > 3 ||
      (&& NonZero(d)
       && var hit := Nearest(Hits(objects, o, d));
          hit.isIntersecting ==>
            && Lit(hit, lights, sh)
            && (hit.material.properties[2] > 0.0 ==>
                  var dir := sh.normalize(Reflect(d, hit.normal));
                  Traced(OffsetOrigin(hit, dir), dir, objects, lights, depth + 1, sh))
            && (hit.material.properties[3] > 0.0 ==>
                  var dir := sh.normalize(sh.refract(d, hit.normal, hit.material.refractiveIndex));
                  Traced(OffsetOrigin(hit, dir), dir, objects, lights, depth + 1, sh)))
  }

  /** Every object's texture lookup is in bounds on every face. */
  ghost predicate Renderable(objects: seq<Cubes.Cube>) {
    forall k, f :: 0 <= k < |objects| ==> TexturesUsable(objects[k].material, f)
  }

  /** An object's record carries the object's material, or the black one
      of the empty record. */
  lemma HitMaterial(c: Cubes.Cube, o: Vec3, d: Vec3)
    requires NonZero(d)
    ensures Cubes.Slab(c, o, d).material == c.material || Cubes.Slab(c, o, d).material == Materials.Black()
  {
  }

  /** The nearest hit's texture lookup is in bounds. */
  lemma NearestUsable(objects: seq<Cubes.Cube>, o: Vec3, d: Vec3)
    requires NonZero(d) && Renderable(objects)
    ensures TexturesUsable(Nearest(Hits(objects, o, d)).material, Nearest(Hits(objects, o, d)).face)
  {
    var hits := Hits(objects, o, d);
    var r := Nearest(hits);
    if NoneHit(hits) {
      assert r.material == Materials.Black();
    } else {
      var k :| NearestWithin(hits, k, |hits|) && r == hits[k];
      HitMaterial(objects[k], o, d);
      assert TexturesUsable(objects[k].material, r.face);
      if r.material == Materials.Black() {
        assert |r.material.textures| == 0;
      }
    }
  }

  /** The surface colour of the nearest hit. */
  function NearestSurface(objects: seq<Cubes.Cube>, o: Vec3, d: Vec3): Colors.Color
    requires NonZero(d) && Renderable(objects)
  {
    NearestUsable(objects, o, d);
    SurfaceColor(Nearest(Hits(objects, o, d)))
  }

  /** What `cast_shadow` returns for the given distance and direction. */
  function ShadowFactor(i: Intersect, light: Lights.Light, objects: seq<Cubes.Cube>, distance: real, dir: Vec3): real
    requires distance <= light.radius ==> NonZero(dir)
  {
    if distance > light.radius then 1.0
    else if Blocked(objects, ShadowOrigin(i, dir), dir, distance) then 0.95
    else 0.0
  }

  /** One light's contribution added to the running sum: a glowing surface
      takes 70% of its own colour and 30% of the light's terms. */
  function AddLight(sum: Colors.Color, surface: Colors.Color, glowing: bool, diffuse: Colors.Color, specular: Colors.Color): Colors.Color {
    if glowing then
      Colors.Plus(Colors.Plus(sum, Colors.MulScalar(surface, 0.7)), Colors.MulScalar(Colors.Plus(diffuse, specular), 0.3))
    else
      Colors.Plus(Colors.Plus(sum, diffuse), specular)
  }

  /** The light loop's result over `lights`, from black: each light within
      its radius whose shadow factor is below 1.0 adds its terms. */
  function LightSum(hit: Intersect, surface: Colors.Color, o: Vec3, lights: seq<Lights.Light>,
                    objects: seq<Cubes.Cube>, sh: Shading): Colors.Color
    requires Traceable(sh) && Lit(hit, lights, sh)
  {
    if |lights| == 0 then Colors.Black()
    else
      var sum := LightSum(hit, surface, o, lights[..|lights| - 1], objects, sh);
      var light := lights[|lights| - 1];
      var distance := sh.length(Minus(light.position, hit.point));
      if distance <= light.radius then
        var dir := sh.normalize(Minus(light.position, hit.point));
        var shadow := ShadowFactor(hit, light, objects, distance, dir);
        if shadow < 1.0 then
          AddLight(sum, surface, Materials.IsEmissive(hit.material),
            sh.diffuse(hit, surface, light, dir, distance, shadow),
            sh.specular(hit, light, dir, o, distance, shadow))
        else sum
      else sum
  }

  /** Lights beyond their radius are skipped, and a light within its
      radius always contributes: its shadow factor is never 1.0, so the
      loop's `shadow_intensity < 1.0` test always passes. */
  lemma {:induction false} LightSumSkipsOnlyFarLights(hit: Intersect, surface: Colors.Color, o: Vec3,
                                                      lights: seq<Lights.Light>, objects: seq<Cubes.Cube>, sh: Shading)
    requires Traceable(sh) && Lit(hit, lights, sh)
    ensures (forall k :: 0 <= k < |lights| ==> sh.length(Minus(lights[k].position, hit.point)) > lights[k].radius)
      ==> LightSum(hit, surface, o, lights, objects, sh) == Colors.Black()
    ensures forall k :: 0 <= k < |lights| && sh.length(Minus(lights[k].position, hit.point)) <= lights[k].radius ==>
      ShadowFactor(hit, lights[k], objects, sh.length(Minus(lights[k].position, hit.point)),
                   sh.normalize(Minus(lights[k].position, hit.point))) < 1.0
  {
    if |lights| > 0 {
      var init := lights[..|lights| - 1];
      LightSumSkipsOnlyFarLights(hit, surface, o, init, objects, sh);
      if forall k :: 0 <= k < |lights| ==> sh.length(Minus(lights[k].position, hit.point)) > lights[k].radius {
        assert forall k :: 0 <= k < |init| ==> init[k] == lights[k];
      }
    }
  }

  /** The light loop of `cast_ray`. */
  method ShadeLights(hit: Intersect, surface: Colors.Color, o: Vec3, lights: seq<Lights.Light>,
                     objects: seq<Cubes.Cube>, sh: Shading) returns (finalColor: Colors.Color)
    requires Traceable(sh) && Lit(hit, lights, sh)
    ensures finalColor == LightSum(hit, surface, o, lights, objects, sh)
  {
    var isGlowstone := hit.material.emission != Colors.Color(0, 0, 0);
    finalColor := Colors.Color(0, 0, 0);
    for k := 0 to |lights|
      invariant finalColor == LightSum(hit, surface, o, lights[..k], objects, sh)
    {
      assert lights[..k + 1][..k] == lights[..k];
      var light := lights[k];
      var lightDir := Minus(light.position, hit.point);
      var distanceToLight := sh.length(lightDir);
      if distanceToLight <= light.radius {
        var dir := sh.normalize(lightDir);
        var shadowIntensity := CastShadow(hit, light, objects, distanceToLight, dir);
        assert shadowIntensity == ShadowFactor(hit, light, objects, distanceToLight, dir);
        if shadowIntensity < 1.0 {
          var diffuse := sh.diffuse(hit, surface, light, dir, distanceToLight, shadowIntensity);
          var specular := sh.specular(hit, light, dir, o, distanceToLight, shadowIntensity);
          if isGlowstone {
            finalColor := Colors.Plus(Colors.Plus(finalColor, Colors.MulScalar(surface, 0.7)),
                                      Colors.MulScalar(Colors.Plus(diffuse, specular), 0.3));
          } else {
            finalColor := Colors.Plus(Colors.Plus(finalColor, diffuse), specular);
          }
        }
      }
    }
    assert lights[..|lights|] == lights;
  }

  /** The sun's colour in the sky. */
  const SUN_COLOR: Colors.Color := Colors.Color(255, 255, 200)

  /** The colour of a ray that hits nothing: half the ambient colour plus
      the sun's glow. */
  function SkyColor(ambient: Colors.Color, glow: real): Colors.Color {
    Colors.Plus(Colors.MulScalar(ambient, 0.5), Colors.MulScalar(SUN_COLOR, glow))
  }

  /** The lit colour with the material's emission: a glowing surface keeps
      60% of the light and adds 40% of its own colour; any other surface
      adds its (black) emission. Then a tenth of the ambient-tinted
      surface colour is added. */
  function LocalColor(hit: Intersect, surface: Colors.Color, lit: Colors.Color, ambient: Colors.Color): Colors.Color {
    var emitted :=
      if Materials.IsEmissive(hit.material) then
        Colors.Plus(Colors.MulScalar(lit, 0.6), Colors.MulScalar(surface, 0.4))
      else
        Colors.Plus(lit, hit.material.emission);
    Colors.Plus(emitted, Colors.MulScalar(Colors.Mul(surface, ambient), 0.1))
  }

  /** The emission and ambient steps only add light. A surface that does
      not glow keeps at least its lit colour, and exactly that colour under
      black ambient; a glowing surface keeps at least 60% of the lit colour
      and 40% of its own; either way the ambient tenth is a lower bound. */
  lemma LocalColorBounds(hit: Intersect, surface: Colors.Color, lit: Colors.Color, ambient: Colors.Color)
    ensures !Materials.IsEmissive(hit.material) ==> Colors.AtLeast(LocalColor(hit, surface, lit, ambient), lit)
    ensures !Materials.IsEmissive(hit.material) && ambient == Colors.Black() ==>
      LocalColor(hit, surface, lit, ambient) == lit
    ensures Materials.IsEmissive(hit.material) ==>
      && Colors.AtLeast(LocalColor(hit, surface, lit, ambient), Colors.MulScalar(lit, 0.6))
      && Colors.AtLeast(LocalColor(hit, surface, lit, ambient), Colors.MulScalar(surface, 0.4))
    ensures Colors.AtLeast(LocalColor(hit, surface, lit, ambient), Colors.MulScalar(Colors.Mul(surface, ambient), 0.1))
  {
    var amb := Colors.MulScalar(Colors.Mul(surface, ambient), 0.1);
    if Materials.IsEmissive(hit.material) {
      var a := Colors.MulScalar(lit, 0.6);
      var b := Colors.MulScalar(surface, 0.4);
      var emitted := Colors.Plus(a, b);
      Colors.AddFormsAgree(a, b);
      Colors.AddProperties(a, b, b);
      Colors.AddFormsAgree(emitted, amb);
      Colors.AddProperties(emitted, amb, amb);
    } else {
      var emission := hit.material.emission;
      assert emission == Colors.Black();
      Colors.AddFormsAgree(lit, emission);
      Colors.AddProperties(lit, emission, emission);
      Colors.AddFormsAgree(lit, amb);
      Colors.AddProperties(lit, amb, amb);
      if ambient == Colors.Black() {
        Colors.MulProperties(surface, ambient);
        Colors.MulScalarProperties(Colors.Black(), 0.1);
        assert amb == Colors.Black();
      }
    }
  }

  /** The final blend of the local, reflected and refracted colours. */
  function Composite(local: Colors.Color, reflected: Colors.Color, refracted: Colors.Color,
                     reflectivity: real, transparency: real): Colors.Color {
    Colors.Plus(
      Colors.Plus(Colors.Times(local, 1.0 - reflectivity - transparency), Colors.Times(reflected, reflectivity)),
      Colors.Times(refracted, transparency))
  }

  /** The requirements every call of `cast_ray` shares. */
  ghost predicate Scene(objects: seq<Cubes.Cube>, lights: seq<Lights.Light>, sh: Shading) {
    |lights| > 0 && Renderable(objects) && Traceable(sh)
  }

  /** The colour `cast_ray` returns: past depth 3 the skybox colour, and
      otherwise what the ray sees. */
  function Radiance(o: Vec3, d: Vec3, objects: seq<Cubes.Cube>, lights: seq<Lights.Light>,
                    ambient: Colors.Color, depth: nat, sh: Shading): Colors.Color
    requires Scene(objects, lights, sh) && Traced(o, d, objects, lights, depth, sh)
    decreases 4 - depth, 2
  {
    if depth > 3 then SKYBOX_COLOR else Seen(o, d, objects, lights, ambient, depth, sh)
  }

  /** What a ray within the depth limit sees: the sky when it hits
      nothing; otherwise the nearest hit shaded, with reflective and
      transparent surfaces following the secondary rays one level deeper. */
  function Seen(o: Vec3, d: Vec3, objects: seq<Cubes.Cube>, lights: seq<Lights.Light>,
                ambient: Colors.Color, depth: nat, sh: Shading): Colors.Color
    requires Scene(objects, lights, sh) && depth <= 3 && Traced(o, d, objects, lights, depth, sh)
    decreases 4 - depth, 1
  {
    var hit := Nearest(Hits(objects, o, d));
    if !hit.isIntersecting then SkyColor(ambient, sh.sunGlow(d, lights[0].position))
    else
      var surface := NearestSurface(objects, o, d);
      Composite(
        LocalColor(hit, surface, LightSum(hit, surface, o, lights, objects, sh), ambient),
        Secondary(hit, sh.normalize(Reflect(d, hit.normal)), hit.material.properties[2],
                  objects, lights, ambient, depth, sh),
        Secondary(hit, sh.normalize(sh.refract(d, hit.normal, hit.material.refractiveIndex)), hit.material.properties[3],
                  objects, lights, ambient, depth, sh),
        hit.material.properties[2], hit.material.properties[3])
  }

  /** The colour a secondary ray from `hit` along `dir` brings back: the
      ray is only cast when its weight (the reflectivity or the
      transparency) is positive, else the contribution is black. */
  function Secondary(hit: Intersect, dir: Vec3, weight: real, objects: seq<Cubes.Cube>, lights: seq<Lights.Light>,
                     ambient: Colors.Color, depth: nat, sh: Shading): Colors.Color
    requires Scene(objects, lights, sh) && depth <= 3
    requires weight > 0.0 ==> Traced(OffsetOrigin(hit, dir), dir, objects, lights, depth + 1, sh)
    decreases 4 - depth, 0
  {
    if weight > 0.0 then Radiance(OffsetOrigin(hit, dir), dir, objects, lights, ambient, depth + 1, sh)
    else Colors.Black()
  }

  /** The part of `cast_ray` from the light loop to the ambient term. */
  method ShadeLocally(intersect: Intersect, materialColor: Colors.Color, o: Vec3, lights: seq<Lights.Light>,
                      objects: seq<Cubes.Cube>, ambient: Colors.Color, sh: Shading) returns (finalColor: Colors.Color)
    requires Traceable(sh) && Lit(intersect, lights, sh)
    ensures finalColor == LocalColor(intersect, materialColor, LightSum(intersect, materialColor, o, lights, objects, sh), ambient)
    ensures !Materials.IsEmissive(intersect.material) ==>
      Colors.AtLeast(finalColor, LightSum(intersect, materialColor, o, lights, objects, sh))
    ensures Materials.IsEmissive(intersect.material) ==> Colors.AtLeast(finalColor, Colors.MulScalar(materialColor, 0.4))
    ensures Colors.AtLeast(finalColor, Colors.MulScalar(Colors.Mul(materialColor, ambient), 0.1))
  {
    var isGlowstone := intersect.material.emission != Colors.Color(0, 0, 0);
    finalColor := ShadeLights(intersect, materialColor, o, lights, objects, sh);
    if isGlowstone {
      finalColor := Colors.Plus(Colors.MulScalar(finalColor, 0.6), Colors.MulScalar(materialColor, 0.4));
    } else {
      finalColor := Colors.Plus(finalColor, intersect.material.emission);
    }
    var ambientTerm := Colors.MulScalar(Colors.Mul(materialColor, ambient), 0.1);
    finalColor := Colors.Plus(finalColor, ambientTerm);
    LocalColorBounds(intersect, materialColor, LightSum(intersect, materialColor, o, lights, objects, sh), ambient);
  }

  /** `cast_ray`. */
  method CastRay(o: Vec3, d: Vec3, objects: seq<Cubes.Cube>, lights: seq<Lights.Light>,
                 ambient: Colors.Color, depth: nat, sh: Shading) returns (c: Colors.Color)
    requires Scene(objects, lights, sh) && Traced(o, d, objects, lights, depth, sh)
    ensures c == Radiance(o, d, objects, lights, ambient, depth, sh)
    ensures depth > 3 ==> c == SKYBOX_COLOR
    decreases 4 - depth, 2
  {
    if depth > 3 {
      return SKYBOX_COLOR;
    }
    var intersect := NearestHit(objects, o, d);
    if !intersect.isIntersecting {
      var sunIntensity := sh.sunGlow(d, lights[0].position);
      var skyColor := Colors.MulScalar(ambient, 0.5);
      var sunColor := Colors.MulScalar(SUN_COLOR, sunIntensity);
      return Colors.Plus(skyColor, sunColor);
    }
    NearestUsable(objects, o, d);
    var materialColor := SurfaceColor(intersect);
    var finalColor := ShadeLocally(intersect, materialColor, o, lights, objects, ambient, sh);

    var reflectivity := intersect.material.properties[2];
    var reflectColor := TraceSecondary(intersect, sh.normalize(Reflect(d, intersect.normal)), reflectivity,
                                       objects, lights, ambient, depth, sh);
    var transparency := intersect.material.properties[3];
    var refractColor := TraceSecondary(intersect, sh.normalize(sh.refract(d, intersect.normal, intersect.material.refractiveIndex)),
                                       transparency, objects, lights, ambient, depth, sh);
    c := Composite(finalColor, reflectColor, refractColor, reflectivity, transparency);
  }

  /** The reflected or the refracted ray of `cast_ray`: black unless its
      weight is positive, else the colour `cast_ray` returns one level
      deeper for the ray leaving the biased origin along `dir`. */
  method TraceSecondary(hit: Intersect, dir: Vec3, weight: real, objects: seq<Cubes.Cube>, lights: seq<Lights.Light>,
                        ambient: Colors.Color, depth: nat, sh: Shading) returns (c: Colors.Color)
    requires Scene(objects, lights, sh) && depth <= 3
    requires weight > 0.0 ==> Traced(OffsetOrigin(hit, dir), dir, objects, lights, depth + 1, sh)
    ensures c == Secondary(hit, dir, weight, objects, lights, ambient, depth, sh)
    decreases 4 - depth, 0
  {
    c := Colors.Black();
    if weight > 0.0 {
      var origin := OffsetOrigin(hit, dir);
      c := CastRay(origin, dir, objects, lights, ambient, depth + 1, sh);
    }
  }

  /** A ray that hits nothing, at any depth up to 3, shows the sky. */
  lemma MissShowsSky(o: Vec3, d: Vec3, objects: seq<Cubes.Cube>, lights: seq<Lights.Light>,
                     ambient: Colors.Color, depth: nat, sh: Shading)
    requires NonZero(d) && Scene(objects, lights, sh)
    requires depth <= 3 && NoneHit(Hits(objects, o, d))
    ensures && Traced(o, d, objects, lights, depth, sh)
            && Radiance(o, d, objects, lights, ambient, depth, sh) == SkyColor(ambient, sh.sunGlow(d, lights[0].position))
  {
  }

  /** A surface that neither reflects nor transmits spawns no secondary
      ray: its colour is its local colour, unchanged by the blend. */
  lemma OpaqueMatteIsLocal(o: Vec3, d: Vec3, objects: seq<Cubes.Cube>, lights: seq<Lights.Light>,
                           ambient: Colors.Color, depth: nat, sh: Shading)
    requires NonZero(d) && Scene(objects, lights, sh) && depth <= 3
    requires Traced(o, d, objects, lights, depth, sh)
    requires Nearest(Hits(objects, o, d)).isIntersecting
    requires Nearest(Hits(objects, o, d)).material.properties[2] == 0.0
    requires Nearest(Hits(objects, o, d)).material.properties[3] == 0.0
    ensures var hit := Nearest(Hits(objects, o, d));
      var surface := NearestSurface(objects, o, d);
      Radiance(o, d, objects, lights, ambient, depth, sh)
        == LocalColor(hit, surface, LightSum(hit, surface, o, lights, objects, sh), ambient)
  {
    var hit := Nearest(Hits(objects, o, d));
    var surface := NearestSurface(objects, o, d);
    var local := LocalColor(hit, surface, LightSum(hit, surface, o, lights, objects, sh), ambient);
    Colors.MulScalarProperties(local, 1.0);
    Colors.MulScalarAgreesWithTimes(local, 1.0);
    Colors.MulScalarProperties(Colors.Black(), 0.0);
    Colors.MulScalarAgreesWithTimes(Colors.Black(), 0.0);
    Colors.AddProperties(local, Colors.Black(), Colors.Black());
    Colors.AddFormsAgree(local, Colors.Black());
    assert Composite(local, Colors.Black(), Colors.Black(), 0.0, 0.0) == local;
  }

  /** How many times `cast_ray` runs for one ray, itself included. */
  function Calls(o: Vec3, d: Vec3, objects: seq<Cubes.Cube>, lights: seq<Lights.Light>, depth: nat, sh: Shading): nat
    requires Scene(objects, lights, sh) && Traced(o, d, objects, lights, depth, sh)
    decreases 4 - depth
  {
    if depth > 3 then 1
    else
      var hit := Nearest(Hits(objects, o, d));
      if !hit.isIntersecting then 1
      else
        var reflected :=
          if hit.material.properties[2] > 0.0 then
            var dir := sh.normalize(Reflect(d, hit.normal));
            Calls(OffsetOrigin(hit, dir), dir, objects, lights, depth + 1, sh)
          else 0;
        var refracted :=
          if hit.material.properties[3] > 0.0 then
            var dir := sh.normalize(sh.refract(d, hit.normal, hit.material.refractiveIndex));
            Calls(OffsetOrigin(hit, dir), dir, objects, lights, depth + 1, sh)
          else 0;
        1 + reflected + refracted
  }

  /** The most calls a ray at `depth` can make: each level at most doubles. */
  function MaxCalls(depth: nat): nat
    decreases 4 - depth
  {
    if depth > 3 then 1 else 1 + 2 * MaxCalls(depth + 1)
  }

  /** The depth guard bounds the recursion: a ray at `depth` makes at most
      `MaxCalls(depth)` calls, so a primary ray makes at most 31. */
  lemma {:induction false} CallsBounded(o: Vec3, d: Vec3, objects: seq<Cubes.Cube>, lights: seq<Lights.Light>,
                                        depth: nat, sh: Shading)
    requires Scene(objects, lights, sh) && Traced(o, d, objects, lights, depth, sh)
    ensures Calls(o, d, objects, lights, depth, sh) <= MaxCalls(depth)
    ensures MaxCalls(0) == 31
    decreases 4 - depth
  {
    assert MaxCalls(4) == 1 && MaxCalls(3) == 3 && MaxCalls(2) == 7 && MaxCalls(1) == 15;
    if depth <= 3 {
      var hit := Nearest(Hits(objects, o, d));
      if hit.isIntersecting {
        if hit.material.properties[2] > 0.0 {
          var dir := sh.normalize(Reflect(d, hit.normal));
          CallsBounded(OffsetOrigin(hit, dir), dir, objects, lights, depth + 1, sh);
        }
        if hit.material.properties[3] > 0.0 {
          var dir := sh.normalize(sh.refract(d, hit.normal, hit.material.refractiveIndex));
          CallsBounded(OffsetOrigin(hit, dir), dir, objects, lights, depth + 1, sh);
        }
      }
    }
  }
}
