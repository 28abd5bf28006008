/** Point lights, and the two generators in `src/main.rs` that turn
    glowing cubes into lights. The `Light` type's own source file is not
    part of this model; the record below has the four public fields that
    `main.rs` builds and reads. `magnitude()` needs a square root, so the
    generators take the length function as a parameter. */
module Lights {
  import opened Numeric
  import opened Vectors
  import Colors
  import Materials
  import Cubes

  datatype Light = Light(position: Vec3, color: Colors.Color, intensity: real, radius: real)

  /** The generators' filter: the cube's emission is not black. */
  predicate Glows(c: Cubes.Cube) {
    Materials.IsEmissive(c.material)
  }

  /** `(cube.min + cube.max) * 0.5`, the centre of the box. */
  function Center(c: Cubes.Cube): Vec3 {
    Scale(Plus(c.min, c.max), 0.5)
  }

  /** The glowing cubes of `objects`, in their original order. */
  function Emissive(objects: seq<Cubes.Cube>): (e: seq<Cubes.Cube>)
    ensures |e| <= |objects|
    ensures forall c :: c in e <==> c in objects && Glows(c)
  {
    if |objects| == 0 then []
    else
      var last := objects[|objects| - 1];
      assert objects == objects[..|objects| - 1] + [last];
      Emissive(objects[..|objects| - 1]) + (if Glows(last) then [last] else [])
  }

  /** Filtering distributes over concatenation: the glowing cubes of
      `a + b` are those of `a` followed by those of `b`, so the filter
      keeps the cubes' order. */
  lemma {:induction false} EmissiveDistributes(a: seq<Cubes.Cube>, b: seq<Cubes.Cube>)
    ensures Emissive(a + b) == Emissive(a) + Emissive(b)
  {
    if |b| == 0 {
      assert a + b == a;
    } else {
      var init := b[..|b| - 1];
      assert (a + b)[..|a + b| - 1] == a + init;
      EmissiveDistributes(a, init);
    }
  }

  /** The light a glowing cube gives: at its centre, in its emission
      colour, with the emission's intensity scaled by `intensityScale` and
      the box diagonal's length scaled by `radiusScale`. */
  function CubeLight(c: Cubes.Cube, intensityScale: real, radiusScale: real, length: Vec3 -> real): Light {
    Light(
      Center(c),
      c.material.emission,
      Product(Colors.Intensity(c.material.emission), intensityScale),
      Product(length(Minus(c.max, c.min)), radiusScale))
  }

  /** One light per glowing cube, in cube order. */
  function EmissiveLights(objects: seq<Cubes.Cube>, intensityScale: real, radiusScale: real, length: Vec3 -> real): (ls: seq<Light>)
    ensures |ls| == |Emissive(objects)|
    ensures forall k :: 0 <= k < |ls| ==> ls[k] == CubeLight(Emissive(objects)[k], intensityScale, radiusScale, length)
  {
    if |objects| == 0 then []
    else
      var last := objects[|objects| - 1];
      EmissiveLights(objects[..|objects| - 1], intensityScale, radiusScale, length)
        + (if Glows(last) then [CubeLight(last, intensityScale, radiusScale, length)] else [])
  }

  /** `generate_lights_from_emissive_objects`: filter the glowing cubes and
      map each to a light with ten times its emission intensity and ten
      times its diagonal as radius. */
  function LightsFromEmissiveObjects(objects: seq<Cubes.Cube>, length: Vec3 -> real): (ls: seq<Light>)
    ensures |ls| == |Emissive(objects)|
    ensures forall k :: 0 <= k < |ls| ==>
      && ls[k].position == Center(Emissive(objects)[k])
      && ls[k].color == Emissive(objects)[k].material.emission
      && ls[k].intensity == Product(Colors.Intensity(ls[k].color), 10.0)
      && ls[k].radius == Product(length(Minus(Emissive(objects)[k].max, Emissive(objects)[k].min)), 10.0)
  {
    EmissiveLights(objects, 10.0, 10.0, length)
  }

  /** `generate_lights_from_emissive_materials`: the same scan written as
      a loop pushing onto a vector, with a tenth of the emission intensity
      and twice the diagonal as radius. */
  method LightsFromEmissiveMaterials(objects: seq<Cubes.Cube>, length: Vec3 -> real) returns (ls: seq<Light>)
    ensures ls == EmissiveLights(objects, 0.1, 2.0, length)
  {
    ls := [];
    for k := 0 to |objects|
      invariant ls == EmissiveLights(objects[..k], 0.1, 2.0, length)
    {
      assert objects[..k + 1][..k] == objects[..k];
      var cube := objects[k];
      if cube.material.emission != Colors.Color(0, 0, 0) {
        var position := Scale(Plus(cube.min, cube.max), 0.5);
        var intensity := Product(Colors.Intensity(cube.material.emission), 0.1);
        var radius := Product(length(Minus(cube.max, cube.min)), 2.0);
        ls := ls + [Light(position, cube.material.emission, intensity, radius)];
      }
    }
    assert objects[..|objects|] == objects;
  }

  /** Every generated light is positioned and coloured by a glowing cube,
      and its intensity is positive and at most the scale: a non-black
      emission has an intensity in (0, 1]. */
  lemma GeneratedLightsGlow(objects: seq<Cubes.Cube>, intensityScale: real, radiusScale: real, length: Vec3 -> real, k: nat)
    requires intensityScale > 0.0
    requires k < |EmissiveLights(objects, intensityScale, radiusScale, length)|
    ensures Emissive(objects)[k] in objects
    ensures EmissiveLights(objects, intensityScale, radiusScale, length)[k].color != Colors.Black()
    ensures 0.0 < EmissiveLights(objects, intensityScale, radiusScale, length)[k].intensity <= intensityScale
  {
    var c := Emissive(objects)[k];
    assert c in Emissive(objects);
    var i := Colors.Intensity(c.material.emission);
    ProductStrictlyMonotone(intensityScale, 0.0, i);
    ProductMonotone(intensityScale, i, 1.0);
    assert Product(i, intensityScale) == Product(intensityScale, i);
  }

  /** The two generators pick the same cubes and give the same positions
      and colours; the object generator's intensity is a hundred times and
      its radius five times the material generator's. */
  lemma GeneratorsAgree(objects: seq<Cubes.Cube>, length: Vec3 -> real)
    ensures |LightsFromEmissiveObjects(objects, length)| == |EmissiveLights(objects, 0.1, 2.0, length)|
    ensures forall k :: 0 <= k < |LightsFromEmissiveObjects(objects, length)| ==>
      var strong := LightsFromEmissiveObjects(objects, length)[k];
      var weak := EmissiveLights(objects, 0.1, 2.0, length)[k];
      && strong.position == weak.position && strong.color == weak.color
      && strong.intensity == Product(weak.intensity, 100.0)
      && strong.radius == Product(weak.radius, 5.0)
  {
  }
}
