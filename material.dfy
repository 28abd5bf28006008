/** `src/material.rs`: the shading parameters attached to a surface. */
module Materials {
  import opened Colors
  import opened Textures

  /** `[f32; 4]`: diffuse weight, specular weight, reflectivity, transparency. */
  type Properties = p: seq<real> | |p| == 4 witness [0.0, 0.0, 0.0, 0.0]

  datatype Material = Material(
    color: Color,
    shininess: real,
    properties: Properties,
    refractiveIndex: real,
    textures: seq<Texture>,
    emission: Color)

  /** `Material::new`: the four arguments, no textures and no emission. */
  function New(color: Color, shininess: real, properties: Properties, refractiveIndex: real): (m: Material)
    ensures m.color == color && m.shininess == shininess
    ensures m.properties == properties && m.refractiveIndex == refractiveIndex
    ensures m.textures == [] && m.emission == Colors.Black()
  {
    Material(color, shininess, properties, refractiveIndex, [], Colors.Black())
  }

  /** `with_emission`: replaces the emission and nothing else. */
  function WithEmission(m: Material, emission: Color): (m': Material)
    ensures m'.emission == emission
    ensures m'.(emission := m.emission) == m
  {
    m.(emission := emission)
  }

  /** `with_textures`: replaces the texture list and nothing else. */
  function WithTextures(m: Material, textures: seq<Texture>): (m': Material)
    ensures m'.textures == textures
    ensures m'.(textures := m.textures) == m
  {
    m.(textures := textures)
  }

  /** `Material::black`: the sentinel material of a "no hit" record. */
  function Black(): (m: Material)
    ensures m.color == Colors.Black() && m.shininess == 0.0
    ensures m.properties == [0.0, 0.0, 0.0, 0.0] && m.refractiveIndex == 1.0
    ensures m.textures == [] && m.emission == Colors.Black()
  {
    Material(Colors.Black(), 0.0, [0.0, 0.0, 0.0, 0.0], 1.0, [], Colors.Black())
  }

  /** `is_diffuse`: no specular weight and no reflectivity. */
  predicate IsDiffuse(m: Material) {
    m.properties[1] == 0.0 && m.properties[2] == 0.0
  }

  /** `is_reflective`. */
  predicate IsReflective(m: Material) {
    m.properties[2] > 0.0
  }

  /** `is_transparent`. */
  predicate IsTransparent(m: Material) {
    m.properties[3] > 0.0
  }

  /** A material glows (the renderer's "glowstone" case) when its emission
      is not black. */
  predicate IsEmissive(m: Material) {
    m.emission != Colors.Black()
  }

  /** The builders commute, the later of two calls of one builder wins, and
      re-applying a field's current value changes nothing. */
  lemma BuilderAlgebra(m: Material, e1: Color, e2: Color, t1: seq<Texture>, t2: seq<Texture>)
    ensures WithTextures(WithEmission(m, e1), t1) == WithEmission(WithTextures(m, t1), e1)
    ensures WithEmission(WithEmission(m, e1), e2) == WithEmission(m, e2)
    ensures WithTextures(WithTextures(m, t1), t2) == WithTextures(m, t2)
    ensures WithEmission(m, m.emission) == m && WithTextures(m, m.textures) == m
  {
  }

  /** The classification reads single property entries: `is_diffuse`
      ignores entries 0 and 3, a diffuse material is never reflective, and
      the other predicates ignore everything but their own entry. */
  lemma ClassificationReadsSingleEntries(m: Material, p: Properties)
    ensures p[1] == m.properties[1] && p[2] == m.properties[2]
      ==> IsDiffuse(m.(properties := p)) == IsDiffuse(m)
    ensures p[2] == m.properties[2] ==> IsReflective(m.(properties := p)) == IsReflective(m)
    ensures p[3] == m.properties[3] ==> IsTransparent(m.(properties := p)) == IsTransparent(m)
    ensures IsDiffuse(m) ==> !IsReflective(m)
  {
  }

  /** The black material is diffuse, neither reflective nor transparent,
      and does not glow; `new` never glows either. */
  lemma BlackIsInert(color: Color, shininess: real, properties: Properties, refractiveIndex: real)
    ensures IsDiffuse(Black()) && !IsReflective(Black()) && !IsTransparent(Black())
    ensures !IsEmissive(Black()) && !IsEmissive(New(color, shininess, properties, refractiveIndex))
  {
  }
}
