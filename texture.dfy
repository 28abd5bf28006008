/** `src/texture.rs`: a row-major grid of colours sampled by nearest
    neighbour. Loading from an image file is not part of this model; a
    loaded texture holds exactly `width * height` pixels. */
module Textures {
  import opened Numeric
  import opened Colors

  datatype Texture = Texture(width: U32, height: U32, pixels: seq<Color>)

  /** What `Texture::load` guarantees: one pixel per grid cell. */
  predicate Loaded(t: Texture) {
    |t.pixels| == t.width * t.height
  }

  /** The clamped grid coordinate of one axis of `sample`:
      `((u * size as f32) as u32).min(size - 1)`. `size - 1` underflows
      (a panic) for an empty axis, hence the precondition. */
  function Cell(u: real, size: U32): (k: nat)
    requires size >= 1
    ensures k < size
    ensures u >= 1.0 ==> k == size - 1
    ensures u <= 0.0 ==> k == 0
    ensures 0.0 <= u < 1.0 ==> k == Product(u, size as real).Floor
  {
    CellFacts(u, size);
    CastFacts(Product(u, size as real), size);
    var cast := ToU32(Product(u, size as real));
    if cast < size - 1 then cast else size - 1
  }

  /** Where the scaled coordinate `u * size` falls for each range of `u`. */
  lemma CellFacts(u: real, size: U32)
    requires size >= 1
    ensures u >= 1.0 ==> Product(u, size as real) >= size as real
    ensures u <= 0.0 ==> Product(u, size as real) <= 0.0
    ensures 0.0 <= u < 1.0 ==> 0.0 <= Product(u, size as real) < size as real
  {
    assert Product(u, size as real) == Product(size as real, u);
    ProductBounds(size as real, u);
    if 0.0 <= u < 1.0 {
      ProductBelow(u, size as real);
    }
  }

  /** How the saturating cast treats a scaled coordinate `x`. */
  lemma CastFacts(x: real, size: U32)
    requires size >= 1
    ensures x >= size as real ==> ToU32(x) >= size - 1
    ensures x <= 0.0 ==> ToU32(x) == 0
    ensures 0.0 <= x < size as real ==> ToU32(x) == x.Floor < size
  {
  }

  /** The flat index `y * width + x` read by `sample`, computed in `u32`
      arithmetic that wraps modulo 2^32. The wrapped index still lies
      inside the grid; it names the cell (u, v) falls in whenever the grid
      has at most 2^32 cells, and may name another cell beyond that. */
  function SampleIndex(t: Texture, u: real, v: real): (i: nat)
    requires t.width >= 1 && t.height >= 1
    ensures i < t.width * t.height
    ensures i == Flat(Cell(u, t.width), Cell(v, t.height), t.width) % 0x1_0000_0000
    ensures t.width * t.height <= 0x1_0000_0000 ==>
              i % t.width == Cell(u, t.width) && i / t.width == Cell(v, t.height)
  {
    var x := Cell(u, t.width);
    var y := Cell(v, t.height);
    GridIndex(x, y, t.width, t.height);
    Flat(x, y, t.width) % 0x1_0000_0000
  }

  /** `Texture::sample`: the pixel of the cell that (u, v) falls in, with
      coordinates outside [0, 1) clamped to the edge cells. */
  function Sample(t: Texture, u: real, v: real): (c: Color)
    requires Loaded(t) && t.width >= 1 && t.height >= 1
    ensures c in t.pixels
  {
    t.pixels[SampleIndex(t, u, v)]
  }
}
