/** The part of `nalgebra_glm::Vec3` the renderer uses, over `real`.
    Operations that need a square root (`magnitude`, `normalize`) are not
    defined here; the model takes their results as inputs. */
module Vectors {
  import opened Numeric

  datatype Vec3 = Vec3(x: real, y: real, z: real)

  const ZERO: Vec3 := Vec3(0.0, 0.0, 0.0)

  function Plus(a: Vec3, b: Vec3): Vec3 {
    Vec3(a.x + b.x, a.y + b.y, a.z + b.z)
  }

  function Minus(a: Vec3, b: Vec3): Vec3 {
    Vec3(a.x - b.x, a.y - b.y, a.z - b.z)
  }

  function Scale(a: Vec3, s: real): Vec3 {
    Vec3(Product(a.x, s), Product(a.y, s), Product(a.z, s))
  }

  /** The point `o + d * t` of the ray from `o` along `d`. */
  function Along(o: Vec3, d: Vec3, t: real): Vec3 {
    Plus(o, Scale(d, t))
  }

  function Dot(a: Vec3, b: Vec3): real {
    a.x * b.x + a.y * b.y + a.z * b.z
  }

  /** No component is zero: the slab test divides by each of them. */
  predicate NonZero(d: Vec3) {
    d.x != 0.0 && d.y != 0.0 && d.z != 0.0
  }

  /** `m` is the Euclidean length of `v`, as `magnitude()` computes it. */
  predicate IsLength(v: Vec3, m: real) {
    m >= 0.0 && m * m == Dot(v, v)
  }

  lemma DotSymmetric(a: Vec3, b: Vec3)
    ensures Dot(a, b) == Dot(b, a)
  {
  }

  lemma DotMinusLeft(a: Vec3, b: Vec3, c: Vec3)
    ensures Dot(Minus(a, b), c) == Dot(a, c) - Dot(b, c)
  {
  }

  lemma DotScaleLeft(a: Vec3, s: real, b: Vec3)
    ensures Dot(Scale(a, s), b) == Product(s, Dot(a, b))
  {
  }
}
