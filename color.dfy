/** `src/color.rs`: an RGB colour with one unsigned byte per channel.
    Every operation builds a new colour channel by channel; results are
    saturated into [0, 255] and never wrap. The constructor `Color::new`
    is the datatype constructor `Color(r, g, b)`. */
module Colors {
  import opened Numeric

  datatype Color = Color(r: Byte, g: Byte, b: Byte)

  const WHITE: Color := Color(255, 255, 255)

  /** `Color::black`. */
  function Black(): (c: Color)
    ensures c.r == 0 && c.g == 0 && c.b == 0
  {
    Color(0, 0, 0)
  }

  // ---------------------------------------------------------------------
  // RGB888 packing. A `u32` is an `int` below 2^32; `v << k` of a value
  // that fits is `v * 2^k`, `v >> k` is `v / 2^k`, `v & 0xFF` is
  // `v % 0x100`, and `|` of values occupying disjoint bytes is their sum.
  // ---------------------------------------------------------------------

  /** `to_hex`: `(r << 16) | (g << 8) | b`. */
  function ToHex(c: Color): (h: U32)
    ensures h < 0x100_0000
    ensures h / 0x1_0000 == c.r && (h / 0x100) % 0x100 == c.g && h % 0x100 == c.b
  {
    HexFields(c.r, c.g, c.b);
    c.r * 0x1_0000 + c.g * 0x100 + c.b
  }

  /** The three bytes of a packed value are read back by shifting and masking. */
  lemma HexFields(r: Byte, g: Byte, b: Byte)
    ensures r * 0x1_0000 + g * 0x100 + b < 0x100_0000
    ensures (r * 0x1_0000 + g * 0x100 + b) / 0x1_0000 == r
    ensures (r * 0x1_0000 + g * 0x100 + b) / 0x100 == r * 0x100 + g
    ensures (r * 0x1_0000 + g * 0x100 + b) % 0x100 == b
    ensures (r * 0x100 + g) % 0x100 == g
  {
    DivModUnique(r * 0x1_0000 + g * 0x100 + b, 0x1_0000, r, g * 0x100 + b);
    DivModUnique(r * 0x1_0000 + g * 0x100 + b, 0x100, r * 0x100 + g, b);
    DivModUnique(r * 0x100 + g, 0x100, r, g);
  }

  /** `from_hex`: `((hex >> 16) & 0xFF, (hex >> 8) & 0xFF, hex & 0xFF)`. */
  function FromHex(hex: U32): Color {
    Color((hex / 0x1_0000) % 0x100, (hex / 0x100) % 0x100, hex % 0x100)
  }

  /** Unpacking a packed colour gives the colour back. */
  lemma UnpackPack(c: Color)
    ensures FromHex(ToHex(c)) == c
  {
    var h := ToHex(c);
    assert (h / 0x1_0000) % 0x100 == c.r;
  }

  /** Packing an unpacked value keeps exactly its low 24 bits. */
  lemma PackUnpack(hex: U32)
    ensures ToHex(FromHex(hex)) == hex % 0x100_0000
  {
    var low := hex % 0x100_0000;
    assert hex / 0x1_0000 == (hex / 0x100_0000) * 0x100 + low / 0x1_0000;
    assert hex / 0x100 == (hex / 0x100_0000) * 0x1_0000 + low / 0x100;
    assert (hex / 0x1_0000) % 0x100 == low / 0x1_0000;
    assert (hex / 0x100) % 0x100 == (low / 0x100) % 0x100;
    assert hex % 0x100 == low % 0x100;
    assert low == (low / 0x1_0000) * 0x1_0000 + ((low / 0x100) % 0x100) * 0x100 + low % 0x100;
  }

  // ---------------------------------------------------------------------
  // Intensity and interpolation
  // ---------------------------------------------------------------------

  /** `intensity`: the mean channel value scaled to [0, 1]. */
  function Intensity(c: Color): (i: real)
    ensures 0.0 <= i <= 1.0
    ensures i == 0.0 <==> c == Black()
    ensures i == 1.0 <==> c == WHITE
  {
    (c.r as real + c.g as real + c.b as real) / (3.0 * 255.0)
  }

  /** One channel of `lerp`: `(x * (1 - t) + y * t) as u8`. */
  function LerpChannel(x: Byte, y: Byte, t: real): (z: Byte)
    ensures t == 0.0 ==> z == x
    ensures t == 1.0 ==> z == y
    ensures 0.0 <= t <= 1.0 ==> (x <= z <= y || y <= z <= x)
  {
    LerpCastBetween(x, y, t);
    ToU8(Mix(x as real, y as real, t))
  }

  lemma LerpCastBetween(x: Byte, y: Byte, t: real)
    ensures t == 0.0 ==> ToU8(Mix(x as real, y as real, t)) == x
    ensures t == 1.0 ==> ToU8(Mix(x as real, y as real, t)) == y
    ensures var z := ToU8(Mix(x as real, y as real, t));
      0.0 <= t <= 1.0 ==> (x <= z <= y || y <= z <= x)
  {
    MixBetween(x as real, y as real, t);
    if 0.0 <= t <= 1.0 {
      if x <= y {
        ToU8AtLeast(Mix(x as real, y as real, t), x);
        ToU8AtMost(Mix(x as real, y as real, t), y);
      } else {
        ToU8AtLeast(Mix(x as real, y as real, t), y);
        ToU8AtMost(Mix(x as real, y as real, t), x);
      }
    }
  }

  /** Casting a value no larger than a byte `n` gives at most `n`. */
  lemma ToU8AtMost(v: real, n: Byte)
    requires v <= n as real
    ensures ToU8(v) <= n
  {
  }

  /** Casting a value no smaller than a byte `n` gives at least `n`. */
  lemma ToU8AtLeast(v: real, n: Byte)
    requires v >= n as real
    ensures ToU8(v) >= n
  {
  }

  /** `Color::lerp`: channel-wise linear interpolation from `a` (t = 0) to
      `b` (t = 1). */
  function Lerp(a: Color, b: Color, t: real): (c: Color)
    ensures t == 0.0 ==> c == a
    ensures t == 1.0 ==> c == b
    ensures 0.0 <= t <= 1.0 ==> Between(c, a, b)
  {
    Color(LerpChannel(a.r, b.r, t), LerpChannel(a.g, b.g, t), LerpChannel(a.b, b.b, t))
  }

  /** Every channel of `c` lies between the same channels of `a` and `b`. */
  predicate Between(c: Color, a: Color, b: Color) {
    && (a.r <= c.r <= b.r || b.r <= c.r <= a.r)
    && (a.g <= c.g <= b.g || b.g <= c.g <= a.g)
    && (a.b <= c.b <= b.b || b.b <= c.b <= a.b)
  }

  /** No channel of `c` is below the same channel of `d`. */
  predicate AtLeast(c: Color, d: Color) {
    c.r >= d.r && c.g >= d.g && c.b >= d.b
  }

  // ---------------------------------------------------------------------
  // Multiplication
  // ---------------------------------------------------------------------

  /** One channel of `mul`: `((x as f32 * y as f32) / 255.0) as u8`, which is
      the integer quotient `x * y / 255`. */
  function MulChannel(x: Byte, y: Byte): (z: Byte)
    ensures z == (x * y) / 255
  {
    ProductBound(x, y);
    QuotientAsReal(x * y);
    FloorUnique((x * y) as real / 255.0, (x * y) / 255);
    ToU8((x * y) as real / 255.0)
  }

  /** Integer division by 255 is the floor of real division by 255.0, and a
      product of two bytes divided by 255.0 is at most 255. */
  lemma QuotientAsReal(p: nat)
    ensures ((p / 255) as real) <= p as real / 255.0 < (p / 255) as real + 1.0
    ensures p <= 255 * 255 ==> p as real / 255.0 <= 255.0
  {
    var q := p / 255;
    assert q * 255 <= p < q * 255 + 255;
    assert (q * 255) as real == q as real * 255.0;
  }

  lemma ProductBound(x: Byte, y: Byte)
    ensures x * y <= 255 * x && x * y <= 255 * y && x * y <= 255 * 255
  {
    assert x * y <= x * 255;
    assert x * y <= 255 * y;
  }

  /** `Color::mul`: channel-wise product normalised by 255. */
  function Mul(a: Color, b: Color): Color {
    Color(MulChannel(a.r, b.r), MulChannel(a.g, b.g), MulChannel(a.b, b.b))
  }

  /** The product never exceeds either factor, is commutative, has white as
      identity and black as zero. */
  lemma MulProperties(a: Color, b: Color)
    ensures Mul(a, b) == Mul(b, a)
    ensures Mul(a, b).r <= a.r && Mul(a, b).r <= b.r
    ensures Mul(a, b).g <= a.g && Mul(a, b).g <= b.g
    ensures Mul(a, b).b <= a.b && Mul(a, b).b <= b.b
    ensures Mul(a, WHITE) == a && Mul(WHITE, a) == a
    ensures Mul(a, Black()) == Black() && Mul(Black(), a) == Black()
  {
    MulChannelBound(a.r, b.r);
    MulChannelBound(a.g, b.g);
    MulChannelBound(a.b, b.b);
    assert a.r * b.r == b.r * a.r && a.g * b.g == b.g * a.g && a.b * b.b == b.b * a.b;
  }

  lemma MulChannelBound(x: Byte, y: Byte)
    ensures MulChannel(x, y) <= x && MulChannel(x, y) <= y
  {
    ProductBound(x, y);
  }

  // ---------------------------------------------------------------------
  // Scaling by an `f32`
  // ---------------------------------------------------------------------

  /** One channel of `mul_scalar`: `(x as f32 * s).min(255.0) as u8`. */
  function MulScalarChannel(x: Byte, s: real): Byte {
    ToU8(Min(Product(x as real, s), 255.0))
  }

  /** `Color::mul_scalar`. */
  function MulScalar(c: Color, s: real): Color {
    Color(MulScalarChannel(c.r, s), MulScalarChannel(c.g, s), MulScalarChannel(c.b, s))
  }

  /** One channel of `impl Mul<f32> for Color`: `(x as f32 * s).clamp(0.0, 255.0) as u8`. */
  function TimesChannel(x: Byte, s: real): Byte {
    ToU8(Max(0.0, Min(Product(x as real, s), 255.0)))
  }

  /** `impl Mul<f32> for Color`, the operator `c * s`. */
  function Times(c: Color, s: real): Color {
    Color(TimesChannel(c.r, s), TimesChannel(c.g, s), TimesChannel(c.b, s))
  }

  /** Both scalings truncate `x * s` toward zero and saturate it into [0, 255]. */
  lemma ScaleChannelIsSaturatedProduct(x: Byte, s: real)
    ensures MulScalarChannel(x, s) == ToU8(Product(x as real, s))
    ensures TimesChannel(x, s) == ToU8(Product(x as real, s))
  {
  }

  /** `mul_scalar` and the `*` operator agree on every colour and scalar. */
  lemma MulScalarAgreesWithTimes(c: Color, s: real)
    ensures MulScalar(c, s) == Times(c, s)
  {
    ScaleChannelIsSaturatedProduct(c.r, s);
    ScaleChannelIsSaturatedProduct(c.g, s);
    ScaleChannelIsSaturatedProduct(c.b, s);
  }

  /** Scalar 1 is the identity, scalar 0 gives black, a scalar in [0, 1]
      never brightens a channel, and a negative scalar gives black. */
  lemma MulScalarProperties(c: Color, s: real)
    ensures MulScalar(c, 1.0) == c
    ensures MulScalar(c, 0.0) == Black()
    ensures 0.0 <= s <= 1.0 ==> MulScalar(c, s).r <= c.r && MulScalar(c, s).g <= c.g && MulScalar(c, s).b <= c.b
    ensures s <= 0.0 ==> MulScalar(c, s) == Black()
  {
    ScaleChannelBound(c.r, s);
    ScaleChannelBound(c.g, s);
    ScaleChannelBound(c.b, s);
  }

  lemma ScaleChannelBound(x: Byte, s: real)
    ensures 0.0 <= s <= 1.0 ==> MulScalarChannel(x, s) <= x
    ensures s <= 0.0 ==> MulScalarChannel(x, s) == 0
  {
    ProductBounds(x as real, s);
    if 0.0 <= s <= 1.0 {
      SaturatedAtMost(Product(x as real, s), x);
    }
    if s <= 0.0 {
      SaturatedAtMost(Product(x as real, s), 0);
    }
  }

  /** Saturating and casting a value no larger than a byte `n` gives at most `n`. */
  lemma SaturatedAtMost(v: real, n: Byte)
    requires v <= n as real
    ensures ToU8(Min(v, 255.0)) <= n
  {
    ToU8AtMost(Min(v, 255.0), n);
  }

  // ---------------------------------------------------------------------
  // Saturating addition
  // ---------------------------------------------------------------------

  /** One channel of the sum: `(x as u16 + y as u16).min(255) as u8`. The
      operands are widened to 16 bits first, so the sum (at most 510) never
      wraps. */
  function AddChannel(x: Byte, y: Byte): Byte {
    var wide: U16 := x + y;
    if wide < 255 then wide else 255
  }

  /** `Color::add`. */
  function Add(a: Color, b: Color): Color {
    Color(AddChannel(a.r, b.r), AddChannel(a.g, b.g), AddChannel(a.b, b.b))
  }

  /** `impl Add for Color`, the operator `a + b` on two colours. */
  function Plus(a: Color, b: Color): Color {
    Color(AddChannel(a.r, b.r), AddChannel(a.g, b.g), AddChannel(a.b, b.b))
  }

  /** `impl Add<&Color> for Color` as intended: the operator `a + &b`
      delegating to the inherent `Color::add`. */
  function PlusRef(a: Color, b: Color): Color {
    Add(a, b)
  }

  /** How a call ends when it is given `fuel` nested calls to make: with a
      colour, or with every call spent on recursion. */
  datatype Outcome = Returned(c: Color) | Exhausted

  /** `impl Add<&Color> for Color` as written. Its body `self.add(other)`
      takes `self` by value, and Rust's method lookup tries the by-value
      trait methods before the inherent `add(&self, ..)`; with a `&Color`
      argument that is this very impl again, so each call only makes the
      next one. */
  function PlusRefAsWritten(a: Color, b: Color, fuel: nat): Outcome
    decreases fuel
  {
    if fuel == 0 then Exhausted else PlusRefAsWritten(a, b, fuel - 1)
  }

  /** However many nested calls are allowed, the impl as written never
      returns a colour. */
  lemma {:induction false} PlusRefAsWrittenNeverReturns(a: Color, b: Color, fuel: nat)
    ensures PlusRefAsWritten(a, b, fuel) == Exhausted
    decreases fuel
  {
    if fuel > 0 {
      PlusRefAsWrittenNeverReturns(a, b, fuel - 1);
    }
  }

  /** A sum channel is `min(x + y, 255)`: exact when it fits, 255 otherwise. */
  lemma AddChannelSaturates(x: Byte, y: Byte)
    ensures x + y <= 255 ==> AddChannel(x, y) == x + y
    ensures x + y > 255 ==> AddChannel(x, y) == 255
    ensures AddChannel(x, y) >= x && AddChannel(x, y) >= y
  {
  }

  /** The method and the operator on two values compute the same colour. */
  lemma AddFormsAgree(a: Color, b: Color)
    ensures Plus(a, b) == Add(a, b)
  {
  }

  /** The corrected `a + &b` gives what `a + b` gives, so it is also
      commutative and saturating. */
  lemma PlusRefAgrees(a: Color, b: Color)
    ensures PlusRef(a, b) == Plus(a, b) && PlusRef(a, b) == PlusRef(b, a)
    ensures PlusRef(a, b).r >= a.r && PlusRef(a, b).g >= a.g && PlusRef(a, b).b >= a.b
  {
    AddFormsAgree(a, b);
    AddProperties(a, b, Black());
  }

  /** Saturating addition is commutative and associative, black is its
      identity, white absorbs everything (so white + white == white), and no
      channel of a sum is below the same channel of either operand. */
  lemma AddProperties(a: Color, b: Color, c: Color)
    ensures Add(a, b) == Add(b, a)
    ensures Add(Add(a, b), c) == Add(a, Add(b, c))
    ensures Add(a, Black()) == a && Add(Black(), a) == a
    ensures Add(a, WHITE) == WHITE && Add(WHITE, WHITE) == WHITE
    ensures Add(a, b).r >= a.r && Add(a, b).r >= b.r
    ensures Add(a, b).g >= a.g && Add(a, b).g >= b.g
    ensures Add(a, b).b >= a.b && Add(a, b).b >= b.b
  {
  }
}
