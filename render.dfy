/** `render` in `src/main.rs`: one primary ray per pixel, each pixel's
    colour packed with `to_hex` into a temporary buffer, then the buffer
    flushed into the framebuffer one pixel at a time. The framebuffer's
    own source file is not part of this model; the class below has the
    fields and the two methods `render` uses, with the bounds-checked
    row-major store such a framebuffer performs. */
module Render {
  import opened Numeric
  import opened Vectors
  import Colors
  import Cubes
  import Lights
  import Tracer

  /** Pixel `index` of a row-major `width` by `height` image is the cell
      (index % width, index / width), and that cell's flat index is
      `index` again. */
  lemma PixelCoordinates(index: nat, width: nat, height: nat)
    requires index < width * height
    ensures width > 0 && height > 0
    ensures index % width < width && index / width < height
    ensures Flat(index % width, index / width, width) == index
  {
    var x, y := index % width, index / width;
    if y >= height {
      MulLeqInt(height, y, width);
    }
  }

  /** The framebuffer: `width * height` packed colours in row-major order
      and the colour the next `point` stores. */
  class Framebuffer {
    var width: nat
    var height: nat
    var buffer: array<U32>
    var currentColor: U32

    /** The buffer holds exactly one word per pixel. */
    predicate Valid()
      reads this
    {
      buffer.Length == width * height
    }

    /** `Framebuffer::new`: a cleared buffer of the given size. */
    constructor (width: nat, height: nat)
      ensures Valid() && this.width == width && this.height == height
      ensures fresh(buffer)
      ensures forall k :: 0 <= k < buffer.Length ==> buffer[k] == 0
      ensures currentColor == 0
    {
      this.width := width;
      this.height := height;
      buffer := new U32[width * height](_ => 0);
      currentColor := 0;
    }

    /** `set_current_color`: only the pen colour changes. */
    method SetCurrentColor(color: U32)
      modifies this
      ensures currentColor == color
      ensures width == old(width) && height == old(height) && buffer == old(buffer)
    {
      currentColor := color;
    }

    /** `point`: store the pen colour at cell (x, y) when the cell is on
        the screen; a point off the screen changes nothing. */
    method Point(x: nat, y: nat)
      requires Valid()
      modifies buffer
      ensures x < width && y < height ==>
        Flat(x, y, width) < buffer.Length &&
        buffer[..] == old(buffer[..])[Flat(x, y, width) := currentColor]
      ensures !(x < width && y < height) ==> buffer[..] == old(buffer[..])
    {
      if x < width && y < height {
        GridIndex(x, y, width, height);
        buffer[y * width + x] := currentColor;
      }
    }
  }

  /** For a cell k of n, the fraction 2k / n of the screen's extent lies in [0, 2). */
  lemma ScreenStep(k: nat, n: nat)
    requires k < n
    ensures 0.0 <= Quotient(2.0 * k as real, n as real) < 2.0
    ensures k == 0 ==> Quotient(2.0 * k as real, n as real) == 0.0
  {
    var q := Quotient(2.0 * k as real, n as real);
    QuotientFacts(2.0 * k as real, n as real);
    if q >= 2.0 {
      ProductMonotone(n as real, 2.0, q);
    }
    if q < 0.0 {
      ProductAntitone(n as real, q, 0.0);
    }
  }

  /** The fraction 2k / n is 1 exactly at the middle cell. */
  lemma ScreenMiddle(k: nat, n: nat)
    requires k < n
    ensures Quotient(2.0 * k as real, n as real) == 1.0 <==> 2 * k == n
  {
    var q := Quotient(2.0 * k as real, n as real);
    QuotientFacts(2.0 * k as real, n as real);
    assert Product(n as real, 1.0) == n as real;
    ProductOrder(n as real, q, 1.0);
    ProductOrder(n as real, 1.0, q);
  }

  /** The horizontal screen coordinate of column `x`: -1 at the left edge,
      rising in equal steps, staying below 1, and 0 only in the middle
      column of an even width. */
  function ScreenX(x: nat, width: nat): (s: real)
    requires x < width
    ensures -1.0 <= s < 1.0
    ensures x == 0 ==> s == -1.0
    ensures s == 0.0 <==> 2 * x == width
  {
    ScreenStep(x, width);
    ScreenMiddle(x, width);
    Quotient(2.0 * x as real, width as real) - 1.0
  }

  /** The vertical screen coordinate of row `y`: 1 at the top edge,
      falling in equal steps, staying above -1, and 0 only in the middle
      row of an even height. */
  function ScreenY(y: nat, height: nat): (s: real)
    requires y < height
    ensures -1.0 < s <= 1.0
    ensures y == 0 ==> s == 1.0
    ensures s == 0.0 <==> 2 * y == height
  {
    ScreenStep(y, height);
    ScreenMiddle(y, height);
    -Quotient(2.0 * y as real, height as real) + 1.0
  }

  /** A product of reals is zero exactly when a factor is. */
  lemma ProductZero(a: real, b: real)
    ensures Product(a, b) == 0.0 <==> a == 0.0 || b == 0.0
  {
    if a != 0.0 {
      ProductOrder(a, b, 0.0);
      ProductOrder(a, 0.0, b);
      assert Product(a, 0.0) == 0.0;
    }
  }

  /** A change of basis that never gives a zero component to a direction
      that has none (a camera looking along the axes does this). */
  ghost predicate KeepsNonZero(basisChange: Vec3 -> Vec3) {
    forall v :: NonZero(v) ==> NonZero(basisChange(v))
  }

  /** The camera-space direction through pixel (x, y): the screen point
      widened by the aspect ratio and scaled by `perspectiveScale` (the
      tangent of half the field of view), one unit in front of the eye.
      It has a zero component exactly in the middle column of an even
      width, in the middle row of an even height, or with no perspective. */
  function ScreenDirection(x: nat, y: nat, width: nat, height: nat, perspectiveScale: real): (v: Vec3)
    requires x < width && y < height
    ensures v.z == -1.0
    ensures NonZero(v) <==> perspectiveScale != 0.0 && 2 * x != width && 2 * y != height
  {
    var aspectRatio := Quotient(width as real, height as real);
    QuotientFacts(width as real, height as real);
    ProductZero(ScreenX(x, width), aspectRatio);
    ProductZero(Product(ScreenX(x, width), aspectRatio), perspectiveScale);
    ProductZero(ScreenY(y, height), perspectiveScale);
    var screenX := Product(Product(ScreenX(x, width), aspectRatio), perspectiveScale);
    var screenY := Product(ScreenY(y, height), perspectiveScale);
    Vec3(screenX, screenY, -1.0)
  }

  /** The primary ray's direction through pixel (x, y): the camera-space
      direction, normalized and turned into the world by the camera's
      change of basis. Off the middle column and row, and with a basis
      change that keeps components non-zero, it can be traced. */
  function PrimaryDirection(x: nat, y: nat, width: nat, height: nat, perspectiveScale: real,
                            basisChange: Vec3 -> Vec3, sh: Tracer.Shading): (d: Vec3)
    requires x < width && y < height
    ensures (&& KeepsNonZero(basisChange) && Tracer.Traceable(sh) && perspectiveScale != 0.0
             && 2 * x != width && 2 * y != height) ==> NonZero(d)
  {
    basisChange(sh.normalize(ScreenDirection(x, y, width, height, perspectiveScale)))
  }

  /** Every primary ray of a width-by-height frame meets what the tracer
      needs (`Tracer.Traced`) for its directions. */
  ghost predicate Visible(width: nat, height: nat, eye: Vec3, perspectiveScale: real, basisChange: Vec3 -> Vec3,
                          objects: seq<Cubes.Cube>, lights: seq<Lights.Light>, sh: Tracer.Shading) {
    forall x: nat, y: nat :: x < width && y < height ==>
      Tracer.Traced(eye, PrimaryDirection(x, y, width, height, perspectiveScale, basisChange, sh), objects, lights, 0, sh)
  }

  /** Storing word `i` of `a` into a buffer that holds `a` before `i`
      and `b` from `i` on extends the copied prefix by one. */
  lemma StoreStep<T>(a: seq<T>, b: seq<T>, i: nat)
    requires |a| == |b| && i < |a|
    ensures (a[..i] + b[i..])[i := a[i]] == a[..i + 1] + b[i + 1..]
  {
    var stored, extended := (a[..i] + b[i..])[i := a[i]], a[..i + 1] + b[i + 1..];
    assert forall k :: 0 <= k < |a| ==> stored[k] == extended[k];
  }

  /** The flush loop of `render`: pixel `index` goes to cell
      (index % width, index / width), and the loop visits every index
      once, so afterwards the framebuffer holds `pixels` exactly and the
      pen holds the last of them. */
  method Flush(fb: Framebuffer, pixels: seq<U32>)
    requires fb.Valid() && |pixels| == fb.width * fb.height
    modifies fb, fb.buffer
    ensures fb.Valid() && fb.width == old(fb.width) && fb.height == old(fb.height)
    ensures fb.buffer == old(fb.buffer)
    ensures fb.buffer[..] == pixels
    ensures |pixels| > 0 ==> fb.currentColor == pixels[|pixels| - 1]
    ensures |pixels| == 0 ==> fb.currentColor == old(fb.currentColor)
  {
    for index := 0 to |pixels|
      invariant fb.Valid() && fb.width == old(fb.width) && fb.height == old(fb.height)
      invariant fb.buffer == old(fb.buffer)
      invariant fb.buffer[..] == pixels[..index] + old(fb.buffer[..])[index..]
      invariant index > 0 ==> fb.currentColor == pixels[index - 1]
      invariant index == 0 ==> fb.currentColor == old(fb.currentColor)
    {
      PixelCoordinates(index, fb.width, fb.height);
      var x := index % fb.width;
      var y := index / fb.width;
      fb.SetCurrentColor(pixels[index]);
      fb.Point(x, y);
      StoreStep(pixels, old(fb.buffer[..]), index);
    }
    assert pixels[..|pixels|] == pixels;
  }

  /** The colour `cast_ray` gives for pixel `index`: the primary ray
      from the eye through cell (index % width, index / width). */
  ghost function PixelColor(index: nat, width: nat, height: nat, eye: Vec3, perspectiveScale: real,
                            basisChange: Vec3 -> Vec3, objects: seq<Cubes.Cube>, lights: seq<Lights.Light>,
                            ambient: Colors.Color, sh: Tracer.Shading): Colors.Color
    requires index < width * height && Tracer.Scene(objects, lights, sh)
    requires Visible(width, height, eye, perspectiveScale, basisChange, objects, lights, sh)
  {
    PixelCoordinates(index, width, height);
    Tracer.Radiance(eye, PrimaryDirection(index % width, index / width, width, height, perspectiveScale, basisChange, sh),
                    objects, lights, ambient, 0, sh)
  }

  /** The first `n` words of the temporary buffer `render` fills: the
      packed colours of pixels 0 to n - 1, in index order. */
  ghost function Image(n: nat, width: nat, height: nat, eye: Vec3, perspectiveScale: real,
                       basisChange: Vec3 -> Vec3, objects: seq<Cubes.Cube>, lights: seq<Lights.Light>,
                       ambient: Colors.Color, sh: Tracer.Shading): (image: seq<U32>)
    requires n <= width * height && Tracer.Scene(objects, lights, sh)
    requires Visible(width, height, eye, perspectiveScale, basisChange, objects, lights, sh)
    ensures |image| == n
  {
    if n == 0 then []
    else Image(n - 1, width, height, eye, perspectiveScale, basisChange, objects, lights, ambient, sh)
         + [Colors.ToHex(PixelColor(n - 1, width, height, eye, perspectiveScale, basisChange, objects, lights, ambient, sh))]
  }

  /** Word `j` of the buffer is the packed colour of pixel `j`. */
  lemma {:induction false} ImagePixel(n: nat, j: nat, width: nat, height: nat, eye: Vec3, perspectiveScale: real,
                                      basisChange: Vec3 -> Vec3, objects: seq<Cubes.Cube>, lights: seq<Lights.Light>,
                                      ambient: Colors.Color, sh: Tracer.Shading)
    requires j < n <= width * height && Tracer.Scene(objects, lights, sh)
    requires Visible(width, height, eye, perspectiveScale, basisChange, objects, lights, sh)
    ensures Image(n, width, height, eye, perspectiveScale, basisChange, objects, lights, ambient, sh)[j]
         == Colors.ToHex(PixelColor(j, width, height, eye, perspectiveScale, basisChange, objects, lights, ambient, sh))
  {
    var image := Image(n, width, height, eye, perspectiveScale, basisChange, objects, lights, ambient, sh);
    var prefix := Image(n - 1, width, height, eye, perspectiveScale, basisChange, objects, lights, ambient, sh);
    var pixel := Colors.ToHex(PixelColor(j, width, height, eye, perspectiveScale, basisChange, objects, lights, ambient, sh));
    if j < n - 1 {
      ImagePixel(n - 1, j, width, height, eye, perspectiveScale, basisChange, objects, lights, ambient, sh);
      assert image[j] == prefix[j] == pixel;
    } else {
      assert image == prefix + [pixel];
      assert image[j] == pixel;
    }
  }

  /** The body of the parallel loop of `render`: the packed colour of
      the primary ray through pixel `index`. */
  method TracePixel(index: nat, width: nat, height: nat, eye: Vec3, perspectiveScale: real, basisChange: Vec3 -> Vec3,
                    objects: seq<Cubes.Cube>, lights: seq<Lights.Light>, ambient: Colors.Color, sh: Tracer.Shading)
    returns (pixel: U32)
    requires index < width * height && Tracer.Scene(objects, lights, sh)
    requires Visible(width, height, eye, perspectiveScale, basisChange, objects, lights, sh)
    ensures pixel == Colors.ToHex(PixelColor(index, width, height, eye, perspectiveScale, basisChange, objects, lights, ambient, sh))
  {
    PixelCoordinates(index, width, height);
    var x := index % width;
    var y := index / width;
    var direction := PrimaryDirection(x, y, width, height, perspectiveScale, basisChange, sh);
    var color := Tracer.CastRay(eye, direction, objects, lights, ambient, 0, sh);
    pixel := Colors.ToHex(color);
  }

  /** The parallel loop of `render`, run in index order: it fills the
      whole temporary buffer, one `cast_ray` per pixel. */
  method TracePixels(width: nat, height: nat, eye: Vec3, perspectiveScale: real, basisChange: Vec3 -> Vec3,
                     objects: seq<Cubes.Cube>, lights: seq<Lights.Light>, ambient: Colors.Color, sh: Tracer.Shading)
    returns (pixels: seq<U32>)
    requires Tracer.Scene(objects, lights, sh)
    requires Visible(width, height, eye, perspectiveScale, basisChange, objects, lights, sh)
    ensures pixels == Image(width * height, width, height, eye, perspectiveScale, basisChange, objects, lights, ambient, sh)
  {
    pixels := [];
    for index := 0 to width * height
      invariant pixels == Image(index, width, height, eye, perspectiveScale, basisChange, objects, lights, ambient, sh)
    {
      var pixel := TracePixel(index, width, height, eye, perspectiveScale, basisChange, objects, lights, ambient, sh);
      pixels := pixels + [pixel];
    }
  }

  /** Cell (x, y) of the image is the packed colour `cast_ray` gives for
      the primary ray through that pixel. */
  lemma ImageCell(x: nat, y: nat, width: nat, height: nat, eye: Vec3, perspectiveScale: real,
                  basisChange: Vec3 -> Vec3, objects: seq<Cubes.Cube>, lights: seq<Lights.Light>,
                  ambient: Colors.Color, sh: Tracer.Shading)
    requires x < width && y < height && Tracer.Scene(objects, lights, sh)
    requires Visible(width, height, eye, perspectiveScale, basisChange, objects, lights, sh)
    ensures 0 <= Flat(x, y, width) < width * height
    ensures Image(width * height, width, height, eye, perspectiveScale, basisChange, objects, lights, ambient, sh)[Flat(x, y, width)]
         == Colors.ToHex(Tracer.Radiance(eye, PrimaryDirection(x, y, width, height, perspectiveScale, basisChange, sh),
                                         objects, lights, ambient, 0, sh))
  {
    GridIndex(x, y, width, height);
    ImagePixel(width * height, Flat(x, y, width), width, height, eye, perspectiveScale, basisChange,
               objects, lights, ambient, sh);
  }

  /** `render`: afterwards the framebuffer holds the whole image, one
      word per pixel, whatever it held before (see `ImageCell` for what
      each word is). */
  method Render(fb: Framebuffer, objects: seq<Cubes.Cube>, eye: Vec3, basisChange: Vec3 -> Vec3,
                perspectiveScale: real, lights: seq<Lights.Light>, ambient: Colors.Color, sh: Tracer.Shading)
    requires fb.Valid() && Tracer.Scene(objects, lights, sh)
    requires Visible(fb.width, fb.height, eye, perspectiveScale, basisChange, objects, lights, sh)
    modifies fb, fb.buffer
    ensures fb.Valid() && fb.width == old(fb.width) && fb.height == old(fb.height)
    ensures fb.buffer == old(fb.buffer)
    ensures fb.buffer[..] == Image(fb.width * fb.height, fb.width, fb.height, eye, perspectiveScale, basisChange,
                                   objects, lights, ambient, sh)
    ensures fb.width * fb.height > 0 ==>
      fb.currentColor == Image(fb.width * fb.height, fb.width, fb.height, eye, perspectiveScale, basisChange,
                               objects, lights, ambient, sh)[fb.width * fb.height - 1]
    ensures fb.width * fb.height == 0 ==> fb.currentColor == old(fb.currentColor)
  {
    var pixels := TracePixels(fb.width, fb.height, eye, perspectiveScale, basisChange, objects, lights, ambient, sh);
    Flush(fb, pixels);
  }
}
