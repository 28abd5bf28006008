# The ray tracer's core in Dafny

This project models the core of a small Rust ray tracer. The renderer draws a
block world made of axis-aligned cubes, with textured, glowing, reflective and
transparent materials, lit by point lights and a day/night cycle. The model
covers five parts:

- 8-bit colour arithmetic and the RGB888 packing (`src/color.rs`);
- nearest-pixel texture sampling (`src/texture.rs`);
- the material record and its builders (`src/material.rs`);
- the intersection record and its face-dependent UV projection (`src/ray_intersect.rs`);
- the slab test of a ray against a box, with the face and normal it classifies (`src/cube.rs`).

From `src/main.rs` it models the control logic of the tracer:

- the origin bias, mirror reflection and the three-valued shadow test;
- the nearest-hit scan and the texture choice;
- the depth-limited recursion of `cast_ray`;
- the two generators that turn glowing cubes into lights;
- the day/night state and the zoom step;
- the pixel loop and the framebuffer flush of `render`.

`f32` is modelled as `real`. A Rust `as u8` / `as u32` cast is "truncate toward
zero, then saturate" (`Numeric.ToU8`, `Numeric.ToU32`). The floating-point
shading terms that need `sqrt`, `powf`, `sin`, `cos` or `tan` are passed in as
function values: the `Tracer.Shading` record, and the `sin`/`cos` parameters in
`Controls`. A direction passed to the slab test must have no zero component,
because the test divides by each one. The tracer therefore asks this only of
the directions it actually traces (`Tracer.Traced`, `Render.Visible`).

One module corresponds to each Rust file:

- `Colors`, `Textures`, `Materials`, `Intersections` and `Cubes` model the five files listed above;
- `Tracer`, `Lights`, `Controls` and `Render` model `src/main.rs`;
- `Numeric` and `Vectors` hold the shared arithmetic (saturating casts, `fract`, products, row-major indices) and the `Vec3` operations.

Pure Rust code, such as the colour operations, the builders and the pattern
matches, is modelled as functions. Code that loops or mutates is modelled as
methods proved against a specification function. That covers:

- the slab test's swaps and early returns;
- the nearest-hit scan, the light loop and the shadow loop;
- the light generator that pushes onto a vector;
- `DayNightCycle::update`;
- the pixel loop and the flush into the `Framebuffer` class.

## Model

| member | source | states |
|---|---|---|
| Numeric.ToU8 | src/color.rs:55-57 | an `f32 as u8` cast: the floor on [0, 256), 255 at or above 255, 0 below 1 (negatives included) |
| Numeric.ToU32 | src/texture.rs:22-23 | an `f32 as u32` cast: the floor within range, saturating at both ends |
| Numeric.Fract | src/ray_intersect.rs:50-62 | `fract` lies in (-1, 1) and keeps the sign of its argument |
| Numeric.AbsFractIsFractOfAbs | src/ray_intersect.rs:50-62 | `fract(c).abs()` is the fractional part of the absolute value of c, in [0, 1) |
| Numeric.FractOfWhole | src/ray_intersect.rs:50-62 | a whole number has fractional part 0 |
| Numeric.GridIndex | src/texture.rs:24 | for x < width and y < height, `y*width + x` is below width*height, and its remainder and quotient by width give back x and y |
| Colors.Black | src/color.rs:24-26 | every channel of `black()` is 0 |
| Colors.ToHex | src/color.rs:29-31 | the packed value is below 2^24, with red in bits 16-23, green in 8-15 and blue in 0-7 |
| Colors.UnpackPack | src/color.rs:17-22 | `from_hex(to_hex(c)) == c` |
| Colors.PackUnpack | src/color.rs:17-22 | `to_hex(from_hex(h))` keeps exactly the low 24 bits of `h` |
| Colors.FromHex | src/color.rs:17-22 | unpacks bits 16-23, 8-15 and 0-7; `UnpackPack` and `PackUnpack` make it the inverse of `ToHex` on 24-bit values |
| Colors.Intensity | src/color.rs:33-35 | the intensity lies in [0, 1]; it is 0 exactly for black and 1 exactly for white |
| Colors.LerpChannel | src/color.rs:39-41 | one channel of `lerp`: t = 0 gives the first value, t = 1 the second, t in [0, 1] a value between them |
| Colors.Lerp | src/color.rs:37-43 | `lerp(a,b,0) == a`, `lerp(a,b,1) == b`, and for t in [0, 1] every channel lies between those of a and b |
| Colors.MulChannel | src/color.rs:47-49 | one channel of `mul` is the integer part of x*y/255 |
| Colors.MulProperties | src/color.rs:45-51 | `mul` is commutative, no channel exceeds either operand's, white is its identity and black absorbs |
| Colors.MulChannelBound | src/color.rs:45-51 | a channel of `mul` is at most each of its two inputs |
| Colors.Mul | src/color.rs:45-51 | `mul`, channel by channel; its meaning is stated by `MulChannel` and `MulProperties` |
| Colors.ScaleChannelIsSaturatedProduct | src/color.rs:53-59 | a channel of `mul_scalar` (with `min(255)`) and of `* f32` (with `clamp(0, 255)`) are both the saturating cast of c*s |
| Colors.MulScalarAgreesWithTimes | src/color.rs:96-106 | `c.mul_scalar(s)` and `c * s` give the same colour for every s |
| Colors.MulScalarProperties | src/color.rs:53-59 | scalar 1 is the identity, a scalar ≤ 0 gives black, and a scalar in [0, 1] raises no channel |
| Colors.ScaleChannelBound | src/color.rs:53-59 | a scaled channel is at most the original for s in [0, 1], and it is 0 for s ≤ 0 |
| Colors.MulScalarChannel | src/color.rs:55-57 | one channel of `mul_scalar`; `ScaleChannelIsSaturatedProduct` makes it the saturating cast of c*s |
| Colors.MulScalar | src/color.rs:53-59 | `mul_scalar`; `MulScalarProperties` gives its identity, zero and non-increase facts |
| Colors.TimesChannel | src/color.rs:101-103 | one channel of `* f32`; `ScaleChannelIsSaturatedProduct` makes it the same saturating cast |
| Colors.Times | src/color.rs:96-106 | the `* f32` operator; `MulScalarAgreesWithTimes` makes it equal to `mul_scalar` |
| Colors.AddChannelSaturates | src/color.rs:61-67 | a channel of `add` is the exact sum up to 255 and 255 above it, so it is never below either operand |
| Colors.AddFormsAgree | src/color.rs:73-83 | the `+` operator on two values gives the same result as `add` |
| Colors.AddProperties | src/color.rs:61-67 | `add` is commutative and associative, black is its identity, white absorbs, and every channel is at least each operand's |
| Colors.AddChannel | src/color.rs:63-65 | one widened, clamped channel sum; `AddChannelSaturates` states it is min(x + y, 255) |
| Colors.Add | src/color.rs:61-67 | `Color::add`; `AddProperties` gives its algebra and `AddChannelSaturates` its channels |
| Colors.Plus | src/color.rs:73-83 | `impl Add for Color`; `AddFormsAgree` makes it equal to `add` |
| Colors.PlusRef | src/color.rs:85-91 | `impl Add<&Color> for Color` as intended, delegating to the inherent `add` (src/color.rs:61); see Findings |
| Colors.PlusRefAgrees | src/color.rs:85-91 | the intended `a + &b` equals `a + b`, is commutative and no channel falls below the left operand's |
| Colors.PlusRefAsWritten | src/color.rs:85-91 | the impl as written: each call only makes the same call again |
| Colors.PlusRefAsWrittenNeverReturns | src/color.rs:85-91 | however many nested calls are allowed, the impl as written never returns a colour |
| Textures.Cell | src/texture.rs:22-23 | the column (row) is below the size; u ≥ 1 gives the last one, u ≤ 0 gives 0, and u in [0, 1) gives floor(u*size) |
| Textures.CastFacts | src/texture.rs:22-23 | the cast of u*size is the floor in range and saturates at 0 and at the top |
| Textures.SampleIndex | src/texture.rs:22-24 | the `u32` index `y*width + x` wraps modulo 2^32 and stays below width*height; for at most 2^32 cells its column and row are the clamped cells of u and v |
| Textures.Sample | src/texture.rs:21-25 | for a texture whose pixel count is width*height, the sampled colour is one of its pixels |
| Materials.New | src/material.rs:15-24 | the four arguments are stored unchanged, with no textures and black emission |
| Materials.WithEmission | src/material.rs:26-29 | the emission is replaced and every other field is unchanged |
| Materials.WithTextures | src/material.rs:43-46 | the texture list is replaced and every other field is unchanged |
| Materials.Black | src/material.rs:32-41 | black colour, shininess 0, all four properties 0, refractive index 1, no textures, no emission |
| Materials.BuilderAlgebra | src/material.rs:26-46 | the two builders commute, each overrides its own earlier call, and rebuilding with the current value changes nothing |
| Materials.IsDiffuse | src/material.rs:49-51 | properties 1 and 2 are both 0; `ClassificationReadsSingleEntries` shows it reads nothing else |
| Materials.IsReflective | src/material.rs:54-56 | property 2 is positive; `ClassificationReadsSingleEntries` shows it reads only that entry |
| Materials.IsTransparent | src/material.rs:59-61 | property 3 is positive; `ClassificationReadsSingleEntries` shows it reads only that entry |
| Materials.IsEmissive | src/main.rs:164 | the glowstone test `emission != (0, 0, 0)`; `BlackIsInert` shows neither `black()` nor `new` glows |
| Materials.ClassificationReadsSingleEntries | src/material.rs:49-61 | `is_diffuse` reads only properties 1 and 2, `is_reflective` only 2, `is_transparent` only 3; a diffuse material is not reflective |
| Materials.BlackIsInert | src/material.rs:32-61 | the black material is diffuse and neither reflective, transparent nor glowing; `new` never glows |
| Intersections.New | src/ray_intersect.rs:25-34 | `new()` is the no-hit record: not intersecting, zero point and normal, distance `f32::MAX`, black material, face Top |
| Intersections.Empty | src/ray_intersect.rs:36-45 | `empty()` is that same no-hit record |
| Intersections.NoHitIsUnique | src/ray_intersect.rs:25-45 | a record is the no-hit record exactly when it equals `empty()`, and `new() == empty()` |
| Intersections.UvCoordinate | src/ray_intersect.rs:50-62 | `c.fract().abs()` lies in [0, 1) and is the fractional part of the absolute value of c |
| Intersections.TextureCoords | src/ray_intersect.rs:47-65 | both coordinates lie in [0, 1); Top/Bottom project (x, z), Left/Right (z, y), Front/Back (x, y) |
| Intersections.UvCoordinateOfWhole | src/ray_intersect.rs:50-62 | a whole coordinate maps to 0 |
| Intersections.UvCoordinateIsEven | src/ray_intersect.rs:50-62 | a coordinate and its negation map to the same value |
| Intersections.WholePointMapsToOrigin | src/ray_intersect.rs:47-65 | a point with whole coordinates has texture coordinates (0, 0) on every face |
| Intersections.NormalAxisIgnored | src/ray_intersect.rs:47-65 | the coordinate along a face's own axis does not affect its texture coordinates |
| Cubes.AxisUnitHasLengthOne | src/cube.rs:22-39 | an axis unit vector has length 1 |
| Cubes.FaceNormal | src/cube.rs:22-39 | each face's normal is an axis unit vector (one component ±1, the others 0) |
| Cubes.CalculateNormal | src/cube.rs:22-39 | `calculate_normal` always returns an axis unit vector |
| Cubes.FirstOnPlane | src/cube.rs:84-96 | a first-match scan over faces returns a face whose plane holds the point, or Front when none holds it |
| Cubes.FaceAt | src/cube.rs:84-96 | the face other than Front lies on its plane; Front is chosen exactly when none of the five tested planes holds the point |
| Cubes.FacePriority | src/cube.rs:84-96 | the face chain is the first-match scan over min.x, max.x, min.y, max.y, min.z |
| Cubes.NormalMatchesFace | src/cube.rs:22-39 | the normal `calculate_normal` returns is the normal of the face the hit classifies |
| Cubes.AxisInterval | src/cube.rs:42-47 | after the conditional swap, the per-axis interval is ordered and is the two plane parameters in some order |
| Cubes.AxisIntervalContains | src/cube.rs:42-54 | a ray parameter is inside an axis interval exactly when the ray's point is between that axis's two planes |
| Cubes.AxisIntervalStraddles | src/cube.rs:42-54 | for an origin strictly between the planes, the interval's entry is negative and its exit positive |
| Cubes.RejectionsMatchOverlap | src/cube.rs:56-79 | the two disjointness tests and the running max/min reject exactly when the final entry exceeds the final exit; the last test rejects exactly when the exit is negative |
| Cubes.Entry | src/cube.rs:60-75 | the running maximum of the three entries; `InBoxBetweenEntryAndExit` makes it the least parameter in the box |
| Cubes.Exit | src/cube.rs:61-75 | the running minimum of the three exits; `InBoxBetweenEntryAndExit` makes it the greatest parameter in the box |
| Cubes.Hit | src/cube.rs:81-105 | the record built for a hit; `HitRecord` states its fields |
| Cubes.Slab | src/cube.rs:41-106 | the slab test as one definition; `HitIffRayMeetsBox` and `HitRecord` state what it means |
| Cubes.Intersect | src/cube.rs:41-106 | the step-by-step slab test with swaps and early returns computes exactly the slab record |
| Cubes.RayIntersect | src/cube.rs:111-176 | the `RayIntersect` implementation computes the same record as `intersect` |
| Cubes.InBoxBetweenEntryAndExit | src/cube.rs:41-79 | for an ordered box, the ray's point is in the box exactly for parameters between the final entry and exit |
| Cubes.HitIffRayMeetsBox | src/cube.rs:41-79 | the record reports a hit exactly when the ray meets the box at a parameter ≥ 0 |
| Cubes.HitRecord | src/cube.rs:77-105 | on a hit, the distance is the entry (the least parameter in the box); the point is on the ray and in the box; the record has the cube's material, the classified face and its normal. On a miss, the record is `empty()` |
| Cubes.InsideOriginHitsBehind | src/cube.rs:74-102 | a ray starting strictly inside the box reports a hit at a negative distance |
| Tracer.OffsetOrigin | src/main.rs:32-39 | the hit point moved 1e-4 along or against the normal; `OffsetSide` states the side and the distance |
| Tracer.OffsetSide | src/main.rs:32-39 | for a unit normal, the biased origin is exactly 1e-4 from the hit point: behind the surface when the direction opposes the normal, in front of it otherwise |
| Tracer.Reflect | src/main.rs:42-44 | `incident - 2 (incident . normal) normal`; `ReflectProperties` and `ReflectKeepsTangent` state its meaning |
| Tracer.ReflectProperties | src/main.rs:42-44 | about a unit normal, `reflect` negates the normal component, keeps the length and is its own inverse |
| Tracer.ReflectKeepsTangent | src/main.rs:42-44 | every direction orthogonal to the normal keeps its component |
| Tracer.CastShadow | src/main.rs:81-100 | the result is 1.0 exactly when the light is beyond its radius; otherwise it is 0.95 exactly when some object reports a hit nearer than the light, and 0.0 otherwise |
| Tracer.ShadowFactor | src/main.rs:81-100 | the value `cast_shadow` returns; `CastShadow` is proved to return it, with its three cases |
| Tracer.Hits | src/main.rs:120-121 | the scan sees, for each object in order, that object's slab record |
| Tracer.NearestIsUnique | src/main.rs:120-126 | under strict `<` with the first of equal hits winning, the nearest hit is unique |
| Tracer.NearestExists | src/main.rs:120-126 | whenever some object is hit, a nearest hit exists |
| Tracer.Nearest | src/main.rs:116-126 | the scan's result is `empty()` when nothing is hit, else the nearest hit |
| Tracer.NearestHit | src/main.rs:116-126 | the loop with `zbuffer` starting at infinity ends with that nearest record |
| Tracer.TextureIndex | src/main.rs:140-153 | grass (0,255,0) uses texture 0 exactly on Top and 1 elsewhere; every other colour uses 0 |
| Tracer.TwoTexturesSuffice | src/main.rs:140-158 | two loaded textures, or one on a non-grass material, make the lookup in bounds on every face |
| Tracer.Repeat | src/main.rs:156-157 | `(w*2) % 1` on [0, 1) is 2w below 0.5 and 2w-1 from 0.5: the texture repeats twice per face |
| Tracer.SurfaceColor | src/main.rs:139-161 | an untextured material shows its own colour; a textured one shows a pixel of the texture chosen by the index rule |
| Tracer.HitMaterial | src/cube.rs:98-105 | a slab record carries the cube's material or the black one |
| Tracer.NearestUsable | src/main.rs:139-158 | when every object's lookup is in bounds, so is the nearest hit's |
| Tracer.Traceable | src/main.rs:166-195 | what the tracer needs of `length` (the Euclidean length) and `normalize` (a direction with no zero component keeps none) |
| Tracer.Lit | src/main.rs:168-175 | every light within its radius lies off the axis-parallel lines through the hit point, so its shadow ray can be traced |
| Tracer.Traced | src/main.rs:103-226 | the primary, shadow, reflected and refracted directions one `cast_ray` follows before the depth limit have no zero component |
| Tracer.ReflectedRayIsNonZero | src/main.rs:213 | a reflection about a face normal of a direction with no zero component has none, also after `normalize` |
| Tracer.LightSum | src/main.rs:166-195 | the light loop as a fold over the lights; `ShadeLights` is proved to compute it and `LightSumSkipsOnlyFarLights` states which lights add nothing |
| Tracer.LightSumSkipsOnlyFarLights | src/main.rs:168-195 | with every light beyond its radius, the sum is black; a light within its radius always passes the `< 1.0` shadow test |
| Tracer.ShadeLights | src/main.rs:164-195 | the light loop's accumulated colour is the fold of per-light contributions over the lights in order |
| Tracer.LocalColor | src/main.rs:197-207 | the emission blend and the ambient term; `LocalColorBounds` states what they add |
| Tracer.LocalColorBounds | src/main.rs:197-207 | the emission and ambient steps only add: a non-glowing surface keeps at least its lit colour, and exactly it under black ambient; a glowing one keeps at least 60% of the lit colour and 40% of its own; the ambient tenth is always a lower bound |
| Tracer.ShadeLocally | src/main.rs:164-207 | the light loop, emission and ambient steps give the local colour: at least the lit colour for a non-glowing surface, at least 40% of the surface colour for a glowing one, and at least the ambient tenth |
| Tracer.SkyColor | src/main.rs:131-135 | half the ambient colour plus the sun colour scaled by its glow; `MissShowsSky` shows a missed ray gets it |
| Tracer.Composite | src/main.rs:229-232 | the weighted blend of local, reflected and refracted colours; `OpaqueMatteIsLocal` shows zero weights keep the local colour |
| Tracer.Radiance | src/main.rs:103-236 | the colour of a ray, by depth-bounded recursion; `CastRay` is proved to compute it |
| Tracer.Seen | src/main.rs:116-232 | what a ray within the depth limit sees; `MissShowsSky` and `OpaqueMatteIsLocal` state two of its cases |
| Tracer.Secondary | src/main.rs:209-226 | a secondary ray's colour, black at zero weight; `TraceSecondary` is proved to compute it |
| Tracer.CastRay | src/main.rs:103-236 | `cast_ray` returns the recursive radiance of the ray; past depth 3 it is `SKYBOX_COLOR` |
| Tracer.TraceSecondary | src/main.rs:209-226 | a secondary ray is cast one level deeper from the biased origin only when its weight is positive; otherwise it contributes black |
| Tracer.MissShowsSky | src/main.rs:129-136 | at depth ≤ 3, a ray with no zero component that hits nothing can be traced, and shows half the ambient colour plus the sun's glow |
| Tracer.OpaqueMatteIsLocal | src/main.rs:209-232 | a surface with reflectivity and transparency 0 shows exactly its local colour |
| Tracer.CallsBounded | src/main.rs:111-113 | the depth guard bounds the recursion: one primary ray runs `cast_ray` at most 31 times |
| Lights.Emissive | src/main.rs:326-327 | the filter keeps exactly the cubes with non-black emission |
| Lights.EmissiveDistributes | src/main.rs:326-327 | filtering distributes over concatenation, so it keeps the cubes' order |
| Lights.Center | src/main.rs:311 | the midpoint of the two corners; `LightsFromEmissiveObjects` places each light there |
| Lights.CubeLight | src/main.rs:328-333 | the light of one glowing cube; `GeneratedLightsGlow` bounds its intensity |
| Lights.EmissiveLights | src/main.rs:325-335 | one light per glowing cube, in cube order |
| Lights.LightsFromEmissiveObjects | src/main.rs:325-335 | each light sits at the cube's centre, has the emission colour, ten times its intensity and ten times the diagonal as radius |
| Lights.LightsFromEmissiveMaterials | src/main.rs:307-323 | the push loop builds one light per glowing cube with a tenth of the intensity and twice the diagonal |
| Lights.GeneratedLightsGlow | src/main.rs:307-335 | every generated light comes from a cube of the scene, is not black, and has an intensity in (0, scale] |
| Lights.GeneratorsAgree | src/main.rs:307-335 | the two generators give the same positions and colours; one's intensity is 100 times and its radius 5 times the other's |
| Controls.WrapTime | src/main.rs:355-361 | the sum wrapped once at each end; `WrapTimeStaysInDay` and `WrapTimeNeedsSmallSteps` state where it stays in [0, 1] |
| Controls.WrapTimeStaysInDay | src/main.rs:354-362 | from a time in [0, 1] with a step of at most 1, the wrapped time stays in [0, 1]; it differs from the plain sum by at most one whole day, and a step that stays within the day is kept unchanged |
| Controls.WrapTimeNeedsSmallSteps | src/main.rs:354-362 | a step of 1.5 from the end of the day leaves the time at 1.5: one wrap is not enough for large steps |
| Controls.SunPosition | src/main.rs:364-369 | the sun's height is at least 1: the height of the circle, reflected above the horizon, plus 1 |
| Controls.DayNightCycle.constructor | src/main.rs:345-352 | noon, white day, dark blue night, sun at (0, 5, 0) |
| Controls.DayNightCycle.Update | src/main.rs:354-370 | the time is advanced and wrapped, the sun moves to the new angle, the colours are kept, and the time stays in [0, 1] for steps of at most 1 |
| Controls.DayNightCycle.CurrentColor | src/main.rs:372-375 | the colour is the night colour at sine -1 and the day colour at sine 1, and between them otherwise |
| Controls.DayNightCycle.LightIntensity | src/main.rs:377-379 | never below 0.2; for a sine in [-1, 1] it is 0.6 + 0.4 sine, at most 1, and above 0.2 except at sine -1 |
| Controls.ZoomIn | src/main.rs:657-663 | the W key's step; `ZoomSteps` makes it a move of 0.5 clamped at 1 |
| Controls.ZoomOut | src/main.rs:666-672 | the S key's step; `ZoomSteps` makes it a move of 0.5 clamped at 10 |
| Controls.ZoomSteps | src/main.rs:657-672 | each key moves the camera by 0.5 clamped to [1, 10]; the range is preserved, and one step in followed by one out (or out then in) returns the same distance away from the limits |
| Render.PixelCoordinates | src/main.rs:262-263 | for an index below width*height, x = index % width < width, y = index / width < height, and y*width + x is the index |
| Render.ScreenX | src/main.rs:268 | the screen x lies in [-1, 1), is -1 at the left edge, and is 0 exactly in the middle column of an even width |
| Render.ScreenY | src/main.rs:269 | the screen y lies in (-1, 1], is 1 at the top edge, and is 0 exactly in the middle row of an even height |
| Render.ScreenDirection | src/main.rs:268-275 | the camera-space direction has z = -1, and has no zero component exactly off the middle column and row with a non-zero perspective scale |
| Render.PrimaryDirection | src/main.rs:268-281 | off the middle column and row, for a basis change that keeps non-zero components and a realistic `normalize`, the primary direction has no zero component |
| Render.Visible | src/main.rs:258-286 | every primary ray of the frame meets `Tracer.Traced` |
| Render.Framebuffer.constructor | src/main.rs:390 | the framebuffer `render` draws into: its width, its height, a zeroed buffer of width*height pixels and a current colour of 0 |
| Render.Framebuffer.SetCurrentColor | src/main.rs:302 | only the current colour changes |
| Render.Framebuffer.Point | src/main.rs:303 | an in-bounds point stores the current colour at the row-major index and nothing else; an out-of-bounds point changes nothing |
| Render.Flush | src/main.rs:299-303 | after the flush, the framebuffer holds exactly the pixel buffer: each index is written once, at its own (x, y) |
| Render.PixelColor | src/main.rs:262-286 | the colour traced for one pixel index; `TracePixel` is proved to compute it |
| Render.Image | src/main.rs:252-293 | the pixel buffer as the sequence of packed pixel colours; `ImagePixel` and `ImageCell` state each entry |
| Render.ImagePixel | src/main.rs:258-293 | entry j of the computed image is the packed colour traced for pixel j |
| Render.TracePixel | src/main.rs:262-292 | one pixel's value is the packed radiance of its primary ray at depth 0 |
| Render.TracePixels | src/main.rs:252-293 | the pixel buffer holds, for each index in order, its traced colour |
| Render.ImageCell | src/main.rs:262-292 | the image cell at (x, y) holds the packed colour of the ray through screen pixel (x, y) |
| Render.Render | src/main.rs:241-304 | after `render`, the framebuffer holds the traced image of the scene in the same buffer, and its current colour is the last pixel's (unchanged for an empty image) |

## Left out

- Floating point: `f32` is `real`. Rounding, NaN, infinities, `f32::MAX` overflow and the order of float operations are not modelled. `time * 2.0 * PI` and `time * PI * 2.0` are the same real number.
- `sqrt`, `normalize`, `magnitude`, `powf`, `tan`, `sin` and `cos` are parameters, not definitions. So are the Lambert and Blinn-Phong terms, the attenuation, the sun glow and `refract` (src/main.rs:47-78), which are the fields of `Tracer.Shading`. The model makes no claim about their values.
- `Tracer.Shading`: the model needs `length` to be the Euclidean length, and `normalize` to keep a direction with no zero component free of zero components (`Tracer.Traceable`); any normalize that scales by a positive factor does this.
- `Tracer.Traced`: a traced direction with a zero component is outside the model. Rust then divides by zero in the slab test and relies on IEEE infinities. The recursion requires `Traced` of the ray, and `Lit` of its hits, instead of modelling that arithmetic. Such rays do occur: the middle row of an 800×600 frame (`ScreenDirection`), or a light on an axis-parallel line through a hit point. Reflected rays about a face normal never add one (`ReflectedRayIsNonZero`). Refracted rays depend on the `refract` parameter.
- `Render.PrimaryDirection`: `camera.rs` is not part of this model. The camera's basis change is a parameter. `Render.Visible` requires every primary ray of the frame to meet `Tracer.Traced`, and is not derived from a camera.
- `Render.Framebuffer.Point`: `framebuffer.rs` is not part of this model. `point` is assumed to be a bounds-checked row-major store of the current colour.
- `Render.Framebuffer`: the initial state of `Framebuffer::new` (a zeroed buffer of width*height pixels, current colour 0) and `set_current_color` changing only the current colour are assumed, because `framebuffer.rs` is not part of this model.
- `Textures.Sample`: a texture 0 pixels wide or high makes `width - 1` underflow in Rust (src/texture.rs:22-23), which panics or indexes an empty pixel vector. The model requires width and height of at least 1 and a pixel count of width*height (`Textures.Loaded`), so that panic is not modelled.
- `Textures.SampleIndex`: the `u32` index wraps modulo 2^32, as in a release build. A debug build panics on that overflow instead, which is not modelled. Above 2^32 cells the sampled pixel may then be a different cell's, and the model promises only that it is one of the texture's pixels.
- `Colors.PlusRef`: the Rust impl (src/color.rs:85-91) calls itself and never returns (see Findings). The model gives it the evidently intended delegation to the inherent `add`, and no other code uses it.
- `Tracer.Scene`: `textures[texture_index]` (src/main.rs:158) panics when the index is out of range, for example on a grass-coloured material with one texture hit on a side face. `Tracer.Renderable` requires every object's lookup to be in bounds on every face, so that panic is not modelled; `TwoTexturesSuffice` shows that two loaded textures, or one on a non-grass material, meet it.
- `light.rs` is not part of this model. `Light` is a record of the four fields `main.rs` uses.
- The `rayon` parallel pixel loop (src/main.rs:258-293) is modelled as a sequential loop over the indices. Each pixel's value does not depend on the others.
- `Render.Render`: for width*height beyond `u32`, the `usize` buffer size and the `u32` coordinates could overflow. That overflow is not modelled.
- The bit operations of `to_hex`/`from_hex` (shift, or, mask) are written as the equivalent arithmetic on non-negative integers.
- `Texture::load` (src/texture.rs:11-19) uses the image crate. A texture's pixel count equal to width*height is the `Textures.Loaded` predicate.
- `Tracer.CastRay`: the sky's `lights[0]` panics on an empty light list in Rust. Here `|lights| > 0` is required.
- `Tracer.CastRay`: Rust computes a secondary ray's direction only inside the `if` on its weight. The model computes it before the weight test. The results are the same, because the computation has no side effect.
- The window, keyboard, orbit camera and main loop (src/main.rs:382-718) are left out as I/O. The W/S zoom step is kept as `Controls.ZoomIn`/`ZoomOut`.
- `Cube::new` is the `Cubes.Cube` datatype constructor: the material is cloned, which for values is the same.
- `Color`'s `Display` formatting is left out as I/O.
- `obj_loader.rs` is left out because `main.rs` does not declare it.
- `Controls.DayNightCycle.Update`: from a time in [0, 1], steps larger than 1 can leave the time outside [0, 1] (`WrapTimeNeedsSmallSteps`). The in-range guarantee is stated only for |delta| ≤ 1.
- `Cubes.HitRecord`: the distance is the entry parameter, unclamped, as the code returns it. A ray starting inside a box reports a negative distance (`InsideOriginHitsBehind`), which the recursion then traces from behind.

## Findings

| source | as written | input that shows it | evidently intended | confidence | as-written member | corrected member |
|---|---|---|---|---|---|---|
| src/color.rs:85-91 | `self.add(other)` with `self: Color` and `other: &Color` resolves to the by-value trait method `<Color as Add<&Color>>::add`, the impl itself, before the inherent `add(&self, ..)`; the call recurses without end | any `a + &b`, for example `Color::black() + &Color::black()` | delegate to the inherent `Color::add` (src/color.rs:61-67) | not executed | Colors.PlusRefAsWrittenNeverReturns | Colors.PlusRefAgrees |
