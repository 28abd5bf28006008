/** The interactive state of `src/main.rs`: the day/night cycle that the
    Q and E keys advance, and the step the W and S keys apply to the
    camera's distance. `sin` and `cos` are supplied as parameters. */
module Controls {
  import opened Numeric
  import opened Vectors
  import Colors

  /** `std::f32::consts::PI`, the `f32` nearest to pi. */
  const PI: real := 3.1415927410125732421875

  /** The time of day after advancing by `delta` and wrapping once:
      subtract 1 above 1, then add 1 below 0. */
  function WrapTime(time: real, delta: real): (t: real) {
    var advanced := time + delta;
    var lowered := if advanced > 1.0 then advanced - 1.0 else advanced;
    if lowered < 0.0 then lowered + 1.0 else lowered
  }

  /** Wrapping keeps a time of day in [0, 1] for steps of at most a whole
      day, and it is the plain sum shifted by at most one whole day. A
      step within the day is taken unchanged. */
  lemma WrapTimeStaysInDay(time: real, delta: real)
    ensures 0.0 <= time <= 1.0 && -1.0 <= delta <= 1.0 ==> 0.0 <= WrapTime(time, delta) <= 1.0
    ensures WrapTime(time, delta) == time + delta
         || WrapTime(time, delta) == time + delta - 1.0
         || WrapTime(time, delta) == time + delta + 1.0
    ensures 0.0 <= time + delta <= 1.0 ==> WrapTime(time, delta) == time + delta
  {
  }

  /** A step of 1.5 from the end of the day leaves the time of day at 1.5,
      outside [0, 1]: one wrap is not enough for steps longer than a day. */
  lemma WrapTimeNeedsSmallSteps()
    ensures WrapTime(1.0, 1.5) == 1.5
  {
  }

  /** The sun's position for an angle around the cycle: on a circle of
      radius 5, with its height mirrored above the horizon and raised by 1. */
  function SunPosition(angle: real, sin: real -> real, cos: real -> real): (p: Vec3)
    ensures p.y >= 1.0
    ensures p.y == Abs(p.z) + 1.0
  {
    Vec3(5.0 * cos(angle), 5.0 * Abs(sin(angle)) + 1.0, 5.0 * sin(angle))
  }

  /** `DayNightCycle`: the time of day in [0, 1] (0.5 is noon), the two
      colours the ambient light blends between, and the sun's position. */
  class DayNightCycle {
    var time: real
    var dayColor: Colors.Color
    var nightColor: Colors.Color
    var sunPosition: Vec3

    /** The time of day is in [0, 1]. */
    predicate Valid()
      reads this
    {
      0.0 <= time <= 1.0
    }

    /** `DayNightCycle::new`: noon, white day, dark blue night, sun overhead. */
    constructor ()
      ensures Valid()
      ensures time == 0.5
      ensures dayColor == Colors.Color(255, 255, 255) && nightColor == Colors.Color(10, 10, 50)
      ensures sunPosition == Vec3(0.0, 5.0, 0.0)
    {
      time := 0.5;
      dayColor := Colors.Color(255, 255, 255);
      nightColor := Colors.Color(10, 10, 50);
      sunPosition := Vec3(0.0, 5.0, 0.0);
    }

    /** `DayNightCycle::update`: advance and wrap the time, then move the
        sun to the new angle. The colours are not touched. */
    method Update(delta: real, sin: real -> real, cos: real -> real)
      modifies this
      ensures time == WrapTime(old(time), delta)
      ensures sunPosition == SunPosition(time * 2.0 * PI, sin, cos)
      ensures dayColor == old(dayColor) && nightColor == old(nightColor)
      ensures old(Valid()) && -1.0 <= delta <= 1.0 ==> Valid()
    {
      time := time + delta;
      if time > 1.0 {
        time := time - 1.0;
      }
      if time < 0.0 {
        time := time + 1.0;
      }
      WrapTimeStaysInDay(old(time), delta);
      var angle := time * 2.0 * PI;
      sunPosition := Vec3(5.0 * cos(angle), 5.0 * Abs(sin(angle)) + 1.0, 5.0 * sin(angle));
    }

    /** `get_current_color`: the ambient colour, interpolated from the night
        colour (sine -1) to the day colour (sine 1). */
    function CurrentColor(sin: real -> real): (c: Colors.Color)
      reads this
      ensures sin(time * PI * 2.0) == 1.0 ==> c == dayColor
      ensures sin(time * PI * 2.0) == -1.0 ==> c == nightColor
      ensures -1.0 <= sin(time * PI * 2.0) <= 1.0 ==> Colors.Between(c, nightColor, dayColor)
    {
      Colors.Lerp(nightColor, dayColor, sin(time * PI * 2.0) * 0.5 + 0.5)
    }

    /** `get_light_intensity`: never below 0.2. For a sine in [-1, 1] it
        is `0.6 + 0.4 * sine`, in [0.2, 1], and the floor of 0.2 is only
        reached at sine -1. */
    function LightIntensity(sin: real -> real): (i: real)
      reads this
      ensures i >= 0.2
      ensures -1.0 <= sin(time * PI * 2.0) <= 1.0 ==>
        i == sin(time * PI * 2.0) * 0.4 + 0.6 && i <= 1.0
      ensures sin(time * PI * 2.0) > -1.0 ==> i > 0.2
    {
      Max(sin(time * PI * 2.0) * 0.4 + 0.6, 0.2)
    }
  }

  // ---------------------------------------------------------------------
  // Zoom
  // ---------------------------------------------------------------------

  /** The nearest the camera may come (`MAX_ZOOM`). */
  const MAX_ZOOM: real := 1.0

  /** The farthest the camera may go (`MIN_ZOOM`). */
  const MIN_ZOOM: real := 10.0

  /** How far one key press moves the camera. */
  const ZOOM_SPEED: real := 0.5

  /** The W key: step toward the scene, stopping at `MAX_ZOOM`. */
  function ZoomIn(z: real): real {
    if z - ZOOM_SPEED > MAX_ZOOM then z - ZOOM_SPEED else MAX_ZOOM
  }

  /** The S key: step away from the scene, stopping at `MIN_ZOOM`. */
  function ZoomOut(z: real): real {
    if z + ZOOM_SPEED < MIN_ZOOM then z + ZOOM_SPEED else MIN_ZOOM
  }

  /** Each step is a clamped move by the zoom speed, the camera's distance
      stays in [`MAX_ZOOM`, `MIN_ZOOM`] once it is there, and a step in and
      a step out undo each other away from the limits. */
  lemma ZoomSteps(z: real)
    ensures ZoomIn(z) == Max(z - ZOOM_SPEED, MAX_ZOOM)
    ensures ZoomOut(z) == Min(z + ZOOM_SPEED, MIN_ZOOM)
    ensures MAX_ZOOM <= z <= MIN_ZOOM ==>
      MAX_ZOOM <= ZoomIn(z) <= z && z <= ZoomOut(z) <= MIN_ZOOM
    ensures MAX_ZOOM + ZOOM_SPEED <= z <= MIN_ZOOM ==> ZoomOut(ZoomIn(z)) == z
    ensures MAX_ZOOM <= z <= MIN_ZOOM - ZOOM_SPEED ==> ZoomIn(ZoomOut(z)) == z
  {
  }
}
