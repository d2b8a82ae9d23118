/** The starfield's twinkle: every animation frame each star's brightness
    moves by its speed in its current heading and bounces off the band
    [0.12, 1], the heading flipping at each bound. */
module Starfield {
  import opened JsMath

  const MinBrightness: real := 0.12
  const MaxBrightness: real := 1.0

  /** One star record: position, radius, brightness `b`, twinkle speed `s`
      and heading `d` (+1 brightening, -1 dimming). */
  datatype Star = Star(x: real, y: real, r: real, b: real, s: real, d: real)

  predicate Heading(d: real) {
    d == 1.0 || d == -1.0
  }

  /** The state the twinkle keeps: brightness inside the band, a unit heading. */
  predicate Twinkling(st: Star) {
    MinBrightness <= st.b <= MaxBrightness && Heading(st.d)
  }

  /** A star's heading as set up: +1 when the draw `u` falls below one half. */
  function InitialHeading(u: real): (d: real)
    ensures Heading(d)
    ensures d == 1.0 <==> u < 0.5
  {
    if u < 0.5 then 1.0 else -1.0
  }

  /** A star's starting brightness from the draw `u`: 0.2 + 0.8u for the
      small stars, 0.6 + 0.4u for the big ones. */
  function InitialBrightness(big: bool, u: real): (b: real)
  {
    if big then 0.6 + u * 0.4 else 0.2 + u * 0.8
  }

  /** One frame of one star: step, then clamp at the top, then at the bottom. */
  function Twinkled(st: Star): (t: Star)
    ensures MinBrightness <= t.b <= MaxBrightness
    ensures Heading(st.d) ==> Heading(t.d)
    ensures t.x == st.x && t.y == st.y && t.r == st.r && t.s == st.s
  {
    var raw := st.b + st.d * st.s;
    if raw >= MaxBrightness then st.(b := MaxBrightness, d := -1.0)
    else if raw <= MinBrightness then st.(b := MinBrightness, d := 1.0)
    else st.(b := raw)
  }

  /** Every star set up from draws in [0, 1) already twinkles. */
  lemma SetUpStarsTwinkle(big: bool, ub: real, ud: real, x: real, y: real, r: real, s: real)
    requires 0.0 <= ub < 1.0
    ensures Twinkling(Star(x, y, r, InitialBrightness(big, ub), s, InitialHeading(ud)))
    ensures 0.2 <= InitialBrightness(big, ub)
  {
  }

  /** Reaching the top forces dimming, reaching the bottom forces
      brightening, and in between the star only moves. */
  lemma TwinkleBounces(st: Star)
    ensures st.b + st.d * st.s >= MaxBrightness ==>
              Twinkled(st).b == MaxBrightness && Twinkled(st).d == -1.0
    ensures st.b + st.d * st.s <= MinBrightness ==>
              Twinkled(st).b == MinBrightness && Twinkled(st).d == 1.0
    ensures MinBrightness < st.b + st.d * st.s < MaxBrightness ==>
              Twinkled(st) == st.(b := st.b + st.d * st.s)
  {
  }

  /** A twinkling star stays twinkling, and its brightness never moves by more
      than its speed in one frame. */
  lemma TwinkleKeepsBand(st: Star)
    requires Twinkling(st) && st.s >= 0.0
    ensures Twinkling(Twinkled(st))
    ensures Abs(Twinkled(st).b - st.b) <= st.s
  {
    var raw := st.b + st.d * st.s;
    assert raw - st.b == st.s || raw - st.b == -st.s;
  }

  /** A star that does not hit a bound moves the way it is heading. */
  lemma TwinkleFollowsHeading(st: Star)
    requires Twinkling(st) && st.s > 0.0
    requires MinBrightness < st.b + st.d * st.s < MaxBrightness
    ensures st.d == 1.0 ==> Twinkled(st).b > st.b
    ensures st.d == -1.0 ==> Twinkled(st).b < st.b
  {
  }

  /** The frame loop's update of every star, in place. */
  method Twinkle(stars: array<Star>)
    modifies stars
    ensures forall i :: 0 <= i < stars.Length ==> stars[i] == Twinkled(old(stars[i]))
    ensures forall i :: 0 <= i < stars.Length && Heading(old(stars[i].d)) ==> Twinkling(stars[i])
  {
    for i := 0 to stars.Length
      invariant forall j :: 0 <= j < i ==> stars[j] == Twinkled(old(stars[j]))
      invariant forall j :: i <= j < stars.Length ==> stars[j] == old(stars[j])
    {
      var st := stars[i];
      var b := st.b + st.d * st.s;
      var d := st.d;
      if b >= 1.0 { b := 1.0; d := -1.0; }
      if b <= 0.12 { b := 0.12; d := 1.0; }
      stars[i] := st.(b := b, d := d);
    }
  }
}
