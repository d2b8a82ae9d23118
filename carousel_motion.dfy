/** The screenshot carousel's motion state as a value, the effect of every
    input on it, and what those effects keep true.

    The track holds the original items followed by one clone of them, so for
    an offset in (-width, 0] translating it by `offset` and by `offset - width`
    shows the same picture. After each move the engine adds or subtracts
    `width` once, which brings `offset` back inside the band (-width, width)
    whenever the move was of at most one width. */
module CarouselMotion {
  import opened JsMath

  /** Ambient scrolling speed, in px per second. */
  const BaseSpeed: real := 40.0
  /** Speed meant for a held arrow button; the engine never reads it. */
  const HoldSpeed: real := 220.0
  /** Fraction of the gap to the target speed closed on every frame. */
  const Smooth: real := 0.12
  /** Distance the strip moves per vertical wheel event, in px. */
  const WheelNudge: real := 60.0
  /** Gap used by a step when the computed gap does not parse to a non-zero number. */
  const DefaultGap: real := 24.0
  /** Step size when the track has no child to measure. */
  const FallbackItemWidth: real := 200.0

  /** The closure variables the carousel's handlers share.
      `last` is the previous frame's timestamp, 0.0 standing for "none yet"
      (the source starts it as null, and null and 0 fail its `!last` test alike). */
  datatype Motion = Motion(
    offset: real,
    currentSpeed: real,
    targetSpeed: real,
    paused: bool,
    holding: int,
    last: real)

  /** The state right after start-up. */
  const Initial: Motion := Motion(0.0, BaseSpeed, BaseSpeed, false, 0, 0.0)

  /** The relations among the fields that every handler keeps:
      nothing ever starts a hold, the target speed is 0 exactly while paused,
      and the current speed stays between the two speeds it is drawn towards. */
  predicate Steady(m: Motion)
  {
    m.holding == 0 &&
    m.targetSpeed == (if m.paused then 0.0 else BaseSpeed) &&
    0.0 <= m.currentSpeed <= BaseSpeed
  }

  /** The bounded-offset invariant; it says nothing when the measured width is not positive. */
  predicate InBand(offset: real, width: real)
  {
    width > 0.0 ==> -width < offset < width
  }

  /** The wrap correction: at most one jump of one strip width back towards 0. */
  function Wrapped(offset: real, width: real): (r: real)
  {
    if width > 0.0 then
      var forward := if offset <= -width then offset + width else offset;
      if forward >= width then forward - width else forward
    else
      offset
  }

  /** What the wrap correction does: nothing when the width is not positive or
      the offset is already in the band, otherwise one jump by the width, which
      brings any offset within two widths of 0 into the band. */
  lemma WrapCorrects(offset: real, width: real)
    ensures width <= 0.0 ==> Wrapped(offset, width) == offset
    ensures var r := Wrapped(offset, width); r == offset || r == offset + width || r == offset - width
    ensures width > 0.0 && -2.0 * width < offset < 2.0 * width ==> InBand(Wrapped(offset, width), width)
    ensures InBand(offset, width) ==> Wrapped(offset, width) == offset
  {
  }

  /** One frame of speed smoothing: an exponential approach that never overshoots. */
  function Smoothed(current: real, target: real): (r: real)
    ensures target - r == (1.0 - Smooth) * (target - current)
  {
    current + (target - current) * Smooth
  }

  /** The smoothed speed lies between the current speed and the target. */
  lemma SmoothedBetween(current: real, target: real)
    ensures Min(current, target) <= Smoothed(current, target) <= Max(current, target)
  {
  }

  /** The speed after `n` frames with an unchanged target. */
  function SmoothedN(current: real, target: real, n: nat): (r: real)
    decreases n
  {
    if n == 0 then current else SmoothedN(Smoothed(current, target), target, n - 1)
  }

  /** Seconds elapsed since the previous frame; 0 on the first frame. */
  function FrameDelta(last: real, now: real): (dt: real)
  {
    (now - (if last == 0.0 then now else last)) / 1000.0
  }

  /** Step size: the first item's width plus the gap, with the source's two fallbacks.
      `gap` is the parsed gap, None when it does not parse. */
  function StepWidth(firstWidth: Option<real>, gap: Option<real>): (itemW: real)
  {
    match firstWidth
    case None => FallbackItemWidth
    case Some(w) =>
      w + (if gap.Some? && gap.value != 0.0 then gap.value else DefaultGap)
  }

  /** Pointer enters, focus enters, touch starts. */
  function Entered(m: Motion): (n: Motion)
  {
    m.(paused := true, targetSpeed := 0.0)
  }

  /** Pointer leaves, focus leaves, touch ends. */
  function Left(m: Motion): (n: Motion)
  {
    m.(paused := false, targetSpeed := if m.holding == 0 then BaseSpeed else m.targetSpeed)
  }

  /** A frame that lasted `dt` seconds: smooth the speed, move, wrap. */
  function Ticked(m: Motion, dt: real, width: real): (n: Motion)
  {
    var speed := Smoothed(m.currentSpeed, m.targetSpeed);
    m.(currentSpeed := speed, offset := Wrapped(m.offset - speed * dt, width))
  }

  /** The animation-frame callback at timestamp `now` (in ms). */
  function Framed(m: Motion, now: real, width: real): (n: Motion)
  {
    Ticked(m.(last := now), FrameDelta(m.last, now), width)
  }

  /** A wheel event; only a mostly vertical one moves the strip. */
  function Wheeled(m: Motion, dx: real, dy: real, width: real): (n: Motion)
  {
    if Abs(dy) > Abs(dx) then m.(offset := Wrapped(m.offset - Sign(dy) * WheelNudge, width)) else m
  }

  /** A prev (direction -1) or next (direction 1) step of `itemW` px. */
  function Stepped(m: Motion, direction: real, itemW: real, width: real): (n: Motion)
  {
    m.(offset := Wrapped(m.offset - direction * itemW, width))
  }

  /** The events the carousel listens to. */
  datatype Input =
    | MouseEnter | MouseLeave
    | FocusIn | FocusOut
    | TouchStart | TouchEnd
    | WheelTurn(deltaX: real, deltaY: real)
    | PrevClick(itemW: real)
    | NextClick(itemW: real)
    | Frame(now: real)

  predicate IsEnter(e: Input)
  {
    e.MouseEnter? || e.FocusIn? || e.TouchStart?
  }

  predicate IsLeave(e: Input)
  {
    e.MouseLeave? || e.FocusOut? || e.TouchEnd?
  }

  /** The listener each event reaches. */
  function Apply(m: Motion, e: Input, width: real): (n: Motion)
  {
    match e
    case MouseEnter | FocusIn | TouchStart => Entered(m)
    case MouseLeave | FocusOut | TouchEnd => Left(m)
    case WheelTurn(dx, dy) => Wheeled(m, dx, dy, width)
    case PrevClick(w) => Stepped(m, -1.0, w, width)
    case NextClick(w) => Stepped(m, 1.0, w, width)
    case Frame(now) => Framed(m, now, width)
  }

  /** The events of `es`, in order. */
  function Run(m: Motion, es: seq<Input>, width: real): (n: Motion)
    decreases |es|
  {
    if es == [] then m else Run(Apply(m, es[0], width), es[1..], width)
  }

  /** How far an event moves the strip to the left before the wrap correction. */
  function Shift(m: Motion, e: Input): (shift: real)
  {
    match e
    case WheelTurn(dx, dy) => if Abs(dy) > Abs(dx) then Sign(dy) * WheelNudge else 0.0
    case PrevClick(w) => -1.0 * w
    case NextClick(w) => 1.0 * w
    case Frame(now) => Smoothed(m.currentSpeed, m.targetSpeed) * FrameDelta(m.last, now)
    case _ => 0.0
  }

  /** The event moves the strip by at most one strip width. */
  predicate Admissible(m: Motion, e: Input, width: real)
  {
    Abs(Shift(m, e)) <= width
  }

  /** Every event of the run moves the strip by at most one strip width. */
  predicate AdmissibleRun(m: Motion, es: seq<Input>, width: real)
    decreases |es|
  {
    es == [] || (Admissible(m, es[0], width) && AdmissibleRun(Apply(m, es[0], width), es[1..], width))
  }

  // ---------------------------------------------------------------------
  // Properties

  /** The start state satisfies both invariants, whatever the measured width. */
  lemma InitialIsSteady(width: real)
    ensures Steady(Initial) && InBand(Initial.offset, width)
  {
  }

  /** A move of at most one strip width from inside the band, followed by the
      wrap correction, lands inside the band again. */
  lemma WrapRestoresBand(offset: real, shift: real, width: real)
    requires InBand(offset, width) && Abs(shift) <= width
    ensures InBand(Wrapped(offset - shift, width), width)
  {
    WrapCorrects(offset - shift, width);
  }

  /** A tick sets the current speed to the smoothed one and moves the strip by
      that speed times `dt` before the wrap correction. */
  lemma TickMoves(m: Motion, dt: real, width: real, speed: real)
    requires speed == Smoothed(m.currentSpeed, m.targetSpeed)
    ensures Ticked(m, dt, width) == m.(currentSpeed := speed, offset := Wrapped(m.offset - speed * dt, width))
  {
  }

  /** A state whose fields are those a tick computes is the tick's result. */
  lemma TickedFields(m: Motion, dt: real, width: real, n: Motion)
    requires n.currentSpeed == Smoothed(m.currentSpeed, m.targetSpeed)
    requires n.offset == Wrapped(m.offset - n.currentSpeed * dt, width)
    requires n.(offset := m.offset, currentSpeed := m.currentSpeed) == m
    ensures n == Ticked(m, dt, width)
  {
  }

  /** A tick keeps the relations among the speeds. */
  lemma TickKeepsSteady(m: Motion, dt: real, width: real)
    requires Steady(m)
    ensures Steady(Ticked(m, dt, width))
  {
    SmoothedBetween(m.currentSpeed, m.targetSpeed);
  }

  /** A tick whose shift is at most one strip width keeps the offset in the band. */
  lemma TickKeepsBand(m: Motion, dt: real, width: real, speed: real)
    requires speed == Smoothed(m.currentSpeed, m.targetSpeed)
    requires InBand(m.offset, width) && Abs(speed * dt) <= width
    ensures InBand(Ticked(m, dt, width).offset, width)
  {
    TickMoves(m, dt, width, speed);
    WrapRestoresBand(m.offset, speed * dt, width);
  }

  /** A frame whose shift is at most one strip width keeps both invariants. */
  lemma FrameKeepsInvariants(m: Motion, now: real, width: real)
    requires Steady(m) && InBand(m.offset, width)
    requires Admissible(m, Frame(now), width)
    ensures Steady(Framed(m, now, width))
    ensures InBand(Framed(m, now, width).offset, width)
  {
    var started := m.(last := now);
    var dt := FrameDelta(m.last, now);
    var speed := Smoothed(m.currentSpeed, m.targetSpeed);
    assert Steady(started) && InBand(started.offset, width);
    assert Abs(speed * dt) <= width;
    assert Framed(m, now, width) == Ticked(started, dt, width);
    TickKeepsSteady(started, dt, width);
    TickKeepsBand(started, dt, width, speed);
  }

  /** One admissible event keeps both invariants. */
  lemma ApplyKeepsInvariants(m: Motion, e: Input, width: real)
    requires Steady(m) && InBand(m.offset, width)
    requires Admissible(m, e, width)
    ensures Steady(Apply(m, e, width))
    ensures InBand(Apply(m, e, width).offset, width)
  {
    match e
    case WheelTurn(dx, dy) =>
      if Abs(dy) > Abs(dx) {
        WrapRestoresBand(m.offset, Sign(dy) * WheelNudge, width);
      }
    case PrevClick(w) =>
      assert m.offset - -1.0 * w == m.offset - Shift(m, e);
      WrapRestoresBand(m.offset, Shift(m, e), width);
    case NextClick(w) =>
      assert m.offset - 1.0 * w == m.offset - Shift(m, e);
      WrapRestoresBand(m.offset, Shift(m, e), width);
    case Frame(now) =>
      FrameKeepsInvariants(m, now, width);
    case _ =>
  }

  /** A whole admissible run keeps both invariants: the offset never leaves the band. */
  lemma {:induction false} RunKeepsInvariants(m: Motion, es: seq<Input>, width: real)
    requires Steady(m) && InBand(m.offset, width)
    requires AdmissibleRun(m, es, width)
    ensures Steady(Run(m, es, width))
    ensures InBand(Run(m, es, width).offset, width)
    decreases |es|
  {
    if es != [] {
      ApplyKeepsInvariants(m, es[0], width);
      RunKeepsInvariants(Apply(m, es[0], width), es[1..], width);
    }
  }

  /** From the start state every admissible run keeps the offset inside (-width, width). */
  lemma RunFromStartInBand(es: seq<Input>, width: real)
    requires AdmissibleRun(Initial, es, width)
    ensures InBand(Run(Initial, es, width).offset, width)
  {
    RunKeepsInvariants(Initial, es, width);
  }

  /** A frame is admissible when it lasted between 0 and width / BaseSpeed seconds. */
  lemma FrameAdmissible(m: Motion, now: real, width: real)
    requires Steady(m)
    requires 0.0 <= FrameDelta(m.last, now) && BaseSpeed * FrameDelta(m.last, now) <= width
    ensures Admissible(m, Frame(now), width)
  {
    var s := Smoothed(m.currentSpeed, m.targetSpeed);
    var dt := FrameDelta(m.last, now);
    assert 0.0 <= s <= BaseSpeed;
    assert 0.0 <= s * dt;
    assert s * dt <= BaseSpeed * dt by {
      assert (BaseSpeed - s) * dt >= 0.0;
    }
    assert Shift(m, Frame(now)) == s * dt;
  }

  /** A single correction cannot bring back a shift larger than the strip:
      the bounded-offset invariant needs the admissibility condition. */
  lemma OversizedStepLeavesBand()
    ensures var m := Initial.(offset := -50.0);
            InBand(m.offset, 100.0) &&
            Stepped(m, 1.0, 200.0, 100.0).offset == -150.0 &&
            !InBand(Stepped(m, 1.0, 200.0, 100.0).offset, 100.0)
  {
  }

  /** A move of more than twice the strip keeps the offset out of the band
      for more than one event: from 0 a 350 px step with W = 100 ends at -250,
      and an empty step after it, which corrects once more, at -150. */
  lemma OversizedStepStaysOutside()
    ensures var a := Stepped(Initial, 1.0, 350.0, 100.0);
            var b := Stepped(a, 1.0, 0.0, 100.0);
            a.offset == -250.0 && b.offset == -150.0 &&
            !InBand(a.offset, 100.0) && !InBand(b.offset, 100.0)
  {
  }

  /** A step wider than the strip does not always leave the band: from 50 a
      120 px step with W = 100 lands at -70. */
  lemma WideStepCanStayInside()
    ensures var n := Stepped(Initial.(offset := 50.0), 1.0, 120.0, 100.0);
            n.offset == -70.0 && InBand(n.offset, 100.0)
  {
  }

  /** The step size's fallbacks: no measurable child gives 200 px; a gap that
      does not parse, or parses to 0, is replaced by 24 px. */
  lemma StepWidthFallbacks(w: real, g: real)
    ensures StepWidth(None, Some(g)) == FallbackItemWidth && StepWidth(None, None) == 200.0
    ensures StepWidth(Some(w), None) == w + 24.0
    ensures StepWidth(Some(w), Some(0.0)) == w + 24.0
    ensures g != 0.0 ==> StepWidth(Some(w), Some(g)) == w + g
  {
  }

  /** Enter events pause, zero the target speed, move nothing, and repeating one changes nothing more. */
  lemma EnterPauses(m: Motion, e: Input, width: real)
    requires IsEnter(e)
    ensures var n := Apply(m, e, width);
            n.paused && n.targetSpeed == 0.0 &&
            n.offset == m.offset && n.currentSpeed == m.currentSpeed && n.last == m.last &&
            Apply(n, e, width) == n
  {
  }

  /** Leave events resume; the target speed goes back to BaseSpeed unless a hold
      is active, and since nothing starts a hold that is always. */
  lemma LeaveResumes(m: Motion, e: Input, width: real)
    requires IsLeave(e)
    ensures var n := Apply(m, e, width);
            !n.paused && n.offset == m.offset && n.currentSpeed == m.currentSpeed &&
            n.targetSpeed == (if m.holding == 0 then BaseSpeed else m.targetSpeed)
    ensures Steady(m) ==> Apply(m, e, width).targetSpeed == BaseSpeed
  {
  }

  /** No event ever starts a hold. */
  lemma {:induction false} HoldingNeverChanges(m: Motion, es: seq<Input>, width: real)
    ensures Run(m, es, width).holding == m.holding
    decreases |es|
  {
    if es != [] {
      HoldingNeverChanges(Apply(m, es[0], width), es[1..], width);
    }
  }

  /** Pause sources are not counted: after two enters from different sources a
      single leave already resumes at BaseSpeed. */
  lemma OneLeaveUndoesTwoEnters(m: Motion, width: real)
    requires m.holding == 0
    ensures var n := Run(m, [MouseEnter, FocusIn, MouseLeave], width);
            !n.paused && n.targetSpeed == BaseSpeed && n.offset == m.offset
  {
    var a := Apply(m, MouseEnter, width);
    var b := Apply(a, FocusIn, width);
    var c := Apply(b, MouseLeave, width);
    assert Run(m, [MouseEnter, FocusIn, MouseLeave], width) == Run(a, [FocusIn, MouseLeave], width);
    assert Run(a, [FocusIn, MouseLeave], width) == Run(b, [MouseLeave], width);
    assert Run(b, [MouseLeave], width) == Run(c, [], width);
  }

  /** Only a mostly vertical wheel event moves the strip, by exactly 60 px against
      the wheel's direction, before the wrap correction. */
  lemma WheelNudges(m: Motion, dx: real, dy: real, width: real)
    ensures !(Abs(dy) > Abs(dx)) ==> Wheeled(m, dx, dy, width) == m
    ensures Abs(dy) > Abs(dx) && dy > 0.0 ==>
      Wheeled(m, dx, dy, width) == m.(offset := Wrapped(m.offset - 60.0, width))
    ensures Abs(dy) > Abs(dx) && dy < 0.0 ==>
      Wheeled(m, dx, dy, width) == m.(offset := Wrapped(m.offset + 60.0, width))
    ensures Abs(dy) > Abs(dx) ==> Abs(Shift(m, WheelTurn(dx, dy))) == WheelNudge
  {
  }

  /** A step moves the strip by exactly one item width against its direction and
      changes nothing else. */
  lemma StepMoves(m: Motion, direction: real, itemW: real, width: real)
    ensures Stepped(m, direction, itemW, width).offset == Wrapped(m.offset - direction * itemW, width)
    ensures Stepped(m, direction, itemW, width).(offset := m.offset) == m
    ensures InBand(m.offset, width) && Abs(direction * itemW) <= width ==>
      InBand(Stepped(m, direction, itemW, width).offset, width)
  {
  }

  /** With a measured first item of width `w` and a non-zero gap `g`, "next"
      from offset 0 moves to -(w + g), which a strip wider than w + g keeps
      without correction. */
  lemma NextFromZero(m: Motion, w: real, g: real, width: real)
    requires m.offset == 0.0 && g != 0.0
    requires 0.0 < w + g < width
    ensures Stepped(m, 1.0, StepWidth(Some(w), Some(g)), width).offset == -(w + g)
  {
  }

  /** After a frame the current speed lies between the old one and the target,
      and its distance to the target has shrunk to exactly 0.88 of what it was. */
  lemma FrameSmoothsSpeed(m: Motion, now: real, width: real)
    ensures var n := Framed(m, now, width);
            Min(m.currentSpeed, m.targetSpeed) <= n.currentSpeed <= Max(m.currentSpeed, m.targetSpeed) &&
            m.targetSpeed - n.currentSpeed == 0.88 * (m.targetSpeed - m.currentSpeed) &&
            n.targetSpeed == m.targetSpeed && n.last == now
  {
    SmoothedBetween(m.currentSpeed, m.targetSpeed);
  }

  /** After n frames with a fixed target the distance to it is 0.88^n of the start distance. */
  lemma {:induction false} SmoothingConverges(current: real, target: real, n: nat)
    ensures target - SmoothedN(current, target, n) == Pow(1.0 - Smooth, n) * (target - current)
    decreases n
  {
    if n > 0 {
      var next := Smoothed(current, target);
      SmoothingConverges(next, target, n - 1);
      var p := Pow(1.0 - Smooth, n - 1);
      assert target - next == 0.88 * (target - current);
      assert Pow(1.0 - Smooth, n) == 0.88 * p;
      assert p * (0.88 * (target - current)) == 0.88 * p * (target - current);
    }
  }

  /** A run of frames alone leaves the target alone and drives the current speed
      along SmoothedN. */
  lemma {:induction false} FramesApproachTarget(m: Motion, es: seq<Input>, width: real)
    requires forall i :: 0 <= i < |es| ==> es[i].Frame?
    ensures Run(m, es, width).targetSpeed == m.targetSpeed
    ensures Run(m, es, width).currentSpeed == SmoothedN(m.currentSpeed, m.targetSpeed, |es|)
    decreases |es|
  {
    if es != [] {
      assert es[0].Frame?;
      FramesApproachTarget(Apply(m, es[0], width), es[1..], width);
    }
  }

  /** The first frame has no previous timestamp, so it does not move the strip. */
  lemma FirstFrameStandsStill(m: Motion, now: real, width: real)
    requires m.last == 0.0 && InBand(m.offset, width)
    ensures Framed(m, now, width).offset == m.offset
  {
  }
}
