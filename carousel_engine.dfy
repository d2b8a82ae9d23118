/** The carousel engine as the source runs it: closure variables updated in
    place by the event listeners and the animation-frame callback. Every
    handler's new state is the corresponding transition of CarouselMotion
    applied to the old state. */
module CarouselEngine {
  import opened JsMath
  import opened CarouselMotion

  class Engine {
    /** Scroll width of the original items, measured once before cloning. */
    const originalWidth: real
    var offset: real
    var currentSpeed: real
    var targetSpeed: real
    var paused: bool
    var holding: int
    /** Previous frame timestamp in ms; 0.0 means no frame yet. */
    var last: real

    /** The shared variables as one value. */
    function Snapshot(): Motion
      reads this
    {
      Motion(offset, currentSpeed, targetSpeed, paused, holding, last)
    }

    predicate Valid()
      reads this
    {
      Steady(Snapshot())
    }

    /** The bounded-offset invariant for this engine's strip. */
    predicate Bounded()
      reads this
    {
      InBand(offset, originalWidth)
    }

    constructor (originalWidth: real)
      ensures this.originalWidth == originalWidth
      ensures Snapshot() == Initial
      ensures Valid() && Bounded()
    {
      this.originalWidth := originalWidth;
      targetSpeed := BaseSpeed;
      currentSpeed := BaseSpeed;
      paused := false;
      holding := 0;
      offset := 0.0;
      last := 0.0;
    }

    /** Pull the offset back into the band after a move. The frame callback
        repeats the same two tests inline. */
    method ClampOffset()
      modifies this`offset
      ensures offset == Wrapped(old(offset), originalWidth)
    {
      if originalWidth > 0.0 {
        if offset <= -originalWidth { offset := offset + originalWidth; }
        if offset >= originalWidth { offset := offset - originalWidth; }
      }
    }

    /** Move one item to the left (direction 1) or right (direction -1). */
    method StepBy(direction: real, itemW: real)
      requires Valid()
      modifies this`offset
      ensures Valid()
      ensures Snapshot() == Stepped(old(Snapshot()), direction, itemW, originalWidth)
      ensures old(Bounded()) && Abs(direction * itemW) <= originalWidth ==> Bounded()
    {
      offset := offset - direction * itemW;
      ClampOffset();
      StepMoves(old(Snapshot()), direction, itemW, originalWidth);
    }

    /** mouseenter, focusin and touchstart. */
    method Enter()
      requires Valid()
      modifies this`paused, this`targetSpeed
      ensures Valid() && Bounded() == old(Bounded())
      ensures Snapshot() == Entered(old(Snapshot()))
      ensures paused && targetSpeed == 0.0
    {
      paused := true;
      targetSpeed := 0.0;
    }

    /** mouseleave, focusout and touchend. */
    method Leave()
      requires Valid()
      modifies this`paused, this`targetSpeed
      ensures Valid() && Bounded() == old(Bounded())
      ensures Snapshot() == Left(old(Snapshot()))
      ensures !paused && targetSpeed == BaseSpeed
    {
      paused := false;
      if holding == 0 { targetSpeed := BaseSpeed; }
    }

    /** A wheel event with deltas `dx` and `dy`. */
    method Wheel(dx: real, dy: real)
      requires Valid()
      modifies this`offset
      ensures Valid()
      ensures Snapshot() == Wheeled(old(Snapshot()), dx, dy, originalWidth)
      ensures old(Bounded()) && WheelNudge <= originalWidth ==> Bounded()
    {
      if Abs(dy) > Abs(dx) {
        offset := offset - Sign(dy) * WheelNudge;
        ClampOffset();
        if InBand(old(offset), originalWidth) && WheelNudge <= originalWidth {
          WheelNudges(old(Snapshot()), dx, dy, originalWidth);
          WrapRestoresBand(old(offset), Sign(dy) * WheelNudge, originalWidth);
        }
      }
    }

    /** First half of a frame: close 12% of the gap to the target speed. */
    method SmoothSpeed()
      modifies this`currentSpeed
      ensures currentSpeed == Smoothed(old(currentSpeed), targetSpeed)
    {
      currentSpeed := currentSpeed + (targetSpeed - currentSpeed) * Smooth;
    }

    /** Second half of a frame: move left by the current speed for `dt` seconds, then wrap. */
    method Advance(dt: real)
      modifies this`offset
      ensures offset == Wrapped(old(offset) - currentSpeed * dt, originalWidth)
    {
      offset := offset - currentSpeed * dt;
      ClampOffset();
    }

    /** The body of the frame callback once `dt` is known: smooth, move, wrap. */
    method Tick(dt: real)
      requires Valid()
      modifies this`offset, this`currentSpeed
      ensures Valid()
      ensures Snapshot() == Ticked(old(Snapshot()), dt, originalWidth)
    {
      ghost var before := Snapshot();
      SmoothSpeed();
      Advance(dt);
      TickedFields(before, dt, originalWidth, Snapshot());
      TickKeepsSteady(before, dt, originalWidth);
    }

    /** The animation-frame callback at timestamp `now` (ms). */
    method Raf(now: real)
      requires Valid()
      modifies this`offset, this`currentSpeed, this`last
      ensures Valid()
      ensures Snapshot() == Framed(old(Snapshot()), now, originalWidth)
      ensures old(Bounded()) && Admissible(old(Snapshot()), Frame(now), originalWidth) ==> Bounded()
    {
      ghost var before := Snapshot();
      if last == 0.0 { last := now; }
      var dt := (now - last) / 1000.0;
      last := now;
      assert dt == FrameDelta(before.last, now);
      Tick(dt);
      if InBand(before.offset, originalWidth) && Admissible(before, Frame(now), originalWidth) {
        FrameKeepsInvariants(before, now, originalWidth);
      }
    }

    /** The listener an event reaches. */
    method Dispatch(e: Input)
      requires Valid()
      modifies this
      ensures Valid()
      ensures Snapshot() == Apply(old(Snapshot()), e, originalWidth)
      ensures old(Bounded()) && Admissible(old(Snapshot()), e, originalWidth) ==> Bounded()
    {
      ghost var before := Snapshot();
      match e {
        case MouseEnter | FocusIn | TouchStart => Enter();
        case MouseLeave | FocusOut | TouchEnd => Leave();
        case WheelTurn(dx, dy) => Wheel(dx, dy);
        case PrevClick(w) => StepBy(-1.0, w);
        case NextClick(w) => StepBy(1.0, w);
        case Frame(now) => Raf(now);
      }
      if InBand(before.offset, originalWidth) && Admissible(before, e, originalWidth) {
        ApplyKeepsInvariants(before, e, originalWidth);
      }
    }
  }

  /** Start-up: with no items nothing is built; otherwise an engine starts in
      the start state (offset 0, moving at 40 px/s) over the measured width. */
  method Start(itemCount: nat, measuredWidth: real) returns (engine: Engine?)
    ensures itemCount == 0 <==> engine == null
    ensures engine != null ==>
              fresh(engine) && engine.Valid() && engine.Bounded() &&
              engine.Snapshot() == Initial && engine.originalWidth == measuredWidth
  {
    if itemCount == 0 {
      return null;
    }
    engine := new Engine(measuredWidth);
  }
}
