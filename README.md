# ReportX landing page: carousel, starfield twinkle and sparkles

A Dafny model of the state-updating logic in the landing page's
`assets/js/script.js`. Numbers are `real`s. Randomness, timestamps and DOM
measurements are parameters.

- **Carousel engine** (`carousel_motion.dfy`, `carousel_engine.dfy`). The
  screenshot strip scrolls continuously to the left.
  - The track holds the original items followed by one clone, so the engine
    keeps its translation `offset` inside (-W, W), where W is the original
    strip's measured width. It does this with one correction of ±W after
    every move.
  - Hovering, focusing or touching the strip pauses it by setting the target
    speed to 0. Leaving resumes it, speeding back up towards 40 px/s.
  - Every animation frame closes 12% of the gap between the current speed
    and the target speed, then moves the strip.
  - A mostly vertical wheel event nudges the strip by 60 px. The prev and
    next buttons step it by one item.
  - `CarouselMotion` holds the shared closure variables as a value `Motion`.
    Each handler is a transition function, and the lemmas say what the
    transitions keep.
  - `CarouselEngine.Engine` is the imperative engine. Its fields are the
    closure variables, and every handler method is proved to produce the
    corresponding transition of the old state.
- **Star twinkle** (`starfield.dfy`). Every frame, each star's brightness
  moves by its speed in its heading and bounces off [0.12, 1], and the
  heading flips at each bound. This is an in-place loop over an array of
  star records.
- **Sparkles** (`sparkles.dfy`).
  - Bursts of particles are appended around the pointer and, on scroll, at
    random places.
  - A reverse sweep every frame drifts and fades each particle and splices
    out the spent ones.
  - Pointer moves are throttled to one per 40 ms.
  - The scroll distance picks between 1 and 7 clusters.
- `js_math.dfy` holds the `Math` functions the code uses (`abs`, `sign`,
  `round`, `min`, `max`), an `Option` type, and `Pow`, used by the
  smoothing lemma.

The invariant -W < offset < W is proved only for events that each move the
strip by at most W. The wrap correction removes a single W per event; it is
not a loop. An event that moves the strip by more than W, such as a wide step
or a frame after a long pause, can leave the band. A move of more than 2W can
keep the offset outside the band for several events.
- `OversizedStepLeavesBand` and `OversizedStepStaysOutside` give concrete cases.
- `WideStepCanStayInside` shows that a step wider than the strip can still land inside.
- `Admissible` states the condition.
- `FrameAdmissible` gives a sufficient bound on dt: 40 dt <= W, since the smoothed speed never exceeds 40.

## Model

| member | source | states |
|---|---|---|
| JsMath.Sign | assets/js/script.js:437 | Math.sign: the result times x is \|x\|, it lies in [-1, 1], and it is 0 exactly when x is 0 |
| JsMath.Round | assets/js/script.js:290 | Math.round: the integer n with x - 1/2 < n <= x + 1/2 |
| CarouselMotion.WrapCorrects | assets/js/script.js:403-409 | W <= 0 leaves the offset unchanged; otherwise the result is offset, offset + W or offset - W; an offset in (-2W, 2W) lands in (-W, W); an offset already in the band is unchanged |
| CarouselMotion.Smoothed | assets/js/script.js:460 | the new speed's distance to the target is exactly 0.88 times the old distance |
| CarouselMotion.SmoothedBetween | assets/js/script.js:460 | the smoothed speed lies between the current speed and the target |
| CarouselMotion.InitialIsSteady | assets/js/script.js:394-400 | the start state (offset 0, both speeds 40, not paused, no hold) keeps the speed invariant and lies in the band for every width |
| CarouselMotion.WrapRestoresBand | assets/js/script.js:403-409 | from inside the band, a shift of at most W followed by the correction lands inside the band |
| CarouselMotion.TickKeepsSteady | assets/js/script.js:460 | a tick keeps "no hold, target 0 exactly while paused, current speed in [0, 40]" |
| CarouselMotion.TickKeepsBand | assets/js/script.js:463-469 | a tick whose move is at most W keeps the offset in the band |
| CarouselMotion.FrameKeepsInvariants | assets/js/script.js:454-470 | a frame whose move is at most W keeps both invariants |
| CarouselMotion.ApplyKeepsInvariants | assets/js/script.js:403-470 | every event whose move is at most W keeps both invariants |
| CarouselMotion.RunKeepsInvariants | assets/js/script.js:403-470 | a whole run of such events keeps both invariants |
| CarouselMotion.RunFromStartInBand | assets/js/script.js:400 | from the start state, every such run keeps -W < offset < W |
| CarouselMotion.FrameAdmissible | assets/js/script.js:455-463 | a frame with 0 <= dt and 40 dt <= W moves the strip by at most W |
| CarouselMotion.OversizedStepLeavesBand | assets/js/script.js:403-418 | with W = 100, a 200 px step from -50 ends at -150, outside the band: the invariant needs the bound on the move |
| CarouselMotion.OversizedStepStaysOutside | assets/js/script.js:403-418 | with W = 100, a 350 px step from 0 ends at -250, and the next, empty step only reaches -150: the offset stays outside the band for several events |
| CarouselMotion.WideStepCanStayInside | assets/js/script.js:403-418 | with W = 100, a 120 px step from 50 lands at -70, inside the band |
| CarouselMotion.StepWidthFallbacks | assets/js/script.js:413-415 | with no child to measure the step is 200 px; a gap that is missing or 0 is replaced by 24 px; any other gap g gives w + g |
| CarouselMotion.EnterPauses | assets/js/script.js:427-432 | mouseenter, focusin and touchstart set paused and target 0, keep offset, current speed and timestamp, and are idempotent |
| CarouselMotion.LeaveResumes | assets/js/script.js:428-433 | mouseleave, focusout and touchend clear paused and keep offset and current speed; the target returns to 40 unless a hold is active, and with no hold it always returns to 40 |
| CarouselMotion.HoldingNeverChanges | assets/js/script.js:398 | no run of events changes `holding` |
| CarouselMotion.OneLeaveUndoesTwoEnters | assets/js/script.js:427-428 | enter twice from two sources, then leave once, and the strip resumes at 40 with the offset unchanged |
| CarouselMotion.WheelNudges | assets/js/script.js:435-441 | a wheel event with \|dy\| <= \|dx\| changes nothing; otherwise the offset moves by exactly -60 (dy > 0) or +60 (dy < 0) before wrapping |
| CarouselMotion.StepMoves | assets/js/script.js:411-418 | a step moves the offset by exactly -direction * itemW before wrapping, changes nothing else, and keeps the band when the step is at most W |
| CarouselMotion.NextFromZero | assets/js/script.js:413-418 | with a first item of width w and a non-zero gap g, "next" from offset 0 lands at -(w + g) when w + g < W |
| CarouselMotion.FrameSmoothsSpeed | assets/js/script.js:460 | after a frame the speed lies between the old speed and the target, its distance to the target is 0.88 of the old distance, and the target and the timestamp are as expected |
| CarouselMotion.SmoothingConverges | assets/js/script.js:399 | after n frames with a fixed target, the distance to the target is 0.88^n times the starting distance |
| CarouselMotion.FramesApproachTarget | assets/js/script.js:454-460 | a run of frames alone keeps the target and drives the current speed along n smoothing steps |
| CarouselMotion.FirstFrameStandsStill | assets/js/script.js:455-457 | the first frame, with no previous timestamp, has dt = 0 and does not move the strip |
| CarouselEngine.Engine.constructor | assets/js/script.js:394-400 | the engine starts in the start state, which satisfies both invariants |
| CarouselEngine.Engine.ClampOffset | assets/js/script.js:403-409 | the offset becomes the wrap correction of the old offset |
| CarouselEngine.Engine.StepBy | assets/js/script.js:411-418 | the new state is the step transition of the old one; it keeps the speed invariant, and the band when the step is at most W |
| CarouselEngine.Engine.Enter | assets/js/script.js:427 | the new state is the enter transition: paused, target 0, band kept |
| CarouselEngine.Engine.Leave | assets/js/script.js:428 | the new state is the leave transition: not paused, target 40, band kept |
| CarouselEngine.Engine.Wheel | assets/js/script.js:435-441 | the new state is the wheel transition; it keeps the band when W is at least 60 |
| CarouselEngine.Engine.SmoothSpeed | assets/js/script.js:460 | the current speed becomes the smoothed speed |
| CarouselEngine.Engine.Advance | assets/js/script.js:463-469 | the offset moves left by the current speed times dt, then wraps |
| CarouselEngine.Engine.Tick | assets/js/script.js:460-469 | the new state is the tick of the old one, and the speed invariant still holds |
| CarouselEngine.Engine.Raf | assets/js/script.js:454-470 | the new state is the frame transition at `now`; it keeps the speed invariant, and the band when the frame's move is at most W |
| CarouselEngine.Engine.Dispatch | assets/js/script.js:426-470 | every event reaches its listener, and the new state is the event's transition; invariants as above |
| CarouselEngine.Start | assets/js/script.js:344-347 | with no items nothing is built; otherwise a fresh engine starts in the start state (offset 0, moving at 40 px/s) over the measured width |
| Starfield.InitialHeading | assets/js/script.js:51 | the heading is +1 or -1, +1 exactly when the draw is below 1/2 |
| Starfield.Twinkled | assets/js/script.js:76-79 | after one frame the brightness is in [0.12, 1], a unit heading stays a unit heading, and position, radius and speed are unchanged |
| Starfield.SetUpStarsTwinkle | assets/js/script.js:49-61 | stars set up from draws in [0, 1) start with brightness at least 0.2 and inside the band, with a unit heading |
| Starfield.TwinkleBounces | assets/js/script.js:77-79 | reaching b >= 1 forces b = 1 and d = -1; reaching b <= 0.12 forces b = 0.12 and d = 1; otherwise b just moves by d * s |
| Starfield.TwinkleKeepsBand | assets/js/script.js:77-79 | a twinkling star stays twinkling, and its brightness moves by at most its speed per frame |
| Starfield.TwinkleFollowsHeading | assets/js/script.js:77 | away from the bounds, brightness rises when d = 1 and falls when d = -1 |
| Starfield.Twinkle | assets/js/script.js:76-79 | every star of the array becomes its one-frame update, and every star with a unit heading ends twinkling |
| Sparkles.NewParticle | assets/js/script.js:223-231 | a new particle has full life |
| Sparkles.SpawnRanges | assets/js/script.js:224-230 | from draws in [0, 1): within 15 px of the spawn point, radius in [1, 3), decay in [0.02, 0.05), drift below 0.8 px per frame |
| Sparkles.Spawned | assets/js/script.js:222-232 | a burst has exactly one particle per draw |
| Sparkles.SpawnedInDrawOrder | assets/js/script.js:222-232 | the i-th particle of a burst comes from the i-th draw, with life 1 |
| Sparkles.SpawnKeepsExisting | assets/js/script.js:221-233 | appending a burst adds exactly count particles with life 1 after the existing ones, which stay as they were |
| Sparkles.LifeAfterFrames | assets/js/script.js:248 | after n frames the life has dropped by exactly n * decay |
| Sparkles.SparkleLifetime | assets/js/script.js:228-249 | a particle from draws in [0, 1) is alive through 20 frames and spent by its 50th |
| Sparkles.Swept | assets/js/script.js:244-252 | the sweep never grows the list, and every remaining particle has life > 0 |
| Sparkles.Kept | assets/js/script.js:249 | the indices of the particles that survive the frame all lie in the list |
| Sparkles.SweptKeepsSurvivorsInOrder | assets/js/script.js:244-252 | the survivors are exactly the advanced particles whose life stayed positive (index i is kept iff it survives), in their original relative order |
| Sparkles.SweepDropsOnlySpent | assets/js/script.js:249-250 | a sweep in which no particle runs out of life drops none |
| Sparkles.KeptAll | assets/js/script.js:249 | when every particle survives, every index is kept |
| Sparkles.Accepted | assets/js/script.js:269-270 | the accepted moves are among the moves offered, and there are no more of them |
| Sparkles.ThrottleSpacing | assets/js/script.js:268-270 | accepted pointer moves are at least 40 ms apart, the first at least 40 ms after the previous accepted one |
| Sparkles.ClusterCount | assets/js/script.js:288-290 | a scroll spawns between 1 and 7 clusters |
| Sparkles.ClusterCountExtremes | assets/js/script.js:288-290 | exactly 1 cluster when the scroll is under 10 px, exactly 7 when it is at least 110 px |
| Sparkles.ClusterCountMonotone | assets/js/script.js:288-290 | a longer scroll never spawns fewer clusters |
| Sparkles.ClusterSize | assets/js/script.js:237 | a cluster from a draw in [0, 1) has 5 to 10 particles |
| Sparkles.Burst | assets/js/script.js:237 | a cluster adds one particle per particle draw |
| Sparkles.ScatteredSize | assets/js/script.js:235-239 | k supplied clusters add between 5k and 10k particles |
| Sparkles.SparkleField.constructor | assets/js/script.js:206-207 | no particles; the last move and the last scroll are 0 |
| Sparkles.SparkleField.SpawnAt | assets/js/script.js:221-233 | the particle list becomes the old list followed by the burst from the first `count` draws |
| Sparkles.SparkleField.Animate | assets/js/script.js:244-252 | the particle list becomes the sweep of the old list, so every remaining particle has life > 0 |
| Sparkles.SparkleField.HandlePointerMove | assets/js/script.js:267-277 | a move within 40 ms of the last accepted one changes nothing; otherwise it becomes the last move, and it spawns 6 particles at canvas coordinates exactly when the pointer is on the canvas |
| Sparkles.SparkleField.SpawnRandom | assets/js/script.js:235-239 | the particle list becomes the old list followed by every cluster's burst, in order |
| Sparkles.SparkleField.OnScroll | assets/js/script.js:287-292 | the scroll position is remembered, and the bursts of exactly ClusterCount(distance) clusters are appended |

## Left out

- Canvas drawing is not modelled: gradients, `arc`, `fill`, `clearRect`, colours, DPR sizing, `setup` and `resizeCanvas`. These only present state through a foreign API.
- Building the track is not modelled: querying, cloning, `getComputedStyle` and `getBoundingClientRect` measurements, and the `waitForImages` wait. `originalWidth`, `itemW`, the canvas rectangle and its size are parameters. `StepWidth` records the item-width rule with its fallbacks.
- The fallback after a degenerate width (`originalWidth <= 10`) sums the children's widths but never uses the sum. `originalWidth` stays as measured, and the model takes it so.
- The resize debounce is not modelled. It only stores `_measuredOriginal`, which nothing reads.
- Timers and scheduling are not modelled: the CSS transition and `setTimeout` in `stepBy`, the transform writes, and the `requestAnimationFrame` scheduling. Time enters only as `now` in `Raf` and `HandlePointerMove`.
- `Math.random` values are parameters: one `Draw` per particle, and one `Cluster` per scroll cluster. The model assumes draws in [0, 1) only where a lemma says so.
- `performance.now` and `window.scrollY` are parameters.
- IEEE-754 rounding, NaN and infinities are not modelled. Arithmetic is exact over reals.
- Smooth-scroll anchors and the parallax block are not modelled. They are DOM effects.
- `onPointer` is not modelled. It only picks touch or mouse coordinates before calling `handlePointerMove`.
- `HoldSpeed` is declared, as in the source, but never read. Nothing ever sets `holding`, so `Steady` includes `holding == 0`.
- Starfield.Twinkle: stars are immutable records in an array. The source mutates star objects in place, so aliasing between stars is not modelled.
- Sparkles.SparkleField.OnScroll: calls `SpawnRandom` once with all its clusters, where the source calls `spawnRandom(1)` once per cluster. Both consume the same draws in the same order.
- Sparkles.SparkleField.SpawnAt: requires at least `count` draws, one per particle the loop creates.
- CarouselEngine.Engine.Raf and CarouselEngine.Engine.Dispatch: keep the band only for a move of at most W. The source makes no stronger promise, as `OversizedStepLeavesBand` shows.
