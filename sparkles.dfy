/** The hero's sparkles: particles spawned around the pointer and on scroll,
    drifting and fading each frame, and dropped from the list once spent. */
module Sparkles {
  import opened JsMath

  /** Least time in ms between two pointer moves that may spawn. */
  const MoveThrottle: real := 40.0
  /** Particles spawned per accepted pointer move. */
  const PointerBurst: nat := 6
  /** Scroll distance per frame at which the cluster count saturates. */
  const ScrollCap: real := 120.0

  datatype Particle = Particle(x: real, y: real, r: real, life: real, decay: real, dx: real, dy: real)

  /** The six `Math.random()` values one particle consumes, in call order. */
  datatype Draw = Draw(ux: real, uy: real, ur: real, udecay: real, udx: real, udy: real)

  /** A scroll-spawned cluster: position and size draws, then one Draw per particle. */
  datatype Cluster = Cluster(ux: real, uy: real, usize: real, draws: seq<Draw>)

  /** The canvas rectangle in client coordinates. */
  datatype Rect = Rect(left: real, top: real, width: real, height: real)

  predicate Unit(u: real) {
    0.0 <= u < 1.0
  }

  predicate UnitDraw(u: Draw) {
    Unit(u.ux) && Unit(u.uy) && Unit(u.ur) && Unit(u.udecay) && Unit(u.udx) && Unit(u.udy)
  }

  predicate Alive(p: Particle) {
    p.life > 0.0
  }

  /** A fresh particle around (x, y). */
  function NewParticle(x: real, y: real, u: Draw): (p: Particle)
    ensures p.life == 1.0
  {
    Particle(x + (u.ux - 0.5) * 30.0, y + (u.uy - 0.5) * 30.0, u.ur * 2.0 + 1.0, 1.0,
             0.02 + u.udecay * 0.03, (u.udx - 0.5) * 1.6, (u.udy - 0.5) * 1.6)
  }

  /** A particle from draws in [0, 1) lies within 15 px of the spawn point,
      has radius in [1, 3), decay in [0.02, 0.05) and drift below 0.8 px per frame. */
  lemma SpawnRanges(x: real, y: real, u: Draw)
    requires UnitDraw(u)
    ensures var p := NewParticle(x, y, u);
      x - 15.0 <= p.x < x + 15.0 && y - 15.0 <= p.y < y + 15.0 &&
      1.0 <= p.r < 3.0 && 0.02 <= p.decay < 0.05 &&
      -0.8 <= p.dx < 0.8 && -0.8 <= p.dy < 0.8
  {
  }

  /** The particles one burst at (x, y) appends, one per draw, in draw order. */
  function Spawned(x: real, y: real, ds: seq<Draw>): (ps: seq<Particle>)
    ensures |ps| == |ds|
    decreases |ds|
  {
    if ds == [] then [] else Spawned(x, y, ds[..|ds| - 1]) + [NewParticle(x, y, ds[|ds| - 1])]
  }

  /** The i-th particle of a burst comes from the i-th draw, at full life. */
  lemma {:induction false} SpawnedInDrawOrder(x: real, y: real, ds: seq<Draw>)
    ensures forall i :: 0 <= i < |ds| ==> Spawned(x, y, ds)[i] == NewParticle(x, y, ds[i])
    ensures forall i :: 0 <= i < |ds| ==> Spawned(x, y, ds)[i].life == 1.0
    decreases |ds|
  {
    if ds != [] {
      SpawnedInDrawOrder(x, y, ds[..|ds| - 1]);
    }
  }

  /** Appending a burst adds exactly one full-life particle per draw after
      the existing ones, which stay as they were. */
  lemma SpawnKeepsExisting(existing: seq<Particle>, x: real, y: real, ds: seq<Draw>)
    ensures |existing + Spawned(x, y, ds)| == |existing| + |ds|
    ensures (existing + Spawned(x, y, ds))[..|existing|] == existing
    ensures forall i :: |existing| <= i < |existing| + |ds| ==>
              (existing + Spawned(x, y, ds))[i] == NewParticle(x, y, ds[i - |existing|]) &&
              (existing + Spawned(x, y, ds))[i].life == 1.0
  {
    SpawnedInDrawOrder(x, y, ds);
    assert (existing + Spawned(x, y, ds))[..|existing|] == existing;
  }

  /** One frame of one particle: drift by (dx, dy), lose `decay` of its life. */
  function Advanced(p: Particle): (q: Particle)
    ensures q.life == p.life - p.decay
    ensures q.r == p.r && q.decay == p.decay && q.dx == p.dx && q.dy == p.dy
  {
    p.(x := p.x + p.dx, y := p.y + p.dy, life := p.life - p.decay)
  }

  /** A particle after `n` frames. */
  function AdvancedN(p: Particle, n: nat): (q: Particle)
    decreases n
  {
    if n == 0 then p else Advanced(AdvancedN(p, n - 1))
  }

  /** After n frames a particle has lost exactly n times its decay. */
  lemma {:induction false} LifeAfterFrames(p: Particle, n: nat)
    ensures AdvancedN(p, n).life == p.life - n as real * p.decay
    ensures AdvancedN(p, n).decay == p.decay
    decreases n
  {
    if n > 0 {
      LifeAfterFrames(p, n - 1);
      assert n as real * p.decay == (n - 1) as real * p.decay + p.decay;
    }
  }

  /** A particle from draws in [0, 1) is still alive after 20 frames and
      spent after 50. */
  lemma SparkleLifetime(x: real, y: real, u: Draw, n: nat)
    requires UnitDraw(u)
    ensures n <= 20 ==> Alive(AdvancedN(NewParticle(x, y, u), n))
    ensures n >= 50 ==> !Alive(AdvancedN(NewParticle(x, y, u), n))
  {
    var p := NewParticle(x, y, u);
    SpawnRanges(x, y, u);
    LifeAfterFrames(p, n);
    if n <= 20 {
      assert n as real * p.decay <= 20.0 * p.decay;
    }
    if n >= 50 {
      assert n as real * p.decay >= 50.0 * p.decay;
    }
  }

  /** The frame sweep on a whole list: every particle advanced, the spent
      ones dropped, the rest kept in order. */
  function Swept(s: seq<Particle>): (r: seq<Particle>)
    ensures |r| <= |s|
    ensures forall i :: 0 <= i < |r| ==> Alive(r[i])
    decreases |s|
  {
    if s == [] then []
    else (if Alive(Advanced(s[0])) then [Advanced(s[0])] else []) + Swept(s[1..])
  }

  /** The sweep of a suffix: its first particle, if it survives, then the sweep of the rest. */
  lemma SweptFrom(s: seq<Particle>, i: nat)
    requires i < |s|
    ensures Swept(s[i..]) ==
              (if Alive(Advanced(s[i])) then [Advanced(s[i])] else []) + Swept(s[i + 1..])
  {
    assert s[i..][1..] == s[i + 1..];
  }

  /** Indices in [lo, |s|) of the particles that survive their next frame, ascending. */
  function Kept(s: seq<Particle>, lo: nat): (ks: seq<nat>)
    ensures forall k :: 0 <= k < |ks| ==> lo <= ks[k] < |s|
    decreases |s| - lo
  {
    if lo >= |s| then []
    else (if Alive(Advanced(s[lo])) then [lo] else []) + Kept(s, lo + 1)
  }

  /** The sweep keeps exactly the particles whose advanced life stays
      positive, each advanced once, in their original relative order. */
  lemma {:induction false} SweptKeepsSurvivorsInOrder(s: seq<Particle>, lo: nat)
    requires lo <= |s|
    ensures |Swept(s[lo..])| == |Kept(s, lo)|
    ensures forall k :: 0 <= k < |Kept(s, lo)| ==> Swept(s[lo..])[k] == Advanced(s[Kept(s, lo)[k]])
    ensures forall k, l :: 0 <= k < l < |Kept(s, lo)| ==> Kept(s, lo)[k] < Kept(s, lo)[l]
    ensures forall i :: lo <= i < |s| ==> (i in Kept(s, lo) <==> Alive(Advanced(s[i])))
    decreases |s| - lo
  {
    if lo < |s| {
      SweptKeepsSurvivorsInOrder(s, lo + 1);
      assert s[lo..][1..] == s[lo + 1..];
      assert s[lo..][0] == s[lo];
    }
  }

  /** A sweep in which no particle runs out of life drops none. */
  lemma SweepDropsOnlySpent(s: seq<Particle>)
    requires forall i :: 0 <= i < |s| ==> Alive(Advanced(s[i]))
    ensures |Swept(s)| == |s|
  {
    SweptKeepsSurvivorsInOrder(s, 0);
    assert s[0..] == s;
    KeptAll(s, 0);
  }

  /** When every particle survives, every index is kept. */
  lemma {:induction false} KeptAll(s: seq<Particle>, lo: nat)
    requires lo <= |s|
    requires forall i :: lo <= i < |s| ==> Alive(Advanced(s[i]))
    ensures |Kept(s, lo)| == |s| - lo
    decreases |s| - lo
  {
    if lo < |s| {
      KeptAll(s, lo + 1);
    }
  }

  /** The pointer throttle: a move under 40 ms after the last accepted one is ignored. */
  predicate Throttled(lastMove: real, now: real) {
    now - lastMove < MoveThrottle
  }

  /** The timestamps the throttle accepts out of `times`, starting from `lastMove`. */
  function Accepted(lastMove: real, times: seq<real>): (r: seq<real>)
    ensures |r| <= |times|
    ensures forall t :: t in r ==> t in times
    decreases |times|
  {
    if times == [] then []
    else if Throttled(lastMove, times[0]) then Accepted(lastMove, times[1..])
    else [times[0]] + Accepted(times[0], times[1..])
  }

  /** Accepted moves are at least 40 ms apart, and the first at least 40 ms
      after the last one accepted before. */
  lemma {:induction false} ThrottleSpacing(lastMove: real, times: seq<real>)
    ensures var r := Accepted(lastMove, times);
      (|r| > 0 ==> r[0] >= lastMove + MoveThrottle) &&
      forall k :: 0 < k < |r| ==> r[k] >= r[k - 1] + MoveThrottle
    decreases |times|
  {
    if times != [] {
      if Throttled(lastMove, times[0]) {
        ThrottleSpacing(lastMove, times[1..]);
      } else {
        ThrottleSpacing(times[0], times[1..]);
      }
    }
  }

  /** The pointer lies on the canvas. */
  predicate OnCanvas(rect: Rect, clientX: real, clientY: real) {
    var x := clientX - rect.left;
    var y := clientY - rect.top;
    !(x < 0.0 || y < 0.0 || x > rect.width || y > rect.height)
  }

  /** Number of clusters a scroll of `delta` pixels since the last scroll event spawns. */
  function ClusterCount(delta: real): (n: int)
    ensures 1 <= n <= 7
  {
    var speed := Min(Abs(delta), ScrollCap);
    1 + Round((speed / ScrollCap) * 6.0)
  }

  /** A gentle scroll (under 10 px) spawns one cluster, a fast one (110 px
      or more) saturates at seven. */
  lemma ClusterCountExtremes(delta: real)
    ensures ClusterCount(delta) == 1 <==> Abs(delta) < 10.0
    ensures ClusterCount(delta) == 7 <==> Abs(delta) >= 110.0
  {
  }

  /** A faster scroll never spawns fewer clusters. */
  lemma ClusterCountMonotone(d1: real, d2: real)
    requires Abs(d1) <= Abs(d2)
    ensures ClusterCount(d1) <= ClusterCount(d2)
  {
    var x1 := Min(Abs(d1), ScrollCap) / ScrollCap * 6.0;
    var x2 := Min(Abs(d2), ScrollCap) / ScrollCap * 6.0;
    assert x1 <= x2;
  }

  /** Particles in a scroll cluster: 5 + floor(6u). */
  function ClusterSize(u: real): (n: int)
    ensures Unit(u) ==> 5 <= n <= 10
  {
    5 + (u * 6.0).Floor
  }

  /** A cluster that carries one particle draw per particle its size draw
      calls for. */
  predicate Sized(c: Cluster) {
    |c.draws| == ClusterSize(c.usize)
  }

  /** A sized cluster whose size draw lies in [0, 1). */
  predicate Supplied(c: Cluster) {
    Unit(c.usize) && Sized(c)
  }

  /** The particles one cluster appends on a `w` by `h` canvas. */
  function Burst(w: real, h: real, c: Cluster): (ps: seq<Particle>)
    ensures |ps| == |c.draws|
  {
    Spawned(c.ux * w, c.uy * h, c.draws)
  }

  /** The particles a sequence of clusters appends on a `w` by `h` canvas,
      the first cluster's first. */
  function Scattered(w: real, h: real, cs: seq<Cluster>): (ps: seq<Particle>)
    decreases |cs|
  {
    if cs == [] then []
    else Scattered(w, h, cs[..|cs| - 1]) + Burst(w, h, cs[|cs| - 1])
  }

  /** Every supplied cluster adds between 5 and 10 particles. */
  lemma {:induction false} ScatteredSize(w: real, h: real, cs: seq<Cluster>)
    requires forall i :: 0 <= i < |cs| ==> Supplied(cs[i])
    ensures 5 * |cs| <= |Scattered(w, h, cs)| <= 10 * |cs|
    decreases |cs|
  {
    if cs != [] {
      var init := cs[..|cs| - 1];
      assert forall i :: 0 <= i < |init| ==> Supplied(init[i]) by {
        forall i | 0 <= i < |init| ensures Supplied(init[i]) {
          assert init[i] == cs[i];
        }
      }
      ScatteredSize(w, h, init);
      assert Supplied(cs[|cs| - 1]);
    }
  }

  /** Scattering one more cluster appends that cluster's burst. */
  lemma ScatteredPrefix(w: real, h: real, cs: seq<Cluster>, i: nat)
    requires i < |cs|
    ensures Scattered(w, h, cs[..i + 1]) == Scattered(w, h, cs[..i]) + Burst(w, h, cs[i])
  {
    assert cs[..i + 1][..i] == cs[..i];
  }

  /** Cutting out, or replacing, the last element of a prefix followed by `rest`. */
  lemma SplitAt(s: seq<Particle>, rest: seq<Particle>, i: nat)
    requires i < |s|
    ensures (s[..i + 1] + rest)[i] == s[i]
    ensures (s[..i + 1] + rest)[..i] + (s[..i + 1] + rest)[i + 1..] == s[..i] + rest
    ensures forall p :: (s[..i + 1] + rest)[i := p] == s[..i] + ([p] + rest)
  {
    var t := s[..i + 1] + rest;
    assert t[..i] == s[..i];
    assert t[i + 1..] == rest;
    forall p ensures t[i := p] == s[..i] + ([p] + rest) {
      assert t[i := p] == t[..i] + [p] + t[i + 1..];
    }
  }

  /** The sparkle layer's mutable state. */
  class SparkleField {
    var particles: seq<Particle>
    /** Timestamp of the last accepted pointer move; 0 before the first. */
    var lastMove: real
    /** scrollY at the previous scroll event; 0 before the first. */
    var lastScroll: real

    constructor ()
      ensures particles == [] && lastMove == 0.0 && lastScroll == 0.0
    {
      particles := [];
      lastMove := 0.0;
      lastScroll := 0.0;
    }

    /** Append `count` particles around (x, y), one per draw. */
    method SpawnAt(x: real, y: real, count: nat, draws: seq<Draw>)
      requires count <= |draws|
      modifies this`particles
      ensures particles == old(particles) + Spawned(x, y, draws[..count])
    {
      for i := 0 to count
        invariant particles == old(particles) + Spawned(x, y, draws[..i])
      {
        assert draws[..i + 1][..i] == draws[..i];
        particles := particles + [NewParticle(x, y, draws[i])];
      }
    }

    /** The sweep of the frame loop: walk the list from the back, advance each
        particle, and splice out the spent ones. */
    method Animate()
      modifies this`particles
      ensures particles == Swept(old(particles))
      ensures forall i :: 0 <= i < |particles| ==> Alive(particles[i])
    {
      ghost var s := particles;
      var i: int := |particles| - 1;
      while i >= 0
        invariant -1 <= i < |s|
        invariant particles == s[..i + 1] + Swept(s[i + 1..])
        decreases i
      {
        ghost var rest := Swept(s[i + 1..]);
        SweptFrom(s, i);
        SplitAt(s, rest, i);
        var p := particles[i];
        p := p.(x := p.x + p.dx, y := p.y + p.dy);
        p := p.(life := p.life - p.decay);
        if p.life <= 0.0 {
          particles := particles[..i] + particles[i + 1..];
        } else {
          particles := particles[i := p];
        }
        i := i - 1;
      }
      assert s[0..] == s;
    }

    /** A pointer or touch move at time `now` (ms) over the canvas `rect`. */
    method HandlePointerMove(clientX: real, clientY: real, now: real, rect: Rect, draws: seq<Draw>)
      requires PointerBurst <= |draws|
      modifies this`particles, this`lastMove
      ensures lastMove == if Throttled(old(lastMove), now) then old(lastMove) else now
      ensures particles ==
                if !Throttled(old(lastMove), now) && OnCanvas(rect, clientX, clientY)
                then old(particles) + Spawned(clientX - rect.left, clientY - rect.top, draws[..PointerBurst])
                else old(particles)
    {
      if now - lastMove < MoveThrottle {
        return;
      }
      lastMove := now;
      var x := clientX - rect.left;
      var y := clientY - rect.top;
      if x < 0.0 || y < 0.0 || x > rect.width || y > rect.height {
        return;
      }
      SpawnAt(x, y, PointerBurst, draws);
    }

    /** Spawn one cluster per entry of `clusters` on a `w` by `h` canvas. */
    method SpawnRandom(w: real, h: real, clusters: seq<Cluster>)
      requires forall i :: 0 <= i < |clusters| ==> Sized(clusters[i])
      modifies this`particles
      ensures particles == old(particles) + Scattered(w, h, clusters)
    {
      for i := 0 to |clusters|
        invariant particles == old(particles) + Scattered(w, h, clusters[..i])
      {
        assert Sized(clusters[i]);
        SpawnAt(clusters[i].ux * w, clusters[i].uy * h, ClusterSize(clusters[i].usize), clusters[i].draws);
        assert clusters[i].draws[..ClusterSize(clusters[i].usize)] == clusters[i].draws;
        ScatteredPrefix(w, h, clusters, i);
      }
      assert clusters[..|clusters|] == clusters;
    }

    /** A scroll event at `scrollY`: the distance since the previous event
        picks the number of clusters, and the first that many of `clusters`
        spawn (n calls of spawnRandom(1) consume the same draws, in the same
        order, as one spawnRandom(n)). */
    method OnScroll(scrollY: real, w: real, h: real, clusters: seq<Cluster>)
      requires ClusterCount(scrollY - lastScroll) <= |clusters|
      requires forall i :: 0 <= i < |clusters| ==> Sized(clusters[i])
      modifies this`particles, this`lastScroll
      ensures lastScroll == scrollY
      ensures particles == old(particles) + Scattered(w, h, clusters[..ClusterCount(scrollY - old(lastScroll))])
    {
      var speed := Min(Abs(scrollY - lastScroll), 120.0);
      lastScroll := scrollY;
      var n := 1 + Round((speed / 120.0) * 6.0);
      SpawnRandom(w, h, clusters[..n]);
    }
  }
}
