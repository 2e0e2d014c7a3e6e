/** The Confetti overlay (components/Confetti.tsx): a pool of rotating rectangles launched from
    the lower centre of the canvas, topped up while the pool is small, moved under gravity and
    air resistance, and removed once faded or fallen below the canvas. */
module Confetti {
  import opened Support

  /** The 5-colour neon palette. */
  const COLORS: seq<string> := ["#00f3ff", "#ff00ff", "#bc13fe", "#0aff0a", "#ffffff"]
  /** Spawning happens only while the pool holds fewer particles than this. */
  const SPAWN_BELOW := 250
  const INITIAL_BURST := 80
  /** The most one spawn adds: four from the centre plus one glitch. */
  const SPAWN_MAX := 5
  /** The pool never grows beyond this: one spawn from 249 particles. */
  const MAX_PARTICLES := 254
  /** The number of updates after which a particle created with life 1.0 has no life left. */
  const LIFETIME := 200

  datatype Particle = Particle(
    x: real, y: real,
    w: real, h: real,
    color: string,
    vx: real, vy: real,
    rotation: real, rotationSpeed: real,
    life: real)

  /** The seven `Math.random()` draws of `createParticle`, in source order. */
  datatype ParticleDraw = ParticleDraw(w: Draw, h: Draw, color: Draw, vx: Draw, vy: Draw, rotation: Draw, spin: Draw)

  /** `Math.floor(u * COLORS.length)`: always a palette index. */
  function ColorIndex(u: Draw): (i: int)
    ensures 0 <= i < |COLORS|
  {
    ScaleBounds(u, 5.0);
    Scaled(u, 5.0).Floor
  }

  /** `createParticle`. */
  function CreateParticle(x: real, y: real, d: ParticleDraw): (p: Particle)
    ensures p.x == x && p.y == y
    ensures 2.0 <= p.w < 10.0 && 2.0 <= p.h < 10.0
    ensures p.color in COLORS
    ensures -6.0 <= p.vx < 6.0 && -12.0 <= p.vy < 0.0
    ensures 0.0 <= p.rotation < 360.0 && -7.5 <= p.rotationSpeed < 7.5
    ensures p.life == 1.0
  {
    ScaleBounds(d.w, 8.0);
    ScaleBounds(d.h, 8.0);
    ScaleBounds(d.rotation, 360.0);
    Particle(
      x, y,
      Scaled(d.w, 8.0) + 2.0, Scaled(d.h, 8.0) + 2.0,
      COLORS[ColorIndex(d.color)],
      (d.vx - 0.5) * 12.0, (d.vy - 0.5) * 12.0 - 6.0,
      Scaled(d.rotation, 360.0), (d.spin - 0.5) * 15.0,
      1.0)
  }

  /** The draws of one `spawnConfetti`: four particles, the glitch test, the glitch position
      and the glitch particle. */
  datatype SpawnDraw = SpawnDraw(burst: nat -> ParticleDraw, glitch: Draw, gx: Draw, gy: Draw, glitchParticle: ParticleDraw)

  /** The four particles `spawnConfetti` launches from (w/2, 0.8 h). */
  function CentreBatch(w: nat, h: nat, burst: nat -> ParticleDraw): (batch: seq<Particle>)
    ensures |batch| == 4
    ensures forall k :: 0 <= k < 4 ==> batch[k] == CreateParticle(w as real / 2.0, h as real * 0.8, burst(k))
  {
    seq(4, k requires 0 <= k < 4 => CreateParticle(w as real / 2.0, h as real * 0.8, burst(k)))
  }

  /** The glitch particle, placed uniformly on the canvas. */
  function GlitchParticle(w: nat, h: nat, d: SpawnDraw): (p: Particle)
    ensures 0.0 <= p.x <= w as real && 0.0 <= p.y <= h as real && p.life == 1.0
  {
    ScaleBounds(d.gx, w as real);
    ScaleBounds(d.gy, h as real);
    CreateParticle(Scaled(d.gx, w as real), Scaled(d.gy, h as real), d.glitchParticle)
  }

  /** `spawnConfetti`: four particles at (w/2, 0.8 h), and after a draw above 0.6 a fifth
      anywhere on the canvas. */
  function SpawnBatch(w: nat, h: nat, d: SpawnDraw): (batch: seq<Particle>)
    ensures |batch| == (if d.glitch > 0.6 then 5 else 4)
    ensures forall k :: 0 <= k < 4 ==> batch[k] == CreateParticle(w as real / 2.0, h as real * 0.8, d.burst(k))
    ensures d.glitch > 0.6 ==> 0.0 <= batch[4].x <= w as real && 0.0 <= batch[4].y <= h as real
    ensures forall k :: 0 <= k < |batch| ==> batch[k].life == 1.0
  {
    var centre := CentreBatch(w, h, d.burst);
    if d.glitch > 0.6 then centre + [GlitchParticle(w, h, d)] else centre
  }

  /** The pool after the spawn test at the top of `animate`. */
  function Spawned(ps: seq<Particle>, w: nat, h: nat, d: SpawnDraw): (r: seq<Particle>)
    ensures |ps| < SPAWN_BELOW ==> r == ps + SpawnBatch(w, h, d)
    ensures |ps| >= SPAWN_BELOW ==> r == ps
    ensures |ps| <= |r| <= |ps| + SPAWN_MAX
  {
    if |ps| < 250 then ps + SpawnBatch(w, h, d) else ps
  }

  /** One update, in source order: position from the old velocity, then gravity `vy += 0.2`,
      air resistance `vx *= 0.98`, spin, and a life decrement of 0.005. */
  function StepConfetti(p: Particle): (q: Particle)
    ensures q.x == p.x + p.vx && q.y == p.y + p.vy
    ensures q.vy == p.vy + 0.2 && q.vx == p.vx * 0.98
    ensures q.rotation == p.rotation + p.rotationSpeed
    ensures q.life == p.life - 0.005
    ensures q.w == p.w && q.h == p.h && q.color == p.color && q.rotationSpeed == p.rotationSpeed
  {
    Particle(p.x + p.vx, p.y + p.vy, p.w, p.h, p.color, p.vx * 0.98, p.vy + 0.2,
             p.rotation + p.rotationSpeed, p.rotationSpeed, p.life - 0.005)
  }

  /** An updated particle stays while it has life left and has not fallen 50 below the canvas. */
  predicate OnStage(p: Particle, height: nat) {
    p.life > 0.0 && p.y <= height as real + 50.0
  }

  function KeepOnStage(height: nat): Particle -> bool {
    p => OnStage(p, height)
  }

  /** The pool after the update loop of `animate`. */
  function Survivors(ps: seq<Particle>, height: nat): (r: seq<Particle>)
    ensures |r| <= |ps|
    ensures forall k :: 0 <= k < |r| ==> OnStage(r[k], height) && r[k] in Map(ps, StepConfetti)
  {
    Filter(Map(ps, StepConfetti), KeepOnStage(height))
  }

  /** The update loop keeps exactly the updated particles that stay, each once, in order. */
  lemma SurvivorsExact(ps: seq<Particle>, height: nat)
    ensures var moved, kept := Map(ps, StepConfetti), Survivors(ps, height);
      var p := KeptPositions(moved, KeepOnStage(height));
      && |p| == |kept|
      && (forall k :: 0 <= k < |p| ==> p[k] < |ps| && kept[k] == StepConfetti(ps[p[k]]))
      && (forall k, l :: 0 <= k < l < |p| ==> p[k] < p[l])
      && (forall j :: 0 <= j < |ps| ==> (OnStage(StepConfetti(ps[j]), height) <==> j in p))
  {
    FilterPositions(Map(ps, StepConfetti), KeepOnStage(height));
  }

  /** One frame of `animate` on the pool. */
  function AnimateSpec(ps: seq<Particle>, w: nat, h: nat, d: SpawnDraw): seq<Particle> {
    Survivors(Spawned(ps, w, h, d), h)
  }

  /** What holds of the pool between frames. */
  predicate PoolInv(ps: seq<Particle>) {
    |ps| <= MAX_PARTICLES && forall k :: 0 <= k < |ps| ==> ps[k].life <= 1.0
  }

  /** The cap: from a pool within the bound, a frame leaves it within the bound, because
      spawning stops at 250 and one spawn adds at most 5. */
  lemma AnimateKeepsCap(ps: seq<Particle>, w: nat, h: nat, d: SpawnDraw)
    requires PoolInv(ps)
    ensures PoolInv(AnimateSpec(ps, w, h, d))
  {
    var s := Spawned(ps, w, h, d);
    forall k | 0 <= k < |s|
      ensures s[k].life <= 1.0
    {
      if k >= |ps| {
        assert s[k] == SpawnBatch(w, h, d)[k - |ps|];
      }
    }
    var r := AnimateSpec(ps, w, h, d);
    forall k | 0 <= k < |r|
      ensures r[k].life <= 1.0
    {
      var j :| 0 <= j < |s| && Map(s, StepConfetti)[j] == r[k];
    }
  }

  /** The initial burst: 80 particles from the centre of the window. */
  function InitialBurst(w: nat, h: nat, burst: nat -> ParticleDraw): (ps: seq<Particle>)
    ensures |ps| == INITIAL_BURST && PoolInv(ps)
    ensures forall k :: 0 <= k < |ps| ==> ps[k] == CreateParticle(w as real / 2.0, h as real / 2.0, burst(k))
  {
    var ps := seq(80, k requires 0 <= k < 80 => CreateParticle(w as real / 2.0, h as real / 2.0, burst(k)));
    assert forall k :: 0 <= k < 80 ==> ps[k] == CreateParticle(w as real / 2.0, h as real / 2.0, burst(k));
    ps
  }

  /** The pool after a run of frames, the i-th with canvas size sizes[i] and draws ds[i]. */
  function Frames(ps: seq<Particle>, sizes: seq<(nat, nat)>, ds: seq<SpawnDraw>): seq<Particle>
    requires |sizes| == |ds|
    decreases |ds|
  {
    if ds == [] then ps else Frames(AnimateSpec(ps, sizes[0].0, sizes[0].1, ds[0]), sizes[1..], ds[1..])
  }

  /** However many frames run, at whatever canvas size, the pool never exceeds 254 particles. */
  lemma {:induction false} CapForever(ps: seq<Particle>, sizes: seq<(nat, nat)>, ds: seq<SpawnDraw>)
    requires |sizes| == |ds| && PoolInv(ps)
    decreases |ds|
    ensures |Frames(ps, sizes, ds)| <= MAX_PARTICLES
    ensures PoolInv(Frames(ps, sizes, ds))
  {
    if ds != [] {
      AnimateKeepsCap(ps, sizes[0].0, sizes[0].1, ds[0]);
      CapForever(AnimateSpec(ps, sizes[0].0, sizes[0].1, ds[0]), sizes[1..], ds[1..]);
    }
  }

  /** The particle stays through the next n updates, whoever else is in the pool. */
  predicate Lasts(p: Particle, height: nat, n: nat)
    decreases n
  {
    n == 0 || (OnStage(StepConfetti(p), height) && Lasts(StepConfetti(p), height, n - 1))
  }

  /** A particle with at most 0.005 n life left is removed within n updates. */
  lemma {:induction false} FadesWithin(p: Particle, height: nat, n: nat)
    requires n >= 1 && p.life <= 0.005 * (n as real)
    decreases n
    ensures !Lasts(p, height, n)
  {
    if n > 1 && OnStage(StepConfetti(p), height) {
      FadesWithin(StepConfetti(p), height, n - 1);
    }
  }

  /** Every particle in the pool, new ones included, is removed after at most 200 updates. */
  lemma ConfettiLifetime(p: Particle, height: nat)
    requires p.life <= 1.0
    ensures !Lasts(p, height, LIFETIME)
  {
    FadesWithin(p, height, 200);
  }

  class ConfettiCanvas {
    var particles: seq<Particle>

    predicate Valid()
      reads this
    {
      PoolInv(particles)
    }

    /** Mounting: the initial burst of 80 from the window centre. */
    constructor(innerWidth: nat, innerHeight: nat, burst: nat -> ParticleDraw)
      ensures Valid()
      ensures particles == InitialBurst(innerWidth, innerHeight, burst)
    {
      particles := [];
      new;
      var i := 0;
      while i < 80
        invariant 0 <= i <= 80
        invariant particles == InitialBurst(innerWidth, innerHeight, burst)[..i]
      {
        particles := particles + [CreateParticle(innerWidth as real / 2.0, innerHeight as real / 2.0, burst(i))];
        i := i + 1;
      }
    }

    /** `spawnConfetti`. */
    method SpawnConfetti(w: nat, h: nat, d: SpawnDraw)
      modifies this
      ensures particles == old(particles) + SpawnBatch(w, h, d)
    {
      var i := 0;
      while i < 4
        invariant 0 <= i <= 4
        invariant particles == old(particles) + CentreBatch(w, h, d.burst)[..i]
      {
        assert CentreBatch(w, h, d.burst)[..i + 1] == CentreBatch(w, h, d.burst)[..i] + [CentreBatch(w, h, d.burst)[i]];
        particles := particles + [CreateParticle(w as real / 2.0, h as real * 0.8, d.burst(i))];
        i := i + 1;
      }
      assert CentreBatch(w, h, d.burst)[..4] == CentreBatch(w, h, d.burst);
      if d.glitch > 0.6 {
        particles := particles + [GlitchParticle(w, h, d)];
      }
    }

    /** The update loop of `animate`: forward over the pool, updating each particle in place
        and splicing it out, with the index stepped back, when it has faded or fallen. */
    method Sweep(height: nat)
      modifies this
      ensures particles == Survivors(old(particles), height)
    {
      ghost var orig := particles;
      ghost var moved := Map(orig, StepConfetti);
      ghost var keep := KeepOnStage(height);
      ghost var j := 0;
      var i := 0;
      while i < |particles|
        invariant 0 <= j <= |orig| && i == |Filter(moved[..j], keep)| && |particles| == i + (|orig| - j)
        invariant particles[..i] == Filter(moved[..j], keep) && particles[i..] == orig[j..]
        decreases |orig| - j
      {
        SweepStep(orig, moved, j, particles, i, keep);
        var p := StepConfetti(particles[i]);
        assert p == moved[j];
        particles := particles[i := p];
        if p.life <= 0.0 || p.y > height as real + 50.0 {
          particles := particles[..i] + particles[i + 1..];
          i := i - 1;
        }
        i := i + 1;
        j := j + 1;
      }
      assert moved[..j] == moved && particles[..i] == particles;
    }

    /** `animate`: top up a small pool, then update and sweep it. */
    method Animate(w: nat, h: nat, d: SpawnDraw)
      requires Valid()
      modifies this
      ensures Valid()
      ensures particles == AnimateSpec(old(particles), w, h, d)
    {
      AnimateKeepsCap(particles, w, h, d);
      if |particles| < 250 {
        SpawnConfetti(w, h, d);
      }
      Sweep(h);
    }
  }
}
