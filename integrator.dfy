/** The per-frame physics of `update` (components/FireworksStage.tsx:178-227): the shell
    loop, which moves every shell and explodes those at their apex or above their target
    height, and the particle loop, which moves, damps and fades every particle and drops the
    invisible ones. The loops themselves live in Stage; this module states what one pass
    computes and what repeated passes guarantee. */
module Integrator {
  import opened Support
  import opened FireworksTypes
  import opened Glyphs
  import opened Explosions
  import opened Scheduler

  // ---------------------------------------------------------------- shells

  /** One tick of a shell: move by the velocity, then let gravity act on the vertical speed. */
  function Advance(s: Shell): (a: Shell)
    ensures a.pos == Vector3(s.pos.x + s.vel.x, s.pos.y + s.vel.y, s.pos.z + s.vel.z)
    ensures a.vel == s.vel.(y := s.vel.y + GRAVITY)
    ensures a.targetY == s.targetY && a.hue == s.hue && a.text == s.text && a.exploded == s.exploded
  {
    s.(pos := Vector3(s.pos.x + s.vel.x, s.pos.y + s.vel.y, s.pos.z + s.vel.z),
       vel := s.vel.(y := s.vel.y + GRAVITY))
  }

  /** A moved shell bursts once it stops rising or has climbed above its target (y grows downwards). */
  predicate Bursts(s: Shell) {
    s.vel.y >= 0.0 || s.pos.y < s.targetY
  }

  predicate Ascends(s: Shell) {
    !Bursts(s)
  }

  /** The explosion type: text when the shell carries a non-empty phrase, otherwise a ring
      when the draw exceeds 0.7 and a sphere otherwise. */
  function ExplosionKind(s: Shell, u: Draw): (k: ExplosionType)
    ensures k == Text <==> Truthy(s.text)
    ensures k == Ring <==> !Truthy(s.text) && u > 0.7
    ensures k == Sphere <==> !Truthy(s.text) && u <= 0.7
  {
    if Truthy(s.text) then Text else if u > 0.7 then Ring else Sphere
  }

  /** The particles a bursting (already moved) shell produces, coloured by the integer part of its hue. */
  function Burst(a: Shell, d: BurstDraws, ctx: Option<Rasterizer>): (batch: seq<Particle3D>)
    ensures Truthy(a.text) ==> |batch| == |TextPoints(ctx, a.text.value, d.pointZ)|
    ensures !Truthy(a.text) ==> |batch| == (if d.ring > 0.7 then OTHER_SPARKS else SPHERE_SPARKS)
    ensures forall k :: 0 <= k < |batch| ==>
      && Fresh(batch[k]) && batch[k].pos == a.pos && batch[k].hue == ParseHue(a.hue)
      && batch[k].kind == (if Truthy(a.text) then TextGlyph else Spark)
  {
    ExplosionBatch(a.pos, ParseHue(a.hue), ExplosionKind(a, d.ring), a.text, ctx, d)
  }

  /** The particles appended while the shell loop visits indices |shells|-1 down to i:
      the bursts of the later shells come first. */
  function BurstsFrom(shells: seq<Shell>, i: nat, bursts: nat -> BurstDraws, ctx: Option<Rasterizer>)
    : (ps: seq<Particle3D>)
    requires i <= |shells|
    decreases |shells| - i
    ensures forall k :: 0 <= k < |ps| ==> Fresh(ps[k])
  {
    if i == |shells| then []
    else
      var a := Advance(shells[i]);
      BurstsFrom(shells, i + 1, bursts, ctx) + (if Bursts(a) then Burst(a, bursts(i), ctx) else [])
  }

  /** The shell pass: every shell moves; those that burst leave the list, in place, and their
      particles are appended. */
  function ShellStep(st: SimState, bursts: nat -> BurstDraws, ctx: Option<Rasterizer>): (st': SimState)
    ensures forall k :: 0 <= k < |st'.shells| ==> Ascends(st'.shells[k]) && st'.shells[k] in Map(st.shells, Advance)
    ensures |st'.shells| <= |st.shells|
    ensures |st'.particles| >= |st.particles| && st'.particles[..|st.particles|] == st.particles
    ensures forall k :: |st.particles| <= k < |st'.particles| ==> Fresh(st'.particles[k])
    ensures st'.lastMainLaunch == st.lastMainLaunch && st'.lastMiniLaunch == st.lastMiniLaunch
    ensures st'.wishIndex == st.wishIndex
  {
    var burst := BurstsFrom(st.shells, 0, bursts, ctx);
    var st' := st.(shells := Filter(Map(st.shells, Advance), Ascends), particles := st.particles + burst);
    assert forall k :: |st.particles| <= k < |st'.particles| ==> st'.particles[k] == burst[k - |st.particles|];
    st'
  }

  /** The shell pass keeps exactly the moved shells that did not burst, each once, in their
      original order, and it appends nothing when no shell bursts. */
  lemma ShellStepExact(st: SimState, bursts: nat -> BurstDraws, ctx: Option<Rasterizer>)
    ensures var moved, kept := Map(st.shells, Advance), ShellStep(st, bursts, ctx).shells;
      var p := KeptPositions(moved, Ascends);
      && |p| == |kept|
      && (forall k :: 0 <= k < |p| ==> p[k] < |moved| && kept[k] == Advance(st.shells[p[k]]))
      && (forall k, l :: 0 <= k < l < |p| ==> p[k] < p[l])
      && (forall j :: 0 <= j < |st.shells| ==> (Ascends(Advance(st.shells[j])) <==> j in p))
    ensures (forall j :: 0 <= j < |st.shells| ==> Ascends(Advance(st.shells[j]))) ==>
      ShellStep(st, bursts, ctx).particles == st.particles
  {
    var moved := Map(st.shells, Advance);
    FilterPositions(moved, Ascends);
    if forall j :: 0 <= j < |st.shells| ==> Ascends(Advance(st.shells[j])) {
      QuietFrame(st.shells, 0, bursts, ctx);
    }
  }

  /** When no shell from index i on bursts, the shell loop appends nothing. */
  lemma {:induction false} QuietFrame(shells: seq<Shell>, i: nat, bursts: nat -> BurstDraws, ctx: Option<Rasterizer>)
    requires i <= |shells|
    requires forall j :: i <= j < |shells| ==> Ascends(Advance(shells[j]))
    decreases |shells| - i
    ensures BurstsFrom(shells, i, bursts, ctx) == []
  {
    if i < |shells| {
      QuietFrame(shells, i + 1, bursts, ctx);
    }
  }

  /** The particle starts at the moved position, in the colour, of a shell at index i or
      later that bursts on this tick. */
  predicate FromBurstingShell(shells: seq<Shell>, i: nat, q: Particle3D) {
    exists j :: i <= j < |shells| && Bursts(Advance(shells[j]))
      && q.pos == Advance(shells[j]).pos && q.hue == ParseHue(shells[j].hue)
  }

  /** Every particle the shell loop appends, from index i on, comes from a shell at index i
      or later that bursts on this tick. */
  lemma {:induction false} BurstsFromOrigin(shells: seq<Shell>, i: nat, bursts: nat -> BurstDraws, ctx: Option<Rasterizer>)
    requires i <= |shells|
    decreases |shells| - i
    ensures forall k :: 0 <= k < |BurstsFrom(shells, i, bursts, ctx)| ==>
      FromBurstingShell(shells, i, BurstsFrom(shells, i, bursts, ctx)[k])
  {
    if i < |shells| {
      var rest := BurstsFrom(shells, i + 1, bursts, ctx);
      var ps := BurstsFrom(shells, i, bursts, ctx);
      BurstsFromOrigin(shells, i + 1, bursts, ctx);
      forall k | 0 <= k < |ps|
        ensures FromBurstingShell(shells, i, ps[k])
      {
        if k < |rest| {
          assert ps[k] == rest[k];
          assert FromBurstingShell(shells, i + 1, rest[k]);
          var j :| i + 1 <= j < |shells| && Bursts(Advance(shells[j]))
            && rest[k].pos == Advance(shells[j]).pos && rest[k].hue == ParseHue(shells[j].hue);
          assert i <= j;
        } else {
          var a := Advance(shells[i]);
          var b := Burst(a, bursts(i), ctx);
          assert Bursts(a) && ps[k] == b[k - |rest|];
          assert b[k - |rest|].pos == a.pos && b[k - |rest|].hue == ParseHue(a.hue);
        }
      }
    }
  }

  /** The batch of a bursting shell j appears, whole and contiguous, in what the loop
      appends from index i <= j on, right after the bursts of the shells behind it. */
  lemma {:induction false} BurstSlice(shells: seq<Shell>, i: nat, j: nat, bursts: nat -> BurstDraws, ctx: Option<Rasterizer>)
    requires i <= j < |shells| && Bursts(Advance(shells[j]))
    decreases j - i
    ensures SliceIs(BurstsFrom(shells, i, bursts, ctx), |BurstsFrom(shells, j + 1, bursts, ctx)|,
      Burst(Advance(shells[j]), bursts(j), ctx))
  {
    var rest := BurstsFrom(shells, i + 1, bursts, ctx);
    var extra := if Bursts(Advance(shells[i])) then Burst(Advance(shells[i]), bursts(i), ctx) else [];
    assert BurstsFrom(shells, i, bursts, ctx) == rest + extra;
    if i < j {
      BurstSlice(shells, i + 1, j, bursts, ctx);
      SliceBefore(rest, extra, |BurstsFrom(shells, j + 1, bursts, ctx)|, Burst(Advance(shells[j]), bursts(j), ctx));
    } else {
      SliceTail(rest, extra);
    }
  }

  /** A bursting shell without a phrase contributes at least 300 sparks to the frame. */
  lemma TextlessBurstCount(shells: seq<Shell>, j: nat, bursts: nat -> BurstDraws, ctx: Option<Rasterizer>)
    requires j < |shells| && Bursts(Advance(shells[j])) && !Truthy(shells[j].text)
    ensures |BurstsFrom(shells, 0, bursts, ctx)| >= OTHER_SPARKS
  {
    BurstSlice(shells, 0, j, bursts, ctx);
  }

  /** The shell pass appends the particles of the shell loop to the existing ones. */
  lemma ShellStepAppends(st: SimState, bursts: nat -> BurstDraws, ctx: Option<Rasterizer>)
    ensures ShellStep(st, bursts, ctx).particles == st.particles + BurstsFrom(st.shells, 0, bursts, ctx)
  {
  }

  /** Every particle the shell pass appends sits at the moved position of a shell that
      bursts on this tick, in that shell's colour. */
  lemma ShellStepOrigin(st: SimState, bursts: nat -> BurstDraws, ctx: Option<Rasterizer>)
    ensures forall k :: |st.particles| <= k < |ShellStep(st, bursts, ctx).particles| ==>
      FromBurstingShell(st.shells, 0, ShellStep(st, bursts, ctx).particles[k])
  {
    var burst := BurstsFrom(st.shells, 0, bursts, ctx);
    var ps := ShellStep(st, bursts, ctx).particles;
    ShellStepAppends(st, bursts, ctx);
    BurstsFromOrigin(st.shells, 0, bursts, ctx);
    forall k | |st.particles| <= k < |ps|
      ensures FromBurstingShell(st.shells, 0, ps[k])
    {
      assert ps[k] == burst[k - |st.particles|];
    }
  }

  /** The shell pass appends the whole batch of every shell j that bursts on this tick,
      contiguously, after the batches of the shells behind it. */
  lemma ShellStepSlice(st: SimState, j: nat, bursts: nat -> BurstDraws, ctx: Option<Rasterizer>)
    requires j < |st.shells| && Bursts(Advance(st.shells[j]))
    ensures SliceIs(ShellStep(st, bursts, ctx).particles, |st.particles| + |BurstsFrom(st.shells, j + 1, bursts, ctx)|,
      Burst(Advance(st.shells[j]), bursts(j), ctx))
  {
    BurstSlice(st.shells, 0, j, bursts, ctx);
    ShellStepAppends(st, bursts, ctx);
    SliceCarried(ShellStep(st, bursts, ctx).particles, st.particles, BurstsFrom(st.shells, 0, bursts, ctx),
      |BurstsFrom(st.shells, j + 1, bursts, ctx)|, Burst(Advance(st.shells[j]), bursts(j), ctx));
  }

  /** The shell survives the next n updates without bursting. */
  predicate Survives(s: Shell, n: nat)
    decreases n
  {
    n == 0 || (Ascends(Advance(s)) && Survives(Advance(s), n - 1))
  }

  /** Gravity ends every ascent: a shell whose vertical speed reaches zero by the n-th tick
      bursts at the latest on that tick, whatever its target. */
  lemma {:induction false} ShellBurnout(s: Shell, n: nat)
    requires n >= 1 && s.vel.y + 0.06 * (n as real) >= 0.0
    decreases n
    ensures !Survives(s, n)
  {
    if n > 1 && Ascends(Advance(s)) {
      ShellBurnout(Advance(s), n - 1);
    }
  }

  /** Every launched shell bursts: a feature or click shell within 467 updates, an ambient shell
      within 534 updates (its vertical speed starts above -32 and gains 0.06 per update). */
  lemma LaunchedShellsBurst(width: nat, height: nat, x: Draw, d: LaunchDraw, r: Rect, clientX: real, i: int)
    requires 0 <= i < |TEXT_WISHES|
    ensures !Survives(FeatureShell(height, i), 467)
    ensures !Survives(ClickShell(r, clientX, d), 467)
    ensures !Survives(AmbientShell(width, height, x, d), 534)
  {
    ShellBurnout(FeatureShell(height, i), 467);
    ShellBurnout(ClickShell(r, clientX, d), 467);
    ShellBurnout(AmbientShell(width, height, x, d), 534);
  }

  // ---------------------------------------------------------------- particles

  /** The two draws of a text particle's twinkle: the 5 % flash test, then its size. */
  datatype TwinkleDraw = TwinkleDraw(flash: Draw, size: Draw)

  /** Air drag and gravity on a particle's velocity: every component shrinks by the factor
      DRAG, then gravity is added to the vertical one. */
  function Drag(v: Vector3): Vector3 {
    Vector3(v.x * DRAG, v.y * DRAG + GRAVITY, v.z * DRAG)
  }

  /** The extra damping of text particles, which brings a glyph to rest faster. */
  function TextDamp(v: Vector3): Vector3 {
    Vector3(v.x * TEXT_DAMPING, v.y * TEXT_DAMPING, v.z * TEXT_DAMPING)
  }

  /** One tick of a particle: move, damp by DRAG, add gravity, damp text particles a further
      10 % and re-draw their size, then fade by the decay rate. */
  function StepParticle(p: Particle3D, t: TwinkleDraw): (q: Particle3D)
    ensures q.pos == Vector3(p.pos.x + p.vel.x, p.pos.y + p.vel.y, p.pos.z + p.vel.z)
    ensures q.alpha == p.alpha - p.decay
    ensures q.decay == p.decay && q.hue == p.hue && q.kind == p.kind && q.life == p.life && q.acc == p.acc
    ensures p.kind == Spark ==> q.size == p.size
    ensures p.kind == Spark ==> q.vel == Drag(p.vel)
    ensures p.kind == TextGlyph ==> q.vel == TextDamp(Drag(p.vel))
    ensures p.kind == TextGlyph ==>
      && 2.0 <= q.size < 8.0
      && (t.flash <= 0.95 ==> q.size < 4.0)
      && (t.flash > 0.95 ==> 3.0 <= q.size)
  {
    var v := Drag(p.vel);
    var moved := p.(pos := Vector3(p.pos.x + p.vel.x, p.pos.y + p.vel.y, p.pos.z + p.vel.z));
    var shaped :=
      if p.kind == TextGlyph then
        moved.(vel := TextDamp(v),
               size := if t.flash > 0.95 then Random(t.size, 3.0, 8.0) else Random(t.size, 2.0, 4.0))
      else moved.(vel := v);
    shaped.(alpha := p.alpha - p.decay)
  }

  /** A particle is kept while some opacity remains. */
  predicate Alive(p: Particle3D) {
    p.alpha > 0.0
  }

  /** What the stage keeps of every particle: visible, never brighter than created, and
      fading at a rate `createExplosion` can choose. */
  predicate Live(p: Particle3D) {
    0.0 < p.alpha <= 1.0 && 0.008 <= p.decay < 0.03
  }

  /** Every particle after one tick, the k-th with the k-th twinkle draw. */
  function Stepped(ps: seq<Particle3D>, tws: nat -> TwinkleDraw): (qs: seq<Particle3D>)
    ensures |qs| == |ps|
    ensures forall k {:trigger qs[k]} :: 0 <= k < |ps| ==> qs[k] == StepParticle(ps[k], tws(k))
  {
    seq(|ps|, k requires 0 <= k < |ps| => StepParticle(ps[k], tws(k)))
  }

  /** The particle pass: every particle steps; those with no opacity left leave the list,
      the others keep their order. Nothing else changes. */
  function ParticleStep(st: SimState, tws: nat -> TwinkleDraw): (st': SimState)
    ensures |st'.particles| <= |st.particles|
    ensures forall k :: 0 <= k < |st'.particles| ==> Alive(st'.particles[k])
    ensures (forall k :: 0 <= k < |st.particles| ==> Live(st.particles[k])) ==>
      forall k :: 0 <= k < |st'.particles| ==> Live(st'.particles[k])
    ensures st'.shells == st.shells && st'.wishIndex == st.wishIndex
    ensures st'.lastMainLaunch == st.lastMainLaunch && st'.lastMiniLaunch == st.lastMiniLaunch
  {
    var kept := Filter(Stepped(st.particles, tws), Alive);
    SteppedKeepsLive(st.particles, tws);
    st.(particles := kept)
  }

  /** A step keeps every surviving particle live. */
  lemma SteppedKeepsLive(ps: seq<Particle3D>, tws: nat -> TwinkleDraw)
    ensures (forall k :: 0 <= k < |ps| ==> Live(ps[k])) ==>
      forall k :: 0 <= k < |Filter(Stepped(ps, tws), Alive)| ==> Live(Filter(Stepped(ps, tws), Alive)[k])
  {
    var stepped := Stepped(ps, tws);
    var kept := Filter(stepped, Alive);
    if forall k :: 0 <= k < |ps| ==> Live(ps[k]) {
      forall k | 0 <= k < |kept|
        ensures Live(kept[k])
      {
        var j :| 0 <= j < |stepped| && stepped[j] == kept[k];
        assert Live(ps[j]);
      }
    }
  }

  /** The particle pass keeps exactly the stepped particles that are still alive, in order. */
  lemma ParticleStepExact(st: SimState, tws: nat -> TwinkleDraw)
    ensures var stepped, kept := Stepped(st.particles, tws), ParticleStep(st, tws).particles;
      var p := KeptPositions(stepped, Alive);
      && |p| == |kept|
      && (forall k :: 0 <= k < |p| ==> p[k] < |st.particles| && kept[k] == StepParticle(st.particles[p[k]], tws(p[k])))
      && (forall k, l :: 0 <= k < l < |p| ==> p[k] < p[l])
      && (forall j :: 0 <= j < |st.particles| ==> (Alive(StepParticle(st.particles[j], tws(j))) <==> j in p))
  {
    FilterPositions(Stepped(st.particles, tws), Alive);
  }

  /** Created particles are live. */
  lemma FreshIsLive(p: Particle3D)
    requires Fresh(p)
    ensures Live(p)
  {
  }

  /** The particle survives the next |tws| updates. */
  predicate Lasts(p: Particle3D, tws: seq<TwinkleDraw>)
    decreases |tws|
  {
    tws == [] || (Alive(StepParticle(p, tws[0])) && Lasts(StepParticle(p, tws[0]), tws[1..]))
  }

  /** A particle whose opacity is at most 0.008 n and that fades by at least 0.008 per tick
      is gone within n ticks. */
  lemma {:induction false} FadesWithin(p: Particle3D, tws: seq<TwinkleDraw>, n: nat)
    requires 1 <= n <= |tws| && p.decay >= 0.008 && p.alpha <= 0.008 * (n as real)
    decreases n
    ensures !Lasts(p, tws)
  {
    var q := StepParticle(p, tws[0]);
    if n > 1 && Alive(q) {
      FadesWithin(q, tws[1..], n - 1);
    }
  }

  /** A particle that fades by less than 0.03 per tick and has opacity above 0.03 n lasts n ticks. */
  lemma {:induction false} LastsAtLeast(p: Particle3D, tws: seq<TwinkleDraw>, n: nat)
    requires |tws| <= n && p.decay < 0.03 && p.alpha > 0.03 * (n as real)
    decreases |tws|
    ensures Lasts(p, tws)
  {
    if tws != [] {
      LastsAtLeast(StepParticle(p, tws[0]), tws[1..], n - 1);
    }
  }

  /** Every live particle is removed within 125 updates (1 / 0.008), and a freshly created one
      is still drawn for its first 33 updates (1 / 0.03 rounded down). */
  lemma ParticleLifetime(p: Particle3D, tws: seq<TwinkleDraw>)
    ensures Live(p) && |tws| >= 125 ==> !Lasts(p, tws)
    ensures Fresh(p) && |tws| <= 33 ==> Lasts(p, tws)
  {
    if Live(p) && |tws| >= 125 {
      FadesWithin(p, tws, 125);
    }
    if Fresh(p) && |tws| <= 33 {
      LastsAtLeast(p, tws, 33);
    }
  }

  /** Every velocity component lies within b. */
  predicate SpeedWithin(p: Particle3D, b: real) {
    Abs(p.vel.x) <= b && Abs(p.vel.y) <= b && Abs(p.vel.z) <= b
  }

  /** Drag keeps particles in check: any speed bound of at least 1.5 (where 4 % drag outweighs
      the gravity of 0.06) is kept by a step. */
  lemma StepKeepsSpeed(p: Particle3D, t: TwinkleDraw, b: real)
    requires b >= 1.5 && SpeedWithin(p, b)
    ensures SpeedWithin(StepParticle(p, t), b)
  {
    var q := StepParticle(p, t);
    var vy := p.vel.y * 0.96 + 0.06;
    assert -b <= vy <= b;
    if p.kind == TextGlyph {
      assert q.vel == Vector3(p.vel.x * 0.96 * 0.9, vy * 0.9, p.vel.z * 0.96 * 0.9);
    } else {
      assert q.vel == Vector3(p.vel.x * 0.96, vy, p.vel.z * 0.96);
    }
  }

  /** ... and so by any number of steps: no spark ever moves faster than 50 per tick. */
  lemma {:induction false} Coast(p: Particle3D, tws: seq<TwinkleDraw>, b: real)
    requires b >= 1.5 && SpeedWithin(p, b)
    decreases |tws|
    ensures SpeedWithin(StepsOf(p, tws), b)
  {
    if tws != [] {
      StepKeepsSpeed(p, tws[0], b);
      Coast(StepParticle(p, tws[0]), tws[1..], b);
    }
  }

  /** The particle after the ticks of tws. */
  function StepsOf(p: Particle3D, tws: seq<TwinkleDraw>): Particle3D
    decreases |tws|
  {
    if tws == [] then p else StepsOf(StepParticle(p, tws[0]), tws[1..])
  }

  /** A spark shot in a unit direction stays below 50 per tick in every component for its whole life. */
  lemma SparkSpeedForever(pos: Vector3, hue: int, kind: ExplosionType, d: SparkDraw, tws: seq<TwinkleDraw>)
    requires Abs(d.dir.x) <= 1.0 && Abs(d.dir.y) <= 1.0 && Abs(d.dir.z) <= 1.0
    ensures SpeedWithin(StepsOf(SparkParticle(pos, hue, kind, d), tws), 50.0)
  {
    SparkSpeedBound(kind, d);
    Coast(SparkParticle(pos, hue, kind, d), tws, 50.0);
  }
}
