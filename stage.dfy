/** The FireworksStage component (components/FireworksStage.tsx): the two refs holding the live
    shells and particles and the three scheduler refs become the fields of a `Stage` object, and
    `update`, `createExplosion` and `handleClick` its methods, with the same loops (both
    retain loops run backwards and splice in place). The off-screen text canvas is a constant
    of the object, absent when the browser gave no 2D context. */
module Stage {
  import opened Support
  import opened FireworksTypes
  import opened Glyphs
  import opened Explosions
  import opened Scheduler
  import opened Integrator
  import opened Render

  /** What holds between frames: the phrase index is in range and every particle is live. */
  predicate Inv(st: SimState) {
    && 0 <= st.wishIndex < |TEXT_WISHES|
    && (forall k :: 0 <= k < |st.particles| ==> Live(st.particles[k]))
  }

  /** Everything one call of `update` receives from outside: the clock, the canvas size, and
      the random draws of its two launches, its bursts and its twinkles. */
  datatype FrameInput = FrameInput(
    now: int,
    width: nat,
    height: nat,
    ambientX: Draw,
    ambient: LaunchDraw,
    bursts: nat -> BurstDraws,
    twinkles: nat -> TwinkleDraw)

  /** One frame: ambient timer, feature timer, shell pass, particle pass, in this order. */
  function UpdateSpec(st: SimState, f: FrameInput, ctx: Option<Rasterizer>): (st': SimState)
    requires Inv(st)
    ensures Inv(st')
  {
    var a := AmbientStep(st, f.now, f.width, f.height, f.ambientX, f.ambient);
    var b := FeatureStep(a, f.now, f.height);
    var c := ShellStep(b, f.bursts, ctx);
    ShellStepKeepsInv(b, f.bursts, ctx);
    ParticleStep(c, f.twinkles)
  }

  lemma ShellStepKeepsInv(st: SimState, bursts: nat -> BurstDraws, ctx: Option<Rasterizer>)
    requires Inv(st)
    ensures Inv(ShellStep(st, bursts, ctx))
  {
    var st' := ShellStep(st, bursts, ctx);
    forall k | 0 <= k < |st'.particles|
      ensures Live(st'.particles[k])
    {
      if k < |st.particles| {
        assert st'.particles[k] == st'.particles[..|st.particles|][k];
      } else {
        FreshIsLive(st'.particles[k]);
      }
    }
  }

  /** Over any run of frames the stage keeps its invariant, and the feature timer's phrase
      index never leaves the phrase list. */
  function Run(st: SimState, fs: seq<FrameInput>, ctx: Option<Rasterizer>): (st': SimState)
    requires Inv(st)
    decreases |fs|
    ensures Inv(st')
  {
    if fs == [] then st else Run(UpdateSpec(st, fs[0], ctx), fs[1..], ctx)
  }

  /** The clock readings of a run of frames. */
  function Clock(fs: seq<FrameInput>): (ts: seq<int>)
    ensures |ts| == |fs| && forall k :: 0 <= k < |fs| ==> ts[k] == fs[k].now
  {
    seq(|fs|, k requires 0 <= k < |fs| => fs[k].now)
  }

  /** The canvas heights of a run of frames. */
  function Heights(fs: seq<FrameInput>): (hs: seq<nat>)
    ensures |hs| == |fs| && forall k :: 0 <= k < |fs| ==> hs[k] == fs[k].height
  {
    seq(|fs|, k requires 0 <= k < |fs| => fs[k].height)
  }

  /** The clock readings of the frames of a run in which the ambient timer launched a shell. */
  function AmbientLaunchTimes(st: SimState, fs: seq<FrameInput>, ctx: Option<Rasterizer>): seq<int>
    requires Inv(st)
    decreases |fs|
  {
    if fs == [] then []
    else
      var f := fs[0];
      var a := AmbientStep(st, f.now, f.width, f.height, f.ambientX, f.ambient);
      (if |a.shells| > |st.shells| then [f.now] else []) + AmbientLaunchTimes(UpdateSpec(st, f, ctx), fs[1..], ctx)
  }

  /** The shells the feature timer added to the list over a run, in launch order. */
  function FeatureLaunched(st: SimState, fs: seq<FrameInput>, ctx: Option<Rasterizer>): seq<Shell>
    requires Inv(st)
    decreases |fs|
  {
    if fs == [] then []
    else
      var f := fs[0];
      var a := AmbientStep(st, f.now, f.width, f.height, f.ambientX, f.ambient);
      var b := FeatureStep(a, f.now, f.height);
      b.shells[|a.shells|..] + FeatureLaunched(UpdateSpec(st, f, ctx), fs[1..], ctx)
  }

  /** What one frame does to the two timers and the phrase index: each timer moves to the
      frame's clock reading exactly when it fires, and the index advances with the feature timer. */
  lemma FrameTimers(st: SimState, f: FrameInput, ctx: Option<Rasterizer>)
    requires Inv(st)
    ensures var st' := UpdateSpec(st, f, ctx);
      && st'.lastMiniLaunch == (if Fires(f.now, st.lastMiniLaunch, AMBIENT_INTERVAL) then f.now else st.lastMiniLaunch)
      && st'.lastMainLaunch == (if Fires(f.now, st.lastMainLaunch, FEATURE_INTERVAL) then f.now else st.lastMainLaunch)
      && st'.wishIndex == (if Fires(f.now, st.lastMainLaunch, FEATURE_INTERVAL) then NextWish(st.wishIndex) else st.wishIndex)
  {
  }

  /** The clock readings and heights of a run, split at its first frame. */
  lemma ClockTail(fs: seq<FrameInput>)
    requires fs != []
    ensures Clock(fs)[0] == fs[0].now && Clock(fs)[1..] == Clock(fs[1..])
    ensures Heights(fs)[0] == fs[0].height && Heights(fs)[1..] == Heights(fs[1..])
  {
    assert Clock(fs)[1..] == Clock(fs[1..]);
    assert Heights(fs)[1..] == Heights(fs[1..]);
  }

  /** What the two timers add to the shell list in one frame: an ambient shell exactly when
      the ambient timer fires, and then the phrase shell of the current index exactly when
      the feature timer fires. */
  lemma FrameLaunches(st: SimState, f: FrameInput)
    requires Inv(st)
    ensures var a := AmbientStep(st, f.now, f.width, f.height, f.ambientX, f.ambient);
      && (|a.shells| > |st.shells| <==> Fires(f.now, st.lastMiniLaunch, AMBIENT_INTERVAL))
      && FeatureStep(a, f.now, f.height).shells[|a.shells|..]
         == (if Fires(f.now, st.lastMainLaunch, FEATURE_INTERVAL) then [FeatureShell(f.height, st.wishIndex)] else [])
  {
    var a := AmbientStep(st, f.now, f.width, f.height, f.ambientX, f.ambient);
    var b := FeatureStep(a, f.now, f.height);
    assert a.lastMainLaunch == st.lastMainLaunch && a.wishIndex == st.wishIndex;
    if Fires(f.now, st.lastMainLaunch, FEATURE_INTERVAL) {
      assert b.shells == a.shells + [FeatureShell(f.height, st.wishIndex)];
    }
  }

  /** The bridge from the update loop to the ambient timer's trace: the frames of `Run` that
      launch an ambient shell are exactly the firings of a 300 ms timer over the run's clock. */
  lemma {:induction false} AmbientTimesMatch(st: SimState, fs: seq<FrameInput>, ctx: Option<Rasterizer>)
    requires Inv(st)
    decreases |fs|
    ensures AmbientLaunchTimes(st, fs, ctx) == FireTimes(st.lastMiniLaunch, Clock(fs), AMBIENT_INTERVAL)
  {
    if fs != [] {
      var f := fs[0];
      FrameTimers(st, f, ctx);
      FrameLaunches(st, f);
      ClockTail(fs);
      AmbientTimesMatch(UpdateSpec(st, f, ctx), fs[1..], ctx);
    }
  }

  /** Ambient launches of the update loop are more than 300 ms apart, and the first comes
      more than 300 ms after the timer's previous firing. */
  lemma RunAmbientSpaced(st: SimState, fs: seq<FrameInput>, ctx: Option<Rasterizer>)
    requires Inv(st)
    ensures var t := AmbientLaunchTimes(st, fs, ctx);
      && (|t| > 0 ==> t[0] - st.lastMiniLaunch > AMBIENT_INTERVAL)
      && forall k :: 0 <= k < |t| - 1 ==> t[k + 1] - t[k] > AMBIENT_INTERVAL
  {
    AmbientTimesMatch(st, fs, ctx);
    FiringsSpaced(st.lastMiniLaunch, Clock(fs), AMBIENT_INTERVAL);
  }

  /** The bridge from the update loop to the feature timer's trace: the shells `Run` adds
      through the feature timer are exactly `FeatureLaunches` over the run's clock and heights. */
  lemma {:induction false} FeatureLaunchesMatch(st: SimState, fs: seq<FrameInput>, ctx: Option<Rasterizer>)
    requires Inv(st)
    decreases |fs|
    ensures FeatureLaunched(st, fs, ctx) == FeatureLaunches(st.lastMainLaunch, st.wishIndex, Clock(fs), Heights(fs))
  {
    if fs != [] {
      var f := fs[0];
      FrameTimers(st, f, ctx);
      FrameLaunches(st, f);
      ClockTail(fs);
      FeatureLaunchesMatch(UpdateSpec(st, f, ctx), fs[1..], ctx);
    }
  }

  /** The update loop launches one phrase shell per firing of the feature timer, and the
      k-th carries phrase `(i + k) mod 8` in palette hue `((i + k) mod 8) mod 6`. */
  lemma RunFeatureCycle(st: SimState, fs: seq<FrameInput>, ctx: Option<Rasterizer>)
    requires Inv(st)
    ensures |FeatureLaunched(st, fs, ctx)| == |FireTimes(st.lastMainLaunch, Clock(fs), FEATURE_INTERVAL)|
    ensures PhraseCycle(FeatureLaunched(st, fs, ctx), st.wishIndex)
  {
    FeatureLaunchesMatch(st, fs, ctx);
    FeatureCycle(st.lastMainLaunch, st.wishIndex, Clock(fs), Heights(fs));
  }


  class Stage {
    var shells: seq<Shell>
    var particles: seq<Particle3D>
    var lastMainLaunch: int
    var lastMiniLaunch: int
    var wishIndex: int
    /** The 1000 x 300 off-screen context used by the glyph sampler. */
    const textCtx: Option<Rasterizer>

    function State(): SimState
      reads this
    {
      SimState(shells, particles, lastMainLaunch, lastMiniLaunch, wishIndex)
    }

    predicate Valid()
      reads this
    {
      Inv(State())
    }

    /** A stage with nothing in flight and both timers and the phrase index at zero. */
    constructor(ctx: Option<Rasterizer>)
      ensures Valid()
      ensures State() == SimState([], [], 0, 0, 0) && textCtx == ctx
    {
      shells := [];
      particles := [];
      lastMainLaunch := 0;
      lastMiniLaunch := 0;
      wishIndex := 0;
      textCtx := ctx;
    }

    /** `createExplosion`: append one burst's particles. */
    method CreateExplosion(pos: Vector3, hue: int, kind: ExplosionType, text: Option<string>, d: BurstDraws)
      modifies this
      ensures particles == old(particles) + ExplosionBatch(pos, hue, kind, text, textCtx, d)
      ensures shells == old(shells) && lastMainLaunch == old(lastMainLaunch)
      ensures lastMiniLaunch == old(lastMiniLaunch) && wishIndex == old(wishIndex)
    {
      if kind == Text && Truthy(text) {
        var points := GetTextPoints(textCtx, text.value, d.pointZ);
        PushGlyphs(pos, hue, points, d.glyph);
      } else {
        PushSparks(pos, hue, kind, if kind == Sphere then 500 else 300, d.spark);
      }
    }

    /** The text branch of `createExplosion`: one particle per glyph point, pushed in order. */
    method PushGlyphs(pos: Vector3, hue: int, points: seq<Vector3>, g: nat -> GlyphDraw)
      modifies this
      ensures particles == old(particles) + GlyphBatch(pos, hue, points, g)
      ensures shells == old(shells) && lastMainLaunch == old(lastMainLaunch)
      ensures lastMiniLaunch == old(lastMiniLaunch) && wishIndex == old(wishIndex)
    {
      ghost var before := particles;
      var k := 0;
      while k < |points|
        invariant 0 <= k <= |points|
        invariant particles == before + GlyphBatch(pos, hue, points, g)[..k]
        invariant shells == old(shells) && lastMainLaunch == old(lastMainLaunch)
        invariant lastMiniLaunch == old(lastMiniLaunch) && wishIndex == old(wishIndex)
      {
        assert GlyphBatch(pos, hue, points, g)[..k + 1]
            == GlyphBatch(pos, hue, points, g)[..k] + [GlyphParticle(pos, hue, points[k], g(k))];
        particles := particles + [GlyphParticle(pos, hue, points[k], g(k))];
        k := k + 1;
      }
      assert GlyphBatch(pos, hue, points, g)[..k] == GlyphBatch(pos, hue, points, g);
    }

    /** The firework branch of `createExplosion`: `count` sparks, pushed in order. */
    method PushSparks(pos: Vector3, hue: int, kind: ExplosionType, count: nat, sp: nat -> SparkDraw)
      modifies this
      ensures particles == old(particles) + SparkBatch(pos, hue, kind, count, sp)
      ensures shells == old(shells) && lastMainLaunch == old(lastMainLaunch)
      ensures lastMiniLaunch == old(lastMiniLaunch) && wishIndex == old(wishIndex)
    {
      ghost var before := particles;
      var k := 0;
      while k < count
        invariant 0 <= k <= count
        invariant particles == before + SparkBatch(pos, hue, kind, count, sp)[..k]
        invariant shells == old(shells) && lastMainLaunch == old(lastMainLaunch)
        invariant lastMiniLaunch == old(lastMiniLaunch) && wishIndex == old(wishIndex)
      {
        assert SparkBatch(pos, hue, kind, count, sp)[..k + 1]
            == SparkBatch(pos, hue, kind, count, sp)[..k] + [SparkParticle(pos, hue, kind, sp(k))];
        particles := particles + [SparkParticle(pos, hue, kind, sp(k))];
        k := k + 1;
      }
      assert SparkBatch(pos, hue, kind, count, sp)[..k] == SparkBatch(pos, hue, kind, count, sp);
    }

    /** The shell loop of `update`: from the last shell to the first, move it, and if it
        bursts, explode it and splice it out. */
    method UpdateShells(bursts: nat -> BurstDraws)
      modifies this
      ensures State() == ShellStep(old(State()), bursts, textCtx)
    {
      ghost var orig := shells;
      ghost var moved := Map(orig, Advance);
      ghost var before := particles;
      var i := |shells| - 1;
      while i >= 0
        invariant -1 <= i < |orig| && |shells| > i
        invariant shells[..i + 1] == orig[..i + 1] && shells[i + 1..] == Filter(moved[i + 1..], Ascends)
        invariant particles == before + BurstsFrom(orig, i + 1, bursts, textCtx)
        invariant lastMainLaunch == old(lastMainLaunch) && lastMiniLaunch == old(lastMiniLaunch)
        invariant wishIndex == old(wishIndex)
      {
        RetainStep(orig, moved, i, shells, Ascends);
        var shell := Advance(shells[i]);
        assert moved[i] == shell;
        if shell.vel.y >= 0.0 || shell.pos.y < shell.targetY {
          ExplodeShell(shell, before, orig, i, bursts);
          shells := shells[..i] + shells[i + 1..];
        } else {
          QuietShell(orig, i, bursts, textCtx);
          shells := shells[..i] + [shell] + shells[i + 1..];
        }
        i := i - 1;
      }
      RetainDone(moved, shells, Ascends);
    }

    /** The burst branch of the shell loop: shell i, moved, explodes at its position in the
        colour of its hue, with the type its phrase and its draw decide. */
    method ExplodeShell(shell: Shell, ghost before: seq<Particle3D>, ghost orig: seq<Shell>, i: nat, bursts: nat -> BurstDraws)
      requires i < |orig| && shell == Advance(orig[i]) && Bursts(shell)
      requires particles == before + BurstsFrom(orig, i + 1, bursts, textCtx)
      modifies this
      ensures particles == before + BurstsFrom(orig, i, bursts, textCtx)
      ensures shells == old(shells) && lastMainLaunch == old(lastMainLaunch)
      ensures lastMiniLaunch == old(lastMiniLaunch) && wishIndex == old(wishIndex)
    {
      var kind := if Truthy(shell.text) then Text else if bursts(i).ring > 0.7 then Ring else Sphere;
      ghost var batch := ExplosionBatch(shell.pos, ParseHue(shell.hue), kind, shell.text, textCtx, bursts(i));
      ghost var done := particles;
      CreateExplosion(shell.pos, ParseHue(shell.hue), kind, shell.text, bursts(i));
      assert batch == Burst(shell, bursts(i), textCtx);
      AppendBurst(before, orig, i, bursts, textCtx, done, batch);
    }

    /** A shell that does not burst adds nothing to what the shell loop appends. */
    static lemma QuietShell(orig: seq<Shell>, i: nat, bursts: nat -> BurstDraws, ctx: Option<Rasterizer>)
      requires i < |orig| && Ascends(Advance(orig[i]))
      ensures BurstsFrom(orig, i, bursts, ctx) == BurstsFrom(orig, i + 1, bursts, ctx)
    {
    }

    /** The bookkeeping of one burst in the shell loop: appending the batch of shell i to
        what the later shells produced gives what shells i onwards produce. */
    static lemma AppendBurst(before: seq<Particle3D>, orig: seq<Shell>, i: nat, bursts: nat -> BurstDraws,
                             ctx: Option<Rasterizer>, done: seq<Particle3D>, batch: seq<Particle3D>)
      requires i < |orig| && done == before + BurstsFrom(orig, i + 1, bursts, ctx)
      requires Bursts(Advance(orig[i]))
      requires batch == Burst(Advance(orig[i]), bursts(i), ctx)
      ensures done + batch == before + BurstsFrom(orig, i, bursts, ctx)
    {
      var x := BurstsFrom(orig, i + 1, bursts, ctx);
      assert BurstsFrom(orig, i, bursts, ctx) == x + batch;
      assert (before + x) + batch == before + (x + batch);
    }

    /** The particle loop of `update`: from the last particle to the first, step it, and splice
        it out once its opacity is gone. */
    method UpdateParticles(tws: nat -> TwinkleDraw)
      modifies this
      ensures State() == ParticleStep(old(State()), tws)
    {
      ghost var orig := particles;
      ghost var stepped := Stepped(orig, tws);
      var i := |particles| - 1;
      while i >= 0
        invariant -1 <= i < |orig| && |particles| > i
        invariant particles[..i + 1] == orig[..i + 1] && particles[i + 1..] == Filter(stepped[i + 1..], Alive)
        invariant shells == old(shells) && lastMainLaunch == old(lastMainLaunch)
        invariant lastMiniLaunch == old(lastMiniLaunch) && wishIndex == old(wishIndex)
      {
        RetainStep(orig, stepped, i, particles, Alive);
        var p := StepParticle(particles[i], tws(i));
        assert stepped[i] == p;
        if p.alpha <= 0.0 {
          particles := particles[..i] + particles[i + 1..];
        } else {
          particles := particles[..i] + [p] + particles[i + 1..];
        }
        i := i - 1;
      }
      RetainDone(stepped, particles, Alive);
    }

    /** The two schedulers at the top of `update`: an ambient shell every 300 ms and the
        next phrase shell every 4000 ms. */
    method Launch(f: FrameInput)
      requires 0 <= wishIndex < |TEXT_WISHES|
      modifies this
      ensures State() == FeatureStep(AmbientStep(old(State()), f.now, f.width, f.height, f.ambientX, f.ambient), f.now, f.height)
    {
      if f.now - lastMiniLaunch > 300 {
        lastMiniLaunch := f.now;
        shells := shells + [AmbientShell(f.width, f.height, f.ambientX, f.ambient)];
      }
      if f.now - lastMainLaunch > 4000 {
        lastMainLaunch := f.now;
        var idx := wishIndex;
        wishIndex := (wishIndex + 1) % |TEXT_WISHES|;
        shells := shells + [FeatureShell(f.height, idx)];
      }
    }

    /** `update`: both schedulers, then the shell pass and the particle pass. */
    method Update(f: FrameInput)
      requires Valid()
      modifies this
      ensures Valid()
      ensures State() == UpdateSpec(old(State()), f, textCtx)
    {
      Launch(f);
      UpdateShells(f.bursts);
      UpdateParticles(f.twinkles);
    }

    /** `handleClick`: without a canvas rectangle nothing happens; otherwise one shell is
        launched from the bottom edge under the pointer. */
    method HandleClick(rect: Option<Rect>, clientX: real, d: LaunchDraw)
      requires Valid()
      modifies this
      ensures Valid()
      ensures rect.None? ==> State() == old(State())
      ensures rect.Some? ==> State() == old(State()).(shells := old(shells) + [ClickShell(rect.value, clientX, d)])
    {
      if rect.None? {
        return;
      }
      shells := shells + [ClickShell(rect.value, clientX, d)];
    }

    /** The render list `draw` paints: every shell and visible particle, back to front, with
        entries of equal depth in the order they were listed. */
    method RenderList(project: Projector) returns (list: seq<RenderItem>)
      ensures multiset(list) == multiset(RenderEntries(shells, particles, project))
      ensures DepthOrdered(list)
      ensures forall d :: AtDepth(list, d) == AtDepth(RenderEntries(shells, particles, project), d)
    {
      var entries := BuildRenderList(shells, particles, project);
      list := SortByDepth(entries);
      forall d: real
        ensures AtDepth(list, d) == AtDepth(entries, d)
      {
        SortStable(entries, d);
      }
    }
  }
}
