/** The particles `createExplosion` appends (components/FireworksStage.tsx:82-138).
    The trigonometry of the sphere sampling is outside the model: each spark receives the unit
    direction (sin phi cos theta, sin phi sin theta, cos phi) of its two angle draws as input. */
module Explosions {
  import opened Support
  import opened FireworksTypes
  import opened Glyphs

  /** The draws of one spark: its direction, then `random(5, 20)`, size and decay. */
  datatype SparkDraw = SparkDraw(dir: Vector3, speed: Draw, size: Draw, decay: Draw)

  /** The draws of one text particle: three velocity jitters, size and decay. */
  datatype GlyphDraw = GlyphDraw(jx: Draw, jy: Draw, jz: Draw, size: Draw, decay: Draw)

  /** Every draw one bursting shell consumes: the ring choice of the update loop, the depth
      jitter of each glyph point, and the per-particle draws, each stream indexed by position. */
  datatype BurstDraws = BurstDraws(
    ring: Draw,
    pointZ: nat -> Draw,
    glyph: nat -> GlyphDraw,
    spark: nat -> SparkDraw)

  const SPHERE_SPARKS := 500
  const OTHER_SPARKS := 300

  /** The text particle created for glyph point p. */
  function GlyphParticle(pos: Vector3, hue: int, p: Vector3, g: GlyphDraw): (q: Particle3D)
    ensures q.pos == pos && q.hue == hue && Fresh(q) && q.kind == TextGlyph
    ensures 0.008 <= q.decay < 0.015 && 2.0 <= q.size < 5.0
    ensures -1.0 <= q.vel.x - p.x * 0.15 < 1.0
    ensures -1.0 <= q.vel.y - p.y * 0.15 < 1.0
    ensures -1.0 <= q.vel.z - p.z * 0.15 < 1.0
  {
    Particle3D(
      pos,
      Vector3(p.x * 0.15 + Random(g.jx, -1.0, 1.0),
              p.y * 0.15 + Random(g.jy, -1.0, 1.0),
              p.z * 0.15 + Random(g.jz, -1.0, 1.0)),
      Vector3(0.0, 0.0, 0.0),
      hue, 1.0, Random(g.size, 2.0, 5.0), Random(g.decay, 0.008, 0.015), 1.0, TextGlyph)
  }

  /** The ring modifier: 2.5 near the equator (|cos phi| < 0.1), 0.1 elsewhere, 1 for a sphere. */
  function RingMod(kind: ExplosionType, dir: Vector3): real {
    if kind == Ring then (if Abs(dir.z) < 0.1 then 2.5 else 0.1) else 1.0
  }

  /** `random(5, 20) * ringMod`. */
  function SparkSpeed(kind: ExplosionType, d: SparkDraw): real {
    Random(d.speed, 5.0, 20.0) * RingMod(kind, d.dir)
  }

  function Scale(s: real, v: Vector3): Vector3 {
    Vector3(s * v.x, s * v.y, s * v.z)
  }

  /** `speed * (sin phi cos theta, sin phi sin theta, cos phi)`. */
  function SparkVelocity(kind: ExplosionType, d: SparkDraw): Vector3 {
    Scale(SparkSpeed(kind, d), d.dir)
  }

  /** The spark created from draw d. */
  function SparkParticle(pos: Vector3, hue: int, kind: ExplosionType, d: SparkDraw): (q: Particle3D)
    ensures q.pos == pos && q.hue == hue && Fresh(q) && q.kind == Spark
    ensures 0.015 <= q.decay < 0.03 && 2.0 <= q.size < 5.0
    ensures q.acc == Vector3(0.0, GRAVITY, 0.0)
    ensures q.vel == Scale(SparkSpeed(kind, d), d.dir)
  {
    Particle3D(
      pos,
      SparkVelocity(kind, d),
      Vector3(0.0, GRAVITY, 0.0),
      hue, 1.0, Random(d.size, 2.0, 5.0), Random(d.decay, 0.015, 0.03), 1.0, Spark)
  }

  predicate IsTextBurst(kind: ExplosionType, text: Option<string>) {
    kind == Text && Truthy(text)
  }

  /** A particle as `createExplosion` creates it: fully opaque, with a positive decay rate. */
  predicate Fresh(p: Particle3D) {
    p.alpha == 1.0 && p.life == 1.0 && 0.008 <= p.decay < 0.03
  }

  /** The batch of particles one call of `createExplosion` appends. */
  function ExplosionBatch(pos: Vector3, hue: int, kind: ExplosionType, text: Option<string>,
                          ctx: Option<Rasterizer>, d: BurstDraws): (batch: seq<Particle3D>)
    ensures IsTextBurst(kind, text) ==>
      && |batch| == |TextPoints(ctx, text.value, d.pointZ)|
      && forall k :: 0 <= k < |batch| ==>
           && batch[k].pos == pos && batch[k].alpha == 1.0 && batch[k].kind == TextGlyph
           && 0.008 <= batch[k].decay < 0.015
           && -1.0 <= batch[k].vel.x - TextPoints(ctx, text.value, d.pointZ)[k].x * 0.15 < 1.0
           && -1.0 <= batch[k].vel.y - TextPoints(ctx, text.value, d.pointZ)[k].y * 0.15 < 1.0
           && -1.0 <= batch[k].vel.z - TextPoints(ctx, text.value, d.pointZ)[k].z * 0.15 < 1.0
    ensures !IsTextBurst(kind, text) ==>
      && |batch| == (if kind == Sphere then SPHERE_SPARKS else OTHER_SPARKS)
      && forall k :: 0 <= k < |batch| ==>
           && batch[k].pos == pos && batch[k].alpha == 1.0 && batch[k].kind == Spark
           && 0.015 <= batch[k].decay < 0.03 && batch[k].acc == Vector3(0.0, GRAVITY, 0.0)
           && batch[k].vel == Scale(SparkSpeed(kind, d.spark(k)), d.spark(k).dir)
    ensures forall k :: 0 <= k < |batch| ==> Fresh(batch[k]) && batch[k].hue == hue
  {
    if IsTextBurst(kind, text) then
      GlyphBatch(pos, hue, TextPoints(ctx, text.value, d.pointZ), d.glyph)
    else
      SparkBatch(pos, hue, kind, if kind == Sphere then SPHERE_SPARKS else OTHER_SPARKS, d.spark)
  }

  /** One text particle per glyph point, the k-th with the k-th draw. */
  function GlyphBatch(pos: Vector3, hue: int, points: seq<Vector3>, g: nat -> GlyphDraw): (batch: seq<Particle3D>)
    ensures |batch| == |points|
    ensures forall k :: 0 <= k < |points| ==> batch[k] == GlyphParticle(pos, hue, points[k], g(k))
  {
    seq(|points|, k requires 0 <= k < |points| => GlyphParticle(pos, hue, points[k], g(k)))
  }

  /** `count` sparks, the k-th with the k-th draw. */
  function SparkBatch(pos: Vector3, hue: int, kind: ExplosionType, count: nat, sp: nat -> SparkDraw)
    : (batch: seq<Particle3D>)
    ensures |batch| == count
    ensures forall k :: 0 <= k < count ==> batch[k] == SparkParticle(pos, hue, kind, sp(k))
  {
    seq(count, k requires 0 <= k < count => SparkParticle(pos, hue, kind, sp(k)))
  }

  /** Every spark velocity component is at most 50 in magnitude: speed below 20 times a ring
      modifier of at most 2.5, along a direction whose components lie in [-1, 1]. */
  lemma SparkSpeedBound(kind: ExplosionType, d: SparkDraw)
    requires Abs(d.dir.x) <= 1.0 && Abs(d.dir.y) <= 1.0 && Abs(d.dir.z) <= 1.0
    ensures var v := SparkVelocity(kind, d);
      Abs(v.x) <= 50.0 && Abs(v.y) <= 50.0 && Abs(v.z) <= 50.0
  {
    SpeedBound(kind, d);
    DirectionBound(SparkSpeed(kind, d), d.dir);
  }

  lemma DirectionBound(s: real, dir: Vector3)
    requires 0.0 < s <= 50.0
    requires Abs(dir.x) <= 1.0 && Abs(dir.y) <= 1.0 && Abs(dir.z) <= 1.0
    ensures Abs(Scale(s, dir).x) <= 50.0 && Abs(Scale(s, dir).y) <= 50.0 && Abs(Scale(s, dir).z) <= 50.0
  {
    ProductBound(s, dir.x);
    ProductBound(s, dir.y);
    ProductBound(s, dir.z);
  }

  /** The speed band of a spark: `random(5, 20)` for a sphere, amplified 2.5 times near a
      ring's equator and damped to a tenth elsewhere on a ring. */
  lemma SpeedBand(kind: ExplosionType, d: SparkDraw)
    ensures kind != Ring ==> 5.0 <= SparkSpeed(kind, d) < 20.0
    ensures kind == Ring && Abs(d.dir.z) < 0.1 ==> 12.5 <= SparkSpeed(kind, d) < 50.0
    ensures kind == Ring && Abs(d.dir.z) >= 0.1 ==> 0.5 <= SparkSpeed(kind, d) < 2.0
  {
    var r := Random(d.speed, 5.0, 20.0);
    assert 5.0 <= r < 20.0;
  }

  /** The speed of a spark lies in (0, 50]. */
  lemma SpeedBound(kind: ExplosionType, d: SparkDraw)
    ensures 0.0 < SparkSpeed(kind, d) <= 50.0
  {
    var m := RingMod(kind, d.dir);
    var r := Random(d.speed, 5.0, 20.0);
    assert 0.0 < m <= 2.5;
    assert 5.0 <= r <= 20.0;
    MulNonNeg(20.0 - r, m);
    MulNonNeg(r, m);
    assert (20.0 - r) * m == 20.0 * m - r * m;
    assert r * m > 0.0 by {
      assert (r - 5.0) * m >= 0.0 by { MulNonNeg(r - 5.0, m); }
      assert (r - 5.0) * m == r * m - 5.0 * m;
    }
  }

  lemma ProductBound(s: real, c: real)
    requires 0.0 < s <= 50.0 && Abs(c) <= 1.0
    ensures Abs(s * c) <= 50.0
  {
    assert -1.0 <= c <= 1.0;
    MulNonNeg(s, 1.0 - c);
    MulNonNeg(s, 1.0 + c);
    var q := s * c;
    assert s * (1.0 - c) == s - q;
    assert s * (1.0 + c) == s + q;
    assert -50.0 <= q <= 50.0;
  }

  lemma MulNonNeg(a: real, b: real)
    requires a >= 0.0 && b >= 0.0
    ensures a * b >= 0.0
  {
  }
}
