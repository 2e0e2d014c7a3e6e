/** Entities and constants of the fireworks stage (components/FireworksStage.tsx).
    Vector3, Shell and Particle3D are defined from how the component uses their fields. */
module FireworksTypes {
  import opened Support

  const GRAVITY: real := 0.06
  const DRAG: real := 0.96
  /** The extra velocity factor applied to text particles every update. */
  const TEXT_DAMPING: real := 0.90

  const TEXT_WISHES: seq<string> :=
    ["孔焕焕", "生日快乐", "永远开心", "光芒万丈", "独一无二", "暴富", "美梦成真", "元气满满"]

  /** The hue of each entry of the base palette (saturation and lightness are drawing-only). */
  const BASE_HUES: seq<int> := [320, 180, 40, 270, 100, 0]

  datatype Vector3 = Vector3(x: real, y: real, z: real)

  /** An ascending shell. `hue` is the number the source keeps as its colour string. */
  datatype Shell = Shell(
    pos: Vector3,
    vel: Vector3,
    targetY: real,
    hue: real,
    text: Option<string>,
    exploded: bool)

  datatype ParticleType = Spark | TextGlyph

  datatype Particle3D = Particle3D(
    pos: Vector3,
    vel: Vector3,
    acc: Vector3,
    hue: int,
    alpha: real,
    size: real,
    decay: real,
    life: real,
    kind: ParticleType)

  datatype ExplosionType = Sphere | Text | Ring

  /** Everything `update` reads and writes: the two live collections and the scheduler refs. */
  datatype SimState = SimState(
    shells: seq<Shell>,
    particles: seq<Particle3D>,
    lastMainLaunch: int,
    lastMiniLaunch: int,
    wishIndex: int)

  /** `random(min, max)`: a draw `u` of `Math.random()` scaled into the range between the two
      bounds. With min > max (the source writes `random(-22, -32)`) the range is (max, min]. */
  function Random(u: Draw, min: real, max: real): (r: real)
    ensures min <= max ==> min <= r <= max
    ensures min < max ==> r < max
    ensures max < min ==> max < r <= min
  {
    ScaleBounds(u, max - min);
    Scaled(u, max - min) + min
  }

  /** JavaScript truthiness of an optional string: present and not empty. */
  predicate Truthy(t: Option<string>) {
    t.Some? && t.value != ""
  }

  /** `parseInt` of the decimal rendering of a non-negative hue: its integer part. */
  function ParseHue(h: real): int {
    h.Floor
  }
}
