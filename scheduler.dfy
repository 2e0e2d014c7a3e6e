/** The two launch timers of `update` (components/FireworksStage.tsx:143-176) and the manual
    launch of `handleClick` (components/FireworksStage.tsx:359-372). The clock `Date.now()` is
    an input in milliseconds. */
module Scheduler {
  import opened Support
  import opened FireworksTypes

  const AMBIENT_INTERVAL := 300
  const FEATURE_INTERVAL := 4000

  /** The draws of one launched shell after its horizontal position:
      depth, the three velocity components, the target height and the hue. */
  datatype LaunchDraw = LaunchDraw(z: Draw, vx: Draw, vy: Draw, vz: Draw, targetY: Draw, hue: Draw)

  /** The canvas bounding rectangle, as `handleClick` reads it. */
  datatype Rect = Rect(width: real, height: real)

  /** A timer whose last firing was at `last` fires at `now` exactly when more than
      `interval` milliseconds have passed. */
  predicate Fires(now: int, last: int, interval: int) {
    now - last > interval
  }

  /** The ambient shell: below the bottom edge at a random horizontal position, rising. */
  function AmbientShell(width: nat, height: nat, x: Draw, d: LaunchDraw): (s: Shell)
    ensures -(width as real) / 1.5 <= s.pos.x <= (width as real) / 1.5
    ensures s.pos.y == height as real + 50.0 && -400.0 <= s.pos.z < 400.0
    ensures -2.0 <= s.vel.x < 2.0 && -32.0 < s.vel.y <= -22.0 && -2.0 <= s.vel.z < 2.0
    ensures -400.0 <= s.targetY < -100.0 && 0.0 <= s.hue < 360.0
    ensures s.text == None && !s.exploded
  {
    var w := width as real;
    Shell(
      Vector3(Random(x, -w / 1.5, w / 1.5), height as real + 50.0, Random(d.z, -400.0, 400.0)),
      Vector3(Random(d.vx, -2.0, 2.0), Random(d.vy, -22.0, -32.0), Random(d.vz, -2.0, 2.0)),
      Random(d.targetY, -400.0, -100.0),
      Random(d.hue, 0.0, 360.0),
      None,
      false)
  }

  /** The feature shell for phrase index i: centred, rising at 28 per tick, carrying
      `TEXT_WISHES[i]` in the palette hue `BASE_COLORS[i mod 6]`. */
  function FeatureShell(height: nat, i: int): (s: Shell)
    requires 0 <= i < |TEXT_WISHES|
    ensures s.text == Some(TEXT_WISHES[i]) && Truthy(s.text)
    ensures s.hue == BASE_HUES[i % |BASE_HUES|] as real
    ensures s.pos == Vector3(0.0, height as real + 100.0, 0.0) && s.vel == Vector3(0.0, -28.0, 0.0)
    ensures s.targetY == -200.0 && !s.exploded
  {
    Shell(
      Vector3(0.0, height as real + 100.0, 0.0),
      Vector3(0.0, -28.0, 0.0),
      -200.0,
      BASE_HUES[i % |BASE_HUES|] as real,
      Some(TEXT_WISHES[i]),
      false)
  }

  /** The shell a click at `clientX` launches, horizontally exaggerated away from the centre. */
  function ClickShell(rect: Rect, clientX: real, d: LaunchDraw): (s: Shell)
    ensures s.pos.x == (clientX - rect.width / 2.0) * 2.0 && s.pos.y == rect.height
    ensures -200.0 <= s.pos.z < 200.0
    ensures -2.0 <= s.vel.x < 2.0 && -28.0 < s.vel.y <= -22.0 && -2.0 <= s.vel.z < 2.0
    ensures -400.0 <= s.targetY < -200.0 && 0.0 <= s.hue < 360.0
    ensures s.text == None && !s.exploded
  {
    Shell(
      Vector3((clientX - rect.width / 2.0) * 2.0, rect.height, Random(d.z, -200.0, 200.0)),
      Vector3(Random(d.vx, -2.0, 2.0), Random(d.vy, -22.0, -28.0), Random(d.vz, -2.0, 2.0)),
      Random(d.targetY, -400.0, -200.0),
      Random(d.hue, 0.0, 360.0),
      None,
      false)
  }

  /** The phrase index after a feature launch. */
  function NextWish(i: int): (j: int)
    ensures 0 <= j < |TEXT_WISHES|
    ensures 0 <= i < |TEXT_WISHES| ==> j == (if i == |TEXT_WISHES| - 1 then 0 else i + 1)
  {
    (i + 1) % |TEXT_WISHES|
  }

  /** Scheduler 1: the ambient timer. */
  function AmbientStep(st: SimState, now: int, width: nat, height: nat, x: Draw, d: LaunchDraw): (st': SimState)
    ensures Fires(now, st.lastMiniLaunch, AMBIENT_INTERVAL) ==>
      st' == st.(lastMiniLaunch := now, shells := st.shells + [AmbientShell(width, height, x, d)])
    ensures !Fires(now, st.lastMiniLaunch, AMBIENT_INTERVAL) ==> st' == st
  {
    if now - st.lastMiniLaunch > 300 then
      st.(lastMiniLaunch := now, shells := st.shells + [AmbientShell(width, height, x, d)])
    else st
  }

  /** Scheduler 2: the feature timer, which also advances the phrase index. */
  function FeatureStep(st: SimState, now: int, height: nat): (st': SimState)
    requires 0 <= st.wishIndex < |TEXT_WISHES|
    ensures 0 <= st'.wishIndex < |TEXT_WISHES|
    ensures Fires(now, st.lastMainLaunch, FEATURE_INTERVAL) ==>
      && st'.lastMainLaunch == now && st'.wishIndex == NextWish(st.wishIndex)
      && st'.shells == st.shells + [FeatureShell(height, st.wishIndex)]
      && st'.particles == st.particles && st'.lastMiniLaunch == st.lastMiniLaunch
    ensures !Fires(now, st.lastMainLaunch, FEATURE_INTERVAL) ==> st' == st
  {
    if now - st.lastMainLaunch > 4000 then
      var i := st.wishIndex;
      st.(lastMainLaunch := now, wishIndex := (i + 1) % |TEXT_WISHES|,
          shells := st.shells + [FeatureShell(height, i)])
    else st
  }

  /** The times at which a timer last fired at `last` fires over a run of clock readings. */
  function FireTimes(last: int, nows: seq<int>, interval: int): seq<int>
    decreases |nows|
  {
    if nows == [] then []
    else if Fires(nows[0], last, interval) then [nows[0]] + FireTimes(nows[0], nows[1..], interval)
    else FireTimes(last, nows[1..], interval)
  }

  /** Whatever the clock does, consecutive firings of a timer are more than its interval
      apart, and the first comes more than an interval after the previous one. */
  lemma {:induction false} FiringsSpaced(last: int, nows: seq<int>, interval: int)
    decreases |nows|
    ensures var t := FireTimes(last, nows, interval);
      && (|t| > 0 ==> t[0] - last > interval)
      && forall k :: 0 <= k < |t| - 1 ==> t[k + 1] - t[k] > interval
  {
    if nows != [] {
      FiringsSpaced(if Fires(nows[0], last, interval) then nows[0] else last, nows[1..], interval);
    }
  }

  /** The shells the feature timer launches over a run of clock readings, the canvas
      height of each reading alongside. */
  function FeatureLaunches(last: int, i: int, nows: seq<int>, heights: seq<nat>): seq<Shell>
    requires 0 <= i < |TEXT_WISHES| && |heights| == |nows|
    decreases |nows|
  {
    if nows == [] then []
    else if Fires(nows[0], last, FEATURE_INTERVAL) then
      [FeatureShell(heights[0], i)] + FeatureLaunches(nows[0], NextWish(i), nows[1..], heights[1..])
    else FeatureLaunches(last, i, nows[1..], heights[1..])
  }

  /** The k-th shell of `l` carries phrase `(i + k) mod 8` in palette hue `((i + k) mod 8) mod 6`. */
  predicate PhraseCycle(l: seq<Shell>, i: int) {
    forall k :: 0 <= k < |l| ==>
      && l[k].text == Some(TEXT_WISHES[(i + k) % 8])
      && l[k].hue == BASE_HUES[((i + k) % 8) % 6] as real
  }

  /** Feature launches happen exactly at the timer's firings, and the k-th carries phrase
      `(i + k) mod 8` in palette hue `((i + k) mod 8) mod 6`: the index moves by one per firing. */
  lemma {:induction false} FeatureCycle(last: int, i: int, nows: seq<int>, heights: seq<nat>)
    requires 0 <= i < |TEXT_WISHES| && |heights| == |nows|
    decreases |nows|
    ensures |FeatureLaunches(last, i, nows, heights)| == |FireTimes(last, nows, FEATURE_INTERVAL)|
    ensures PhraseCycle(FeatureLaunches(last, i, nows, heights), i)
  {
    if nows != [] {
      if Fires(nows[0], last, FEATURE_INTERVAL) {
        var j := NextWish(i);
        FeatureCycle(nows[0], j, nows[1..], heights[1..]);
        var rest := FeatureLaunches(nows[0], j, nows[1..], heights[1..]);
        assert FeatureLaunches(last, i, nows, heights) == [FeatureShell(heights[0], i)] + rest;
        CycleCons(FeatureShell(heights[0], i), rest, i);
      } else {
        FeatureCycle(last, i, nows[1..], heights[1..]);
      }
    }
  }

  /** A shell with phrase i in front of a cycle that starts at the next phrase. */
  lemma CycleCons(s: Shell, rest: seq<Shell>, i: int)
    requires 0 <= i < |TEXT_WISHES| && s.text == Some(TEXT_WISHES[i]) && s.hue == BASE_HUES[i % 6] as real
    requires PhraseCycle(rest, NextWish(i))
    ensures PhraseCycle([s] + rest, i)
  {
    var all := [s] + rest;
    forall k | 0 <= k < |all|
      ensures all[k].text == Some(TEXT_WISHES[(i + k) % 8])
      ensures all[k].hue == BASE_HUES[((i + k) % 8) % 6] as real
    {
      if k == 0 {
        assert (i + k) % 8 == i;
      } else {
        CycleAt(rest, i, k);
        assert all[k] == rest[k - 1];
      }
    }
  }

  /** In a cycle that starts at the phrase after i, the shell before position k carries
      phrase `(i + k) mod 8`. */
  lemma CycleAt(rest: seq<Shell>, i: int, k: int)
    requires 0 <= i < |TEXT_WISHES| && 1 <= k <= |rest| && PhraseCycle(rest, NextWish(i))
    ensures rest[k - 1].text == Some(TEXT_WISHES[(i + k) % 8])
    ensures rest[k - 1].hue == BASE_HUES[((i + k) % 8) % 6] as real
  {
    var m := (NextWish(i) + (k - 1)) % 8;
    assert rest[k - 1].text == Some(TEXT_WISHES[m]) && rest[k - 1].hue == BASE_HUES[m % 6] as real;
    WishStep(i, k);
  }

  /** Advancing the phrase index once and then k - 1 more times is advancing it k times. */
  lemma WishStep(i: int, k: int)
    requires 0 <= i < 8 && k >= 1
    ensures (NextWish(i) + (k - 1)) % 8 == (i + k) % 8
  {
    if i == 7 {
      assert NextWish(i) + (k - 1) == (i + k) - 8;
    } else {
      assert NextWish(i) + (k - 1) == i + k;
    }
  }
}
