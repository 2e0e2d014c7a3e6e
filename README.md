# Fireworks stage, confetti overlay and result-gallery archive — a Dafny model

The repository is a browser app. It shows a 3D fireworks stage that spells birthday wishes in
particles, a confetti overlay, and a gallery of generated try-on images that can be downloaded
as one archive. This project models the bookkeeping behind these three components and proves
what it guarantees. Rendering is not modelled.

- **Fireworks stage** (`components/FireworksStage.tsx`).
  - The glyph sampler turns a rendered RGBA bitmap into 3D points.
  - The explosion generator turns a bursting shell into glyph particles or 500/300 sparks.
  - Each frame runs two launch timers: an ambient shell every 300 ms, and a phrase shell every
    4000 ms with a cyclic phrase index. The timer properties are proved over any sequence of
    clock readings, and bridge lemmas in `Stage` connect them to the frames of `Stage.Run`.
  - The shell pass moves shells and explodes them, and the particle pass moves, damps and fades
    particles. Both are backward loops that remove elements with `splice`.
  - The render list keeps every shell and the visible particles, then sorts them far first.
  - `handleClick` launches one shell.
  - The stage is a class `Stage.Stage` whose fields are the component's refs. Its methods run the
    same loops, and each is proved equal to a specification function (`ShellStep`,
    `ParticleStep`, `UpdateSpec`, …). The properties are lemmas about those functions.
- **Confetti** (`components/Confetti.tsx`). The particle pool is the class
  `Confetti.ConfettiCanvas`. Its methods are:
  - the initial burst of 80;
  - spawning, which adds 4 particles plus a possible glitch particle while the pool holds fewer
    than 250;
  - the forward update loop, which removes with `splice(i, 1); i--`.

  It is proved that the pool never exceeds 254 particles and that every particle is gone after
  200 updates.
- **Result gallery** (`components/ResultGallery.tsx`). The "Download All" action:
  - selects the results whose image URL is truthy;
  - names each entry with a whitespace-to-dash, lower-cased slug of its angle;
  - takes the payload from between the first two commas of the data URL;
  - produces an archive only when something was added.

  `hasAnyResult` decides whether the button is shown.

How the inputs are modelled:
- Every `Math.random()` draw is an input of type `Support.Draw`, a real in [0, 1). The draws of
  one consumer are grouped in a datatype, and draws made per loop position are streams
  `nat -> …`.
- `Date.now()` is an integer input.
- The bitmap produced by `fillText` is an input `Glyphs.Bitmap`, which has 1 200 000 bytes.
- The sphere direction (sin/cos of the two angle draws) is an input.
- The perspective projection of `draw` is an input function `Render.Projector`.
- All arithmetic is on exact reals.

Files:
- `support.dfy`: Option, Draw, Map/Filter and the retain-loop step lemmas.
- `fireworks_types.dfy`: entities and constants.
- `glyphs.dfy`: the sampler.
- `explosions.dfy`: `createExplosion` batches.
- `scheduler.dfy`: the timers and the click launch.
- `integrator.dfy`: the shell and particle passes.
- `render.dfy`: the render list and the sort.
- `stage.dfy`: the `Stage` class, the frame invariant, and the launch timers over a run of frames.
- `confetti.dfy`: the confetti overlay.
- `gallery.dfy`: the gallery archive.

## Model

| member | source | states |
|---|---|---|
| Support.ScaleBounds | components/FireworksStage.tsx:19 | a draw of `Math.random()` scaled by d lies between 0 and d, and never reaches d itself when d is not 0 |
| FireworksTypes.Random | components/FireworksStage.tsx:19 | `random(min, max)` lies in [min, max), or in (max, min] when the bounds are given in decreasing order, as in `random(-22, -32)` |
| Glyphs.GetTextPoints | components/FireworksStage.tsx:45-77 | the nested stride-2 scan returns exactly `TextPoints` of its inputs |
| Glyphs.ScanRow | components/FireworksStage.tsx:65-74 | one pass of the inner loop appends exactly the points of the row's recorded pixels, in order |
| Glyphs.TextPoints | components/FireworksStage.tsx:46-47 | no off-screen context gives no points; there are never more than 500·150 |
| Glyphs.GlyphPoints | components/FireworksStage.tsx:64-75 | one point per recorded pixel, and never more than 500·150 points |
| Glyphs.GlyphPointsGrid | components/FireworksStage.tsx:64-71 | every x is even and in [-1000, 996], every y is even and in [-300, 296], and z is in [-15, 15) |
| Glyphs.RowHitsCount | components/FireworksStage.tsx:65-67 | a row scan of c columns records at most c pixels |
| Glyphs.HitsCount | components/FireworksStage.tsx:64-67 | r scanned rows record at most 500·r pixels |
| Glyphs.RowHitsSampled | components/FireworksStage.tsx:65-67 | every pixel a row scan records is on the grid with alpha above 128, and the records are in increasing x |
| Glyphs.HitsSampled | components/FireworksStage.tsx:64-67 | every recorded pixel is sampled, and the record is in row-major order |
| Glyphs.RowHitsComplete | components/FireworksStage.tsx:65-67 | every sampled pixel of a row is recorded |
| Glyphs.HitsComplete | components/FireworksStage.tsx:64-67 | every sampled pixel of the bitmap is recorded |
| Glyphs.GlyphPointsExact | components/FireworksStage.tsx:62-75 | a pixel is recorded iff it is on the even grid inside 1000×300 with alpha byte above 128; no pixel is recorded twice; point k is the centred, doubled image of record k |
| Explosions.GlyphParticle | components/FireworksStage.tsx:89-105 | a text particle starts at the shell, opaque, with decay in [0.008, 0.015), size in [2, 5), and velocity 0.15·point plus a jitter in [-1, 1) |
| Explosions.SparkParticle | components/FireworksStage.tsx:111-135 | a spark starts at the shell, opaque, with decay in [0.015, 0.03), size in [2, 5), and acceleration (0, 0.06, 0); its velocity is its speed times its unit direction (sin φ cos θ, sin φ sin θ, cos φ) |
| Explosions.SpeedBand | components/FireworksStage.tsx:116-119 | a sphere spark's speed lies in [5, 20); a ring spark's speed lies in [12.5, 50) when abs(cos φ) < 0.1, and in [0.5, 2) otherwise |
| Explosions.GlyphBatch | components/FireworksStage.tsx:88-106 | one text particle per glyph point; the k-th uses the k-th draw |
| Explosions.SparkBatch | components/FireworksStage.tsx:109-136 | exactly `count` sparks; the k-th uses the k-th draw |
| Explosions.ExplosionBatch | components/FireworksStage.tsx:86-137 | a text burst with non-empty text gives one `text` particle per glyph point; any other burst gives 500 sparks for a sphere and 300 otherwise; every particle is fresh and carries the hue; each glyph particle's velocity is within 1 of 0.15 times its glyph point, on all three axes; each spark's velocity is its speed times its direction |
| Explosions.SpeedBound | components/FireworksStage.tsx:117-119 | a spark's speed `random(5, 20)·ringMod` is in (0, 50], since the ring modifier is at most 2.5 |
| Explosions.SparkSpeedBound | components/FireworksStage.tsx:117-123 | along a unit direction, every spark velocity component is at most 50 in magnitude |
| Stage.Stage.CreateExplosion | components/FireworksStage.tsx:82-138 | appends exactly `ExplosionBatch` to the particle list; nothing else changes |
| Stage.Stage.PushGlyphs | components/FireworksStage.tsx:88-106 | the `forEach` over glyph points appends exactly `GlyphBatch`, in point order; nothing else changes |
| Stage.Stage.PushSparks | components/FireworksStage.tsx:109-136 | the `for` loop appends exactly `SparkBatch` with `count` sparks, in draw order; nothing else changes |
| Scheduler.AmbientShell | components/FireworksStage.tsx:149-156 | the ambient shell starts 50 below the bottom edge at x in ±width/1.5 and z in [-400, 400); it climbs at 22 to 32 per tick toward a target in [-400, -100), with a hue in [0, 360) and no text |
| Scheduler.FeatureShell | components/FireworksStage.tsx:163-175 | the phrase shell for index i carries `TEXT_WISHES[i]` in hue `BASE_COLORS[i mod 6].h`; it starts at (0, height + 100, 0) with velocity (0, -28, 0) and aims at -200; it has not exploded |
| Scheduler.ClickShell | components/FireworksStage.tsx:363-371 | a click shell starts at x = (clientX − width/2)·2 on the bottom edge, climbs at 22 to 28 toward a target in [-400, -200), and has no text |
| Scheduler.NextWish | components/FireworksStage.tsx:165 | the phrase index moves to i+1, wraps from 7 to 0, and always stays in [0, 8) |
| Scheduler.AmbientStep | components/FireworksStage.tsx:147-157 | when more than 300 ms have passed, the ambient timer records `now` and appends an ambient shell; otherwise nothing changes |
| Scheduler.FeatureStep | components/FireworksStage.tsx:160-176 | when more than 4000 ms have passed, the feature timer records `now`, appends the phrase shell of index i and advances the index; otherwise nothing changes |
| Scheduler.FiringsSpaced | components/FireworksStage.tsx:147-148 | over any sequence of clock readings, the firings of a timer are more than its interval apart, and the first comes more than an interval after the previous one; `Stage.RunAmbientSpaced` carries this over to the update loop |
| Scheduler.FeatureCycle | components/FireworksStage.tsx:160-176 | over any sequence of clock readings the feature timer launches one phrase shell per firing, and the k-th carries phrase (i+k) mod 8 in palette hue ((i+k) mod 8) mod 6; `Stage.RunFeatureCycle` carries this over to the update loop |
| Scheduler.CycleCons | components/FireworksStage.tsx:163-165 | a shell with phrase i, followed by a cycle that starts at the next phrase, is a cycle that starts at phrase i |
| Scheduler.WishStep | components/FireworksStage.tsx:165 | advancing the phrase index once and then k − 1 times is the same as advancing it k times, modulo 8 |
| Integrator.Advance | components/FireworksStage.tsx:181-184 | a shell moves by its old velocity, then gravity adds 0.06 to its vertical speed; nothing else changes |
| Integrator.ExplosionKind | components/FireworksStage.tsx:188-190 | the burst is `text` iff the shell has non-empty text; otherwise `ring` iff the draw is above 0.7, else `sphere` |
| Integrator.Burst | components/FireworksStage.tsx:186-192 | a bursting shell gives its glyph count of text particles, or 300 sparks after a draw above 0.7 and 500 otherwise; all are fresh, at the shell, in `parseInt` of its hue |
| Integrator.BurstsFrom | components/FireworksStage.tsx:179-196 | every particle the shell loop appends is fresh |
| Integrator.ShellStep | components/FireworksStage.tsx:179-196 | the shells left are moved shells that still ascend; the old particles are kept as a prefix and every appended particle is fresh; the timers and the phrase index are unchanged |
| Integrator.ShellStepExact | components/FireworksStage.tsx:179-196 | the pass keeps exactly the moved shells that do not burst, each once, in their original order; when none bursts, no particle is added |
| Integrator.QuietFrame | components/FireworksStage.tsx:186-195 | if no shell bursts, the shell loop appends nothing |
| Integrator.BurstsFromOrigin | components/FireworksStage.tsx:179-196 | every particle the shell loop appends starts at the moved position of a shell that bursts on this tick, in that shell's colour |
| Integrator.BurstSlice | components/FireworksStage.tsx:179-196 | the whole batch of each bursting shell appears contiguously among the appended particles, right after the batches of the shells behind it |
| Integrator.TextlessBurstCount | components/FireworksStage.tsx:109-196 | a bursting shell without a phrase adds at least 300 particles to the frame |
| Integrator.ShellStepOrigin | components/FireworksStage.tsx:179-196 | on the state, every particle the shell pass appends comes from a shell that bursts on this tick, at its moved position and in its colour |
| Integrator.ShellStepSlice | components/FireworksStage.tsx:179-196 | on the state, the shell pass appends each bursting shell's whole batch contiguously, after the old particles and the batches of the shells behind it |
| Integrator.ShellBurnout | components/FireworksStage.tsx:184-186 | a shell whose vertical speed reaches zero within n ticks bursts within n ticks, whatever its target |
| Integrator.LaunchedShellsBurst | components/FireworksStage.tsx:147-196 | every launched shell bursts: a phrase or click shell within 467 ticks, an ambient shell within 534 |
| Integrator.StepParticle | components/FireworksStage.tsx:199-222 | a particle moves by its old velocity and fades by its decay; its velocity is damped by 0.96 with 0.06 added to the vertical part, and a text particle's is then damped by a further 0.9; a spark keeps its size; a text particle's size is re-drawn in [3, 8) after a flash draw above 0.95 and in [2, 4) otherwise |
| Integrator.Stepped | components/FireworksStage.tsx:199-222 | every particle is stepped, the k-th with the k-th twinkle draw |
| Integrator.ParticleStep | components/FireworksStage.tsx:199-227 | every kept particle has alpha above 0; live particles stay live; shells, timers and the phrase index are unchanged |
| Integrator.SteppedKeepsLive | components/FireworksStage.tsx:222-226 | after a step, the kept particles of a live list are live (0 < alpha ≤ 1, decay in [0.008, 0.03)) |
| Integrator.ParticleStepExact | components/FireworksStage.tsx:199-227 | the pass keeps exactly the stepped particles with alpha − decay > 0, each once, in their original order |
| Integrator.FadesWithin | components/FireworksStage.tsx:222-226 | a particle with alpha at most 0.008·n and decay at least 0.008 is gone within n ticks |
| Integrator.LastsAtLeast | components/FireworksStage.tsx:222-226 | a particle with alpha above 0.03·n and decay below 0.03 survives n ticks |
| Integrator.ParticleLifetime | components/FireworksStage.tsx:222-226 | every live particle is removed within 125 ticks, and a new one survives its first 33 |
| Integrator.StepKeepsSpeed | components/FireworksStage.tsx:207-216 | drag 0.96 plus gravity 0.06 (and the extra 0.9 for text) keeps any per-component speed bound of at least 1.5 |
| Integrator.Coast | components/FireworksStage.tsx:207-216 | such a bound holds after any number of ticks |
| Integrator.SparkSpeedForever | components/FireworksStage.tsx:111-136 | a spark never moves faster than 50 per tick in any component, for its whole life |
| Render.ShellItems | components/FireworksStage.tsx:266-273 | one render entry per shell, in order |
| Render.ParticleItems | components/FireworksStage.tsx:276-288 | the particle entries are the items of exactly the particles that pass the culling test (scale > 0 and z > -500), each once and in list order |
| Render.ParticleItemsComplete | components/FireworksStage.tsx:276-288 | every visible particle has its entry |
| Render.BuildRenderList | components/FireworksStage.tsx:262-288 | the two `forEach` loops return the shell entries followed by the visible particle entries |
| Render.InsertByDepth | components/FireworksStage.tsx:291 | insertion adds exactly the one entry |
| Render.InsertOrdered | components/FireworksStage.tsx:291 | insertion keeps a list back to front |
| Render.InsertAtDepth | components/FireworksStage.tsx:291 | the inserted entry goes ahead of the entries of its own depth |
| Render.SortByDepth | components/FireworksStage.tsx:291 | the sort result is a permutation of its input with non-increasing depth |
| Render.SortStable | components/FireworksStage.tsx:291 | the entries of every depth leave the sort in the order they entered |
| Render.SortOrderedIsIdentity | components/FireworksStage.tsx:291 | a list already back to front is left unchanged |
| Stage.Stage.RenderList | components/FireworksStage.tsx:262-291 | the render list is a permutation of every shell plus the visible particles, back to front, stable on ties |
| Stage.ShellStepKeepsInv | components/FireworksStage.tsx:179-196 | the shell pass keeps the stage invariant: the phrase index is untouched, and the particles it keeps or adds are live |
| Stage.UpdateSpec | components/FireworksStage.tsx:143-228 | one frame keeps the stage invariant: the phrase index is in [0, 8), and every particle has 0 < alpha ≤ 1 |
| Stage.Run | components/FireworksStage.tsx:344-349 | the invariant holds after any number of frames |
| Stage.FrameTimers | components/FireworksStage.tsx:147-165 | in one frame, each timer moves to the frame's clock reading exactly when it fires, and the phrase index advances exactly when the feature timer fires |
| Stage.FrameLaunches | components/FireworksStage.tsx:147-176 | in one frame, the ambient timer adds a shell exactly when it fires, and the feature timer then adds exactly the phrase shell of the current index when it fires, and nothing otherwise |
| Stage.AmbientTimesMatch | components/FireworksStage.tsx:147-148 | the frames of a run that launch an ambient shell are exactly the firings of a 300 ms timer over the run's clock readings |
| Stage.RunAmbientSpaced | components/FireworksStage.tsx:147-148 | over any run of frames, ambient launches are more than 300 ms apart, and the first comes more than 300 ms after the timer's previous firing |
| Stage.FeatureLaunchesMatch | components/FireworksStage.tsx:160-176 | the shells a run adds through the feature timer are exactly the launches of a 4000 ms timer over the run's clock readings and canvas heights |
| Stage.RunFeatureCycle | components/FireworksStage.tsx:160-176 | over any run of frames, the update loop launches one phrase shell per 4000 ms firing, and the k-th carries phrase (i+k) mod 8 in palette hue ((i+k) mod 8) mod 6 |
| Stage.Stage.constructor | components/FireworksStage.tsx:23-32 | the stage starts empty, with both timers and the phrase index at 0 |
| Stage.Stage.Launch | components/FireworksStage.tsx:146-176 | the two timer blocks compute `FeatureStep` after `AmbientStep` |
| Stage.Stage.UpdateShells | components/FireworksStage.tsx:179-196 | the backward splice loop over shells computes exactly `ShellStep` |
| Stage.Stage.ExplodeShell | components/FireworksStage.tsx:186-193 | the burst branch appends the moved shell's `Burst` after what the later shells appended; shells and timers are unchanged |
| Stage.Stage.UpdateParticles | components/FireworksStage.tsx:199-227 | the backward splice loop over particles computes exactly `ParticleStep` |
| Stage.Stage.Update | components/FireworksStage.tsx:143-228 | `update` computes `UpdateSpec` and keeps the invariant |
| Stage.Stage.HandleClick | components/FireworksStage.tsx:359-372 | without a bounding rectangle nothing changes; otherwise exactly one click shell is appended |
| Confetti.ColorIndex | components/Confetti.tsx:17 | the colour index is always inside the 5-entry palette |
| Confetti.CreateParticle | components/Confetti.tsx:12-23 | w and h are in [2, 10), the colour is from the palette, vx is in [-6, 6), vy is in [-12, 0), rotation is in [0, 360), and life is 1 |
| Confetti.CentreBatch | components/Confetti.tsx:27-29 | four particles from (w/2, 0.8·h) |
| Confetti.GlitchParticle | components/Confetti.tsx:31-33 | the glitch particle lies on the canvas |
| Confetti.SpawnBatch | components/Confetti.tsx:25-34 | a spawn adds 4 centre particles, plus a fifth on the canvas iff the draw is above 0.6; all have life 1 |
| Confetti.Spawned | components/Confetti.tsx:61-63 | spawning happens iff the pool holds fewer than 250, and adds at most 5 |
| Confetti.StepConfetti | components/Confetti.tsx:68-73 | the position uses the old velocity; then vy += 0.2, vx *= 0.98, rotation += rotationSpeed, and life −= 0.005 |
| Confetti.Survivors | components/Confetti.tsx:65-94 | every kept particle is an updated particle with life > 0 and y ≤ height + 50 |
| Confetti.SurvivorsExact | components/Confetti.tsx:65-94 | the loop keeps exactly the updated particles that stay, each once, in their original order |
| Confetti.AnimateKeepsCap | components/Confetti.tsx:61-94 | a frame keeps the pool at or below 254 particles, each with life ≤ 1 |
| Confetti.InitialBurst | components/Confetti.tsx:51-53 | the initial burst holds 80 particles from the window centre and is within the cap |
| Confetti.CapForever | components/Confetti.tsx:55-97 | after any number of frames, at any canvas sizes, the pool holds at most 254 particles |
| Confetti.FadesWithin | components/Confetti.tsx:73-93 | a particle with life at most 0.005·n is removed within n updates |
| Confetti.ConfettiLifetime | components/Confetti.tsx:73-93 | a particle with life ≤ 1, which includes every new one, is removed after at most 200 updates (exact arithmetic) |
| Confetti.ConfettiCanvas.constructor | components/Confetti.tsx:50-53 | mounting pushes the 80 particles of the initial burst |
| Confetti.ConfettiCanvas.SpawnConfetti | components/Confetti.tsx:25-34 | appends exactly `SpawnBatch` |
| Confetti.ConfettiCanvas.Sweep | components/Confetti.tsx:65-94 | the forward loop with `splice(i, 1); i--` computes exactly `Survivors` |
| Confetti.ConfettiCanvas.Animate | components/Confetti.tsx:55-97 | a frame computes `AnimateSpec` and keeps the pool within the cap |
| Gallery.DashesClean | components/ResultGallery.tsx:44 | the dash replacement leaves no whitespace, whatever state it starts in |
| Gallery.DashesNoSpace | components/ResultGallery.tsx:44 | text without whitespace is left unchanged |
| Gallery.DashesAppend | components/ResultGallery.tsx:44 | the replacement works piece by piece: the second piece continues in the state the first left |
| Gallery.DashesRun | components/ResultGallery.tsx:44 | a whitespace run gives one dash, or nothing when a run is already open |
| Gallery.DashRunsAppend | components/ResultGallery.tsx:44 | text not ending in whitespace is replaced independently of what follows |
| Gallery.DashRunsRun | components/ResultGallery.tsx:44 | a maximal run of whitespace becomes exactly one `-` |
| Gallery.LowerChar | components/ResultGallery.tsx:44 | lower-casing leaves no uppercase ASCII letter and keeps whitespace as whitespace |
| Gallery.ToLower | components/ResultGallery.tsx:44 | lower-casing works character by character and keeps the length |
| Gallery.Slug | components/ResultGallery.tsx:44 | the slug contains no whitespace and no uppercase ASCII letter |
| Gallery.SlugIdempotent | components/ResultGallery.tsx:44 | the slug of a slug is itself |
| Gallery.UntilComma | components/ResultGallery.tsx:43 | the text before the first comma is a comma-free prefix, ended by a comma or the end of the text |
| Gallery.Base64Payload | components/ResultGallery.tsx:43 | `split(',')[1]` is absent iff the URL has no comma, and contains no comma |
| Gallery.PayloadRoundTrip | components/ResultGallery.tsx:43 | for `header,payload[,rest]` with comma-free header and payload, the payload comes back unchanged |
| Gallery.UntilCommaPrefix | components/ResultGallery.tsx:43 | a comma-free text followed by a comma, or by nothing, is its own first field |
| Gallery.ZipNames | components/ResultGallery.tsx:39-46 | a name is in the archive iff some result with a truthy image URL has that entry name |
| Gallery.ZipPayload | components/ResultGallery.tsx:39-46 | under each name the archive holds the payload of the last result with that name |
| Gallery.HandleDownloadAll | components/ResultGallery.tsx:35-52 | an archive is produced iff some result has a truthy image URL, and it holds exactly `ZipOf` of the results |
| Gallery.HasAnyResult | components/ResultGallery.tsx:54 | the button is shown iff some result has a non-null image URL |
| Gallery.ButtonAndArchive | components/ResultGallery.tsx:54 | whenever an archive would be produced the button is shown; the converse fails for an empty-string URL |

## Left out

- Canvas drawing is not modelled: `fillRect`, `arc`, shadows, composite mode, colour strings and the per-type point sizes of `draw`. The render list stops at the sorted entries.
- Trigonometry and projection are inputs. The sphere direction (sin/cos of the two angle draws), the ring test on `cos(phi)`, and the rotation and perspective of `project` are supplied by the caller.
- `SparkSpeedBound` and `SparkSpeedForever` take the direction's components to lie in [-1, 1], which a unit vector satisfies.
- IEEE-754 rounding is not modelled. All arithmetic is exact. In particular, `ConfettiLifetime` states the 200-update bound for exact decrements of 0.005, not for floating-point drift.
- Browser and timing services are not modelled: `Math.random`, `Date.now`, `requestAnimationFrame`, event listeners, resizing and mouse tracking. Draws and clock readings are parameters.
  - The order of random draws is preserved in each consumer's draw datatype, but not as one global stream.
- Text rendering is an input. The `fillText` call into the 1000×300 off-screen canvas is given as a rasterizer from text to bitmap.
- `ParseHue`: `parseInt` of a hue string is modelled as the integer part. The model does not cover the exponent notation that `String` produces for very small numbers.
- Shells and particles are values, not shared objects. This loses nothing: `createExplosion` gives every particle its own copy of the burst position (components/FireworksStage.tsx:91 and :126), and each loop updates only the element it visits.
- The `exploded` flag is never set. The source sets it on a shell only just before splicing that shell out, so no listed shell is ever marked, and the model leaves the field false.
- The view angle of a generated result is its display string. The enum in types.ts is not part of this model.
- `LowerChar` lower-cases ASCII letters only: Unicode case mapping is not modelled. `IsSpace` lists the characters JavaScript's `\s` matches.
- JSZip is not modelled: compression, `generateAsync`, the base64 decoding of the payload, and the `saveAs` download plumbing. The archive is the name-to-payload table. A URL without a comma gives an absent payload, where JavaScript passes `undefined`.
- The model follows the code, which lacks some behaviour a reader might expect. The fireworks stage has no particle cap, never removes particles that fall off-screen, has no sphere fallback when a glyph set is empty, and never reads a particle's `acc` field. None of these is added.
- `Stage.Stage.Launch` and `Stage.Stage.Update` require the phrase index to be in range. The stage invariant guarantees this, since the index starts at 0 and only advances modulo 8.
- `Confetti.ConfettiCanvas.Animate` requires the pool to be within the cap. The initial burst establishes this and every frame preserves it.
