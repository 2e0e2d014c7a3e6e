/** The glyph sampler `getTextPoints` (components/FireworksStage.tsx:45-77).
    The text is drawn by the browser's font engine into a 1000x300 RGBA buffer; that buffer is
    an input here. The sampler scans it on a stride of 2 and turns every pixel whose alpha byte
    is above 128 into a centred, doubled point with a random depth. */
module Glyphs {
  import opened Support
  import opened FireworksTypes

  newtype byte = x: int | 0 <= x < 256

  const STEP := 2
  /** 1000 x 300 pixels, four bytes (R, G, B, A) each. */
  const BITMAP_BYTES := 1200000
  /** 500 sampled columns times 150 sampled rows. */
  const MAX_POINTS := 75000

  type Bitmap = s: seq<byte> | |s| == BITMAP_BYTES witness seq(1200000, _ => 0)

  /** The off-screen context: given a string it yields the pixels after `fillText`. */
  type Rasterizer = string -> Bitmap

  /** The alpha byte of pixel (x, y), `data[(y * 1000 + x) * 4 + 3]`. */
  function AlphaAt(data: Bitmap, x: int, y: int): byte
    requires 0 <= x < 1000 && 0 <= y < 300
  {
    data[(y * 1000 + x) * 4 + 3]
  }

  /** Pixel (x, y) is on the sampling grid and opaque enough to become a point. */
  predicate Sampled(data: Bitmap, x: int, y: int) {
    0 <= x < 1000 && 0 <= y < 300 && x % 2 == 0 && y % 2 == 0 && AlphaAt(data, x, y) > 128
  }

  /** Scan order: (y, x) lexicographically. */
  predicate Before(a: (int, int), b: (int, int)) {
    a.1 < b.1 || (a.1 == b.1 && a.0 < b.0)
  }

  /** The opaque pixels of row y among the first c sampled columns x = 0, 2, ..., 2(c-1). */
  function RowHits(data: Bitmap, y: int, c: nat): (r: seq<(int, int)>)
    requires 0 <= y < 300 && c <= 500
  {
    if c == 0 then []
    else
      var x := 2 * (c - 1);
      RowHits(data, y, c - 1) + (if AlphaAt(data, x, y) > 128 then [(x, y)] else [])
  }

  /** The opaque pixels of the first r sampled rows y = 0, 2, ..., 2(r-1), in scan order. */
  function Hits(data: Bitmap, r: nat): (h: seq<(int, int)>)
    requires r <= 150
  {
    if r == 0 then [] else Hits(data, r - 1) + RowHits(data, 2 * (r - 1), 500)
  }

  /** The point emitted for pixel (x, y) with depth draw u. */
  function GlyphPoint(px: (int, int), u: Draw): Vector3 {
    Vector3(((px.0 - 500) * 2) as real, ((px.1 - 150) * 2) as real, Random(u, -15.0, 15.0))
  }

  /** One point per hit; the k-th emitted point uses the k-th depth draw. */
  function Points(hits: seq<(int, int)>, jitter: nat -> Draw): (pts: seq<Vector3>)
    ensures |pts| == |hits|
    ensures forall k :: 0 <= k < |hits| ==> pts[k] == GlyphPoint(hits[k], jitter(k))
  {
    seq(|hits|, k requires 0 <= k < |hits| => GlyphPoint(hits[k], jitter(k)))
  }

  /** What `getTextPoints` returns for a rendered bitmap: one point per recorded pixel. */
  function GlyphPoints(data: Bitmap, jitter: nat -> Draw): (pts: seq<Vector3>)
    ensures |pts| == |Hits(data, 150)| <= MAX_POINTS
  {
    HitsCount(data, 150);
    Points(Hits(data, 150), jitter)
  }

  /** A row scan records at most one pixel per sampled column ... */
  lemma {:induction false} RowHitsCount(data: Bitmap, y: int, c: nat)
    requires 0 <= y < 300 && c <= 500
    ensures |RowHits(data, y, c)| <= c
  {
    if c > 0 {
      RowHitsCount(data, y, c - 1);
    }
  }

  /** ... so the first r rows yield at most 500 r points. */
  lemma {:induction false} HitsCount(data: Bitmap, r: nat)
    requires r <= 150
    ensures |Hits(data, r)| <= 500 * r
  {
    if r > 0 {
      HitsCount(data, r - 1);
      RowHitsCount(data, 2 * (r - 1), 500);
    }
  }

  /** Every point lies on the doubled, centred even grid: x is an even integer in [-1000, 996],
      y an even integer in [-300, 296], and the depth is in [-15, 15). */
  lemma GlyphPointsGrid(data: Bitmap, jitter: nat -> Draw)
    ensures var pts := GlyphPoints(data, jitter);
      forall k :: 0 <= k < |pts| ==>
        && -1000.0 <= pts[k].x <= 996.0 && -300.0 <= pts[k].y <= 296.0
        && pts[k].x.Floor as real == pts[k].x && pts[k].x.Floor % 2 == 0
        && pts[k].y.Floor as real == pts[k].y && pts[k].y.Floor % 2 == 0
        && -15.0 <= pts[k].z < 15.0
  {
    var h := Hits(data, 150);
    HitsSampled(data, 150);
    var pts := Points(h, jitter);
    forall k | 0 <= k < |pts|
      ensures && -1000.0 <= pts[k].x <= 996.0 && -300.0 <= pts[k].y <= 296.0
              && pts[k].x.Floor as real == pts[k].x && pts[k].x.Floor % 2 == 0
              && pts[k].y.Floor as real == pts[k].y && pts[k].y.Floor % 2 == 0
              && -15.0 <= pts[k].z < 15.0
    {
      assert Sampled(data, h[k].0, h[k].1);
      GlyphPointOnGrid(h[k], jitter(k));
    }
  }

  /** The point of one sampled pixel lies on the doubled, centred even grid. */
  lemma GlyphPointOnGrid(px: (int, int), u: Draw)
    requires 0 <= px.0 < 1000 && 0 <= px.1 < 300 && px.0 % 2 == 0 && px.1 % 2 == 0
    ensures var q := GlyphPoint(px, u);
      && -1000.0 <= q.x <= 996.0 && -300.0 <= q.y <= 296.0
      && q.x.Floor as real == q.x && q.x.Floor % 2 == 0
      && q.y.Floor as real == q.y && q.y.Floor % 2 == 0
      && -15.0 <= q.z < 15.0
  {
    var x, y := (px.0 - 500) * 2, (px.1 - 150) * 2;
    assert (x as real).Floor == x && (y as real).Floor == y;
  }

  /** `getTextPoints`: no context means no points. */
  function TextPoints(ctx: Option<Rasterizer>, text: string, jitter: nat -> Draw): (pts: seq<Vector3>)
    ensures ctx.None? ==> pts == []
    ensures |pts| <= MAX_POINTS
  {
    match ctx
    case None => []
    case Some(fill) => GlyphPoints(fill(text), jitter)
  }

  /** The scan of getTextPoints: the outer loop over the rows y = 0, 2, ..., 298. */
  method GetTextPoints(ctx: Option<Rasterizer>, text: string, jitter: nat -> Draw)
    returns (points: seq<Vector3>)
    ensures points == TextPoints(ctx, text, jitter)
  {
    if ctx.None? {
      return [];
    }
    var data := ctx.value(text);
    points := [];
    ghost var hits: seq<(int, int)> := [];
    ghost var r := 0;
    var y := 0;
    while y < 300
      invariant 0 <= r <= 150 && y == 2 * r
      invariant hits == Hits(data, r)
      invariant points == Points(hits, jitter)
    {
      points, hits := ScanRow(data, y, points, hits, jitter);
      y := y + STEP;
      r := r + 1;
    }
  }

  /** The inner loop of the scan: row y from x = 0 to 998, appending one point per opaque pixel. */
  method ScanRow(data: Bitmap, y: int, points: seq<Vector3>, ghost hits: seq<(int, int)>, jitter: nat -> Draw)
    returns (points': seq<Vector3>, ghost hits': seq<(int, int)>)
    requires 0 <= y < 300 && points == Points(hits, jitter)
    ensures hits' == hits + RowHits(data, y, 500)
    ensures points' == Points(hits', jitter)
  {
    points', hits' := points, hits;
    ghost var c := 0;
    var x := 0;
    while x < 1000
      invariant 0 <= c <= 500 && x == 2 * c
      invariant hits' == hits + RowHits(data, y, c)
      invariant points' == Points(hits', jitter)
    {
      var alpha := data[(y * 1000 + x) * 4 + 3];
      assert alpha == AlphaAt(data, x, y);
      if alpha > 128 {
        PointsSnoc(hits', (x, y), jitter);
        points' := points' + [GlyphPoint((x, y), jitter(|points'|))];
        hits' := hits' + [(x, y)];
      }
      x := x + STEP;
      c := c + 1;
    }
  }

  lemma PointsSnoc(hits: seq<(int, int)>, px: (int, int), jitter: nat -> Draw)
    ensures Points(hits + [px], jitter) == Points(hits, jitter) + [GlyphPoint(px, jitter(|hits|))]
  {
  }

  /** Every pixel recorded in a row scan is sampled, and the row scan is in increasing x. */
  lemma {:induction false} RowHitsSampled(data: Bitmap, y: int, c: nat)
    requires 0 <= y < 300 && y % 2 == 0 && c <= 500
    ensures forall k :: 0 <= k < |RowHits(data, y, c)| ==>
      Sampled(data, RowHits(data, y, c)[k].0, RowHits(data, y, c)[k].1)
      && RowHits(data, y, c)[k].1 == y && RowHits(data, y, c)[k].0 < 2 * c
    ensures forall k, l :: 0 <= k < l < |RowHits(data, y, c)| ==>
      RowHits(data, y, c)[k].0 < RowHits(data, y, c)[l].0
  {
    if c > 0 {
      RowHitsSampled(data, y, c - 1);
    }
  }

  /** Every recorded pixel is sampled, and the scan is in row-major order. */
  lemma {:induction false} HitsSampled(data: Bitmap, r: nat)
    requires r <= 150
    ensures forall k :: 0 <= k < |Hits(data, r)| ==>
      Sampled(data, Hits(data, r)[k].0, Hits(data, r)[k].1) && Hits(data, r)[k].1 < 2 * r
    ensures forall k, l :: 0 <= k < l < |Hits(data, r)| ==> Before(Hits(data, r)[k], Hits(data, r)[l])
  {
    if r > 0 {
      HitsSampled(data, r - 1);
      RowHitsSampled(data, 2 * (r - 1), 500);
      var a, b := Hits(data, r - 1), RowHits(data, 2 * (r - 1), 500);
      assert Hits(data, r) == a + b;
      forall k, l | 0 <= k < l < |a + b|
        ensures Before((a + b)[k], (a + b)[l])
      {
        if k < |a| && l >= |a| {
          assert (a + b)[l] == b[l - |a|];
        }
      }
    }
  }

  /** Every sampled pixel of row y with x below 2c is recorded in the row scan. */
  lemma {:induction false} RowHitsComplete(data: Bitmap, y: int, c: nat, x: int)
    requires 0 <= y < 300 && c <= 500
    requires Sampled(data, x, y) && x < 2 * c
    ensures (x, y) in RowHits(data, y, c)
  {
    if x < 2 * (c - 1) {
      RowHitsComplete(data, y, c - 1, x);
    } else {
      assert x == 2 * (c - 1);
    }
  }

  lemma {:induction false} HitsComplete(data: Bitmap, r: nat, x: int, y: int)
    requires r <= 150
    requires Sampled(data, x, y) && y < 2 * r
    ensures (x, y) in Hits(data, r)
  {
    if y < 2 * (r - 1) {
      HitsComplete(data, r - 1, x, y);
    } else {
      assert y == 2 * (r - 1);
      RowHitsComplete(data, y, 500, x);
    }
  }

  /** The sampler emits exactly one point per sampled pixel: a pixel is recorded iff it lies
      on the stride-2 grid inside the bitmap and its alpha byte is above 128; the record is in
      row-major order, so no pixel appears twice; and point k is the centred, doubled image of
      record k, with depth in [-15, 15). */
  lemma GlyphPointsExact(data: Bitmap, jitter: nat -> Draw)
    ensures forall px: (int, int) :: px in Hits(data, 150) <==> Sampled(data, px.0, px.1)
    ensures forall k, l :: 0 <= k < l < |Hits(data, 150)| ==> Hits(data, 150)[k] != Hits(data, 150)[l]
    ensures forall k :: 0 <= k < |Hits(data, 150)| ==>
      GlyphPoints(data, jitter)[k] == GlyphPoint(Hits(data, 150)[k], jitter(k))
  {
    HitsSampled(data, 150);
    forall px: (int, int) | Sampled(data, px.0, px.1)
      ensures px in Hits(data, 150)
    {
      HitsComplete(data, 150, px.0, px.1);
    }
  }
}
