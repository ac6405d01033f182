// The "fancy" chroma upsampler of the decoder's output stage
// (src/upsampling.rs): one line pair of luma at full resolution is
// converted to RGBA, with the chroma of each pixel interpolated from the
// 2 x 2 neighbourhood of the half-resolution chroma samples around it.
//
// The code interpolates u and v together: load_uv packs u into bits 0..15
// and v into bits 16..31 of a u32, the weighted sums are formed on the
// packed words, and each lane is read back with `& 0xff` (u) and
// `(>> 16) as u8` (v). u32 values are modelled on unbounded integers with
// the type u32 bounding them; for byte samples no intermediate value leaves
// the u32 range, so neither Rust's overflow check nor wrap-around applies.
// `>>` on a u32 is `/` by a power of two and `& 0xff` is `% 256`.
//
// The implementations of FancyUpsampler other than YuvToRgbaUpsampler have
// no behaviour; this model fixes `upsample` to vp8_yuv_to_rgba and XSTEP
// to 4, the size of its `[u8; 4]` destination.
module Upsampling {
  import opened Dsp
  import opened Yuv
  import opened OffsetRef
  import opened Arith

  type u32 = x: int | 0 <= x < 0x1_0000_0000

  /** size_of::<[u8; 4]>() for YuvToRgbaUpsampler. */
  const XSTEP: nat := 4

  // ---------------------------------------------------------------------------
  // Lanes

  /** load_uv: u in the low 16 bits, v in the high 16 bits (`|` of disjoint fields is `+`). */
  function LoadUv(u: byte, v: byte): (r: u32)
    ensures r % 0x10000 == u && r / 0x10000 == v
  {
    u + v * 0x10000
  }

  /** `(x & 0xff) as u8`: the u lane of a packed result. */
  function LowLane(x: u32): byte { x % 256 }

  /** `(x >> 16) as u8`: the v lane of a packed result. */
  function HighLane(x: u32): byte { (x / 0x10000) % 256 }

  /** The edge weighting (3 * near + far + 2) >> 2 on one lane. */
  function Mix2(near: byte, far: byte): (r: byte)
  {
    (3 * near + far + 2) / 4
  }

  /**
   * The interior weighting (9 * near + 3 * side + 3 * vert + diag + 8) >> 4 on
   * one lane: `near` is the chroma sample closest to the pixel, `side` its
   * horizontal neighbour, `vert` its vertical neighbour and `diag` the
   * sample diagonally across.
   */
  function Mix4(near: byte, side: byte, vert: byte, diag: byte): (r: byte)
  {
    (9 * near + 3 * side + 3 * vert + diag + 8) / 16
  }

  /** `(3 * near + far + 0x00020002) >> 2` on packed words. */
  function EdgeUv(near: u32, far: u32): u32
    requires near < 0x1000000 && far < 0x1000000
  {
    (3 * near + far + 0x00020002) / 4
  }

  /** The four packed results of one iteration of the pixel-pair loop. */
  datatype PairUv = PairUv(top0: u32, top1: u32, bottom0: u32, bottom1: u32)

  /** A packed word that holds two lanes of at most 2^12 each, as every sum below does. */
  predicate Small(x: int) { 0 <= x < 0x1000_0000 }

  /** `(avg + 2 * (a + b)) >> 3`: one of the two diagonal averages of the loop. */
  function Diagonal(avg: u32, a: u32, b: u32): u32
    requires Small(avg) && Small(a) && Small(b)
  {
    (avg + 2 * (a + b)) / 8
  }

  /** `(diag + s) >> 1`: a diagonal average pulled towards the sample s. */
  function Halve(diag: u32, s: u32): u32
    requires Small(diag) && Small(s)
  {
    (diag + s) / 2
  }

  /**
   * One iteration of the pixel-pair loop on packed words: tl and t are the
   * top chroma samples left and right of the pair, l and uv the current
   * ones; the diagonals are shared by both output rows.
   */
  function InteriorUv(tl: u32, t: u32, l: u32, uv: u32): PairUv
    requires tl < 0x1000000 && t < 0x1000000 && l < 0x1000000 && uv < 0x1000000
  {
    var avg := tl + t + l + uv + 0x00080008;
    var diag12 := Diagonal(avg, t, l);
    var diag03 := Diagonal(avg, tl, uv);
    PairUv(Halve(diag12, tl), Halve(diag03, t), Halve(diag03, l), Halve(diag12, uv))
  }

  /**
   * The lanes do not disturb each other: the edge weighting on packed words
   * gives, in each lane, the edge weighting of that lane's samples.
   */
  lemma EdgeLanes(nu: byte, nv: byte, fu: byte, fv: byte)
    ensures var r := EdgeUv(LoadUv(nu, nv), LoadUv(fu, fv));
      LowLane(r) == Mix2(nu, fu) && HighLane(r) == Mix2(nv, fv)
  {
    var a := 3 * nu + fu + 2;
    var b := 3 * nv + fv + 2;
    assert 3 * LoadUv(nu, nv) + LoadUv(fu, fv) + 0x00020002 == a + 0x10000 * b;
    assert EdgeUv(LoadUv(nu, nv), LoadUv(fu, fv)) == a / 4 + 0x1000 * (4 * b);
    SplitLanes(a / 4 + 0x1000 * (4 * b), a / 4, 4 * b);
  }

  /** The per-lane sum near + 3 side + 3 vert + diag + 8 that a diagonal average shifts. */
  function LaneSum(near: byte, side: byte, vert: byte, diag: byte): int
  {
    near + 3 * side + 3 * vert + diag + 8
  }

  /**
   * The shared step of the interior weighting: when avg + 2 (a + b) packs
   * the lane sums of the samples around the pixel, the diagonal pulled
   * towards the nearest sample s holds Mix4 in each lane. The bits of the v
   * lane that the shift by 3 moves into the low half land above bit 8 and
   * never reach the u lane.
   */
  lemma HalfStepLanes(avg: u32, a: u32, b: u32, s: (byte, byte), side: (byte, byte), vert: (byte, byte), diag: (byte, byte))
    requires Small(avg) && Small(a) && Small(b)
    requires avg + 2 * (a + b) == LaneSum(s.0, side.0, vert.0, diag.0) + 0x10000 * LaneSum(s.1, side.1, vert.1, diag.1)
    ensures Small(Diagonal(avg, a, b)) && Small(LoadUv(s.0, s.1))
    ensures var x := Halve(Diagonal(avg, a, b), LoadUv(s.0, s.1));
      LowLane(x) == Mix4(s.0, side.0, vert.0, diag.0) && HighLane(x) == Mix4(s.1, side.1, vert.1, diag.1)
  {
    var p := LaneSum(s.0, side.0, vert.0, diag.0);
    var q := LaneSum(s.1, side.1, vert.1, diag.1);
    assert Diagonal(avg, a, b) == p / 8 + 0x2000 * q;
    var low := (p / 8 + s.0) / 2;
    var k := q + 8 * s.1;
    assert low == Mix4(s.0, side.0, vert.0, diag.0);
    assert k / 16 == Mix4(s.1, side.1, vert.1, diag.1);
    assert Halve(Diagonal(avg, a, b), LoadUv(s.0, s.1)) == low + 0x1000 * k;
    SplitLanes(low + 0x1000 * k, low, k);
  }

  /** A word low + 2^12 k with low a byte holds low in its u lane and k >> 4 in its v lane. */
  lemma SplitLanes(x: int, low: int, k: int)
    requires x == low + 0x1000 * k && 0 <= low < 256 && 0 <= k < 0x1000
    ensures 0 <= x < 0x1_0000_0000 && x % 256 == low && (x / 0x10000) % 256 == k / 16
  {
    DivUnique(x, 256, 16 * k);
    DivUnique(x, 0x10000, k / 16);
  }

  /**
   * The lanes do not disturb each other in the loop either: each packed
   * result of an iteration gives, in each lane, the interior weighting whose
   * nearest sample is, in order, tl, t (top row), l and uv (bottom row).
   */
  lemma InteriorLanes(tl: (byte, byte), t: (byte, byte), l: (byte, byte), uv: (byte, byte))
    ensures var r := InteriorUv(LoadUv(tl.0, tl.1), LoadUv(t.0, t.1), LoadUv(l.0, l.1), LoadUv(uv.0, uv.1));
      && LowLane(r.top0) == Mix4(tl.0, t.0, l.0, uv.0) && HighLane(r.top0) == Mix4(tl.1, t.1, l.1, uv.1)
      && LowLane(r.top1) == Mix4(t.0, tl.0, uv.0, l.0) && HighLane(r.top1) == Mix4(t.1, tl.1, uv.1, l.1)
      && LowLane(r.bottom0) == Mix4(l.0, uv.0, tl.0, t.0) && HighLane(r.bottom0) == Mix4(l.1, uv.1, tl.1, t.1)
      && LowLane(r.bottom1) == Mix4(uv.0, l.0, t.0, tl.0) && HighLane(r.bottom1) == Mix4(uv.1, l.1, t.1, tl.1)
  {
    hide Diagonal, Halve, LowLane, HighLane, Mix4;
    var wtl, wt, wl, wuv := LoadUv(tl.0, tl.1), LoadUv(t.0, t.1), LoadUv(l.0, l.1), LoadUv(uv.0, uv.1);
    var avg := wtl + wt + wl + wuv + 0x00080008;
    HalfStepLanes(avg, wt, wl, tl, t, l, uv);
    HalfStepLanes(avg, wtl, wuv, t, tl, uv, l);
    HalfStepLanes(avg, wtl, wuv, l, uv, tl, t);
    HalfStepLanes(avg, wt, wl, uv, l, t, tl);
  }

  // ---------------------------------------------------------------------------
  // The interpolated rows

  /** One half-resolution chroma line: the u and the v samples. */
  datatype ChromaLine = ChromaLine(u: seq<byte>, v: seq<byte>)

  /**
   * The chroma samples one line of len pixels reads, (len - 1) / 2 + 1:
   * enough for every pixel at half resolution and no more.
   */
  function ChromaSamples(len: nat): (r: nat)
    requires len != 0
    ensures len <= 2 * r <= len + 1
  {
    (len - 1) / 2 + 1
  }

  /** A line of len pixels has at least one pixel and c holds the chroma samples it reads. */
  predicate ChromaFits(c: ChromaLine, len: nat)
  {
    len != 0 && |c.u| >= ChromaSamples(len) && |c.v| >= ChromaSamples(len)
  }

  /** load_uv of sample x of a chroma line. */
  function Sample(c: ChromaLine, x: nat): u32
    requires x < |c.u| && x < |c.v|
  {
    LoadUv(c.u[x], c.v[x])
  }

  /**
   * The chroma of pixel i of an output row of len pixels, on one lane:
   * `near` is the chroma line on the row's side of the pair and `far` the
   * other. The sample nearest to pixel i is i / 2; its horizontal
   * neighbour is the next sample for odd i and the previous one for even i.
   * Pixel 0, and pixel len - 1 when len is even, have no horizontal
   * neighbour and mix only the two vertical samples.
   */
  function PixelChroma(near: seq<byte>, far: seq<byte>, len: nat, i: nat): byte
    requires i < len && |near| >= ChromaSamples(len) && |far| >= ChromaSamples(len)
  {
    var n := i / 2;
    if i == 0 || (len % 2 == 0 && i == len - 1) then Mix2(near[n], far[n])
    else
      var f := if i % 2 == 1 then n + 1 else n - 1;
      Mix4(near[n], near[f], far[n], far[f])
  }

  /** The four bytes vp8_yuv_to_rgba stores for one pixel. */
  function RgbaPixel(y: byte, u: byte, v: byte): (r: seq<byte>)
    ensures |r| == XSTEP && r[3] == 0xff
  {
    Rgb(y, u, v) + [0xff]
  }

  /** Pixel i of an output row of len pixels with luma y, as vp8_yuv_to_rgba stores it. */
  function PixelAt(y: seq<byte>, near: ChromaLine, far: ChromaLine, len: nat, i: nat): (r: seq<byte>)
    requires i < len <= |y| && ChromaFits(near, len) && ChromaFits(far, len)
    ensures |r| == XSTEP
  {
    RgbaPixel(y[i], PixelChroma(near.u, far.u, len, i), PixelChroma(near.v, far.v, len, i))
  }

  /** The RGBA bytes of pixels 0 .. n - 1 of an output row of len pixels with luma y. */
  function UpsampledRow(y: seq<byte>, near: ChromaLine, far: ChromaLine, len: nat, n: nat): (r: seq<byte>)
    requires n <= len <= |y| && ChromaFits(near, len) && ChromaFits(far, len)
    ensures |r| == XSTEP * n
    decreases n
  {
    if n == 0 then [] else UpsampledRow(y, near, far, len, n - 1) + PixelAt(y, near, far, len, n - 1)
  }

  /** Bytes XSTEP * i .. XSTEP * i + XSTEP - 1 of a row are pixel i. */
  lemma {:induction false} UpsampledRowAt(y: seq<byte>, near: ChromaLine, far: ChromaLine, len: nat, n: nat, i: nat, k: nat)
    requires n <= len <= |y| && ChromaFits(near, len) && ChromaFits(far, len) && i < n && k < XSTEP
    ensures UpsampledRow(y, near, far, len, n)[XSTEP * i + k] == PixelAt(y, near, far, len, i)[k]
    decreases n
  {
    hide PixelAt;
    if i < n - 1 {
      UpsampledRowAt(y, near, far, len, n - 1, i, k);
    }
  }

  /**
   * The two edge pixels: pixel 0, and pixel len - 1 when len is even, get
   * the packed edge weighting of the nearest samples, (3 * near + far + 2) >> 2
   * in each lane.
   */
  lemma EdgeChroma(near: ChromaLine, far: ChromaLine, len: nat, i: nat)
    requires i < len && ChromaFits(near, len) && ChromaFits(far, len)
    requires i == 0 || (len % 2 == 0 && i == len - 1)
    ensures i / 2 < ChromaSamples(len)
    ensures var r := EdgeUv(Sample(near, i / 2), Sample(far, i / 2));
      LowLane(r) == PixelChroma(near.u, far.u, len, i) && HighLane(r) == PixelChroma(near.v, far.v, len, i)
  {
    var n := i / 2;
    EdgeLanes(near.u[n], near.v[n], far.u[n], far.v[n]);
  }

  /**
   * Iteration x of the pixel-pair loop (1 <= x <= (len - 1) / 2) produces
   * the chroma of pixels 2x - 1 and 2x of both output rows: the top row
   * near the top chroma line, the bottom row near the current one.
   */
  lemma PairChroma(top: ChromaLine, cur: ChromaLine, len: nat, x: nat)
    requires 1 <= x <= (len - 1) / 2 && ChromaFits(top, len) && ChromaFits(cur, len)
    ensures x < ChromaSamples(len) && 2 * x < len
    ensures var r := InteriorUv(Sample(top, x - 1), Sample(top, x), Sample(cur, x - 1), Sample(cur, x));
      && LowLane(r.top0) == PixelChroma(top.u, cur.u, len, 2 * x - 1)
      && HighLane(r.top0) == PixelChroma(top.v, cur.v, len, 2 * x - 1)
      && LowLane(r.top1) == PixelChroma(top.u, cur.u, len, 2 * x)
      && HighLane(r.top1) == PixelChroma(top.v, cur.v, len, 2 * x)
      && LowLane(r.bottom0) == PixelChroma(cur.u, top.u, len, 2 * x - 1)
      && HighLane(r.bottom0) == PixelChroma(cur.v, top.v, len, 2 * x - 1)
      && LowLane(r.bottom1) == PixelChroma(cur.u, top.u, len, 2 * x)
      && HighLane(r.bottom1) == PixelChroma(cur.v, top.v, len, 2 * x)
  {
    hide InteriorUv, LowLane, HighLane, Mix4, Mix2;
    InteriorLanes((top.u[x - 1], top.v[x - 1]), (top.u[x], top.v[x]), (cur.u[x - 1], cur.v[x - 1]), (cur.u[x], cur.v[x]));
  }

  /** Storing pixel n after the first n pixels of a row gives the first n + 1. */
  lemma RowStep(s: seq<byte>, y: seq<byte>, near: ChromaLine, far: ChromaLine, len: nat, n: nat)
    requires n < len <= |y| && ChromaFits(near, len) && ChromaFits(far, len) && XSTEP * len <= |s|
    ensures Put(Put(s, 0, UpsampledRow(y, near, far, len, n)), XSTEP * n, PixelAt(y, near, far, len, n))
         == Put(s, 0, UpsampledRow(y, near, far, len, n + 1))
  {
    hide PixelAt, Put;
    var row := UpsampledRow(y, near, far, len, n);
    var row' := UpsampledRow(y, near, far, len, n + 1);
    var pixel := PixelAt(y, near, far, len, n);
    var lhs := Put(Put(s, 0, row), XSTEP * n, pixel);
    var rhs := Put(s, 0, row');
    forall j | 0 <= j < |s|
      ensures lhs[j] == rhs[j]
    {
      if j < XSTEP * n {
        var i, k := j / XSTEP, j % XSTEP;
        assert j == XSTEP * i + k;
        UpsampledRowAt(y, near, far, len, n, i, k);
        UpsampledRowAt(y, near, far, len, n + 1, i, k);
      } else if j < XSTEP * n + XSTEP {
        UpsampledRowAt(y, near, far, len, n + 1, n, j - XSTEP * n);
      }
    }
    assert lhs == rhs;
  }

  // ---------------------------------------------------------------------------
  // do_upsample_line_pair

  /**
   * What do_upsample_line_pair indexes: len pixels of luma, the chroma
   * samples of the top and the current line, and XSTEP bytes per pixel of
   * output. The bottom row, when present, has its own luma and output.
   */
  predicate LinePairFits(topY: seq<byte>, bottom: Option<(seq<byte>, array<byte>)>, top: ChromaLine, cur: ChromaLine,
                         topDst: array<byte>, len: nat)
  {
    && len <= |topY| && XSTEP * len <= topDst.Length && ChromaFits(top, len) && ChromaFits(cur, len)
    && (bottom.Some? ==> len <= |bottom.value.0| && XSTEP * len <= bottom.value.1.Length && bottom.value.1 != topDst)
  }

  /** The output arrays of a line pair. */
  function Outputs(topDst: array<byte>, bottom: Option<(seq<byte>, array<byte>)>): set<array<byte>>
  {
    if bottom.Some? then {topDst, bottom.value.1} else {topDst}
  }

  /**
   * Self::upsample of pixel n into `dst[n * XSTEP..][..XSTEP]`, when u and v
   * are that pixel's chroma: a row whose first n pixels were stored gets its
   * first n + 1.
   */
  method StorePixel(dst: array<byte>, ghost s0: seq<byte>, y: seq<byte>, ghost near: ChromaLine, ghost far: ChromaLine,
                    len: nat, n: nat, u: byte, v: byte)
    requires n < len <= |y| && ChromaFits(near, len) && ChromaFits(far, len) && XSTEP * len <= |s0| == dst.Length
    requires u == PixelChroma(near.u, far.u, len, n) && v == PixelChroma(near.v, far.v, len, n)
    requires dst[..] == Put(s0, 0, UpsampledRow(y, near, far, len, n))
    modifies dst
    ensures dst[..] == Put(s0, 0, UpsampledRow(y, near, far, len, n + 1))
  {
    hide UpsampledRow, PixelChroma, Put, Mix2, Mix4, Rgb;
    RowStep(s0, y, near, far, len, n);
    YuvToRgba(y[n], u, v, dst, XSTEP * n);
  }

  /**
   * The upsample calls of an edge pixel i (pixel 0, or pixel len - 1 when
   * len is even): the packed edge weighting of the nearest samples of the
   * row's own chroma line and the other one.
   */
  method StoreEdge(dst: array<byte>, ghost s0: seq<byte>, y: seq<byte>, ghost near: ChromaLine, ghost far: ChromaLine,
                   len: nat, i: nat, nearUv: u32, farUv: u32)
    requires i < len <= |y| && ChromaFits(near, len) && ChromaFits(far, len) && XSTEP * len <= |s0| == dst.Length
    requires i == 0 || (len % 2 == 0 && i == len - 1)
    requires i / 2 < ChromaSamples(len) && nearUv == Sample(near, i / 2) && farUv == Sample(far, i / 2)
    requires dst[..] == Put(s0, 0, UpsampledRow(y, near, far, len, i))
    modifies dst
    ensures dst[..] == Put(s0, 0, UpsampledRow(y, near, far, len, i + 1))
  {
    hide UpsampledRow, PixelChroma, Put, LowLane, HighLane, Mix2, Mix4;
    EdgeChroma(near, far, len, i);
    var uv0 := EdgeUv(nearUv, farUv);
    StorePixel(dst, s0, y, near, far, len, i, LowLane(uv0), HighLane(uv0));
  }

  /** The two upsample calls of pixels 2x - 1 and 2x of one row, given their packed chroma. */
  method StorePair(dst: array<byte>, ghost s0: seq<byte>, y: seq<byte>, ghost near: ChromaLine, ghost far: ChromaLine,
                   len: nat, x: nat, uv0: u32, uv1: u32)
    requires 1 <= x && 2 * x < len <= |y| && ChromaFits(near, len) && ChromaFits(far, len) && XSTEP * len <= |s0| == dst.Length
    requires LowLane(uv0) == PixelChroma(near.u, far.u, len, 2 * x - 1) && HighLane(uv0) == PixelChroma(near.v, far.v, len, 2 * x - 1)
    requires LowLane(uv1) == PixelChroma(near.u, far.u, len, 2 * x) && HighLane(uv1) == PixelChroma(near.v, far.v, len, 2 * x)
    requires dst[..] == Put(s0, 0, UpsampledRow(y, near, far, len, 2 * x - 1))
    modifies dst
    ensures dst[..] == Put(s0, 0, UpsampledRow(y, near, far, len, 2 * x + 1))
  {
    hide UpsampledRow, PixelChroma, Put, LowLane, HighLane, Mix2, Mix4;
    StorePixel(dst, s0, y, near, far, len, 2 * x - 1, LowLane(uv0), HighLane(uv0));
    StorePixel(dst, s0, y, near, far, len, 2 * x, LowLane(uv1), HighLane(uv1));
  }

  /**
   * The pixel-pair loop of do_upsample_line_pair: for x = 1 ..= (len - 1) / 2
   * it stores pixels 2x - 1 and 2x of the top row and, if present, of the
   * bottom row, carrying the left samples tl_uv and l_uv from one iteration
   * to the next; on exit they hold the last samples of both chroma lines.
   */
  method PixelPairs(topY: seq<byte>, bottom: Option<(seq<byte>, array<byte>)>, topU: seq<byte>, topV: seq<byte>,
                    curU: seq<byte>, curV: seq<byte>, topDst: array<byte>, len: nat, ghost top0: seq<byte>, ghost bottom0: seq<byte>)
      returns (tlUv: u32, lUv: u32)
    requires LinePairFits(topY, bottom, ChromaLine(topU, topV), ChromaLine(curU, curV), topDst, len)
    requires |top0| == topDst.Length && (bottom.Some? ==> |bottom0| == bottom.value.1.Length)
    requires topDst[..] == Put(top0, 0, UpsampledRow(topY, ChromaLine(topU, topV), ChromaLine(curU, curV), len, 1))
    requires bottom.Some? ==>
      bottom.value.1[..] == Put(bottom0, 0, UpsampledRow(bottom.value.0, ChromaLine(curU, curV), ChromaLine(topU, topV), len, 1))
    modifies Outputs(topDst, bottom)
    ensures var last := (len - 1) / 2; tlUv == Sample(ChromaLine(topU, topV), last) && lUv == Sample(ChromaLine(curU, curV), last)
    ensures var n := 2 * ((len - 1) / 2) + 1;
      topDst[..] == Put(top0, 0, UpsampledRow(topY, ChromaLine(topU, topV), ChromaLine(curU, curV), len, n))
    ensures var n := 2 * ((len - 1) / 2) + 1; bottom.Some? ==>
      bottom.value.1[..] == Put(bottom0, 0, UpsampledRow(bottom.value.0, ChromaLine(curU, curV), ChromaLine(topU, topV), len, n))
  {
    hide UpsampledRow, PixelChroma, Put, InteriorUv, EdgeUv, LowLane, HighLane, LoadUv, Mix2, Mix4;
    ghost var top, cur := ChromaLine(topU, topV), ChromaLine(curU, curV);
    var lastPixelPair := (len - 1) / 2;
    tlUv := LoadUv(topU[0], topV[0]);
    lUv := LoadUv(curU[0], curV[0]);
    for x := 1 to lastPixelPair + 1
      invariant tlUv == Sample(top, x - 1) && lUv == Sample(cur, x - 1)
      invariant topDst[..] == Put(top0, 0, UpsampledRow(topY, top, cur, len, 2 * x - 1))
      invariant bottom.Some? ==> bottom.value.1[..] == Put(bottom0, 0, UpsampledRow(bottom.value.0, cur, top, len, 2 * x - 1))
    {
      var tUv := LoadUv(topU[x], topV[x]);  // top sample
      var uv := LoadUv(curU[x], curV[x]);   // sample
      PairChroma(top, cur, len, x);
      var r := InteriorUv(tlUv, tUv, lUv, uv);
      StorePair(topDst, top0, topY, top, cur, len, x, r.top0, r.top1);
      if bottom.Some? {
        StorePair(bottom.value.1, bottom0, bottom.value.0, cur, top, len, x, r.bottom0, r.bottom1);
      }
      tlUv := tUv;
      lUv := uv;
    }
  }

  /**
   * FancyUpsampler::do_upsample_line_pair for YuvToRgbaUpsampler: the top
   * row is written in full with the chroma interpolated towards the top
   * chroma line, the bottom row (when there is one) with the chroma
   * interpolated towards the current line; nothing past the len pixels of a
   * row changes, and without a bottom row only the top output is written.
   */
  method DoUpsampleLinePair(topY: seq<byte>, bottom: Option<(seq<byte>, array<byte>)>, topU: seq<byte>, topV: seq<byte>,
                            curU: seq<byte>, curV: seq<byte>, topDst: array<byte>, len: nat)
    requires LinePairFits(topY, bottom, ChromaLine(topU, topV), ChromaLine(curU, curV), topDst, len)
    modifies Outputs(topDst, bottom)
    ensures topDst[..] == Put(old(topDst[..]), 0, UpsampledRow(topY, ChromaLine(topU, topV), ChromaLine(curU, curV), len, len))
    ensures bottom.Some? ==>
      bottom.value.1[..] == Put(old(bottom.value.1[..]), 0, UpsampledRow(bottom.value.0, ChromaLine(curU, curV), ChromaLine(topU, topV), len, len))
  {
    hide UpsampledRow, PixelChroma, Put, InteriorUv, EdgeUv, LowLane, HighLane, LoadUv, Mix2, Mix4;
    ghost var top, cur := ChromaLine(topU, topV), ChromaLine(curU, curV);
    ghost var top0 := topDst[..];
    ghost var bottom0 := if bottom.Some? then bottom.value.1[..] else [];
    PutEmpty(top0);
    PutEmpty(bottom0);
    var lastPixelPair := (len - 1) / 2;
    var tlUv := LoadUv(topU[0], topV[0]);  // top-left sample
    var lUv := LoadUv(curU[0], curV[0]);   // left sample
    StoreEdge(topDst, top0, topY, top, cur, len, 0, tlUv, lUv);
    if bottom.Some? {
      StoreEdge(bottom.value.1, bottom0, bottom.value.0, cur, top, len, 0, lUv, tlUv);
    }
    tlUv, lUv := PixelPairs(topY, bottom, topU, topV, curU, curV, topDst, len, top0, bottom0);
    if len % 2 == 0 {
      StoreEdge(topDst, top0, topY, top, cur, len, len - 1, tlUv, lUv);
      if bottom.Some? {
        StoreEdge(bottom.value.1, bottom0, bottom.value.0, cur, top, len, len - 1, lUv, tlUv);
      }
    }
  }

  /** Storing no bytes changes nothing. */
  lemma PutEmpty(s: seq<byte>)
    ensures Put(s, 0, []) == s
  {
  }

  /** Storing a whole buffer's worth of bytes replaces it. */
  lemma PutWhole(s: seq<byte>, w: seq<byte>)
    requires |w| == |s|
    ensures Put(s, 0, w) == w
  {
  }

  /**
   * ffi_upsample_line_pair: len must be non-zero, the luma and output rows
   * are len pixels long and each chroma line holds (len - 1) / 2 + 1
   * samples; the bottom row is absent when either of its pointers is null.
   * Raw pointers are modelled as the slices built from them.
   */
  method FfiUpsampleLinePair(topY: seq<byte>, bottomY: Option<seq<byte>>, topU: seq<byte>, topV: seq<byte>,
                             curU: seq<byte>, curV: seq<byte>, topDst: array<byte>, bottomDst: array?<byte>, len: nat)
    requires len != 0 && len < 0x1_0000_0000
    requires |topY| == len && topDst.Length == XSTEP * len
    requires |topU| == |topV| == |curU| == |curV| == ChromaSamples(len)
    requires bottomY.Some? && bottomDst != null ==> |bottomY.value| == len && bottomDst.Length == XSTEP * len && bottomDst != topDst
    modifies topDst, bottomDst
    ensures topDst[..] == UpsampledRow(topY, ChromaLine(topU, topV), ChromaLine(curU, curV), len, len)
    ensures bottomY.Some? && bottomDst != null ==>
      bottomDst[..] == UpsampledRow(bottomY.value, ChromaLine(curU, curV), ChromaLine(topU, topV), len, len)
    ensures bottomDst != null && bottomDst != topDst && bottomY.None? ==> bottomDst[..] == old(bottomDst[..])
  {
    hide UpsampledRow, PixelChroma, Put, LoadUv, Mix2, Mix4, Rgb;
    var bottom: Option<(seq<byte>, array<byte>)> := None;
    if bottomY.Some? && bottomDst != null {
      bottom := Some((bottomY.value, bottomDst));
    }
    ghost var top0 := topDst[..];
    ghost var bottom0 := if bottomDst != null then bottomDst[..] else [];
    DoUpsampleLinePair(topY, bottom, topU, topV, curU, curV, topDst, len);
    PutWhole(top0, UpsampledRow(topY, ChromaLine(topU, topV), ChromaLine(curU, curV), len, len));
    if bottom.Some? {
      PutWhole(bottom0, UpsampledRow(bottomY.value, ChromaLine(curU, curV), ChromaLine(topU, topV), len, len));
    }
  }

  // ---------------------------------------------------------------------------
  // Properties

  /** Every sample of the chroma line c lies in [lo, hi] (u lane and v lane bounds apart). */
  predicate SamplesWithin(c: seq<byte>, lo: int, hi: int)
  {
    forall x :: 0 <= x < |c| ==> lo <= c[x] <= hi
  }

  /** Mix4 is a weighted average: it lies between the smallest and the largest of its samples. */
  lemma Mix4Within(a: byte, b: byte, c: byte, d: byte, lo: int, hi: int)
    requires lo <= a <= hi && lo <= b <= hi && lo <= c <= hi && lo <= d <= hi
    ensures lo <= Mix4(a, b, c, d) <= hi
  {
    DivMonotone(16 * lo, 9 * a + 3 * b + 3 * c + d + 8, 16);
    DivMonotone(9 * a + 3 * b + 3 * c + d + 8, 16 * hi + 8, 16);
  }

  /** Mix2 is a weighted average of its two samples. */
  lemma Mix2Within(a: byte, b: byte, lo: int, hi: int)
    requires lo <= a <= hi && lo <= b <= hi
    ensures lo <= Mix2(a, b) <= hi
  {
    DivMonotone(4 * lo, 3 * a + b + 2, 4);
    DivMonotone(3 * a + b + 2, 4 * hi + 2, 4);
  }

  /**
   * Interpolation never leaves the range of the chroma samples: when both
   * lines lie in [lo, hi], so does the chroma of every pixel. In particular
   * flat chroma (lo == hi == c) is reproduced exactly.
   */
  lemma PixelChromaWithin(near: seq<byte>, far: seq<byte>, len: nat, i: nat, lo: int, hi: int)
    requires i < len && |near| >= ChromaSamples(len) && |far| >= ChromaSamples(len)
    requires SamplesWithin(near, lo, hi) && SamplesWithin(far, lo, hi)
    ensures lo <= PixelChroma(near, far, len, i) <= hi
  {
    var n := i / 2;
    if i == 0 || (len % 2 == 0 && i == len - 1) {
      Mix2Within(near[n], far[n], lo, hi);
    } else {
      var f := if i % 2 == 1 then n + 1 else n - 1;
      Mix4Within(near[n], near[f], far[n], far[f], lo, hi);
    }
  }

  /** Point conversion of the first n pixels of luma y with one chroma value for all. */
  function FlatRow(y: seq<byte>, u: byte, v: byte, n: nat): (r: seq<byte>)
    requires n <= |y|
    ensures |r| == XSTEP * n
  {
    if n == 0 then [] else FlatRow(y, u, v, n - 1) + RgbaPixel(y[n - 1], u, v)
  }

  /**
   * With flat chroma (every u sample cu, every v sample cv, in both lines)
   * the fancy upsampler gives exactly the point conversion with (cu, cv).
   */
  lemma {:induction false} FlatChromaRow(y: seq<byte>, near: ChromaLine, far: ChromaLine, len: nat, n: nat, cu: byte, cv: byte)
    requires n <= len <= |y| && ChromaFits(near, len) && ChromaFits(far, len)
    requires SamplesWithin(near.u, cu, cu) && SamplesWithin(far.u, cu, cu)
    requires SamplesWithin(near.v, cv, cv) && SamplesWithin(far.v, cv, cv)
    ensures UpsampledRow(y, near, far, len, n) == FlatRow(y, cu, cv, n)
    decreases n
  {
    hide PixelChroma, Rgb, Mix2, Mix4, SamplesWithin, RgbaPixel;
    if n > 0 {
      FlatChromaRow(y, near, far, len, n - 1, cu, cv);
      PixelChromaWithin(near.u, far.u, len, n - 1, cu, cu);
      PixelChromaWithin(near.v, far.v, len, n - 1, cv, cv);
    }
  }
}
