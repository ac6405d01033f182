// RGB -> YUV conversion of the encoder-side helpers (c_src/src/dsp/yuv.h):
// VP8ClipUV, VP8RGBToY, VP8RGBToU and VP8RGBToV with ITU-R BT.601 constants
// in 16-bit fixed point. C `int` arithmetic is modelled on unbounded
// integers; for the input ranges the lemmas assume no intermediate value
// leaves the 32-bit range. `>>` on a negative int is taken to be the
// arithmetic (flooring) shift, which Dafny's `/` by a power of two is.
module RgbToYuv {
  import opened Arith

  /** YUV_FIX: fixed-point precision for RGB -> YUV. */
  const YUV_FIX: nat := 16
  /** YUV_HALF = 1 << (YUV_FIX - 1). */
  const YUV_HALF: int := 32768
  /** 1 << YUV_FIX. */
  const FIX_ONE: int := 65536
  /** 1 << (YUV_FIX + 2): the scale of U and V, computed on sums of four pixels. */
  const UV_ONE: int := 262144

  /** VP8ClipUV: descale by YUV_FIX + 2 around 128, then clamp to [0, 255]. */
  function ClipUV(uv: int, rounding: int): (r: int)
    ensures 0 <= r <= 255
    ensures var d := (uv + rounding + 128 * UV_ONE) / UV_ONE; 0 <= d <= 255 ==> r == d
    ensures var d := (uv + rounding + 128 * UV_ONE) / UV_ONE; d < 0 ==> r == 0
    ensures var d := (uv + rounding + 128 * UV_ONE) / UV_ONE; d > 255 ==> r == 255
  {
    var d := (uv + rounding + 128 * UV_ONE) / UV_ONE;
    if 0 <= d < 256 then d else if d < 0 then 0 else 255
  }

  /** VP8RGBToY: (luma + rounding + (16 << YUV_FIX)) >> YUV_FIX, not clipped (16 << 16 = 1048576). */
  function RGBToY(r: int, g: int, b: int, rounding: int): int
  {
    (16839 * r + 33059 * g + 6420 * b + rounding + 1048576) / 65536
  }

  /** VP8RGBToU. */
  function RGBToU(r: int, g: int, b: int, rounding: int): (u: int)
    ensures 0 <= u <= 255
  {
    ClipUV(-9719 * r - 19081 * g + 28800 * b, rounding)
  }

  /** VP8RGBToV. */
  function RGBToV(r: int, g: int, b: int, rounding: int): (v: int)
    ensures 0 <= v <= 255
  {
    ClipUV(28800 * r - 24116 * g - 4684 * b, rounding)
  }

  predicate IsByte(v: int) { 0 <= v <= 255 }

  /**
   * "No need to clip": for 8-bit r, g, b and a rounding below 1 << YUV_FIX,
   * VP8RGBToY lies in [16, 236] and thus is a byte.
   */
  lemma RGBToYNoClip(r: int, g: int, b: int, rounding: int)
    requires IsByte(r) && IsByte(g) && IsByte(b) && 0 <= rounding < FIX_ONE
    ensures 16 <= RGBToY(r, g, b, rounding) <= 236
  {
    assert 0 <= 16839 * r + 33059 * g + 6420 * b <= 14361090;
  }

  /** With the roundings the codec uses (up to YUV_HALF, indeed up to 56829) the range is [16, 235]. */
  lemma RGBToYStudioRange(r: int, g: int, b: int, rounding: int)
    requires IsByte(r) && IsByte(g) && IsByte(b) && 0 <= rounding <= 56829
    ensures 16 <= RGBToY(r, g, b, rounding) <= 235
  {
    assert 0 <= 16839 * r + 33059 * g + 6420 * b <= 14361090;
  }

  /** 235 is not an upper bound for every rounding below 1 << YUV_FIX. */
  lemma RGBToYWhiteAtLargeRounding()
    ensures RGBToY(255, 255, 255, 65535) == 236
  {
  }

  /** Black and white map to the ends of the studio range with rounding YUV_HALF. */
  lemma RGBToYAnchors()
    ensures RGBToY(0, 0, 0, YUV_HALF) == 16
    ensures RGBToY(255, 255, 255, YUV_HALF) == 235
  {
  }

  /** VP8RGBToY is non-decreasing in each of r, g and b. */
  lemma RGBToYMonotone(r: int, g: int, b: int, r': int, g': int, b': int, rounding: int)
    requires r <= r' && g <= g' && b <= b'
    ensures RGBToY(r, g, b, rounding) <= RGBToY(r', g', b', rounding)
  {
    var luma := 16839 * r + 33059 * g + 6420 * b;
    var luma' := 16839 * r' + 33059 * g' + 6420 * b';
    DivMonotone(luma + rounding + 1048576, luma' + rounding + 1048576, 65536);
  }

  /**
   * Gray input has no chroma: each chroma coefficient row sums to zero, so
   * U = V = 128 whenever the rounding stays below 1 << (YUV_FIX + 2).
   */
  lemma GrayHasNeutralChroma(c: int, rounding: int)
    requires 0 <= rounding < UV_ONE
    ensures RGBToU(c, c, c, rounding) == 128
    ensures RGBToV(c, c, c, rounding) == 128
  {
    assert -9719 * c - 19081 * c + 28800 * c == 0;
    assert 28800 * c - 24116 * c - 4684 * c == 0;
    assert (rounding + 128 * UV_ONE) / UV_ONE == 128;
  }
}
