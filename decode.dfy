// Colourspace-mode predicates of the decoding API (src/decode.rs): the
// WEBP_CSP_MODE constants and the three predicates the output writers use to
// choose between RGB and YUV output and to decide whether alpha is present.
module Decode {
  /** WEBP_CSP_MODE is a u32. */
  type CspMode = x: int | 0 <= x < 0x1_0000_0000

  const MODE_RGB: CspMode := 0
  const MODE_RGBA: CspMode := 1
  const MODE_BGR: CspMode := 2
  const MODE_BGRA: CspMode := 3
  const MODE_ARGB: CspMode := 4
  const MODE_RGBA_4444: CspMode := 5
  const MODE_RGB_565: CspMode := 6
  // RGB-premultiplied modes.
  const MODE_rgbA: CspMode := 7
  const MODE_bgrA: CspMode := 8
  const MODE_Argb: CspMode := 9
  const MODE_rgbA_4444: CspMode := 10
  // YUV modes come after the RGB ones.
  const MODE_YUV: CspMode := 11
  const MODE_YUVA: CspMode := 12
  const MODE_LAST: CspMode := 13

  /** The premultiplied modes, as a set. */
  const PremultipliedModes: set<int> := {7, 8, 9, 10}

  /** The modes that carry an alpha channel, as a set. */
  const AlphaModes: set<int> := {1, 3, 4, 5, 7, 8, 9, 10, 12}

  /** WebPIsPremultipliedMode: 1 for rgbA, bgrA, Argb and rgbA_4444, else 0. */
  function IsPremultipliedMode(mode: CspMode): (r: int)
    ensures r == 0 || r == 1
    ensures r == 1 <==> mode in PremultipliedModes
  {
    if mode == MODE_rgbA || mode == MODE_bgrA || mode == MODE_Argb || mode == MODE_rgbA_4444 then 1 else 0
  }

  /** WebPIsAlphaMode: the straight alpha modes, YUVA, and every premultiplied mode. */
  function IsAlphaMode(mode: CspMode): (r: int)
    ensures r == 0 || r == 1
    ensures r == 1 <==> mode in AlphaModes
  {
    if mode == MODE_RGBA || mode == MODE_BGRA || mode == MODE_ARGB || mode == MODE_RGBA_4444
       || mode == MODE_YUVA || IsPremultipliedMode(mode) != 0
    then 1 else 0
  }

  /** WebPIsRGBMode: the RGB modes are exactly those below MODE_YUV. */
  function IsRGBMode(mode: CspMode): (r: int)
    ensures r == 0 || r == 1
    ensures r == 1 <==> mode <= MODE_rgbA_4444
  {
    if mode < MODE_YUV then 1 else 0
  }

  /** Every premultiplied mode is both an alpha mode and an RGB mode. */
  lemma PremultipliedIsAlphaRgb(mode: CspMode)
    requires IsPremultipliedMode(mode) == 1
    ensures IsAlphaMode(mode) == 1 && IsRGBMode(mode) == 1
  {
  }

  /** RGB, BGR, RGB_565 and YUV have no alpha channel; YUVA is the only alpha mode that is not RGB. */
  lemma NonAlphaModes()
    ensures IsAlphaMode(MODE_RGB) == 0 && IsAlphaMode(MODE_BGR) == 0
    ensures IsAlphaMode(MODE_RGB_565) == 0 && IsAlphaMode(MODE_YUV) == 0
    ensures forall m: CspMode :: IsAlphaMode(m) == 1 && IsRGBMode(m) == 0 ==> m == MODE_YUVA
  {
  }
}
