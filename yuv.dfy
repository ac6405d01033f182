// YUV -> RGB conversion of the decoder's output stage (src/yuv.rs): the
// ITU-R BT.601 fixed-point formulas
//   R = (19077 . y             + 26149 . v - 14234) >> 6
//   G = (19077 . y -  6419 . u - 13320 . v +  8708) >> 6
//   B = (19077 . y + 33050 . u             - 17685) >> 6
// with a . b = (a * b) >> 8, clipped to a byte, and the writers that store
// one pixel in the RGB, BGR, RGB565, RGBA4444, RGBA, BGRA and ARGB layouts.
//
// Every intermediate value stays far inside i32 for byte inputs, so i32
// arithmetic is modelled on unbounded integers; `>>` is Dafny's `/` by a
// power of two (an arithmetic shift floors).
//
// A writer's output `&mut [u8; N]` is modelled as the N bytes of an array
// starting at `off`; this is also how RGBA, BGRA and ARGB hand a 3-byte
// sub-slice of their own output to the RGB/BGR writer.
module Yuv {
  import opened Dsp
  import opened Arith

  /** YUV_FIX2: fixed-point precision for YUV -> RGB. */
  const YUV_FIX2: nat := 6
  /** YUV_MASK2 = (256 << YUV_FIX2) - 1. */
  const YUV_MASK2: int := 16383

  /** mult_hi: v * coeff with 8 fractional bits dropped. */
  function MultHi(v: int, coeff: int): int
  {
    (v * coeff) / 256
  }

  /**
   * `v & !YUV_MASK2 == 0` on an i32: the bits above the low 14 are all clear,
   * which for a two's-complement value means 0 <= v <= YUV_MASK2 (a negative
   * value has its sign bit set). MaskTest states this on the 32-bit pattern.
   */
  predicate LowBitsOnly(v: int)
  {
    0 <= v <= YUV_MASK2
  }

  /** x & !0x3fff == 0 exactly when x, read unsigned, is below 0x4000. */
  lemma MaskTest(x: bv32)
    ensures (x & !0x3fff == 0) <==> x < 0x4000
  {
  }

  /** vp8_clip8: descale by YUV_FIX2 when in range, else saturate by sign. */
  function Clip8(v: int): (r: byte)
    ensures v < 0 ==> r == 0
    ensures 0 <= v < 256 * 64 ==> r == v / 64
    ensures v >= 256 * 64 ==> r == 255
  {
    if LowBitsOnly(v) then (v / 64) % 256 else if v < 0 then 0 else 255
  }

  /** vp8_yuv_to_r. */
  function YuvToR(y: byte, v: byte): byte
  {
    Clip8(MultHi(y, 19077) + MultHi(v, 26149) - 14234)
  }

  /** vp8_yuv_to_g. */
  function YuvToG(y: byte, u: byte, v: byte): byte
  {
    Clip8(MultHi(y, 19077) - MultHi(u, 6419) - MultHi(v, 13320) + 8708)
  }

  /** vp8_yuv_to_b. */
  function YuvToB(y: byte, u: byte): byte
  {
    Clip8(MultHi(y, 19077) + MultHi(u, 33050) - 17685)
  }

  // ---------------------------------------------------------------------------
  // Pixel layouts

  /** The three bytes vp8_yuv_to_rgb stores. */
  function Rgb(y: byte, u: byte, v: byte): seq<byte>
  {
    [YuvToR(y, v), YuvToG(y, u, v), YuvToB(y, u)]
  }

  /** The three bytes vp8_yuv_to_bgr stores. */
  function Bgr(y: byte, u: byte, v: byte): seq<byte>
  {
    [YuvToB(y, u), YuvToG(y, u, v), YuvToR(y, v)]
  }

  /**
   * For a byte x: x & 0xf8 is x rounded down to a multiple of 8, x >> 5 is
   * x / 32, (x << 3) & 0xe0 (the shift is on u8 and drops the top bits) is
   * bits 2..4 of x moved to bits 5..7, and `|` of fields with disjoint bits
   * is their sum. Bits states these on 8-bit patterns; the packers below use
   * the arithmetic forms.
   */
  lemma Bits(x: bv8, z: bv8)
    ensures x & 0xf8 == x / 8 * 8 && x & 0xf0 == x / 16 * 16
    ensures x >> 5 == x / 32 && x >> 4 == x / 16 && x >> 3 == x / 8
    ensures (x << 3) & 0xe0 == (x / 4 % 8) * 32
    ensures (x & 0xf8) | (z >> 5) == (x & 0xf8) + (z >> 5)
    ensures ((x << 3) & 0xe0) | (z >> 3) == ((x << 3) & 0xe0) + (z >> 3)
    ensures (x & 0xf0) | (z >> 4) == (x & 0xf0) + (z >> 4)
    ensures (x & 0xf0) | 0x0f == (x & 0xf0) + 0x0f
  {
  }

  /** rg = (r & 0xf8) | (g >> 5), gb = ((g << 3) & 0xe0) | (b >> 3), in the arithmetic forms of Bits. */
  function Pack565(r: byte, g: byte, b: byte): seq<byte>
  {
    [r / 8 * 8 + g / 32, (g / 4 % 8) * 32 + b / 8]
  }

  /** rg = (r & 0xf0) | (g >> 4), ba = (b & 0xf0) | 0x0f, in the arithmetic forms of Bits. */
  function Pack4444(r: byte, g: byte, b: byte): seq<byte>
  {
    [r / 16 * 16 + g / 16, b / 16 * 16 + 0x0f]
  }

  /** The two bytes vp8_yuv_to_rgb_565 stores. */
  function Rgb565(y: byte, u: byte, v: byte): seq<byte>
  {
    Pack565(YuvToR(y, v), YuvToG(y, u, v), YuvToB(y, u))
  }

  /** The two bytes vp8_yuv_to_rgba_4444 stores. */
  function Rgba4444(y: byte, u: byte, v: byte): seq<byte>
  {
    Pack4444(YuvToR(y, v), YuvToG(y, u, v), YuvToB(y, u))
  }

  /** `s` with the bytes of `w` stored from position `off` on. */
  function Put(s: seq<byte>, off: int, w: seq<byte>): (r: seq<byte>)
    requires 0 <= off && off + |w| <= |s|
    ensures |r| == |s|
    ensures forall i :: 0 <= i < |w| ==> r[off + i] == w[i]
    ensures forall j :: 0 <= j < |s| && !(off <= j < off + |w|) ==> r[j] == s[j]
  {
    s[..off] + w + s[off + |w|..]
  }

  // ---------------------------------------------------------------------------
  // Writers

  /** vp8_yuv_to_rgb into dst[off..off+3]. */
  method YuvToRgb(y: byte, u: byte, v: byte, dst: array<byte>, off: int)
    requires 0 <= off && off + 3 <= dst.Length
    modifies dst
    ensures dst[..] == Put(old(dst[..]), off, Rgb(y, u, v))
  {
    hide YuvToR, YuvToG, YuvToB;
    dst[off] := YuvToR(y, v);
    dst[off + 1] := YuvToG(y, u, v);
    dst[off + 2] := YuvToB(y, u);
  }

  /** vp8_yuv_to_bgr into dst[off..off+3]. */
  method YuvToBgr(y: byte, u: byte, v: byte, dst: array<byte>, off: int)
    requires 0 <= off && off + 3 <= dst.Length
    modifies dst
    ensures dst[..] == Put(old(dst[..]), off, Bgr(y, u, v))
  {
    hide YuvToR, YuvToG, YuvToB;
    dst[off] := YuvToB(y, u);
    dst[off + 1] := YuvToG(y, u, v);
    dst[off + 2] := YuvToR(y, v);
  }

  /** vp8_yuv_to_rgb_565 into dst[off..off+2]. */
  method YuvToRgb565(y: byte, u: byte, v: byte, dst: array<byte>, off: int)
    requires 0 <= off && off + 2 <= dst.Length
    modifies dst
    ensures dst[..] == Put(old(dst[..]), off, Rgb565(y, u, v))
  {
    hide YuvToR, YuvToG, YuvToB;
    var r := YuvToR(y, v);
    var g := YuvToG(y, u, v);
    var b := YuvToB(y, u);
    dst[off] := r / 8 * 8 + g / 32;
    dst[off + 1] := (g / 4 % 8) * 32 + b / 8;
  }

  /** vp8_yuv_to_rgba_4444 into dst[off..off+2]. */
  method YuvToRgba4444(y: byte, u: byte, v: byte, dst: array<byte>, off: int)
    requires 0 <= off && off + 2 <= dst.Length
    modifies dst
    ensures dst[..] == Put(old(dst[..]), off, Rgba4444(y, u, v))
  {
    hide YuvToR, YuvToG, YuvToB;
    var r := YuvToR(y, v);
    var g := YuvToG(y, u, v);
    var b := YuvToB(y, u);
    dst[off] := r / 16 * 16 + g / 16;
    dst[off + 1] := b / 16 * 16 + 0x0f;
  }

  /** vp8_yuv_to_rgba: the RGB writer on bytes 0..3, then opaque alpha at byte 3. */
  method YuvToRgba(y: byte, u: byte, v: byte, dst: array<byte>, off: int)
    requires 0 <= off && off + 4 <= dst.Length
    modifies dst
    ensures dst[..] == Put(old(dst[..]), off, Rgb(y, u, v) + [0xff])
  {
    YuvToRgb(y, u, v, dst, off);
    dst[off + 3] := 0xff;
  }

  /** vp8_yuv_to_bgra: the BGR writer on bytes 0..3, then opaque alpha at byte 3. */
  method YuvToBgra(y: byte, u: byte, v: byte, dst: array<byte>, off: int)
    requires 0 <= off && off + 4 <= dst.Length
    modifies dst
    ensures dst[..] == Put(old(dst[..]), off, Bgr(y, u, v) + [0xff])
  {
    YuvToBgr(y, u, v, dst, off);
    dst[off + 3] := 0xff;
  }

  /** vp8_yuv_to_argb: opaque alpha at byte 0, then the RGB writer on bytes 1..4. */
  method YuvToArgb(y: byte, u: byte, v: byte, dst: array<byte>, off: int)
    requires 0 <= off && off + 4 <= dst.Length
    modifies dst
    ensures dst[..] == Put(old(dst[..]), off, [0xff] + Rgb(y, u, v))
  {
    dst[off] := 0xff;
    YuvToRgb(y, u, v, dst, off + 1);
  }

  // ---------------------------------------------------------------------------
  // Properties

  /** Studio black, studio white and mid gray (the last lands on 130, not 128). */
  lemma RgbAnchors()
    ensures Rgb(16, 128, 128) == [0, 0, 0]
    ensures Rgb(235, 128, 128) == [255, 255, 255]
    ensures Rgb(128, 128, 128) == [130, 130, 130]
  {
    assert MultHi(128, 26149) == 13074 && MultHi(128, 6419) == 3209;
    assert MultHi(128, 13320) == 6660 && MultHi(128, 33050) == 16525;
    assert MultHi(16, 19077) == 1192 && Clip8(32) == 0 && Clip8(31) == 0;
    assert MultHi(235, 19077) == 17512 && Clip8(16352) == 255 && Clip8(16351) == 255;
    assert MultHi(128, 19077) == 9538 && Clip8(8378) == 130 && Clip8(8377) == 130;
  }

  /** The BGR writer stores the RGB bytes in reverse order. */
  lemma BgrIsReversedRgb(y: byte, u: byte, v: byte)
    ensures forall i :: 0 <= i < 3 ==> Bgr(y, u, v)[i] == Rgb(y, u, v)[2 - i]
  {
  }

  /**
   * RGB565 as a big-endian 16-bit word is rrrrrggg gggbbbbb: the top five
   * bits of R, the top six of G and the top five of B.
   */
  lemma Pack565Layout(r: byte, g: byte, b: byte)
    ensures var p := Pack565(r, g, b);
      (p[0] as int) * 256 + p[1] == (r / 8) * 2048 + (g / 4) * 32 + b / 8
  {
    assert g / 4 == (g / 32) * 8 + g / 4 % 8;
  }

  /**
   * RGBA4444 as a big-endian 16-bit word is rrrrgggg bbbbaaaa with the alpha
   * nibble all ones: the top four bits of R, G and B, then 0xf.
   */
  lemma Pack4444Layout(r: byte, g: byte, b: byte)
    ensures var p := Pack4444(r, g, b);
      (p[0] as int) * 256 + p[1] == (r / 16) * 4096 + (g / 16) * 256 + (b / 16) * 16 + 0x0f
    ensures Pack4444(r, g, b)[1] % 16 == 0x0f
  {
  }

  /** mult_hi with a non-negative coefficient is non-decreasing in v. */
  lemma MultHiMonotone(v: int, v': int, coeff: int)
    requires v <= v' && coeff >= 0
    ensures MultHi(v, coeff) <= MultHi(v', coeff)
  {
    if coeff > 0 {
      MulMonotone(coeff, v, v');
      assert v * coeff <= v' * coeff;
    }
    DivMonotone(v * coeff, v' * coeff, 256);
  }

  /** vp8_clip8 is non-decreasing. */
  lemma Clip8Monotone(a: int, b: int)
    requires a <= b
    ensures Clip8(a) <= Clip8(b)
  {
    if 0 <= a && b < 256 * 64 {
      DivMonotone(a, b, 64);
    }
  }

  /** For fixed u and v, each of R, G and B is non-decreasing in y. */
  lemma RgbMonotoneInY(y: byte, y': byte, u: byte, v: byte)
    requires y <= y'
    ensures YuvToR(y, v) <= YuvToR(y', v)
    ensures YuvToG(y, u, v) <= YuvToG(y', u, v)
    ensures YuvToB(y, u) <= YuvToB(y', u)
  {
    hide MultHi, Clip8;
    MultHiMonotone(y, y', 19077);
    Clip8Monotone(MultHi(y, 19077) + MultHi(v, 26149) - 14234, MultHi(y', 19077) + MultHi(v, 26149) - 14234);
    Clip8Monotone(MultHi(y, 19077) - MultHi(u, 6419) - MultHi(v, 13320) + 8708,
                  MultHi(y', 19077) - MultHi(u, 6419) - MultHi(v, 13320) + 8708);
    Clip8Monotone(MultHi(y, 19077) + MultHi(u, 33050) - 17685, MultHi(y', 19077) + MultHi(u, 33050) - 17685);
  }
}
