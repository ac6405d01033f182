// The residual dispatchers of the frame decoder (src/frame_dec.rs): the
// non-zero-coefficient bit codes of a macroblock choose, per block, the
// cheapest inverse transform that is still exact for that block.
module FrameDec {
  import opened Dsp
  import opened DecTransform

  /** The 2-bit code of a luma block: bits >> 30 of a u32. */
  function LumaCode(bits: bv32): (c: int)
    ensures 0 <= c <= 3
  {
    (bits >> 30) as int
  }

  /**
   * do_transform on the pixels s, the block at off: code 3 runs
   * transform_two without the second block, code 2 transform_ac3 on in[0 .. 5],
   * code 1 transform_dc(in[0]) and code 0 nothing. Each call takes the slice
   * prefix it needs, and that prefix must exist.
   */
  function DoTransformSpec(bits: bv32, src: seq<int>, s: seq<byte>, off: int): (r: seq<byte>)
    requires TransformFits(bits, |src|, |s|, off)
    ensures |r| == |s|
  {
    match LumaCode(bits)
    case 3 => TransformTwoSpec(s, off, src[..32], false)
    case 2 => TransformAC3Spec(s, off, src[..5])
    case 1 => TransformDCSpec(s, off, src[0])
    case _ => s
  }

  /** The coefficient slice and the pixel slice are long enough for the call the code picks. */
  predicate TransformFits(bits: bv32, nsrc: int, n: int, off: int)
  {
    match LumaCode(bits)
    case 3 => nsrc >= 32 && Window(n, off, 0, 132)
    case 2 => nsrc >= 5 && Window(n, off, 0, 128)
    case 1 => nsrc >= 1 && Window(n, off, 0, 128)
    case _ => true
  }

  /**
   * The coefficients the call the code picks reads are ones it accepts:
   * transform_two's first block within transform_one's stated range, and
   * transform_dc's input below the i16 overflow of in + 4; transform_ac3
   * accepts any.
   */
  predicate CoeffsFit(bits: bv32, src: seq<int>)
  {
    match LumaCode(bits)
    case 3 => |src| >= 16 && CoeffsInRange(src[..16])
    case 1 => |src| >= 1 && DcFits(src[0])
    case _ => true
  }

  method DoTransform(bits: bv32, src: seq<int>, dst: array<byte>, off: int)
    requires TransformFits(bits, |src|, dst.Length, off) && CoeffsFit(bits, src)
    modifies dst
    ensures dst[..] == DoTransformSpec(bits, src, old(dst[..]), off)
  {
    match bits >> 30
    case 3 =>
      assert src[..32][..16] == src[..16];
      TransformTwo(src[..32], dst, off, false);
    case 2 =>
      TransformAC3(src[..5], dst, off);
    case 1 =>
      TransformDC(src[0], dst, off);
    case _ =>
  }

  /**
   * The block's code describes which coefficients are non-zero: any for 3,
   * only in[0], in[1] and in[4] for 2, only the DC for 1, none for 0.
   */
  predicate CodeDescribes(bits: bv32, block: seq<int>)
    requires |block| == 16
  {
    match LumaCode(bits)
    case 3 => true
    case 2 => Ac3Only(block)
    case 1 => DcOnly(block)
    case _ => forall k :: 0 <= k < 16 ==> block[k] == 0
  }

  /**
   * The short cuts are exact: whenever the code describes the block, the
   * dispatched transform gives the same pixels as the full transform_one on
   * the block's 16 coefficients.
   */
  lemma DoTransformIsTransformOne(bits: bv32, src: seq<int>, s: seq<byte>, off: int)
    requires |src| >= 16 && TransformFits(bits, |src|, |s|, off) && Window(|s|, off, 0, 128)
    requires CodeDescribes(bits, src[..16])
    ensures DoTransformSpec(bits, src, s, off) == TransformOneSpec(s, off, src[..16])
  {
    var block := src[..16];
    match LumaCode(bits)
    case 3 =>
      assert src[..32][..16] == block;
    case 2 =>
      TransformOneOfAc3(block);
      assert block[..5] == src[..5];
    case 1 =>
      TransformOneOfDc(block);
    case 0 =>
      TransformOneOfZero(s, off, block);
  }

  //------------------------------------------------------------------------
  // Chroma

  /** Some 2-bit code of the four chroma blocks is non-zero (bits & 0xff). */
  predicate AnyCoeff(bits: bv32) { bits & 0xff != 0 }

  /** Some 2-bit code has its high bit set, i.e. marks AC coefficients (bits & 0xaa). */
  predicate AnyAc(bits: bv32) { bits & 0xaa != 0 }

  /**
   * do_uv_transform on the 8x8 chroma block at off: nothing when no code is
   * set, transform_uv when any block has AC coefficients, transform_dc_uv
   * (each sub-block's DC only) otherwise.
   */
  function DoUVTransformSpec(bits: bv32, src: seq<int>, s: seq<byte>, off: int): (r: seq<byte>)
    requires |src| == 64 && Fits8(|s|, off)
    ensures |r| == |s|
  {
    if !AnyCoeff(bits) then s
    else if AnyAc(bits) then TransformUVSpec(s, off, src)
    else TransformDCUVSpec(s, off, src)
  }

  /**
   * The coefficients the chosen chroma transform reads are ones it accepts:
   * all 64 within transform_one's stated range for transform_uv, the four
   * DCs for transform_dc_uv, none when no code is set.
   */
  predicate UVCoeffsFit(bits: bv32, src: seq<int>)
    requires |src| == 64
  {
    AnyCoeff(bits) ==> if AnyAc(bits) then CoeffsInRange(src) else ChromaDcsFit(src)
  }

  method DoUVTransform(bits: bv32, src: seq<int>, dst: array<byte>, off: int)
    requires |src| == 64 && UVCoeffsFit(bits, src) && Window(dst.Length, off, 0, 132 + 4 * BPS)
    modifies dst
    ensures dst[..] == DoUVTransformSpec(bits, src, old(dst[..]), off)
  {
    if bits & 0xff != 0 {
      if bits & 0xaa != 0 {
        TransformUV(src, dst, off);
      } else {
        TransformDCUV(src, dst, off);
      }
    }
  }

  /** A chroma block with all 64 coefficients zero. */
  predicate ChromaZero(src: seq<int>)
  {
    forall k :: 0 <= k < |src| ==> src[k] == 0
  }

  /**
   * The chroma short cuts are exact: when the codes tell the truth (no code
   * set only for all-zero coefficients, no AC mark only when each sub-block
   * has only its DC), do_uv_transform gives the pixels of the full
   * transform_uv.
   */
  lemma DoUVTransformIsTransformUV(bits: bv32, src: seq<int>, s: seq<byte>, off: int)
    requires |src| == 64 && Fits8(|s|, off)
    requires !AnyCoeff(bits) ==> ChromaZero(src)
    requires !AnyAc(bits) ==> ChromaDcOnly(src)
    ensures DoUVTransformSpec(bits, src, s, off) == TransformUVSpec(s, off, src)
  {
    if !AnyAc(bits) {
      TransformDCUVIsTransformUV(s, off, src);
      if !AnyCoeff(bits) {
        assert src[0] == 0 && src[16] == 0 && src[32] == 0 && src[48] == 0;
        assert TransformDCUVSpec(s, off, src) == s;
      }
    }
  }

  /** do_uv_transform touches nothing past the 8 x 8 block. */
  lemma DoUVTransformAppend(bits: bv32, src: seq<int>, s: seq<byte>, t: seq<byte>, off: int)
    requires |src| == 64 && Fits8(|s|, off)
    ensures DoUVTransformSpec(bits, src, s + t, off) == DoUVTransformSpec(bits, src, s, off) + t
  {
    if AnyCoeff(bits) {
      if AnyAc(bits) {
        TransformUVAppend(s, t, off, src);
      } else {
        TransformDCUVAppend(s, t, off, src);
      }
    }
  }
}
