// The clipping tables of the decoder (VP8_KCLIP1, VP8_KSCLIP1, VP8_KSCLIP2,
// VP8_KABS0, defined in a table module outside this model) written as the
// total functions they tabulate, plus clip_8b from src/dec.rs.
module ClipTables {
  import opened Dsp

  /** VP8_KCLIP1: saturates to [0, 255]. */
  function Clip1(v: int): (r: byte)
    ensures 0 <= v <= 255 ==> r == v
    ensures v < 0 ==> r == 0
    ensures v > 255 ==> r == 255
  {
    if v < 0 then 0 else if v > 255 then 255 else v
  }

  /** VP8_KSCLIP1: saturates to [-128, 127]. */
  function SClip1(v: int): (r: int)
    ensures -128 <= r <= 127
    ensures -128 <= v <= 127 ==> r == v
    ensures v < -128 ==> r == -128
    ensures v > 127 ==> r == 127
  {
    if v < -128 then -128 else if v > 127 then 127 else v
  }

  /** VP8_KSCLIP2: saturates to [-16, 15]. */
  function SClip2(v: int): (r: int)
    ensures -16 <= r <= 15
    ensures -16 <= v <= 15 ==> r == v
    ensures v < -16 ==> r == -16
    ensures v > 15 ==> r == 15
  {
    if v < -16 then -16 else if v > 15 then 15 else v
  }

  /** VP8_KABS0: absolute value. */
  function Abs0(v: int): (r: nat)
    ensures r == v || r == -v
  {
    if v < 0 then -v else v
  }

  /**
   * clip_8b: a value whose bits above the low eight are all clear is kept,
   * otherwise negative values give 0 and the rest 255.
   */
  function Clip8b(v: int): (r: byte)
  {
    if 0 <= v < 256 then v else if v < 0 then 0 else 255
  }

  /** clip_8b and VP8_KCLIP1 saturate identically. */
  lemma Clip8bIsClip1(v: int)
    ensures Clip8b(v) == Clip1(v)
  {
  }
}
