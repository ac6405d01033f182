// Macroblock reconstruction and in-loop filter sequencing of the VP8
// decoder (src/vp8_dec.rs): the prediction-mode mapping, the work buffer
// yuv_b in which one macroblock is predicted and corrected, the rotation
// of the left samples and the caching of the top samples between
// macroblocks, the copy of finished pixels into the row caches, and the
// order in which do_filter applies the edge filters.
//
// yuv_b is BPS = 32 bytes wide: 17 rows for luma (the row above the
// 16 x 16 block and the block) and 9 for chroma (the row above and the two
// 8 x 8 blocks, u at column 8 and v at column 24). Column -1 of each block
// holds its left neighbours, columns -4 .. -1 the four the rotation keeps.
module Vp8Dec {
  import opened Dsp
  import opened DecPredict
  import opened DecTransform
  import opened FrameDec
  import opened DecFilter
  import opened OffsetRef
  import opened Arith

  //------------------------------------------------------------------------
  // Layout of yuv_b

  const YUV_SIZE: int := BPS * 17 + BPS * 9
  /** Pixel (0, 0) of the luma block: row 1, column 8. */
  const Y_OFF: int := BPS * 1 + 8
  /** Pixel (0, 0) of the u block: row 18, column 8. */
  const U_OFF: int := Y_OFF + BPS * 16 + BPS
  /** Pixel (0, 0) of the v block: row 18, column 24. */
  const V_OFF: int := U_OFF + 16

  //------------------------------------------------------------------------
  // Prediction modes (get_mode, vp8_pred_luma4/16, vp8_pred_chroma8)

  /** The 4 x 4 intra modes of src/common_dec.rs. */
  const B_DC_PRED: byte := 0
  const B_TM_PRED: byte := 1
  const B_VE_PRED: byte := 2
  const B_HE_PRED: byte := 3
  const B_RD_PRED: byte := 4
  const B_VR_PRED: byte := 5
  const B_LD_PRED: byte := 6
  const B_VL_PRED: byte := 7
  const B_HD_PRED: byte := 8
  const B_HU_PRED: byte := 9

  /** The 16 x 16 and chroma predictors. */
  datatype PredMode = Dc | Tm | Ve | He | DcNoTop | DcNoLeft | DcNoTopLeft

  /** The predictor reads the row above the block. */
  predicate UsesTop(m: PredMode)
  {
    m == Dc || m == Tm || m == Ve || m == DcNoLeft
  }

  /** The predictor reads the column left of the block. */
  predicate UsesLeft(m: PredMode)
  {
    m == Dc || m == Tm || m == He || m == DcNoTop
  }

  /**
   * get_mode: mode 0 (DC) becomes the DC variant that averages only the
   * neighbours that exist at (mb_x, mb_y); 1 .. 6 name fixed predictors;
   * anything else panics (None).
   */
  function GetMode(mbX: nat, mbY: nat, mode: byte): (r: Option<PredMode>)
    ensures r.Some? <==> mode <= 6
    ensures mode == B_DC_PRED ==> r.Some? && !(r.value in {Tm, Ve, He})
    ensures mode == B_DC_PRED ==> (UsesTop(r.value) <==> mbY > 0) && (UsesLeft(r.value) <==> mbX > 0)
    ensures mode == B_TM_PRED ==> r == Some(Tm)
    ensures mode == B_VE_PRED ==> r == Some(Ve)
    ensures mode == B_HE_PRED ==> r == Some(He)
    ensures mode == 4 ==> r == Some(DcNoTop)
    ensures mode == 5 ==> r == Some(DcNoLeft)
    ensures mode == 6 ==> r == Some(DcNoTopLeft)
  {
    match (mode, mbX, mbY)
    case (0, 0, 0) => Some(DcNoTopLeft)
    case (0, 0, _) => Some(DcNoLeft)
    case (0, _, 0) => Some(DcNoTop)
    case (0, _, _) => Some(Dc)
    case (1, _, _) => Some(Tm)
    case (2, _, _) => Some(Ve)
    case (3, _, _) => Some(He)
    case (4, _, _) => Some(DcNoTop)
    case (5, _, _) => Some(DcNoLeft)
    case (6, _, _) => Some(DcNoTopLeft)
    case _ => None
  }

  /**
   * The OffsetArray view the predictor of an n x n block (n = 16 for luma,
   * 8 for chroma) takes at off: its ZERO and SIZE, as in the predictor's
   * parameter type. Building it panics when it leaves the buffer.
   */
  predicate BlockFitsFor(mode: PredMode, n: nat, len: int, off: int)
  {
    match mode
    case Dc => Window(len, off, BPS, n * BPS + n)
    case Tm => Window(len, off, BPS + 1, (BPS + 1) * n + 1)
    case Ve => Window(len, off, BPS, n * BPS + n)
    case He => Window(len, off, 1, (n - 1) * BPS + n + 1)
    case DcNoTop => Window(len, off, 1, (n - 1) * BPS + n + 1)
    case DcNoLeft => Window(len, off, BPS, n * BPS + n)
    case DcNoTopLeft => Window(len, off, 0, (n - 1) * BPS + n)
  }

  /** The n x n block a 16 x 16 or chroma predictor writes, row by row. */
  function BlockTable(mode: PredMode, s: seq<byte>, off: int, n: nat): (t: seq<seq<byte>>)
    requires (n == 8 || n == 16) && BlockFitsFor(mode, n, |s|, off)
    ensures IsTable(t, n, n)
  {
    match mode
    case Dc => Uniform(n, n, Mean(SumAbove(s, off, n) + SumLeft(s, off, n), 2 * n))
    case Tm => TmTable(s, off, n)
    case Ve => Repeat(TopRow(s, off, n), n)
    case He => LeftRows(s, off, n, n)
    case DcNoTop => Uniform(n, n, Mean(SumLeft(s, off, n), n))
    case DcNoLeft => Uniform(n, n, Mean(SumAbove(s, off, n), n))
    case DcNoTopLeft => Uniform(n, n, 0x80)
  }

  /** s after the predictor of mode has filled the n x n block at off. */
  function Predicted(mode: PredMode, s: seq<byte>, off: int, n: nat): (r: seq<byte>)
    requires (n == 8 || n == 16) && BlockFitsFor(mode, n, |s|, off)
    ensures |r| == |s|
  {
    FillBlock(s, off, n, n, BlockTable(mode, s, off, n))
  }

  /** vp8_pred_luma16: the 16 x 16 predictor of the mode on the block at off. */
  method PredLuma16(dst: array<byte>, off: int, mode: PredMode)
    requires BlockFitsFor(mode, 16, dst.Length, off)
    modifies dst
    ensures dst[..] == Predicted(mode, old(dst[..]), off, 16)
  {
    match mode
    case Dc => Dc16(dst, off);
    case Tm => Tm16(dst, off);
    case Ve => Ve16(dst, off);
    case He => He16(dst, off);
    case DcNoTop => Dc16NoTop(dst, off);
    case DcNoLeft => Dc16NoLeft(dst, off);
    case DcNoTopLeft => Dc16NoTopLeft(dst, off);
  }

  /** vp8_pred_chroma8: the 8 x 8 predictor of the mode on the block at off. */
  method PredChroma8(dst: array<byte>, off: int, mode: PredMode)
    requires BlockFitsFor(mode, 8, dst.Length, off)
    modifies dst
    ensures dst[..] == Predicted(mode, old(dst[..]), off, 8)
  {
    match mode
    case Dc => Dc8uv(dst, off);
    case Tm => Tm8uv(dst, off);
    case Ve => Ve8uv(dst, off);
    case He => He8uv(dst, off);
    case DcNoTop => Dc8uvNoTop(dst, off);
    case DcNoLeft => Dc8uvNoLeft(dst, off);
    case DcNoTopLeft => Dc8uvNoTopLeft(dst, off);
  }

  /** The OffsetArray view each 4 x 4 predictor takes at off. */
  predicate Luma4Fits(imode: byte, len: int, off: int)
  {
    match imode
    case 0 => Window(len, off, BPS, 5 * BPS)
    case 1 => Window(len, off, BPS + 1, (BPS + 1) * 4 + 1)
    case 2 => Window(len, off, BPS + 1, 5 * BPS + 1)
    case 3 => Window(len, off, BPS + 1, 5 * BPS + 1)
    case 6 => Window(len, off, BPS, 4 * BPS + 4)
    case 7 => Window(len, off, BPS, 4 * BPS + 4)
    case _ => Window(len, off, 1 + BPS, 4 * BPS + 5)
  }

  /** The 4 x 4 block the predictor of imode writes. */
  function Luma4Table(imode: byte, s: seq<byte>, off: int): (t: seq<seq<byte>>)
    requires imode <= B_HU_PRED && Luma4Fits(imode, |s|, off)
    ensures IsTable(t, 4, 4)
  {
    match imode
    case 0 => Uniform(4, 4, Mean(SumAbove(s, off, 4) + SumLeft(s, off, 4), 8))
    case 1 => TmTable(s, off, 4)
    case 2 => Repeat(Ve4Row(Corner(s, off), Above(s, off, 0), Above(s, off, 1), Above(s, off, 2),
                            Above(s, off, 3), Above(s, off, 4)), 4)
    case 3 => He4Table(s, off)
    case 4 => Rd4Table(s, off)
    case 5 => Vr4Table(s, off)
    case 6 => Ld4Table(s, off)
    case 7 => Vl4Table(s, off)
    case 8 => Hd4Table(s, off)
    case _ => Hu4Table(s, off)
  }

  /** s after the 4 x 4 predictor of imode has filled the block at off. */
  function Predicted4(imode: byte, s: seq<byte>, off: int): (r: seq<byte>)
    requires imode <= B_HU_PRED && Luma4Fits(imode, |s|, off)
    ensures |r| == |s|
  {
    FillBlock(s, off, 4, 4, Luma4Table(imode, s, off))
  }

  /** vp8_pred_luma4: imode 0 .. 9 picks dc4, tm4, ve4, he4, rd4, vr4, ld4, vl4, hd4, hu4; others panic. */
  method PredLuma4(dst: array<byte>, off: int, imode: byte)
    requires imode <= B_HU_PRED && Luma4Fits(imode, dst.Length, off)
    modifies dst
    ensures dst[..] == Predicted4(imode, old(dst[..]), off)
  {
    match imode
    case 0 => Dc4(dst, off);
    case 1 => Tm4(dst, off);
    case 2 => Ve4(dst, off);
    case 3 => He4(dst, off);
    case 4 => Rd4(dst, off);
    case 5 => Vr4(dst, off);
    case 6 => Ld4(dst, off);
    case 7 => Vl4(dst, off);
    case 8 => Hd4(dst, off);
    case _ => Hu4(dst, off);
  }

  /** Inside yuv_b every predictor fits at the luma, u and v origins, and every 4 x 4 one at Y_OFF + k, 0 <= k <= 660. */
  lemma PredictorsFit(mode: PredMode, imode: byte, k: int)
    requires imode <= B_HU_PRED && 0 <= k <= YUV_SIZE - Y_OFF - 132
    ensures BlockFitsFor(mode, 16, YUV_SIZE, Y_OFF)
    ensures BlockFitsFor(mode, 8, YUV_SIZE, U_OFF) && BlockFitsFor(mode, 8, YUV_SIZE, V_OFF)
    ensures Luma4Fits(imode, YUV_SIZE, Y_OFF + k)
  {
  }

  //------------------------------------------------------------------------
  // Byte runs: copy_from_slice, fill and copy_32b_left

  /** s with the |row| bytes from p on replaced by row. */
  function Overwrite(s: seq<byte>, p: int, row: seq<byte>): (r: seq<byte>)
    requires 0 <= p && p + |row| <= |s|
    ensures |r| == |s|
    ensures forall j :: 0 <= j < |s| && !(p <= j < p + |row|) ==> r[j] == s[j]
    ensures forall k :: 0 <= k < |row| ==> r[p + k] == row[k]
  {
    s[..p] + row + s[p + |row|..]
  }

  /** dst[p .. p + |row|].copy_from_slice(row). */
  method CopyInto(dst: array<byte>, p: int, row: seq<byte>)
    requires 0 <= p && p + |row| <= dst.Length
    modifies dst
    ensures dst[..] == Overwrite(old(dst[..]), p, row)
  {
    for k := 0 to |row|
      invariant forall j :: 0 <= j < dst.Length ==> dst[j] == if p <= j < p + k then row[j - p] else old(dst[j])
    {
      dst[p + k] := row[k];
    }
    assert dst[..] == Overwrite(old(dst[..]), p, row);
  }

  /**
   * copy_32b_left: the 4 bytes at srcIdx copied to dstIdx. split_at_mut(srcIdx)
   * puts the destination in the part before srcIdx, so it panics unless
   * dstIdx + 4 <= srcIdx and 4 bytes follow srcIdx.
   */
  method Copy32bLeft(arr: array<byte>, dstIdx: int, srcIdx: int)
    requires 0 <= dstIdx && dstIdx + 4 <= srcIdx && srcIdx + 4 <= arr.Length
    modifies arr
    ensures arr[..] == Overwrite(old(arr[..]), dstIdx, old(arr[srcIdx..srcIdx + 4]))
    ensures arr[srcIdx..srcIdx + 4] == old(arr[srcIdx..srcIdx + 4])
  {
    var four := arr[srcIdx..srcIdx + 4];
    CopyInto(arr, dstIdx, four);
  }

  //------------------------------------------------------------------------
  // Rotating in the left samples (mb_x > 0)
  //
  // In buffer coordinates (row i / BPS, column i % BPS) the luma rows -1..15
  // are rows 0..16 and the chroma rows -1..7 are rows 17..25; the luma block
  // starts at column 8, u at 8 and v at 24, so the strips left of them are
  // columns 4..7, 4..7 and 20..23.

  /**
   * s with the first ny rows of the luma strip, nu of the u strip and nv of
   * the v strip holding the 4 bytes 16 (luma) or 8 (chroma) columns to their
   * right: columns 12..15 of the luma block and 4..7 of a chroma block are
   * what the next macroblock sees as its columns -4..-1.
   */
  function Rotated(s: seq<byte>, ny: nat, nu: nat, nv: nat): (r: seq<byte>)
    requires |s| == YUV_SIZE && ny <= 17 && nu <= 9 && nv <= 9
    ensures |r| == |s|
  {
    seq(|s|, i requires 0 <= i < |s| =>
      var row := i / BPS;
      var col := i % BPS;
      if 4 <= col < 8 && row < ny then s[i + 16]
      else if 4 <= col < 8 && 17 <= row < 17 + nu then s[i + 8]
      else if 20 <= col < 24 && 17 <= row < 17 + nv then s[i + 8]
      else s[i])
  }

  /** The rotation of reconstruct_macroblock: all 17 luma and 9 + 9 chroma rows. */
  function LeftRotated(s: seq<byte>): (r: seq<byte>)
    requires |s| == YUV_SIZE
    ensures |r| == |s|
  {
    Rotated(s, 17, 9, 9)
  }

  /** No row rotated yet. */
  lemma RotatedNone(s: seq<byte>)
    requires |s| == YUV_SIZE
    ensures Rotated(s, 0, 0, 0) == s
  {
  }

  /** Row and column of index BPS * row + col. */
  lemma RowCol(row: int, col: int)
    requires 0 <= col < BPS
    ensures (BPS * row + col) / BPS == row && (BPS * row + col) % BPS == col
  {
  }

  /** Rotating luma row r: copy_32b_left from column 20 to column 4 of buffer row r. */
  lemma LumaRotateStep(s: seq<byte>, r: nat)
    requires |s| == YUV_SIZE && r < 17
    ensures var t := Rotated(s, r, 0, 0); var d := BPS * r + 4;
      Overwrite(t, d, t[d + 16..d + 20]) == Rotated(s, r + 1, 0, 0)
  {
    var t := Rotated(s, r, 0, 0);
    var d := BPS * r + 4;
    var t' := Overwrite(t, d, t[d + 16..d + 20]);
    forall i | 0 <= i < |s|
      ensures t'[i] == Rotated(s, r + 1, 0, 0)[i]
    {
      if d <= i < d + 4 {
        RowCol(r, i - BPS * r);
        RowCol(r, i - BPS * r + 16);
      }
    }
  }

  /** Rotating u row r (buffer row 17 + r, column 12 to column 4), the luma strip done. */
  lemma URotateStep(s: seq<byte>, r: nat)
    requires |s| == YUV_SIZE && r < 9
    ensures var t := Rotated(s, 17, r, r); var d := BPS * (17 + r) + 4;
      Overwrite(t, d, t[d + 8..d + 12]) == Rotated(s, 17, r + 1, r)
  {
    var t := Rotated(s, 17, r, r);
    var d := BPS * (17 + r) + 4;
    var t' := Overwrite(t, d, t[d + 8..d + 12]);
    forall i | 0 <= i < |s|
      ensures t'[i] == Rotated(s, 17, r + 1, r)[i]
    {
      if d <= i < d + 4 {
        RowCol(17 + r, i - BPS * (17 + r));
        RowCol(17 + r, i - BPS * (17 + r) + 8);
      }
    }
  }

  /** Rotating v row r (buffer row 17 + r, column 28 to column 20), the u row r done. */
  lemma VRotateStep(s: seq<byte>, r: nat)
    requires |s| == YUV_SIZE && r < 9
    ensures var t := Rotated(s, 17, r + 1, r); var d := BPS * (17 + r) + 20;
      Overwrite(t, d, t[d + 8..d + 12]) == Rotated(s, 17, r + 1, r + 1)
  {
    var t := Rotated(s, 17, r + 1, r);
    var d := BPS * (17 + r) + 20;
    var t' := Overwrite(t, d, t[d + 8..d + 12]);
    forall i | 0 <= i < |s|
      ensures t'[i] == Rotated(s, 17, r + 1, r + 1)[i]
    {
      if d <= i < d + 4 {
        RowCol(17 + r, i - BPS * (17 + r));
        RowCol(17 + r, i - BPS * (17 + r) + 8);
      }
    }
  }

  /**
   * The rotation loops of reconstruct_macroblock: copy_32b_left on each of
   * the 17 luma rows from row -1 on, then on the u and the v row of each of
   * the 9 chroma rows.
   */
  method RotateLeft(yuvB: array<byte>)
    requires yuvB.Length == YUV_SIZE
    modifies yuvB
    ensures yuvB[..] == LeftRotated(old(yuvB[..]))
  {
    RotatedNone(yuvB[..]);
    hide Rotated;
    RotateLumaRows(yuvB, yuvB[..]);
    RotateChromaRows(yuvB, old(yuvB[..]));
  }

  /** The luma loop of the rotation, from the unrotated buffer s0. */
  method RotateLumaRows(yuvB: array<byte>, ghost s0: seq<byte>)
    requires yuvB.Length == YUV_SIZE && |s0| == YUV_SIZE && yuvB[..] == Rotated(s0, 0, 0, 0)
    modifies yuvB
    ensures yuvB[..] == Rotated(s0, 17, 0, 0)
  {
    hide Rotated, Overwrite;
    for j := 0 to 17
      invariant yuvB[..] == Rotated(s0, j, 0, 0)
    {
      LumaRotateStep(s0, j);
      Copy32bLeft(yuvB, Y_OFF - BPS + j * BPS - 4, Y_OFF - BPS + j * BPS + 12);
    }
  }

  /** The chroma loop of the rotation, u before v in each row. */
  method RotateChromaRows(yuvB: array<byte>, ghost s0: seq<byte>)
    requires yuvB.Length == YUV_SIZE && |s0| == YUV_SIZE && yuvB[..] == Rotated(s0, 17, 0, 0)
    modifies yuvB
    ensures yuvB[..] == Rotated(s0, 17, 9, 9)
  {
    hide Rotated, Overwrite;
    for j := 0 to 9
      invariant yuvB[..] == Rotated(s0, 17, j, j)
    {
      URotateStep(s0, j);
      Copy32bLeft(yuvB, U_OFF - BPS + j * BPS - 4, U_OFF - BPS + j * BPS + 4);
      VRotateStep(s0, j);
      Copy32bLeft(yuvB, V_OFF - BPS + j * BPS - 4, V_OFF - BPS + j * BPS + 4);
    }
  }

  /**
   * After the rotation, columns -4..-1 of luma rows -1..15 hold the old
   * columns 12..15, and columns -4..-1 of chroma rows -1..7 the old columns
   * 4..7; every byte outside those three strips is as it was.
   */
  lemma LeftRotatedPixels(s: seq<byte>, x: int, y: int, i: int)
    requires |s| == YUV_SIZE && 0 <= x < 4 && 0 <= i < |s|
    ensures -1 <= y < 16 ==> LeftRotated(s)[Pos(Y_OFF, x - 4, y)] == s[Pos(Y_OFF, x + 12, y)]
    ensures -1 <= y < 8 ==> LeftRotated(s)[Pos(U_OFF, x - 4, y)] == s[Pos(U_OFF, x + 4, y)]
    ensures -1 <= y < 8 ==> LeftRotated(s)[Pos(V_OFF, x - 4, y)] == s[Pos(V_OFF, x + 4, y)]
    ensures !(4 <= i % BPS < 8 || (20 <= i % BPS < 24 && i / BPS >= 17)) ==> LeftRotated(s)[i] == s[i]
  {
    if -1 <= y < 16 {
      RowCol(y + 1, x + 4);
    }
    if -1 <= y < 8 {
      RowCol(y + 18, x + 4);
      RowCol(y + 18, x + 20);
    }
  }

  //------------------------------------------------------------------------
  // Top samples (VP8TopSamples)

  /** The bottom row of a finished macroblock, kept for the one below it. */
  datatype TopSamples = TopSamples(y: seq<byte>, u: seq<byte>, v: seq<byte>)

  /** The [u8; 16], [u8; 8] and [u8; 8] of VP8TopSamples. */
  predicate ValidTop(t: TopSamples)
  {
    |t.y| == 16 && |t.u| == 8 && |t.v| == 8
  }

  /** s with the saved samples brought into row -1 of the luma, u and v blocks. */
  function WithTop(s: seq<byte>, top: TopSamples): (r: seq<byte>)
    requires |s| == YUV_SIZE && ValidTop(top)
    ensures |r| == |s|
  {
    Overwrite(Overwrite(Overwrite(s, Y_OFF - BPS, top.y), U_OFF - BPS, top.u), V_OFF - BPS, top.v)
  }

  /** The samples stashed into yuv_t[mb_x]: luma row 15 and chroma row 7. */
  function BottomRow(s: seq<byte>): (t: TopSamples)
    requires |s| == YUV_SIZE
    ensures ValidTop(t)
    ensures forall x :: 0 <= x < 16 ==> t.y[x] == s[Y_OFF + 15 * BPS + x]
    ensures forall x :: 0 <= x < 8 ==> t.u[x] == s[U_OFF + 7 * BPS + x] && t.v[x] == s[V_OFF + 7 * BPS + x]
  {
    TopSamples(s[Y_OFF + 15 * BPS..Y_OFF + 15 * BPS + 16], s[U_OFF + 7 * BPS..U_OFF + 7 * BPS + 8],
               s[V_OFF + 7 * BPS..V_OFF + 7 * BPS + 8])
  }

  /**
   * Stashing and bringing back in: the macroblock below sees, in its row -1,
   * the bottom luma row and bottom chroma rows of the one above, and nothing
   * else of its buffer changes.
   */
  lemma WithBottomRow(s: seq<byte>, s': seq<byte>, x: int, i: int)
    requires |s| == YUV_SIZE && |s'| == YUV_SIZE && 0 <= i < YUV_SIZE
    ensures 0 <= x < 16 ==> WithTop(s', BottomRow(s))[Pos(Y_OFF, x, -1)] == s[Pos(Y_OFF, x, 15)]
    ensures 0 <= x < 8 ==> WithTop(s', BottomRow(s))[Pos(U_OFF, x, -1)] == s[Pos(U_OFF, x, 7)]
    ensures 0 <= x < 8 ==> WithTop(s', BottomRow(s))[Pos(V_OFF, x, -1)] == s[Pos(V_OFF, x, 7)]
    ensures !(Y_OFF - BPS <= i < Y_OFF - BPS + 16 || U_OFF - BPS <= i < U_OFF - BPS + 8 || V_OFF - BPS <= i < V_OFF - BPS + 8)
            ==> WithTop(s', BottomRow(s))[i] == s'[i]
  {
    hide Overwrite, BottomRow;
    var t := BottomRow(s);
    var w1 := Overwrite(s', Y_OFF - BPS, t.y);
    var w2 := Overwrite(w1, U_OFF - BPS, t.u);
    var w3 := Overwrite(w2, V_OFF - BPS, t.v);
    assert WithTop(s', t) == w3;
    if 0 <= x < 16 {
      var j := Y_OFF - BPS + x;
      assert Pos(Y_OFF, x, -1) == j && Pos(Y_OFF, x, 15) == Y_OFF + 15 * BPS + x;
      assert w1[j] == t.y[x];
      assert w3[j] == w2[j] == w1[j];
    }
    if 0 <= x < 8 {
      var j := U_OFF - BPS + x;
      assert Pos(U_OFF, x, -1) == j && Pos(U_OFF, x, 7) == U_OFF + 7 * BPS + x;
      assert w2[j] == t.u[x];
      assert w3[j] == w2[j];
      var k := V_OFF - BPS + x;
      assert Pos(V_OFF, x, -1) == k && Pos(V_OFF, x, 7) == V_OFF + 7 * BPS + x;
      assert w3[k] == t.v[x];
    }
    if !(Y_OFF - BPS <= i < Y_OFF - BPS + 16 || U_OFF - BPS <= i < U_OFF - BPS + 8 || V_OFF - BPS <= i < V_OFF - BPS + 8) {
      assert w1[i] == s'[i];
      assert w2[i] == w1[i];
      assert w3[i] == w2[i];
    }
  }

  /** yuv_b[OFF - BPS ..][..n].copy_from_slice(top) for the three planes. */
  method BringTop(yuvB: array<byte>, top: TopSamples)
    requires yuvB.Length == YUV_SIZE && ValidTop(top)
    modifies yuvB
    ensures yuvB[..] == WithTop(old(yuvB[..]), top)
  {
    CopyInto(yuvB, Y_OFF - BPS, top.y);
    CopyInto(yuvB, U_OFF - BPS, top.u);
    CopyInto(yuvB, V_OFF - BPS, top.v);
  }

  //------------------------------------------------------------------------
  // Top-right samples of the 4 x 4 luma blocks

  /** Where top_right starts: column 16 of luma row -1. */
  const TOP_RIGHT: int := Y_OFF - BPS + 16

  /** Every entry of yuv_t has the lengths of VP8TopSamples. */
  predicate AllValidTop(yuvT: seq<TopSamples>)
  {
    forall k :: 0 <= k < |yuvT| ==> ValidTop(yuvT[k])
  }

  /**
   * top_yuv[0] exists, and so does top_yuv[1] when it is read: below the
   * first row on a macroblock left of the rightmost one.
   */
  predicate TopRightFits(s: seq<byte>, mbX: nat, mbY: nat, mbW: nat, yuvT: seq<TopSamples>)
  {
    && |s| == YUV_SIZE && mbX < mbW && mbX < |yuvT|
    && (mbY > 0 && mbX < mbW - 1 ==> mbX + 1 < |yuvT|)
    && AllValidTop(yuvT)
  }

  /**
   * With mb_y > 0 the 4 bytes right of the row above come from the
   * macroblock above-right, or on the rightmost macroblock are 4 copies of
   * the last byte of the row above; with mb_y = 0 they stay as they are.
   */
  function TopRightFilled(s: seq<byte>, mbX: nat, mbY: nat, mbW: nat, yuvT: seq<TopSamples>): (r: seq<byte>)
    requires TopRightFits(s, mbX, mbY, mbW, yuvT)
    ensures |r| == |s|
  {
    if mbY == 0 then s
    else if mbX >= mbW - 1 then
      assert ValidTop(yuvT[mbX]);
      Overwrite(s, TOP_RIGHT, seq(4, _ => yuvT[mbX].y[15]))
    else
      assert ValidTop(yuvT[mbX + 1]);
      Overwrite(s, TOP_RIGHT, yuvT[mbX + 1].y[..4])
  }

  /**
   * Below the first row the 4 top-right bytes are the first 4 of the row
   * above the next macroblock, or on the rightmost macroblock the last byte
   * of the row above this one; nothing else changes.
   */
  lemma TopRightFilledPixels(s: seq<byte>, mbX: nat, mbY: nat, mbW: nat, yuvT: seq<TopSamples>, x: int, i: int)
    requires TopRightFits(s, mbX, mbY, mbW, yuvT) && 0 <= i < |s|
    ensures mbY > 0 && 0 <= x < 4 ==>
              TopRightFilled(s, mbX, mbY, mbW, yuvT)[TOP_RIGHT + x]
              == if mbX == mbW - 1 then yuvT[mbX].y[15] else yuvT[mbX + 1].y[x]
    ensures !(mbY > 0 && TOP_RIGHT <= i < TOP_RIGHT + 4) ==> TopRightFilled(s, mbX, mbY, mbW, yuvT)[i] == s[i]
  {
    assert ValidTop(yuvT[mbX]);
    if mbY > 0 && mbX < mbW - 1 {
      assert ValidTop(yuvT[mbX + 1]);
    }
  }

  /** The top-right bytes copied to column 16 of rows 11, 7 and 3, in that order. */
  function Replicated(s: seq<byte>): (r: seq<byte>)
    requires |s| == YUV_SIZE
    ensures |r| == |s|
  {
    var tr := s[TOP_RIGHT..TOP_RIGHT + 4];
    Overwrite(Overwrite(Overwrite(s, TOP_RIGHT + 3 * 4 * BPS, tr), TOP_RIGHT + 2 * 4 * BPS, tr), TOP_RIGHT + 1 * 4 * BPS, tr)
  }

  /**
   * The replicated top-right: the 4 bytes right of rows 3, 7 and 11 (above
   * the right-hand 4 x 4 blocks of block rows 1, 2 and 3) equal those right
   * of row -1; nothing else changes.
   */
  lemma ReplicatedPixels(s: seq<byte>, q: int, x: int, i: int)
    requires |s| == YUV_SIZE && 0 <= x < 4 && 0 <= i < YUV_SIZE
    ensures 0 <= q < 4 ==> Replicated(s)[Pos(Y_OFF, 16 + x, 4 * q - 1)] == s[Pos(Y_OFF, 16 + x, -1)]
    ensures !(TOP_RIGHT + 4 * BPS <= i < TOP_RIGHT + 4 * BPS + 4) && !(TOP_RIGHT + 8 * BPS <= i < TOP_RIGHT + 8 * BPS + 4)
            && !(TOP_RIGHT + 12 * BPS <= i < TOP_RIGHT + 12 * BPS + 4)
            ==> Replicated(s)[i] == s[i]
  {
    hide Overwrite;
    var tr := s[TOP_RIGHT..TOP_RIGHT + 4];
    var a := Overwrite(s, TOP_RIGHT + 3 * 4 * BPS, tr);
    var b := Overwrite(a, TOP_RIGHT + 2 * 4 * BPS, tr);
    assert Replicated(s) == Overwrite(b, TOP_RIGHT + 1 * 4 * BPS, tr);
    if q == 0 {
      assert Pos(Y_OFF, 16 + x, 4 * q - 1) == TOP_RIGHT + x;
    } else if q == 1 {
      assert Pos(Y_OFF, 16 + x, 4 * q - 1) == TOP_RIGHT + 4 * BPS + x;
    } else if q == 2 {
      assert Pos(Y_OFF, 16 + x, 4 * q - 1) == TOP_RIGHT + 8 * BPS + x;
    } else if q == 3 {
      assert Pos(Y_OFF, 16 + x, 4 * q - 1) == TOP_RIGHT + 12 * BPS + x;
    }
  }

  /** The mb_y > 0 fill of top_right, then the replication. */
  method TopRight(yuvB: array<byte>, mbX: nat, mbY: nat, mbW: nat, yuvT: seq<TopSamples>)
    requires TopRightFits(yuvB[..], mbX, mbY, mbW, yuvT)
    modifies yuvB
    ensures yuvB[..] == Replicated(TopRightFilled(old(yuvB[..]), mbX, mbY, mbW, yuvT))
  {
    if mbY > 0 {
      if mbX >= mbW - 1 {
        assert ValidTop(yuvT[mbX]);
        CopyInto(yuvB, TOP_RIGHT, seq(4, _ => yuvT[mbX].y[15]));
      } else {
        assert ValidTop(yuvT[mbX + 1]);
        CopyInto(yuvB, TOP_RIGHT, yuvT[mbX + 1].y[..4]);
      }
    }
    var toReplicate := yuvB[TOP_RIGHT..TOP_RIGHT + 4];
    CopyInto(yuvB, TOP_RIGHT + 3 * 4 * BPS, toReplicate);
    CopyInto(yuvB, TOP_RIGHT + 2 * 4 * BPS, toReplicate);
    CopyInto(yuvB, TOP_RIGHT + 1 * 4 * BPS, toReplicate);
  }

  //------------------------------------------------------------------------
  // Macroblock data (VP8MBData)

  /**
   * VP8MBData: 384 coefficients (16 luma blocks, then 4 u and 4 v blocks,
   * 16 each), the 4 x 4 flag, the 16 luma modes (only #0 for 16 x 16), the
   * chroma mode, the 2-bit codes non_zero_y and non_zero_uv, and the dither,
   * skip and segment bytes that reconstruction does not read.
   */
  datatype MBData = MBData(coeffs: seq<int>, isI4x4: byte, imodes: seq<byte>, uvmode: byte,
                           nonZeroY: bv32, nonZeroUV: bv32, dither: byte, skip: byte, segment: byte)

  /**
   * The array lengths of VP8MBData, and coefficients the transforms that
   * non_zero_y and non_zero_uv select accept (LumaCoeffsFrom, UVCoeffsFit).
   */
  predicate ValidMBData(d: MBData)
  {
    && |d.coeffs| == 384 && |d.imodes| == 16
    && LumaCoeffsFrom(d.nonZeroY, d.coeffs, 0) && ChromaCoeffsFit(d.nonZeroUV, d.coeffs)
  }

  /** do_uv_transform accepts the u coefficients with non_zero_uv and the v ones with non_zero_uv >> 8. */
  predicate ChromaCoeffsFit(bitsUV: bv32, coeffs: seq<int>)
    requires |coeffs| == 384
  {
    UVCoeffsFit(bitsUV, coeffs[256..320]) && UVCoeffsFit(bitsUV >> 8, coeffs[320..384])
  }

  /**
   * From luma block n on, the do_transform call each 2-bit code of bits
   * selects accepts the block's coefficients, bits shifted left by 2 per
   * block.
   */
  predicate LumaCoeffsFrom(bits: bv32, coeffs: seq<int>, n: nat)
    requires |coeffs| == 384 && n <= 16
    decreases 16 - n
  {
    n == 16 || (CoeffsFit(bits, coeffs[16 * n..]) && LumaCoeffsFrom(bits << 2, coeffs, n + 1))
  }

  /** Sixteen 4 x 4 modes, each one vp8_pred_luma4 knows. */
  predicate Luma4Modes(imodes: seq<byte>)
  {
    |imodes| == 16 && forall n :: 0 <= n < 16 ==> imodes[n] <= B_HU_PRED
  }

  /** The modes reconstruct_macroblock predicts with; any other panics. */
  predicate ModesKnown(d: MBData)
    requires ValidMBData(d)
  {
    (if d.isI4x4 != 0 then Luma4Modes(d.imodes) else d.imodes[0] <= 6) && d.uvmode <= 6
  }

  /**
   * K_SCAN: the offsets, from Y_OFF, of the 16 luma sub-blocks in decoding
   * order. Its values are not part of this model; each must leave room in
   * yuv_b for a 4 x 4 predictor and a 132-byte transform destination.
   */
  predicate ScanFits(scan: seq<int>)
  {
    |scan| == 16 && forall n :: 0 <= n < 16 ==> 0 <= scan[n] <= YUV_SIZE - Y_OFF - 132
  }

  //------------------------------------------------------------------------
  // Luma: sixteen 4 x 4 blocks, or one 16 x 16 block and its residuals

  /**
   * The 4 x 4 loop from block n on: block n predicted with imodes[n] at
   * Y_OFF + scan[n], then do_transform with the code in the top two bits
   * of bits on coefficients 16 n .., bits shifted left by 2 for the next.
   */
  function Luma4From(s: seq<byte>, scan: seq<int>, imodes: seq<byte>, coeffs: seq<int>, bits: bv32, n: nat): (r: seq<byte>)
    requires |s| == YUV_SIZE && ScanFits(scan) && Luma4Modes(imodes) && |coeffs| == 384 && n <= 16
    ensures |r| == |s|
    decreases 16 - n
  {
    if n == 16 then s
    else
      var off := Y_OFF + scan[n];
      PredictorsFit(Dc, imodes[n], scan[n]);
      var p := Predicted4(imodes[n], s, off);
      Luma4From(DoTransformSpec(bits, coeffs[16 * n..], p, off), scan, imodes, coeffs, bits << 2, n + 1)
  }

  lemma Luma4FromFirst(s: seq<byte>, scan: seq<int>, imodes: seq<byte>, coeffs: seq<int>, bits: bv32, n: nat)
    requires |s| == YUV_SIZE && ScanFits(scan) && Luma4Modes(imodes) && |coeffs| == 384 && n <= 16
    ensures n == 16 ==> Luma4From(s, scan, imodes, coeffs, bits, n) == s
    ensures n < 16 ==> Luma4Fits(imodes[n], |s|, Y_OFF + scan[n])
    ensures n < 16 ==>
              var off := Y_OFF + scan[n];
              var p := Predicted4(imodes[n], s, off);
              TransformFits(bits, |coeffs[16 * n..]|, |p|, off) &&
              Luma4From(s, scan, imodes, coeffs, bits, n)
              == Luma4From(DoTransformSpec(bits, coeffs[16 * n..], p, off), scan, imodes, coeffs, bits << 2, n + 1)
  {
    if n < 16 {
      PredictorsFit(Dc, imodes[n], scan[n]);
    }
  }

  /** The 4 x 4 loop of reconstruct_macroblock. */
  method Luma4Blocks(yuvB: array<byte>, scan: seq<int>, imodes: seq<byte>, coeffs: seq<int>, bits0: bv32)
    requires yuvB.Length == YUV_SIZE && ScanFits(scan) && Luma4Modes(imodes)
    requires |coeffs| == 384 && LumaCoeffsFrom(bits0, coeffs, 0)
    modifies yuvB
    ensures yuvB[..] == Luma4From(old(yuvB[..]), scan, imodes, coeffs, bits0, 0)
  {
    var bits := bits0;
    hide Luma4From, Predicted4, DoTransformSpec;
    for n := 0 to 16
      invariant Luma4From(yuvB[..], scan, imodes, coeffs, bits, n) == Luma4From(old(yuvB[..]), scan, imodes, coeffs, bits0, 0)
      invariant LumaCoeffsFrom(bits, coeffs, n)
    {
      Luma4FromFirst(yuvB[..], scan, imodes, coeffs, bits, n);
      var dstOffset := Y_OFF + scan[n];
      PredLuma4(yuvB, dstOffset, imodes[n]);
      DoTransform(bits, coeffs[n * 16..], yuvB, dstOffset);
      bits := bits << 2;
    }
    Luma4FromFirst(yuvB[..], scan, imodes, coeffs, bits, 16);
  }

  /**
   * The codes tell the truth from block n on: the top two bits of bits
   * describe block n's coefficients, and so on after each shift by 2.
   */
  predicate CodesFrom(bits: bv32, coeffs: seq<int>, n: nat)
    requires |coeffs| == 384 && n <= 16
    decreases 16 - n
  {
    n == 16 || (CodeDescribes(bits, coeffs[16 * n..16 * n + 16]) && CodesFrom(bits << 2, coeffs, n + 1))
  }

  /** Reference 4 x 4 reconstruction: each block predicted, then the full transform_one of its coefficients. */
  function Luma4Reference(s: seq<byte>, scan: seq<int>, imodes: seq<byte>, coeffs: seq<int>, n: nat): (r: seq<byte>)
    requires |s| == YUV_SIZE && ScanFits(scan) && Luma4Modes(imodes) && |coeffs| == 384 && n <= 16
    ensures |r| == |s|
    decreases 16 - n
  {
    if n == 16 then s
    else
      var off := Y_OFF + scan[n];
      PredictorsFit(Dc, imodes[n], scan[n]);
      var p := Predicted4(imodes[n], s, off);
      Luma4Reference(TransformOneSpec(p, off, coeffs[16 * n..16 * n + 16]), scan, imodes, coeffs, n + 1)
  }

  lemma Luma4ReferenceFirst(s: seq<byte>, scan: seq<int>, imodes: seq<byte>, coeffs: seq<int>, n: nat)
    requires |s| == YUV_SIZE && ScanFits(scan) && Luma4Modes(imodes) && |coeffs| == 384 && n <= 16
    ensures n == 16 ==> Luma4Reference(s, scan, imodes, coeffs, n) == s
    ensures n < 16 ==>
              var off := Y_OFF + scan[n];
              var p := Predicted4(imodes[n], s, off);
              Fits4(|p|, off) &&
              Luma4Reference(s, scan, imodes, coeffs, n)
              == Luma4Reference(TransformOneSpec(p, off, coeffs[16 * n..16 * n + 16]), scan, imodes, coeffs, n + 1)
  {
    if n < 16 {
      PredictorsFit(Dc, imodes[n], scan[n]);
    }
  }

  /** When the codes tell the truth, the dispatched 4 x 4 loop gives the reference pixels. */
  lemma {:induction false} Luma4IsReference(s: seq<byte>, scan: seq<int>, imodes: seq<byte>, coeffs: seq<int>, bits: bv32, n: nat)
    requires |s| == YUV_SIZE && ScanFits(scan) && Luma4Modes(imodes) && |coeffs| == 384 && n <= 16
    requires CodesFrom(bits, coeffs, n)
    ensures Luma4From(s, scan, imodes, coeffs, bits, n) == Luma4Reference(s, scan, imodes, coeffs, n)
    decreases 16 - n
  {
    hide Luma4From, Luma4Reference, Predicted4, DoTransformSpec, TransformOneSpec, LumaCode, TransformFits, CodeDescribes;
    Luma4FromFirst(s, scan, imodes, coeffs, bits, n);
    Luma4ReferenceFirst(s, scan, imodes, coeffs, n);
    if n < 16 {
      var off := Y_OFF + scan[n];
      var p := Predicted4(imodes[n], s, off);
      var src := coeffs[16 * n..];
      assert src[..16] == coeffs[16 * n..16 * n + 16];
      DoTransformIsTransformOne(bits, src, p, off);
      Luma4IsReference(DoTransformSpec(bits, src, p, off), scan, imodes, coeffs, bits << 2, n + 1);
    }
  }

  /** The 16 x 16 residual loop from block n on: do_transform at Y_OFF + scan[n], bits shifted by 2 each time. */
  function ResidualsFrom(s: seq<byte>, scan: seq<int>, coeffs: seq<int>, bits: bv32, n: nat): (r: seq<byte>)
    requires |s| == YUV_SIZE && ScanFits(scan) && |coeffs| == 384 && n <= 16
    ensures |r| == |s|
    decreases 16 - n
  {
    if n == 16 then s
    else ResidualsFrom(DoTransformSpec(bits, coeffs[16 * n..], s, Y_OFF + scan[n]), scan, coeffs, bits << 2, n + 1)
  }

  /** The short cut of the 16 x 16 path is exact: with no code set, no block changes. */
  lemma {:induction false} ResidualsOfZero(s: seq<byte>, scan: seq<int>, coeffs: seq<int>, n: nat)
    requires |s| == YUV_SIZE && ScanFits(scan) && |coeffs| == 384 && n <= 16
    ensures ResidualsFrom(s, scan, coeffs, 0, n) == s
    decreases 16 - n
  {
    if n < 16 {
      assert (0 as bv32) << 2 == 0;
      assert LumaCode(0) == 0;
      ResidualsOfZero(s, scan, coeffs, n + 1);
    }
  }

  /** Reference 16 x 16 residuals: the full transform_one of each block. */
  function ResidualsReference(s: seq<byte>, scan: seq<int>, coeffs: seq<int>, n: nat): (r: seq<byte>)
    requires |s| == YUV_SIZE && ScanFits(scan) && |coeffs| == 384 && n <= 16
    ensures |r| == |s|
    decreases 16 - n
  {
    if n == 16 then s
    else ResidualsReference(TransformOneSpec(s, Y_OFF + scan[n], coeffs[16 * n..16 * n + 16]), scan, coeffs, n + 1)
  }

  lemma ResidualsReferenceFirst(s: seq<byte>, scan: seq<int>, coeffs: seq<int>, n: nat)
    requires |s| == YUV_SIZE && ScanFits(scan) && |coeffs| == 384 && n <= 16
    ensures n == 16 ==> ResidualsReference(s, scan, coeffs, n) == s
    ensures n < 16 ==>
              Fits4(|s|, Y_OFF + scan[n]) &&
              ResidualsReference(s, scan, coeffs, n)
              == ResidualsReference(TransformOneSpec(s, Y_OFF + scan[n], coeffs[16 * n..16 * n + 16]), scan, coeffs, n + 1)
  {
  }

  /** When the codes tell the truth, the dispatched residual loop gives the reference pixels. */
  lemma {:induction false} ResidualsIsReference(s: seq<byte>, scan: seq<int>, coeffs: seq<int>, bits: bv32, n: nat)
    requires |s| == YUV_SIZE && ScanFits(scan) && |coeffs| == 384 && n <= 16
    requires CodesFrom(bits, coeffs, n)
    ensures ResidualsFrom(s, scan, coeffs, bits, n) == ResidualsReference(s, scan, coeffs, n)
    decreases 16 - n
  {
    hide ResidualsFrom, ResidualsReference, DoTransformSpec, TransformOneSpec, LumaCode, TransformFits, CodeDescribes;
    ResidualsFromFirst(s, scan, coeffs, bits, n);
    ResidualsReferenceFirst(s, scan, coeffs, n);
    if n < 16 {
      var off := Y_OFF + scan[n];
      var src := coeffs[16 * n..];
      assert src[..16] == coeffs[16 * n..16 * n + 16];
      DoTransformIsTransformOne(bits, src, s, off);
      ResidualsIsReference(DoTransformSpec(bits, src, s, off), scan, coeffs, bits << 2, n + 1);
    }
  }

  lemma ResidualsFromFirst(s: seq<byte>, scan: seq<int>, coeffs: seq<int>, bits: bv32, n: nat)
    requires |s| == YUV_SIZE && ScanFits(scan) && |coeffs| == 384 && n <= 16
    ensures n == 16 ==> ResidualsFrom(s, scan, coeffs, bits, n) == s
    ensures n < 16 ==>
              TransformFits(bits, |coeffs[16 * n..]|, |s|, Y_OFF + scan[n]) &&
              ResidualsFrom(s, scan, coeffs, bits, n)
              == ResidualsFrom(DoTransformSpec(bits, coeffs[16 * n..], s, Y_OFF + scan[n]), scan, coeffs, bits << 2, n + 1)
  {
  }

  /** The residual loop of the 16 x 16 path. */
  method Residuals16(yuvB: array<byte>, scan: seq<int>, coeffs: seq<int>, bits0: bv32)
    requires yuvB.Length == YUV_SIZE && ScanFits(scan) && |coeffs| == 384 && LumaCoeffsFrom(bits0, coeffs, 0)
    modifies yuvB
    ensures yuvB[..] == ResidualsFrom(old(yuvB[..]), scan, coeffs, bits0, 0)
  {
    var bits := bits0;
    hide ResidualsFrom, DoTransformSpec;
    for n := 0 to 16
      invariant ResidualsFrom(yuvB[..], scan, coeffs, bits, n) == ResidualsFrom(old(yuvB[..]), scan, coeffs, bits0, 0)
      invariant LumaCoeffsFrom(bits, coeffs, n)
    {
      ResidualsFromFirst(yuvB[..], scan, coeffs, bits, n);
      DoTransform(bits, coeffs[n * 16..], yuvB, Y_OFF + scan[n]);
      bits := bits << 2;
    }
    ResidualsFromFirst(yuvB[..], scan, coeffs, bits, 16);
  }

  /**
   * The 16 x 16 path: the predictor of mode on the whole block, then the
   * residual loop, skipped when non_zero_y is 0 (ResidualsOfZero: the skip
   * changes nothing).
   */
  method Luma16(yuvB: array<byte>, mode: PredMode, scan: seq<int>, coeffs: seq<int>, bits: bv32)
    requires yuvB.Length == YUV_SIZE && ScanFits(scan) && |coeffs| == 384 && LumaCoeffsFrom(bits, coeffs, 0)
    modifies yuvB
    ensures yuvB[..] == ResidualsFrom(Predicted(mode, old(yuvB[..]), Y_OFF, 16), scan, coeffs, bits, 0)
  {
    PredictorsFit(mode, 0, 0);
    PredLuma16(yuvB, Y_OFF, mode);
    if bits != 0 {
      Residuals16(yuvB, scan, coeffs, bits);
    } else {
      ResidualsOfZero(yuvB[..], scan, coeffs, 0);
    }
  }

  //------------------------------------------------------------------------
  // Chroma

  /**
   * The chroma of a macroblock: both 8 x 8 blocks predicted with mode, u
   * first, then do_uv_transform on u with non_zero_uv and coefficients
   * 256..320, and on v with non_zero_uv >> 8 and coefficients 320..384.
   */
  function ChromaFrom(s: seq<byte>, mode: PredMode, bitsUV: bv32, coeffs: seq<int>): (r: seq<byte>)
    requires |s| == YUV_SIZE && |coeffs| == 384
    ensures |r| == |s|
  {
    PredictorsFit(mode, 0, 0);
    var p := Predicted(mode, Predicted(mode, s, U_OFF, 8), V_OFF, 8);
    var u := DoUVTransformSpec(bitsUV, coeffs[256..320], p, U_OFF);
    DoUVTransformSpec(bitsUV >> 8, coeffs[320..384], u, V_OFF)
  }

  /** The codes of one chroma plane tell the truth about its 64 coefficients. */
  predicate ChromaCodesTruthful(bits: bv32, src: seq<int>)
    requires |src| == 64
  {
    (!AnyCoeff(bits) ==> ChromaZero(src)) && (!AnyAc(bits) ==> ChromaDcOnly(src))
  }

  /**
   * When non_zero_uv describes the coefficients, the chroma of a macroblock
   * is its prediction plus the full transform_uv of each plane.
   */
  lemma ChromaIsReference(s: seq<byte>, mode: PredMode, bitsUV: bv32, coeffs: seq<int>)
    requires |s| == YUV_SIZE && |coeffs| == 384
    requires ChromaCodesTruthful(bitsUV, coeffs[256..320]) && ChromaCodesTruthful(bitsUV >> 8, coeffs[320..384])
    ensures var p := Predicted(mode, Predicted(mode, s, U_OFF, 8), V_OFF, 8);
      ChromaFrom(s, mode, bitsUV, coeffs)
      == TransformUVSpec(TransformUVSpec(p, U_OFF, coeffs[256..320]), V_OFF, coeffs[320..384])
  {
    PredictorsFit(mode, 0, 0);
    var p := Predicted(mode, Predicted(mode, s, U_OFF, 8), V_OFF, 8);
    DoUVTransformIsTransformUV(bitsUV, coeffs[256..320], p, U_OFF);
    var u := DoUVTransformSpec(bitsUV, coeffs[256..320], p, U_OFF);
    DoUVTransformIsTransformUV(bitsUV >> 8, coeffs[320..384], u, V_OFF);
  }

  /**
   * do_uv_transform's destination is a [u8; 132 + 4 * BPS], but yuv_b holds
   * only 248 bytes from U_OFF on and 232 from V_OFF on: the destinations
   * reconstruct_macroblock passes cannot be that array. The 8 x 8 blocks
   * themselves fit.
   */
  lemma ChromaDestinationTooShort()
    ensures YUV_SIZE - U_OFF == 248 && YUV_SIZE - V_OFF == 232
    ensures !Window(YUV_SIZE, U_OFF, 0, 132 + 4 * BPS) && !Window(YUV_SIZE, V_OFF, 0, 132 + 4 * BPS)
    ensures Fits8(YUV_SIZE, U_OFF) && Fits8(YUV_SIZE, V_OFF)
  {
  }

  /**
   * do_uv_transform on a destination that needs to hold only the 8 x 8
   * block: the transforms run on a copy padded to 132 + 4 * BPS bytes past
   * off, and the first bytes are copied back. Nothing past the block
   * changes, so this is do_uv_transform wherever the block fits.
   */
  method DoUVTransformInBlock(bits: bv32, src: seq<int>, dst: array<byte>, off: int)
    requires |src| == 64 && UVCoeffsFit(bits, src) && Fits8(dst.Length, off)
    modifies dst
    ensures dst[..] == DoUVTransformSpec(bits, src, old(dst[..]), off)
  {
    var m := if dst.Length >= off + 132 + 4 * BPS then dst.Length else off + 132 + 4 * BPS;
    var padded := ZeroPadded(dst, m);
    ghost var pad := seq(m - dst.Length, _ => 0);
    DoUVTransformAppend(bits, src, dst[..], pad, off);
    hide DoUVTransformSpec;
    DoUVTransform(bits, src, padded, off);
    CopyPrefix(dst, padded);
  }

  /**
   * A fresh copy of a, followed by zeros up to length m. It has no
   * counterpart in the source: it is the padding DoUVTransformInBlock runs
   * do_uv_transform on.
   */
  method ZeroPadded(a: array<byte>, m: nat) returns (r: array<byte>)
    requires a.Length <= m
    ensures fresh(r) && r[..] == a[..] + seq(m - a.Length, _ => 0)
  {
    r := new byte[m](i => 0);
    var i := 0;
    while i < a.Length
      invariant 0 <= i <= a.Length
      invariant forall k :: 0 <= k < i ==> r[k] == a[k]
      invariant forall k :: i <= k < m ==> r[k] == 0
    {
      r[i] := a[i];
      i := i + 1;
    }
  }

  /**
   * Copies the first dst.Length bytes of src back into dst. It has no
   * counterpart in the source: it returns DoUVTransformInBlock's padded
   * result to the block.
   */
  method CopyPrefix(dst: array<byte>, src: array<byte>)
    requires dst.Length <= src.Length && dst != src
    modifies dst
    ensures dst[..] == src[..dst.Length]
  {
    var i := 0;
    while i < dst.Length
      invariant 0 <= i <= dst.Length
      invariant forall k :: 0 <= k < i ==> dst[k] == src[k]
    {
      dst[i] := src[i];
      i := i + 1;
    }
  }

  /** The chroma part of reconstruct_macroblock, with do_uv_transform on the 8 x 8 blocks. */
  method Chroma(yuvB: array<byte>, mode: PredMode, bitsUV: bv32, coeffs: seq<int>)
    requires yuvB.Length == YUV_SIZE && |coeffs| == 384 && ChromaCoeffsFit(bitsUV, coeffs)
    modifies yuvB
    ensures yuvB[..] == ChromaFrom(old(yuvB[..]), mode, bitsUV, coeffs)
  {
    PredictorsFit(mode, 0, 0);
    var cu, cv := coeffs[256..320], coeffs[320..384];
    hide Predicted, DoUVTransformSpec, UVCoeffsFit;
    PredChroma8(yuvB, U_OFF, mode);
    PredChroma8(yuvB, V_OFF, mode);
    DoUVTransformInBlock(bitsUV, cu, yuvB, U_OFF);
    DoUVTransformInBlock(bitsUV >> 8, cv, yuvB, V_OFF);
  }


  //------------------------------------------------------------------------
  // Output: rows of yuv_b copied into the macroblock-row caches

  /**
   * rows rows of w bytes, stride apart from base, all lie inside n bytes:
   * the first starts in range and the last ends in range (the strides are
   * usizes).
   */
  predicate CopyFits(n: int, base: int, stride: int, w: nat, rows: nat)
  {
    rows == 0 || (0 <= base && 0 <= stride && RowStart(base, stride, rows - 1) + w <= n)
  }

  /** The first of the rows lies in range, and so do the rest. */
  lemma CopyFitsNext(n: int, base: int, stride: int, w: nat, rows: nat)
    requires CopyFits(n, base, stride, w, rows) && rows > 0
    ensures 0 <= base && base + w <= n && CopyFits(n, base + stride, stride, w, rows - 1)
  {
    RowStartNext(base, stride, rows - 1);
    if rows > 1 {
      RowStartNext(base, stride, rows - 2);
    }
  }

  /** The rows the copy reads from yuv_b, BPS apart from srcOff, lie inside n bytes. */
  predicate SourceFits(n: int, srcOff: int, w: nat, rows: nat)
  {
    rows == 0 || (0 <= srcOff && srcOff + (rows - 1) * BPS + w <= n)
  }

  /**
   * The copy loops of reconstruct_macroblock: row j of w bytes at srcOff +
   * j * BPS goes to base + j * stride, the rows in order.
   */
  function CopyRows(c: seq<byte>, base: int, stride: int, src: seq<byte>, srcOff: int, w: nat, rows: nat): (r: seq<byte>)
    requires CopyFits(|c|, base, stride, w, rows) && SourceFits(|src|, srcOff, w, rows)
    ensures |r| == |c|
    decreases rows
  {
    if rows == 0 then c
    else
      CopyFitsNext(|c|, base, stride, w, rows);
      CopyRows(Overwrite(c, base, src[srcOff..srcOff + w]), base + stride, stride, src, srcOff + BPS, w, rows - 1)
  }

  /** One step of CopyRows, for the loops that have it hidden. */
  lemma CopyRowsFirst(c: seq<byte>, base: int, stride: int, src: seq<byte>, srcOff: int, w: nat, rows: nat)
    requires CopyFits(|c|, base, stride, w, rows) && SourceFits(|src|, srcOff, w, rows)
    ensures rows == 0 ==> CopyRows(c, base, stride, src, srcOff, w, rows) == c
    ensures rows > 0 ==>
              && 0 <= base && base + w <= |c| && 0 <= srcOff && srcOff + w <= |src|
              && CopyFits(|c|, base + stride, stride, w, rows - 1)
              && SourceFits(|src|, srcOff + BPS, w, rows - 1)
              && CopyRows(c, base, stride, src, srcOff, w, rows)
                 == CopyRows(Overwrite(c, base, src[srcOff..srcOff + w]), base + stride, stride, src, srcOff + BPS, w, rows - 1)
  {
    if rows > 0 {
      CopyFitsNext(|c|, base, stride, w, rows);
    }
  }

  /**
   * Rows that do not overlap (stride >= w) each end up holding their source
   * row: byte k of row j is byte k of yuv_b's row j.
   */
  lemma {:induction false} CopyRowsPixel(c: seq<byte>, base: int, stride: int, src: seq<byte>, srcOff: int, w: nat, rows: nat, j: nat, k: int)
    requires CopyFits(|c|, base, stride, w, rows) && SourceFits(|src|, srcOff, w, rows)
    requires stride >= w && j < rows && 0 <= k < w
    ensures 0 <= RowStart(base, stride, j) + k < |c| && 0 <= srcOff + j * BPS + k < |src|
    ensures CopyRows(c, base, stride, src, srcOff, w, rows)[RowStart(base, stride, j) + k] == src[srcOff + j * BPS + k]
    decreases rows
  {
    hide CopyRows, Overwrite, RowStart;
    CopyRowsFirst(c, base, stride, src, srcOff, w, rows);
    var c' := Overwrite(c, base, src[srcOff..srcOff + w]);
    var next := base + stride;
    RowStartNext(base, stride, 0);
    if j == 0 {
      forall j': nat | j' < rows - 1
        ensures !(RowStart(next, stride, j') <= base + k < RowStart(next, stride, j') + w)
      {
        RowStartNext(next, stride, j');
      }
      CopyRowsFrame(c', next, stride, src, srcOff + BPS, w, rows - 1, base + k);
    } else {
      RowStartNext(base, stride, j - 1);
      CopyRowsPixel(c', next, stride, src, srcOff + BPS, w, rows - 1, j - 1, k);
    }
  }

  /** Bytes outside every row are not touched. */
  lemma {:induction false} CopyRowsFrame(c: seq<byte>, base: int, stride: int, src: seq<byte>, srcOff: int, w: nat, rows: nat, i: int)
    requires CopyFits(|c|, base, stride, w, rows) && SourceFits(|src|, srcOff, w, rows)
    requires 0 <= i < |c|
    requires forall j: nat :: j < rows ==> !(RowStart(base, stride, j) <= i < RowStart(base, stride, j) + w)
    ensures CopyRows(c, base, stride, src, srcOff, w, rows)[i] == c[i]
    decreases rows
  {
    hide CopyRows, Overwrite;
    CopyRowsFirst(c, base, stride, src, srcOff, w, rows);
    if rows > 0 {
      RowStartNext(base, stride, 0);
      assert !(base <= i < base + w) by {
        assert RowStart(base, stride, 0) == base;
      }
      var c' := Overwrite(c, base, src[srcOff..srcOff + w]);
      assert c'[i] == c[i];
      var next := base + stride;
      forall j: nat | j < rows - 1
        ensures !(RowStart(next, stride, j) <= i < RowStart(next, stride, j) + w)
      {
        RowStartNext(base, stride, j);
      }
      CopyRowsFrame(c', next, stride, src, srcOff + BPS, w, rows - 1, i);
    }
  }

  /** The copy loop for one plane: CopyRows on dst. */
  method StoreRows(dst: array<byte>, base: int, stride: int, src: array<byte>, srcOff: int, w: nat, rows: nat)
    requires dst != src
    requires CopyFits(dst.Length, base, stride, w, rows) && SourceFits(src.Length, srcOff, w, rows)
    modifies dst
    ensures dst[..] == CopyRows(old(dst[..]), base, stride, src[..], srcOff, w, rows)
  {
    hide CopyRows, CopyFits, SourceFits, Overwrite;
    var b, o := base, srcOff;
    for j := 0 to rows
      invariant CopyFits(dst.Length, b, stride, w, rows - j) && SourceFits(src.Length, o, w, rows - j)
      invariant CopyRows(dst[..], b, stride, src[..], o, w, rows - j) == CopyRows(old(dst[..]), base, stride, src[..], srcOff, w, rows)
    {
      CopyRowsFirst(dst[..], b, stride, src[..], o, w, rows - j);
      CopyInto(dst, b, src[o..o + w]);
      b, o := b + stride, o + BPS;
    }
    CopyRowsFirst(dst[..], b, stride, src[..], o, w, 0);
  }

  //------------------------------------------------------------------------
  // Borders of a macroblock row (reconstruct_row)
  //
  // In buffer coordinates the column left of the luma block and of u is
  // column 7, the one left of v column 23; luma rows 0..15 are buffer rows
  // 1..16, chroma rows 0..7 buffer rows 18..25, and the rows above are 0
  // (luma) and 17 (chroma).

  /** s with the first ny, nu and nv rows of the three left columns set to 129. */
  function LeftBorder(s: seq<byte>, ny: nat, nu: nat, nv: nat): (r: seq<byte>)
    requires |s| == YUV_SIZE && ny <= 16 && nu <= 8 && nv <= 8
    ensures |r| == |s|
  {
    seq(|s|, i requires 0 <= i < |s| =>
      var row := i / BPS;
      var col := i % BPS;
      if col == 7 && 1 <= row < 1 + ny then 129
      else if col == 7 && 18 <= row < 18 + nu then 129
      else if col == 23 && 18 <= row < 18 + nv then 129
      else s[i])
  }

  /**
   * What reconstruct_row writes before the first macroblock of row mbY: 129
   * in the columns left of the three blocks, and above them either 129 in
   * the three top-left corners (mbY > 0) or, on the topmost row, 127 in the
   * whole row above: 21 bytes from the luma corner on (the 16 top samples
   * and 4 top-right ones) and 9 from each chroma corner on.
   */
  function Bordered(s: seq<byte>, mbY: nat): (r: seq<byte>)
    requires |s| == YUV_SIZE
    ensures |r| == |s|
  {
    seq(|s|, i requires 0 <= i < |s| =>
      var row := i / BPS;
      var col := i % BPS;
      if col == 7 && 1 <= row < 17 then 129
      else if (col == 7 || col == 23) && 18 <= row < 26 then 129
      else if mbY > 0 && ((row == 0 && col == 7) || (row == 17 && (col == 7 || col == 23))) then 129
      else if mbY == 0 && row == 0 && 7 <= col < 28 then 127
      else if mbY == 0 && row == 17 && (7 <= col < 16 || 23 <= col < 32) then 127
      else s[i])
  }

  /** Nothing set yet. */
  lemma LeftBorderNone(s: seq<byte>)
    requires |s| == YUV_SIZE
    ensures LeftBorder(s, 0, 0, 0) == s
  {
  }

  /** Luma row j of the left column: byte Y_OFF + j * BPS - 1, buffer row 1 + j. */
  lemma LumaBorderStep(s: seq<byte>, j: nat)
    requires |s| == YUV_SIZE && j < 16
    ensures LeftBorder(s, j, 0, 0)[Y_OFF + j * BPS - 1 := 129] == LeftBorder(s, j + 1, 0, 0)
  {
    RowCol(1 + j, 7);
  }

  /** U row j of the left column, the luma column done. */
  lemma UBorderStep(s: seq<byte>, j: nat)
    requires |s| == YUV_SIZE && j < 8
    ensures LeftBorder(s, 16, j, j)[U_OFF + j * BPS - 1 := 129] == LeftBorder(s, 16, j + 1, j)
  {
    RowCol(18 + j, 7);
  }

  /** V row j of the left column, the u row j done. */
  lemma VBorderStep(s: seq<byte>, j: nat)
    requires |s| == YUV_SIZE && j < 8
    ensures LeftBorder(s, 16, j + 1, j)[V_OFF + j * BPS - 1 := 129] == LeftBorder(s, 16, j + 1, j + 1)
  {
    RowCol(18 + j, 23);
  }

  /** The three top-left corners set to 129 complete the borders of a row below the first. */
  lemma BorderCorners(s: seq<byte>, mbY: nat)
    requires |s| == YUV_SIZE && mbY > 0
    ensures LeftBorder(s, 16, 8, 8)[Y_OFF - 1 - BPS := 129][U_OFF - 1 - BPS := 129][V_OFF - 1 - BPS := 129]
            == Bordered(s, mbY)
  {
    RowCol(0, 7);
    RowCol(17, 7);
    RowCol(17, 23);
  }

  /** The three runs of 127 complete the borders of the topmost row. */
  lemma BorderTopFill(s: seq<byte>)
    requires |s| == YUV_SIZE
    ensures Overwrite(Overwrite(Overwrite(LeftBorder(s, 16, 8, 8), Y_OFF - BPS - 1, seq(21, _ => 127)),
                                U_OFF - BPS - 1, seq(9, _ => 127)), V_OFF - BPS - 1, seq(9, _ => 127))
            == Bordered(s, 0)
  {
    hide Overwrite;
    var f21: seq<byte>, f9: seq<byte> := seq(21, _ => 127), seq(9, _ => 127);
    var y, u, v := Y_OFF - BPS - 1, U_OFF - BPS - 1, V_OFF - BPS - 1;
    var t := LeftBorder(s, 16, 8, 8);
    var t1 := Overwrite(t, y, f21);
    var t2 := Overwrite(t1, u, f9);
    var t3 := Overwrite(t2, v, f9);
    forall i | 0 <= i < |s|
      ensures t3[i] == Bordered(s, 0)[i]
    {
      var row, col := i / BPS, i % BPS;
      RowCol(row, col);
      if v <= i < v + 9 {
        assert t3[v + (i - v)] == f9[i - v] == 127;
      } else if u <= i < u + 9 {
        assert t3[i] == t2[i] && t2[u + (i - u)] == f9[i - u] == 127;
      } else if y <= i < y + 21 {
        assert t3[i] == t2[i] == t1[i] && t1[y + (i - y)] == f21[i - y] == 127;
      } else {
        assert t3[i] == t2[i] == t1[i] == t[i];
      }
    }
  }

  /** fill: the len bytes from p on all become v. */
  method Fill(dst: array<byte>, p: int, len: nat, v: byte)
    requires 0 <= p && p + len <= dst.Length
    modifies dst
    ensures dst[..] == Overwrite(old(dst[..]), p, seq(len, _ => v))
  {
    for k := 0 to len
      invariant forall j :: 0 <= j < dst.Length && !(p <= j < p + k) ==> dst[j] == old(dst[j])
      invariant forall j :: p <= j < p + k ==> dst[j] == v
    {
      dst[p + k] := v;
    }
  }

  /** The border initialisation of reconstruct_row, before its macroblock loop. */
  method InitRowBorders(yuvB: array<byte>, mbY: nat)
    requires yuvB.Length == YUV_SIZE
    modifies yuvB
    ensures yuvB[..] == Bordered(old(yuvB[..]), mbY)
  {
    ghost var s0 := yuvB[..];
    LeftBorderNone(s0);
    hide LeftBorder, Bordered, Overwrite;
    for j := 0 to 16
      invariant yuvB[..] == LeftBorder(s0, j, 0, 0)
    {
      LumaBorderStep(s0, j);
      yuvB[Y_OFF + j * BPS - 1] := 129;
    }
    for j := 0 to 8
      invariant yuvB[..] == LeftBorder(s0, 16, j, j)
    {
      UBorderStep(s0, j);
      yuvB[U_OFF + j * BPS - 1] := 129;
      VBorderStep(s0, j);
      yuvB[V_OFF + j * BPS - 1] := 129;
    }
    if mbY > 0 {
      BorderCorners(s0, mbY);
      yuvB[Y_OFF - 1 - BPS] := 129;
      yuvB[U_OFF - 1 - BPS] := 129;
      yuvB[V_OFF - 1 - BPS] := 129;
    } else {
      BorderTopFill(s0);
      Fill(yuvB, Y_OFF - BPS - 1, 16 + 4 + 1, 127);
      Fill(yuvB, U_OFF - BPS - 1, 8 + 1, 127);
      Fill(yuvB, V_OFF - BPS - 1, 8 + 1, 127);
    }
  }

  /**
   * After the border initialisation the left column of each block is 129,
   * the top-left corner is 129 below the first row and 127 on it, and on the
   * first row the whole row above each block, the luma top-right samples
   * included, is 127. Every byte outside the left columns and the two rows
   * above the blocks is as it was.
   */
  lemma BorderedPixels(s: seq<byte>, mbY: nat, x: int, y: int, i: int)
    requires |s| == YUV_SIZE && 0 <= i < |s|
    ensures 0 <= y < 16 ==> Bordered(s, mbY)[Pos(Y_OFF, -1, y)] == 129
    ensures 0 <= y < 8 ==> Bordered(s, mbY)[Pos(U_OFF, -1, y)] == 129 && Bordered(s, mbY)[Pos(V_OFF, -1, y)] == 129
    ensures mbY > 0 ==>
              && Bordered(s, mbY)[Pos(Y_OFF, -1, -1)] == 129
              && Bordered(s, mbY)[Pos(U_OFF, -1, -1)] == 129
              && Bordered(s, mbY)[Pos(V_OFF, -1, -1)] == 129
    ensures mbY == 0 && -1 <= x < 20 ==> Bordered(s, mbY)[Pos(Y_OFF, x, -1)] == 127
    ensures mbY == 0 && -1 <= x < 8 ==>
              Bordered(s, mbY)[Pos(U_OFF, x, -1)] == 127 && Bordered(s, mbY)[Pos(V_OFF, x, -1)] == 127
    ensures !(i % BPS == 7 || (i % BPS == 23 && i / BPS >= 17) || i / BPS == 0 || i / BPS == 17) ==>
              Bordered(s, mbY)[i] == s[i]
  {
    if 0 <= y < 16 {
      RowCol(1 + y, 7);
    }
    if 0 <= y < 8 {
      RowCol(18 + y, 7);
      RowCol(18 + y, 23);
    }
    if -1 <= x < 20 {
      RowCol(0, 8 + x);
    }
    if -1 <= x < 8 {
      RowCol(17, 8 + x);
      RowCol(17, 24 + x);
    }
  }

  /**
   * The chroma copy loop: row j of u, then row j of v, each 8 bytes from
   * yuv_b to base + j * stride of its cache.
   */
  method StoreChromaRows(u: array<byte>, v: array<byte>, baseU: int, baseV: int, stride: int, src: array<byte>)
    requires u != v && u != src && v != src && src.Length == YUV_SIZE
    requires CopyFits(u.Length, baseU, stride, 8, 8) && CopyFits(v.Length, baseV, stride, 8, 8)
    modifies u, v
    ensures u[..] == CopyRows(old(u[..]), baseU, stride, src[..], U_OFF, 8, 8)
    ensures v[..] == CopyRows(old(v[..]), baseV, stride, src[..], V_OFF, 8, 8)
  {
    hide CopyRows, CopyFits, Overwrite;
    var bu, bv, ou, ov := baseU, baseV, U_OFF, V_OFF;
    for j := 0 to 8
      invariant ou == U_OFF + j * BPS && ov == V_OFF + j * BPS
      invariant CopyFits(u.Length, bu, stride, 8, 8 - j) && CopyFits(v.Length, bv, stride, 8, 8 - j)
      invariant CopyRows(u[..], bu, stride, src[..], ou, 8, 8 - j) == CopyRows(old(u[..]), baseU, stride, src[..], U_OFF, 8, 8)
      invariant CopyRows(v[..], bv, stride, src[..], ov, 8, 8 - j) == CopyRows(old(v[..]), baseV, stride, src[..], V_OFF, 8, 8)
    {
      CopyRowsFirst(u[..], bu, stride, src[..], ou, 8, 8 - j);
      CopyInto(u, bu, src[ou..ou + 8]);
      CopyRowsFirst(v[..], bv, stride, src[..], ov, 8, 8 - j);
      CopyInto(v, bv, src[ov..ov + 8]);
      bu, bv, ou, ov := bu + stride, bv + stride, ou + BPS, ov + BPS;
    }
    CopyRowsFirst(u[..], bu, stride, src[..], ou, 8, 0);
    CopyRowsFirst(v[..], bv, stride, src[..], ov, 8, 0);
  }

  //------------------------------------------------------------------------
  // One macroblock (reconstruct_macroblock)

  /** What reconstruct_macroblock needs of yuv_b, yuv_t, the block data and the scan order. */
  predicate MacroblockFits(s: seq<byte>, mbX: nat, mbY: nat, mbW: nat, yuvT: seq<TopSamples>, d: MBData, scan: seq<int>)
  {
    TopRightFits(s, mbX, mbY, mbW, yuvT) && ValidMBData(d) && ModesKnown(d) && ScanFits(scan)
  }

  /**
   * yuv_b after reconstruct_macroblock: the left samples rotated in (mb_x >
   * 0), the top samples brought in (mb_y > 0), the luma predicted with its
   * residuals (the 4 x 4 path after the top-right fill, or the 16 x 16
   * path), then the chroma.
   */
  function MacroblockYuv(s: seq<byte>, mbX: nat, mbY: nat, mbW: nat, yuvT: seq<TopSamples>, d: MBData, scan: seq<int>): (r: seq<byte>)
    requires MacroblockFits(s, mbX, mbY, mbW, yuvT, d, scan)
    ensures |r| == YUV_SIZE
  {
    hide LeftRotated, WithTop, Luma4From, Replicated, TopRightFilled, ResidualsFrom, Predicted, ChromaFrom;
    var s1 := if mbX > 0 then LeftRotated(s) else s;
    var s2 := if mbY > 0 then WithTop(s1, yuvT[mbX]) else s1;
    var s3 :=
      if d.isI4x4 != 0 then Luma4From(Replicated(TopRightFilled(s2, mbX, mbY, mbW, yuvT)), scan, d.imodes, d.coeffs, d.nonZeroY, 0)
      else ResidualsFrom(Predicted(GetMode(mbX, mbY, d.imodes[0]).value, s2, Y_OFF, 16), scan, d.coeffs, d.nonZeroY, 0);
    ChromaFrom(s3, GetMode(mbX, mbY, d.uvmode).value, d.nonZeroUV, d.coeffs)
  }

  /** The state reconstruction changes: yuv_b, yuv_t and the three caches' slices. */
  datatype RowState = RowState(yuvB: seq<byte>, yuvT: seq<TopSamples>, y: seq<byte>, u: seq<byte>, v: seq<byte>)

  /**
   * The decoder's fixed geometry: its size in macroblocks, where index 0 of
   * each cache view lies in its slice, and the two cache strides.
   */
  datatype Geometry = Geometry(mbW: nat, mbH: nat, zeroY: int, zeroU: int, zeroV: int, yStride: nat, uvStride: nat)

  /** The cache rows of macroblock mbX lie in the caches. */
  predicate OutputFits(g: Geometry, ny: int, nu: int, nv: int, mbX: nat)
  {
    && CopyFits(ny, g.zeroY + 16 * mbX, g.yStride, 16, 16)
    && CopyFits(nu, g.zeroU + 8 * mbX, g.uvStride, 8, 8)
    && CopyFits(nv, g.zeroV + 8 * mbX, g.uvStride, 8, 8)
  }

  /** Macroblock mbX of row mbY can be reconstructed from st. */
  predicate StepFits(st: RowState, g: Geometry, d: MBData, scan: seq<int>, mbX: nat, mbY: nat)
  {
    && g.mbH > 0 && mbX < |st.yuvT| && |st.yuvB| == YUV_SIZE && AllValidTop(st.yuvT)
    && MacroblockFits(st.yuvB, mbX, mbY, g.mbW, st.yuvT, d, scan) && OutputFits(g, |st.y|, |st.u|, |st.v|, mbX)
  }

  /**
   * reconstruct_macroblock on the state: yuv_b reconstructed; unless on the
   * last row, its bottom rows stashed in yuv_t[mb_x] for the row below; its
   * 16 luma rows and 8 rows of each chroma block copied to the caches at
   * column 16 * mb_x (8 * mb_x for chroma).
   */
  function MacroblockStep(st: RowState, g: Geometry, d: MBData, scan: seq<int>, mbX: nat, mbY: nat): (r: RowState)
    requires StepFits(st, g, d, scan, mbX, mbY)
    ensures |r.yuvB| == YUV_SIZE && |r.yuvT| == |st.yuvT| && |r.y| == |st.y| && |r.u| == |st.u| && |r.v| == |st.v|
    ensures AllValidTop(r.yuvT)
  {
    hide MacroblockYuv, CopyRows, CopyFits, BottomRow, MacroblockFits;
    var b := MacroblockYuv(st.yuvB, mbX, mbY, g.mbW, st.yuvT, d, scan);
    var t := if mbY < g.mbH - 1 then st.yuvT[mbX := BottomRow(b)] else st.yuvT;
    RowState(b, t,
             CopyRows(st.y, g.zeroY + 16 * mbX, g.yStride, b, Y_OFF, 16, 16),
             CopyRows(st.u, g.zeroU + 8 * mbX, g.uvStride, b, U_OFF, 8, 8),
             CopyRows(st.v, g.zeroV + 8 * mbX, g.uvStride, b, V_OFF, 8, 8))
  }

  /** The parts of MacroblockStep, for the method that has it hidden. */
  lemma MacroblockStepParts(st: RowState, g: Geometry, d: MBData, scan: seq<int>, mbX: nat, mbY: nat)
    requires StepFits(st, g, d, scan, mbX, mbY)
    ensures hide Luma4From, ResidualsFrom, ChromaFrom, LeftRotated;
      var r := MacroblockStep(st, g, d, scan, mbX, mbY);
      var b := MacroblockYuv(st.yuvB, mbX, mbY, g.mbW, st.yuvT, d, scan);
      && r.yuvB == b
      && r.yuvT == (if mbY < g.mbH - 1 then st.yuvT[mbX := BottomRow(b)] else st.yuvT)
      && r.y == CopyRows(st.y, g.zeroY + 16 * mbX, g.yStride, b, Y_OFF, 16, 16)
      && r.u == CopyRows(st.u, g.zeroU + 8 * mbX, g.uvStride, b, U_OFF, 8, 8)
      && r.v == CopyRows(st.v, g.zeroV + 8 * mbX, g.uvStride, b, V_OFF, 8, 8)
  {
    hide MacroblockYuv, CopyRows, BottomRow;
  }

  //------------------------------------------------------------------------
  // A row of macroblocks (reconstruct_row)

  /**
   * Every macroblock of a row can be reconstructed from a state of st's
   * shape: mb_h > 0, yuv_t has mb_w valid entries, mb_data mb_w known
   * macroblocks, and every macroblock's cache rows fit.
   */
  predicate RowFits(st: RowState, g: Geometry, data: seq<MBData>, scan: seq<int>)
  {
    && g.mbH > 0 && |st.yuvB| == YUV_SIZE && |st.yuvT| == g.mbW && AllValidTop(st.yuvT)
    && |data| >= g.mbW && ScanFits(scan)
    && (forall x :: 0 <= x < g.mbW ==> ValidMBData(data[x]) && ModesKnown(data[x]))
    && (forall x: nat :: x < g.mbW ==> OutputFits(g, |st.y|, |st.u|, |st.v|, x))
  }

  /** Two states whose buffers have the same sizes. */
  predicate SameShape(a: RowState, b: RowState)
  {
    && |a.yuvB| == |b.yuvB| && |a.yuvT| == |b.yuvT|
    && |a.y| == |b.y| && |a.u| == |b.u| && |a.v| == |b.v|
  }

  lemma RowFitsStep(st: RowState, g: Geometry, data: seq<MBData>, scan: seq<int>, mbY: nat, x: nat)
    requires RowFits(st, g, data, scan) && x < g.mbW
    ensures x < |data| && StepFits(st, g, data[x], scan, x, mbY)
  {
  }

  lemma RowFitsShape(st: RowState, g: Geometry, data: seq<MBData>, scan: seq<int>)
    requires RowFits(st, g, data, scan)
    ensures |st.yuvB| == YUV_SIZE && |st.yuvT| == g.mbW && |data| >= g.mbW && g.mbH > 0
  {
  }

  lemma RowFitsKeep(st: RowState, st': RowState, g: Geometry, data: seq<MBData>, scan: seq<int>)
    requires RowFits(st, g, data, scan) && SameShape(st, st') && AllValidTop(st'.yuvT)
    ensures RowFits(st', g, data, scan)
  {
  }

  /**
   * The state after the loop of reconstruct_row has reconstructed
   * macroblocks 0 .. n - 1 of row mbY, in that order, from st.
   */
  function RowAfter(st: RowState, g: Geometry, data: seq<MBData>, scan: seq<int>, mbY: nat, n: nat): (r: RowState)
    requires RowFits(st, g, data, scan) && n <= g.mbW
    ensures RowFits(r, g, data, scan) && SameShape(st, r)
    decreases n
  {
    hide MacroblockStep, MacroblockYuv, StepFits, RowFits;
    if n == 0 then st
    else
      var prev := RowAfter(st, g, data, scan, mbY, n - 1);
      RowFitsStep(prev, g, data, scan, mbY, n - 1);
      var next := MacroblockStep(prev, g, data[n - 1], scan, n - 1, mbY);
      RowFitsKeep(prev, next, g, data, scan);
      next
  }

  /**
   * The top samples the row leaves for the next one: after n macroblocks of
   * a row that is not the last, yuv_t[x] holds the bottom samples of
   * macroblock x for each x < n and is untouched for the others; on the
   * last row yuv_t is not touched at all.
   */
  lemma {:induction false} RowAfterTop(st: RowState, g: Geometry, data: seq<MBData>, scan: seq<int>, mbY: nat, n: nat, x: nat)
    requires RowFits(st, g, data, scan) && n <= g.mbW && x < g.mbW
    ensures x < |RowAfter(st, g, data, scan, mbY, n).yuvT| && x < |st.yuvT|
    ensures
      RowAfter(st, g, data, scan, mbY, n).yuvT[x]
      == if mbY < g.mbH - 1 && x < n then BottomRow(RowAfter(st, g, data, scan, mbY, x + 1).yuvB) else st.yuvT[x]
    decreases n
  {
    hide MacroblockStep, MacroblockYuv, BottomRow, CopyRows, StepFits, RowFits;
    RowFitsShape(st, g, data, scan);
    if n > 0 {
      RowAfterTop(st, g, data, scan, mbY, n - 1, x);
      var prev := RowAfter(st, g, data, scan, mbY, n - 1);
      RowFitsStep(prev, g, data, scan, mbY, n - 1);
      MacroblockStepParts(prev, g, data[n - 1], scan, n - 1, mbY);
    }
  }

  /** The three planes the caches hold. */
  datatype Plane = Luma | ChromaU | ChromaV

  /** The cache of plane p. */
  function PlaneOf(st: RowState, p: Plane): seq<byte>
  {
    match p
    case Luma => st.y
    case ChromaU => st.u
    case ChromaV => st.v
  }

  /** A macroblock is 16 x 16 in luma and 8 x 8 in each chroma plane. */
  function PlaneSide(p: Plane): nat
  {
    if p == Luma then 16 else 8
  }

  /** Where the plane's block starts in yuv_b. */
  function PlaneSource(p: Plane): int
  {
    match p
    case Luma => Y_OFF
    case ChromaU => U_OFF
    case ChromaV => V_OFF
  }

  /** Where index 0 of the plane's cache view lies in its slice. */
  function PlaneZero(g: Geometry, p: Plane): int
  {
    match p
    case Luma => g.zeroY
    case ChromaU => g.zeroU
    case ChromaV => g.zeroV
  }

  function PlaneStride(g: Geometry, p: Plane): nat
  {
    if p == Luma then g.yStride else g.uvStride
  }

  /** The copy of MacroblockStep into the cache of plane p. */
  lemma MacroblockStepPlane(st: RowState, g: Geometry, d: MBData, scan: seq<int>, mbX: nat, mbY: nat, p: Plane)
    requires StepFits(st, g, d, scan, mbX, mbY)
    ensures hide MacroblockYuv, Luma4From, ResidualsFrom, ChromaFrom, LeftRotated;
      var w := PlaneSide(p);
      && CopyFits(|PlaneOf(st, p)|, PlaneZero(g, p) + w * mbX, PlaneStride(g, p), w, w)
      && SourceFits(YUV_SIZE, PlaneSource(p), w, w)
      && PlaneOf(MacroblockStep(st, g, d, scan, mbX, mbY), p)
         == CopyRows(PlaneOf(st, p), PlaneZero(g, p) + w * mbX, PlaneStride(g, p),
                     MacroblockStep(st, g, d, scan, mbX, mbY).yuvB, PlaneSource(p), w, w)
  {
    hide MacroblockStep, MacroblockYuv, CopyRows, BottomRow;
    MacroblockStepParts(st, g, d, scan, mbX, mbY);
  }

  /**
   * Macroblock m's rows in a plane's cache miss every byte of an earlier
   * macroblock x's rows, when a cache row is wide enough for all mb_w blocks.
   */
  lemma ColumnsApart(z: int, stride: int, w: nat, x: nat, m: nat, mbW: nat, j: nat, j': nat, k: int)
    requires x < m < mbW && stride >= w * mbW && 0 <= k < w
    ensures var i := RowStart(z + w * x, stride, j) + k;
      !(RowStart(z + w * m, stride, j') <= i < RowStart(z + w * m, stride, j') + w)
  {
    var diff := RowStart(z + w * x, stride, j) + k - RowStart(z + w * m, stride, j');
    assert diff == w * x - w * m + k + (j * stride - j' * stride);
    MulMonotone(w, m, mbW);
    if j > j' {
      MulMonotone(stride, j - j', j - j');
      assert j * stride - j' * stride == (j - j') * stride;
      MulAtLeast(stride, j - j');
      assert w * m <= w * mbW - w by { MulMonotone(w, m + 1, mbW); }
      assert diff >= w;
    } else if j < j' {
      assert j' * stride - j * stride == (j' - j) * stride;
      MulAtLeast(stride, j' - j);
      assert w * x + w <= w * m by { MulMonotone(w, x + 1, m); }
      assert w * m <= w * mbW by { MulMonotone(w, m, mbW); }
      assert diff < 0;
    } else {
      assert w * x + w <= w * m by { MulMonotone(w, x + 1, m); }
    }
  }

  lemma MulAtLeast(stride: nat, d: nat)
    requires d >= 1
    ensures d * stride >= stride
  {
    assert d * stride == (d - 1) * stride + stride;
  }

  /**
   * Each macroblock's pixels land in the caches at its own columns: when a
   * cache row is wide enough for all mb_w blocks, byte k of row j of
   * macroblock x's block in plane p holds, after the loop has gone past x,
   * byte k of row j of that plane of yuv_b just after macroblock x; later
   * macroblocks do not overwrite it.
   */
  lemma {:induction false} RowAfterCache(st: RowState, g: Geometry, data: seq<MBData>, scan: seq<int>, mbY: nat,
                                         n: nat, x: nat, p: Plane, j: nat, k: int)
    requires RowFits(st, g, data, scan) && n <= g.mbW && x < n
    requires PlaneStride(g, p) >= PlaneSide(p) * g.mbW && j < PlaneSide(p) && 0 <= k < PlaneSide(p)
    ensures var i := RowStart(PlaneZero(g, p) + PlaneSide(p) * x, PlaneStride(g, p), j) + k;
      && 0 <= i < |PlaneOf(RowAfter(st, g, data, scan, mbY, n), p)|
      && PlaneOf(RowAfter(st, g, data, scan, mbY, n), p)[i]
         == RowAfter(st, g, data, scan, mbY, x + 1).yuvB[PlaneSource(p) + j * BPS + k]
    decreases n
  {
    hide MacroblockStep, MacroblockYuv, CopyRows, RowStart, StepFits, RowFits;
    var w, stride := PlaneSide(p), PlaneStride(g, p);
    var i := RowStart(PlaneZero(g, p) + w * x, stride, j) + k;
    var prev := RowAfter(st, g, data, scan, mbY, n - 1);
    RowFitsStep(prev, g, data, scan, mbY, n - 1);
    MacroblockStepPlane(prev, g, data[n - 1], scan, n - 1, mbY, p);
    var next := MacroblockStep(prev, g, data[n - 1], scan, n - 1, mbY);
    var base := PlaneZero(g, p) + w * (n - 1);
    if x == n - 1 {
      MulMonotone(w, 1, g.mbW);
      CopyRowsPixel(PlaneOf(prev, p), base, stride, next.yuvB, PlaneSource(p), w, w, j, k);
    } else {
      RowAfterCache(st, g, data, scan, mbY, n - 1, x, p, j, k);
      forall j': nat | j' < w
        ensures !(RowStart(base, stride, j') <= i < RowStart(base, stride, j') + w)
      {
        ColumnsApart(PlaneZero(g, p), stride, w, x, n - 1, g.mbW, j, j', k);
      }
      CopyRowsFrame(PlaneOf(prev, p), base, stride, next.yuvB, PlaneSource(p), w, w, i);
    }
  }

  //------------------------------------------------------------------------
  // In-loop filter sequencing (do_filter)

  /** The edges do_filter filters in a macroblock: its left one, its top one, its inner ones. */
  datatype Edges = Edges(left: bool, top: bool, inner: bool)

  /**
   * How one plane of a macroblock is filtered: a block side of 16 (luma)
   * or 8 (chroma) with 3 or 1 inner edges each way, the kinds of filter used
   * on the macroblock edges and on the inner ones, and their thresholds.
   */
  datatype PlaneFilter = PlaneFilter(side: nat, edges: nat, outer: EdgeKind, innerKind: EdgeKind,
                                     thOuter: Thresholds, thInner: Thresholds)

  /**
   * Where the view stands after the left edge: at z when each filter gets
   * the view as it was, side rows further down when the left-edge filter
   * moves the view it was handed (displaced).
   */
  function AfterLeft(z: int, stride: int, side: nat, e: Edges, displaced: bool): int
  {
    if e.left && displaced then z + side * stride else z
  }

  /** Where the view stands after the top edge: side columns further right when displaced. */
  function AfterTop(z: int, side: nat, e: Edges, displaced: bool): int
  {
    if e.top && displaced then z + side else z
  }

  /** The macroblock-edge pass fits: the run along the edge, when it is filtered. */
  predicate EdgePassFits(n: int, z: int, hstride: int, vstride: int, pf: PlaneFilter, on: bool)
  {
    on ==> RunFits(pf.outer, n, z, hstride, vstride, pf.side)
  }

  /** The inner-edge pass fits. */
  predicate InnerPassFits(n: int, z: int, hstride: int, vstride: int, pf: PlaneFilter, on: bool)
  {
    on ==> InnerFits(pf.innerKind, n, z, hstride, vstride, pf.side, pf.edges)
  }

  /** The macroblock edge at z filtered, when on. */
  function EdgePass(s: seq<byte>, z: int, hstride: int, vstride: int, pf: PlaneFilter, on: bool): (r: seq<byte>)
    requires EdgePassFits(|s|, z, hstride, vstride, pf, on)
    ensures |r| == |s|
  {
    if on then EdgeRun(pf.outer, s, z, hstride, vstride, pf.side, pf.thOuter) else s
  }

  /** The inner edges of the block at z filtered, when on. */
  function InnerPass(s: seq<byte>, z: int, hstride: int, vstride: int, pf: PlaneFilter, on: bool): (r: seq<byte>)
    requires InnerPassFits(|s|, z, hstride, vstride, pf, on)
    ensures |r| == |s|
  {
    if on then InnerEdges(pf.innerKind, s, z, hstride, vstride, pf.side, pf.edges, pf.thInner) else s
  }

  /** Every filter of the plane reads and writes inside the n bytes of its slice. */
  predicate PlaneFilterFits(n: int, z: int, stride: int, pf: PlaneFilter, e: Edges, displaced: bool)
  {
    var z1 := AfterLeft(z, stride, pf.side, e, displaced);
    var z2 := AfterTop(z1, pf.side, e, displaced);
    && EdgePassFits(n, z, 1, stride, pf, e.left)
    && InnerPassFits(n, z1, 1, stride, pf, e.inner)
    && EdgePassFits(n, z1, stride, 1, pf, e.top)
    && InnerPassFits(n, z2, stride, 1, pf, e.inner)
  }

  /**
   * One plane of do_filter, its view at z: the left macroblock edge, the
   * inner vertical edges, the top macroblock edge, the inner horizontal
   * edges, in that order, each filter starting where the view then stands.
   */
  function PlaneFiltered(s: seq<byte>, z: int, stride: int, pf: PlaneFilter, e: Edges, displaced: bool): (r: seq<byte>)
    requires PlaneFilterFits(|s|, z, stride, pf, e, displaced)
    ensures |r| == |s|
  {
    var z1 := AfterLeft(z, stride, pf.side, e, displaced);
    var z2 := AfterTop(z1, pf.side, e, displaced);
    var s1 := EdgePass(s, z, 1, stride, pf, e.left);
    var s2 := InnerPass(s1, z1, 1, stride, pf, e.inner);
    var s3 := EdgePass(s2, z1, stride, 1, pf, e.top);
    InnerPass(s3, z2, stride, 1, pf, e.inner)
  }

  /** The filters leave a plane of one colour as it is, wherever the view stands. */
  lemma PlaneFilteredKeepsFlat(s: seq<byte>, c: byte, z: int, stride: int, pf: PlaneFilter, e: Edges, displaced: bool)
    requires PlaneFilterFits(|s|, z, stride, pf, e, displaced) && Flat(s, c)
    ensures PlaneFiltered(s, z, stride, pf, e, displaced) == s
  {
    hide EdgeRun, InnerEdges, RunFits, InnerFits;
    var z1 := AfterLeft(z, stride, pf.side, e, displaced);
    var z2 := AfterTop(z1, pf.side, e, displaced);
    if e.left {
      EdgeRunKeepsFlat(pf.outer, s, c, z, 1, stride, pf.side, pf.thOuter);
    }
    if e.inner {
      InnerEdgesKeepFlat(pf.innerKind, s, c, z1, 1, stride, pf.side, pf.edges, pf.thInner);
      InnerEdgesKeepFlat(pf.innerKind, s, c, z2, stride, 1, pf.side, pf.edges, pf.thInner);
    }
    if e.top {
      EdgeRunKeepsFlat(pf.outer, s, c, z1, stride, 1, pf.side, pf.thOuter);
    }
  }

  /**
   * Where the view stands only matters after a macroblock edge was
   * filtered and before an inner one: without a left edge, or with neither
   * a top edge nor inner edges, a moving view filters what a fixed one does.
   */
  lemma DisplacementHarmless(s: seq<byte>, z: int, stride: int, pf: PlaneFilter, e: Edges)
    requires !e.left && !(e.top && e.inner)
    ensures PlaneFilterFits(|s|, z, stride, pf, e, true) <==> PlaneFilterFits(|s|, z, stride, pf, e, false)
    ensures PlaneFilterFits(|s|, z, stride, pf, e, false) ==>
              PlaneFiltered(s, z, stride, pf, e, true) == PlaneFiltered(s, z, stride, pf, e, false)
  {
  }

  /** do_filter's plans: the luma plan by filter type, the chroma plan of the complex filter. */
  function LumaPlan(filterType: nat, f: FInfo): (pf: PlaneFilter)
    ensures pf.side == 16 && pf.edges == 3
    ensures filterType == 1 <==> pf.outer == Simple
  {
    var limit := f.fLimit as int;
    if filterType == 1 then
      PlaneFilter(16, 3, Simple, Simple, SimpleThresholds(limit + 4), SimpleThresholds(limit))
    else
      PlaneFilter(16, 3, MacroblockEdge, InnerEdge,
                  Thresholds(limit + 4, f.fIlevel as int, f.hevThresh as int),
                  Thresholds(limit, f.fIlevel as int, f.hevThresh as int))
  }

  function ChromaPlan(f: FInfo): (pf: PlaneFilter)
    ensures pf.side == 8 && pf.edges == 1 && pf.outer == MacroblockEdge
  {
    var limit := f.fLimit as int;
    PlaneFilter(8, 1, MacroblockEdge, InnerEdge,
                Thresholds(limit + 4, f.fIlevel as int, f.hevThresh as int),
                Thresholds(limit, f.fIlevel as int, f.hevThresh as int))
  }

  /** The left edge exists from the second column on, the top edge from the second row on. */
  function EdgesOf(f: FInfo, mbX: nat, mbY: nat): Edges
  {
    Edges(mbX > 0, mbY > 0, f.fInner != 0)
  }

  /** The three caches' contents. */
  datatype Planes = Planes(y: seq<byte>, u: seq<byte>, v: seq<byte>)

  /**
   * do_filter's views fit: the luma view at column 16 * mb_x, and for the
   * complex filter the chroma views at column 8 * mb_x. The simple filters
   * never move their view.
   */
  predicate FilterFits(ny: int, nu: int, nv: int, g: Geometry, filterType: nat, f: FInfo, mbX: nat, mbY: nat, displaced: bool)
  {
    var e := EdgesOf(f, mbX, mbY);
    f.fLimit == 0 ||
    if filterType == 1 then PlaneFilterFits(ny, g.zeroY + 16 * mbX, g.yStride, LumaPlan(filterType, f), e, false)
    else
      && PlaneFilterFits(ny, g.zeroY + 16 * mbX, g.yStride, LumaPlan(filterType, f), e, displaced)
      && PlaneFilterFits(nu, g.zeroU + 8 * mbX, g.uvStride, ChromaPlan(f), e, displaced)
      && PlaneFilterFits(nv, g.zeroV + 8 * mbX, g.uvStride, ChromaPlan(f), e, displaced)
  }

  /**
   * The caches after do_filter(mb_x, mb_y): untouched for a filter limit of
   * 0, the luma plane alone filtered by the simple filter, all three by the
   * complex one.
   */
  function MacroblockFiltered(p: Planes, g: Geometry, filterType: nat, f: FInfo, mbX: nat, mbY: nat, displaced: bool): (r: Planes)
    requires FilterFits(|p.y|, |p.u|, |p.v|, g, filterType, f, mbX, mbY, displaced)
    ensures |r.y| == |p.y| && |r.u| == |p.u| && |r.v| == |p.v|
  {
    hide PlaneFilterFits, PlaneFiltered;
    var e := EdgesOf(f, mbX, mbY);
    if f.fLimit == 0 then p
    else if filterType == 1 then
      p.(y := PlaneFiltered(p.y, g.zeroY + 16 * mbX, g.yStride, LumaPlan(filterType, f), e, false))
    else
      Planes(PlaneFiltered(p.y, g.zeroY + 16 * mbX, g.yStride, LumaPlan(filterType, f), e, displaced),
             PlaneFiltered(p.u, g.zeroU + 8 * mbX, g.uvStride, ChromaPlan(f), e, displaced),
             PlaneFiltered(p.v, g.zeroV + 8 * mbX, g.uvStride, ChromaPlan(f), e, displaced))
  }

  /**
   * The filter changes nothing it need not: a limit of 0 leaves every cache
   * alone, the simple filter leaves the chroma caches alone, and caches of
   * one colour each stay as they are.
   */
  lemma MacroblockFilteredFrame(p: Planes, g: Geometry, filterType: nat, f: FInfo, mbX: nat, mbY: nat, displaced: bool, cy: byte, cu: byte, cv: byte)
    requires FilterFits(|p.y|, |p.u|, |p.v|, g, filterType, f, mbX, mbY, displaced)
    ensures f.fLimit == 0 ==> MacroblockFiltered(p, g, filterType, f, mbX, mbY, displaced) == p
    ensures filterType == 1 ==>
              MacroblockFiltered(p, g, filterType, f, mbX, mbY, displaced).u == p.u
              && MacroblockFiltered(p, g, filterType, f, mbX, mbY, displaced).v == p.v
    ensures Flat(p.y, cy) && Flat(p.u, cu) && Flat(p.v, cv) ==>
              MacroblockFiltered(p, g, filterType, f, mbX, mbY, displaced) == p
  {
    hide PlaneFiltered, PlaneFilterFits;
    var e := EdgesOf(f, mbX, mbY);
    if f.fLimit != 0 && Flat(p.y, cy) && Flat(p.u, cu) && Flat(p.v, cv) {
      if filterType == 1 {
        PlaneFilteredKeepsFlat(p.y, cy, g.zeroY + 16 * mbX, g.yStride, LumaPlan(filterType, f), e, false);
      } else {
        PlaneFilteredKeepsFlat(p.y, cy, g.zeroY + 16 * mbX, g.yStride, LumaPlan(filterType, f), e, displaced);
        PlaneFilteredKeepsFlat(p.u, cu, g.zeroU + 8 * mbX, g.uvStride, ChromaPlan(f), e, displaced);
        PlaneFilteredKeepsFlat(p.v, cv, g.zeroV + 8 * mbX, g.uvStride, ChromaPlan(f), e, displaced);
      }
    }
  }

  /** A position whose p3 and q3 lie in the slice fits every kind of edge filter. */
  lemma FitsAt(kind: EdgeKind, n: int, z: int, h: int)
    requires h >= 0 && z - 4 * h >= 0 && z + 3 * h < n
    ensures Fits(kind, n, z, h)
  {
  }

  /** Positions that lie between two positions that fit, fit. */
  lemma FitsBetween(kind: EdgeKind, n: int, a: int, z: int, b: int, h: int)
    requires h >= 0 && a <= z <= b && Fits(kind, n, a, h) && Fits(kind, n, b, h)
    ensures Fits(kind, n, z, h)
  {
  }

  /** A run fits when its first and last positions lie between two positions that fit. */
  lemma {:induction false} RunFitsFromBounds(kind: EdgeKind, n: int, z: int, h: int, v: int, size: nat, a: int, b: int)
    requires h >= 0 && v >= 0 && Fits(kind, n, a, h) && Fits(kind, n, b, h)
    requires size > 0 ==> a <= z && RowStart(z, v, size - 1) <= b
    ensures RunFits(kind, n, z, h, v, size)
    decreases size
  {
    if size > 0 {
      RowStartNext(z, v, size - 1);
      FitsBetween(kind, n, a, z, b, h);
      if size > 1 {
        RowStartNext(z, v, size - 2);
      }
      RunFitsFromBounds(kind, n, z + v, h, v, size - 1, a, b);
    }
  }

  /** The inner edges fit when the first run's start and the last run's end lie between two positions that fit. */
  lemma {:induction false} InnerFitsFromBounds(kind: EdgeKind, n: int, z: int, h: int, v: int, size: nat, edges: nat, a: int, b: int)
    requires h >= 0 && v >= 0 && size > 0 && Fits(kind, n, a, h) && Fits(kind, n, b, h)
    requires edges > 0 ==> a <= z + 4 * h && RowStart(z + 4 * edges * h, v, size - 1) <= b
    ensures InnerFits(kind, n, z, h, v, size, edges)
    decreases edges
  {
    if edges > 0 {
      var z' := z + 4 * h;
      assert z + 4 * edges * h == z' + 4 * (edges - 1) * h;
      assert 4 * (edges - 1) * h >= 0;
      RunFitsFromBounds(kind, n, z', h, v, size, a, b);
      InnerFitsFromBounds(kind, n, z', h, v, size, edges - 1, a, b);
    }
  }

  /**
   * A view that stays at the macroblock's corner z fits every filter of the
   * plane when the block, the 4 rows above it and the 4 bytes before it lie
   * in the slice, the inner edges staying inside the block.
   */
  lemma PlaneFitsInBlock(n: int, z: int, stride: int, pf: PlaneFilter, e: Edges)
    requires stride >= 1 && pf.edges >= 1 && 4 * pf.edges + 4 <= pf.side
    requires z - 4 * stride >= 0 && z + (pf.side - 1) * stride + pf.side - 1 < n
    ensures PlaneFilterFits(n, z, stride, pf, e, false)
  {
    hide RunFits, InnerFits;
    ColumnsFit(pf.outer, n, z, stride, pf.side, 0);
    ColumnsFit(pf.innerKind, n, z, stride, pf.side, pf.edges);
    RowsFit(pf.outer, n, z, stride, pf.side, 0);
    RowsFit(pf.innerKind, n, z, stride, pf.side, pf.edges);
  }

  /**
   * The left edge (edges = 0) or the inner vertical edges: taps step by 1,
   * runs by stride.
   */
  lemma ColumnsFit(kind: EdgeKind, n: int, z: int, stride: int, side: nat, edges: nat)
    requires stride >= 1 && side >= 4 && 4 * edges + 4 <= side
    requires z - 4 * stride >= 0 && z + (side - 1) * stride + side - 1 < n
    ensures edges == 0 ==> RunFits(kind, n, z, 1, stride, side)
    ensures InnerFits(kind, n, z, 1, stride, side, edges)
  {
    hide RunFits, InnerFits, Fits, Reach2, Reach4;
    var span := (side - 1) * stride;
    MulMonotone(side - 1, 1, stride);
    assert span >= side - 1 >= 4 * edges + 3;
    var last := z + 4 * edges + span;
    assert last + 3 < n && z >= 4;
    assert RowStart(z + 4 * edges, stride, side - 1) == last;
    FitsAt(kind, n, last, 1);
    if edges == 0 {
      FitsAt(kind, n, z, 1);
      RunFitsFromBounds(kind, n, z, 1, stride, side, z, last);
      InnerFitsFromBounds(kind, n, z, 1, stride, side, 0, z, last);
    } else {
      FitsAt(kind, n, z + 4, 1);
      InnerFitsFromBounds(kind, n, z, 1, stride, side, edges, z + 4, last);
    }
  }

  /**
   * The top edge (edges = 0) or the inner horizontal edges: taps step by
   * stride, runs by 1.
   */
  lemma RowsFit(kind: EdgeKind, n: int, z: int, stride: int, side: nat, edges: nat)
    requires stride >= 1 && side >= 4 && 4 * edges + 4 <= side
    requires z - 4 * stride >= 0 && z + (side - 1) * stride + side - 1 < n
    ensures edges == 0 ==> RunFits(kind, n, z, stride, 1, side)
    ensures InnerFits(kind, n, z, stride, 1, side, edges)
  {
    hide RunFits, InnerFits, Fits, Reach2, Reach4;
    var span := (side - 1) * stride;
    MulMonotone(stride, 4 * edges + 3, side - 1);
    assert (4 * edges + 3) * stride == 4 * edges * stride + 3 * stride;
    var last := z + 4 * edges * stride + side - 1;
    assert RowStart(z + 4 * edges * stride, 1, side - 1) == last;
    FitsAt(kind, n, last, stride);
    if edges == 0 {
      FitsAt(kind, n, z, stride);
      RunFitsFromBounds(kind, n, z, stride, 1, side, z, last);
      InnerFitsFromBounds(kind, n, z, stride, 1, side, 0, z, last);
    } else {
      MulMonotone(stride, 7, side - 1);
      FitsAt(kind, n, z + 4 * stride, stride);
      InnerFitsFromBounds(kind, n, z, stride, 1, side, edges, z + 4 * stride, last);
    }
  }

  /** A single inner edge is the run 4 positions in. */
  lemma InnerEdgesSingle(kind: EdgeKind, s: seq<byte>, z: int, hstride: int, vstride: int, size: nat, th: Thresholds)
    ensures InnerFits(kind, |s|, z, hstride, vstride, size, 1) <==> RunFits(kind, |s|, z + 4 * hstride, hstride, vstride, size)
    ensures RunFits(kind, |s|, z + 4 * hstride, hstride, vstride, size) ==>
              InnerEdges(kind, s, z, hstride, vstride, size, 1, th) == EdgeRun(kind, s, z + 4 * hstride, hstride, vstride, size, th)
  {
    hide EdgeRun, RunFits;
    if RunFits(kind, |s|, z + 4 * hstride, hstride, vstride, size) {
      var s' := EdgeRun(kind, s, z + 4 * hstride, hstride, vstride, size, th);
      InnerEdgesFirst(kind, s', z + 4 * hstride, hstride, vstride, size, 0, th);
    }
  }

  /**
   * The simple path of do_filter on the luma view y: the left edge, the
   * inner vertical edges, the top edge and the inner horizontal edges, as
   * e says; the simple filters do not move y.
   */
  method SimpleFilterMacroblock(y: OffsetSliceRefMut<byte>, stride: int, f: FInfo, e: Edges)
    requires PlaneFilterFits(y.slice.Length, y.zero, stride, LumaPlan(1, f), e, false)
    modifies y.slice
    ensures y.slice[..] == PlaneFiltered(old(y.slice[..]), y.zero, stride, LumaPlan(1, f), e, false)
  {
    hide EdgeRun, InnerEdges, RunFits, InnerFits;
    var limit := f.fLimit as int;
    if e.left {
      SimpleHFilter16(y, stride, limit + 4);
    }
    if e.inner {
      SimpleHFilter16i(y, stride, limit);
    }
    if e.top {
      SimpleVFilter16(y, stride, limit + 4);
    }
    if e.inner {
      SimpleVFilter16i(y, stride, limit);
    }
  }

  /**
   * The complex path of do_filter as written, on the views y, u and v:
   * h_filter_16 and h_filter_8 on the left edge, h_filter_16i and
   * h_filter_8i on the inner vertical edges, v_filter_16 and v_filter_8 on
   * the top edge, v_filter_16i and v_filter_8i on the inner horizontal
   * edges. The macroblock-edge filters move the views they are handed.
   */
  method ComplexFilterMacroblock(y: OffsetSliceRefMut<byte>, u: OffsetSliceRefMut<byte>, v: OffsetSliceRefMut<byte>,
                                 yStride: int, uvStride: int, f: FInfo, e: Edges)
    requires y.slice != u.slice && y.slice != v.slice && u.slice != v.slice
    requires PlaneFilterFits(y.slice.Length, y.zero, yStride, LumaPlan(2, f), e, true)
    requires PlaneFilterFits(u.slice.Length, u.zero, uvStride, ChromaPlan(f), e, true)
    requires PlaneFilterFits(v.slice.Length, v.zero, uvStride, ChromaPlan(f), e, true)
    modifies y, y.slice, u, u.slice, v, v.slice
    ensures y.slice[..] == PlaneFiltered(old(y.slice[..]), old(y.zero), yStride, LumaPlan(2, f), e, true)
    ensures u.slice[..] == PlaneFiltered(old(u.slice[..]), old(u.zero), uvStride, ChromaPlan(f), e, true)
    ensures v.slice[..] == PlaneFiltered(old(v.slice[..]), old(v.zero), uvStride, ChromaPlan(f), e, true)
  {
    hide EdgeRun, InnerEdges, RunFits, InnerFits;
    var limit, ilevel, hev := f.fLimit as int, f.fIlevel as int, f.hevThresh as int;
    ghost var thi := Thresholds(limit, ilevel, hev);
    if e.left {
      HFilter16(y, yStride, limit + 4, ilevel, hev);
      HFilter8(u, v, uvStride, limit + 4, ilevel, hev);
    }
    if e.inner {
      HFilter16i(y, yStride, limit, ilevel, hev);
      InnerEdgesSingle(InnerEdge, u.slice[..], u.zero, 1, uvStride, 8, thi);
      InnerEdgesSingle(InnerEdge, v.slice[..], v.zero, 1, uvStride, 8, thi);
      HFilter8i(u, v, uvStride, limit, ilevel, hev);
    }
    if e.top {
      VFilter16(y, yStride, limit + 4, ilevel, hev);
      VFilter8(u, v, uvStride, limit + 4, ilevel, hev);
    }
    if e.inner {
      VFilter16i(y, yStride, limit, ilevel, hev);
      InnerEdgesSingle(InnerEdge, u.slice[..], u.zero, uvStride, 1, 8, thi);
      InnerEdgesSingle(InnerEdge, v.slice[..], v.zero, uvStride, 1, 8, thi);
      VFilter8i(u, v, uvStride, limit, ilevel, hev);
    }
  }

  /**
   * The complex path with each macroblock-edge filter handed a copy of the
   * view, made at the macroblock's corner, so that what it moves is its
   * own: the by-value pointers of the C decoder behave so. The luma and
   * the chroma filters work on different buffers, so they are taken one
   * plane after the other here.
   */
  method ComplexFilterMacroblockFixed(y: OffsetSliceRefMut<byte>, u: OffsetSliceRefMut<byte>, v: OffsetSliceRefMut<byte>,
                                      yStride: int, uvStride: int, f: FInfo, e: Edges)
    requires y.slice != u.slice && y.slice != v.slice && u.slice != v.slice
    requires PlaneFilterFits(y.slice.Length, y.zero, yStride, LumaPlan(2, f), e, false)
    requires PlaneFilterFits(u.slice.Length, u.zero, uvStride, ChromaPlan(f), e, false)
    requires PlaneFilterFits(v.slice.Length, v.zero, uvStride, ChromaPlan(f), e, false)
    modifies y.slice, u.slice, v.slice
    ensures y.slice[..] == PlaneFiltered(old(y.slice[..]), y.zero, yStride, LumaPlan(2, f), e, false)
    ensures u.slice[..] == PlaneFiltered(old(u.slice[..]), u.zero, uvStride, ChromaPlan(f), e, false)
    ensures v.slice[..] == PlaneFiltered(old(v.slice[..]), v.zero, uvStride, ChromaPlan(f), e, false)
  {
    hide PlaneFiltered, PlaneFilterFits;
    LumaFilterFixed(y, yStride, f, e);
    ChromaFilterFixed(u, v, uvStride, f, e);
  }

  /** The luma filters of the complex path, each macroblock-edge filter on a copy of y. */
  method LumaFilterFixed(y: OffsetSliceRefMut<byte>, stride: int, f: FInfo, e: Edges)
    requires PlaneFilterFits(y.slice.Length, y.zero, stride, LumaPlan(2, f), e, false)
    modifies y.slice
    ensures y.slice[..] == PlaneFiltered(old(y.slice[..]), y.zero, stride, LumaPlan(2, f), e, false)
  {
    hide EdgeRun, InnerEdges, RunFits, InnerFits;
    var limit, ilevel, hev := f.fLimit as int, f.fIlevel as int, f.hevThresh as int;
    if e.left {
      var yv := new OffsetSliceRefMut(y.slice, y.zero);
      HFilter16(yv, stride, limit + 4, ilevel, hev);
    }
    if e.inner {
      HFilter16i(y, stride, limit, ilevel, hev);
    }
    if e.top {
      var yv := new OffsetSliceRefMut(y.slice, y.zero);
      VFilter16(yv, stride, limit + 4, ilevel, hev);
    }
    if e.inner {
      VFilter16i(y, stride, limit, ilevel, hev);
    }
  }

  /** The chroma filters of the complex path, each macroblock-edge filter on copies of u and v. */
  method ChromaFilterFixed(u: OffsetSliceRefMut<byte>, v: OffsetSliceRefMut<byte>, stride: int, f: FInfo, e: Edges)
    requires u.slice != v.slice
    requires PlaneFilterFits(u.slice.Length, u.zero, stride, ChromaPlan(f), e, false)
    requires PlaneFilterFits(v.slice.Length, v.zero, stride, ChromaPlan(f), e, false)
    modifies u.slice, v.slice
    ensures u.slice[..] == PlaneFiltered(old(u.slice[..]), u.zero, stride, ChromaPlan(f), e, false)
    ensures v.slice[..] == PlaneFiltered(old(v.slice[..]), v.zero, stride, ChromaPlan(f), e, false)
  {
    hide EdgeRun, InnerEdges, RunFits, InnerFits;
    var limit, ilevel, hev := f.fLimit as int, f.fIlevel as int, f.hevThresh as int;
    ghost var thi := Thresholds(limit, ilevel, hev);
    if e.left {
      var uv := new OffsetSliceRefMut(u.slice, u.zero);
      var vv := new OffsetSliceRefMut(v.slice, v.zero);
      HFilter8(uv, vv, stride, limit + 4, ilevel, hev);
    }
    if e.inner {
      InnerEdgesSingle(InnerEdge, u.slice[..], u.zero, 1, stride, 8, thi);
      InnerEdgesSingle(InnerEdge, v.slice[..], v.zero, 1, stride, 8, thi);
      HFilter8i(u, v, stride, limit, ilevel, hev);
    }
    if e.top {
      var uv := new OffsetSliceRefMut(u.slice, u.zero);
      var vv := new OffsetSliceRefMut(v.slice, v.zero);
      VFilter8(uv, vv, stride, limit + 4, ilevel, hev);
    }
    if e.inner {
      InnerEdgesSingle(InnerEdge, u.slice[..], u.zero, stride, 1, 8, thi);
      InnerEdgesSingle(InnerEdge, v.slice[..], v.zero, stride, 1, 8, thi);
      VFilter8i(u, v, stride, limit, ilevel, hev);
    }
  }



  /**
   * The caches as the decoder lays them out for the complex filter on a
   * frame two macroblocks wide: 8 extra luma rows and 4 extra chroma rows
   * above index 0, and 16 (8) rows from it on.
   */
  function WitnessGeometry(): Geometry
  {
    Geometry(2, 2, 8 * 32, 4 * 16, 4 * 16, 32, 16)
  }

  /**
   * A complex-filtered macroblock at (1, 1) with inner edges: with a view
   * that stays at the corner every luma and chroma filter fits, while the
   * moving view puts the inner vertical luma edges 16 rows below the
   * macroblock, past the end of the cache.
   */
  lemma DisplacedFilterLeavesCache()
    ensures var g := WitnessGeometry();
      var f := FInfo(20, 10, 1, 2);
      && FilterFits(256 + 16 * 32, 64 + 8 * 16, 64 + 8 * 16, g, 2, f, 1, 1, false)
      && !FilterFits(256 + 16 * 32, 64 + 8 * 16, 64 + 8 * 16, g, 2, f, 1, 1, true)
  {
    var g := WitnessGeometry();
    var f := FInfo(20, 10, 1, 2);
    var e := EdgesOf(f, 1, 1);
    PlaneFitsInBlock(768, 272, 32, LumaPlan(2, f), e);
    PlaneFitsInBlock(192, 72, 16, ChromaPlan(f), e);
    assert !Fits(InnerEdge, 768, 788, 1);
  }

  //------------------------------------------------------------------------
  // The decoder (VP8Decoder)

  /** VP8FInfo: the filter strength, interior limit, inner-edge flag and hev threshold of a macroblock. */
  datatype FInfo = FInfo(fLimit: byte, fIlevel: byte, fInner: byte, hevThresh: byte)

  /**
   * VP8Decoder, the parts reconstruction and filtering use. yuv_t and
   * mb_data are slices the decoder's owner hands in and reconstruction
   * updates; the caches are views into the owner's macroblock-row buffers.
   */
  class Decoder {
    const mbW: nat
    const mbH: nat
    var yuvT: seq<TopSamples>
    var fInfo: seq<FInfo>
    const yuvB: array<byte>
    const cacheY: OffsetSliceRefMut<byte>
    const cacheU: OffsetSliceRefMut<byte>
    const cacheV: OffsetSliceRefMut<byte>
    const cacheYStride: nat
    const cacheUvStride: nat
    var mbData: seq<MBData>
    /** 0 = off, 1 = simple, 2 = complex. */
    const filterType: nat

    constructor (mbW: nat, mbH: nat, yuvT: seq<TopSamples>, fInfo: seq<FInfo>, yuvB: array<byte>,
                 cacheY: OffsetSliceRefMut<byte>, cacheU: OffsetSliceRefMut<byte>, cacheV: OffsetSliceRefMut<byte>,
                 cacheYStride: nat, cacheUvStride: nat, mbData: seq<MBData>, filterType: nat)
      ensures this.mbW == mbW && this.mbH == mbH && this.yuvT == yuvT && this.fInfo == fInfo
      ensures this.yuvB == yuvB && this.cacheY == cacheY && this.cacheU == cacheU && this.cacheV == cacheV
      ensures this.cacheYStride == cacheYStride && this.cacheUvStride == cacheUvStride
      ensures this.mbData == mbData && this.filterType == filterType
    {
      this.mbW, this.mbH, this.yuvT, this.fInfo, this.yuvB := mbW, mbH, yuvT, fInfo, yuvB;
      this.cacheY, this.cacheU, this.cacheV := cacheY, cacheU, cacheV;
      this.cacheYStride, this.cacheUvStride := cacheYStride, cacheUvStride;
      this.mbData, this.filterType := mbData, filterType;
    }

    /**
     * yuv_b is a [u8; YUV_SIZE], yuv_t holds mb_w top samples, and the four
     * buffers are distinct (each is a separate &mut borrow).
     */
    predicate Valid()
      reads this
    {
      && yuvB.Length == YUV_SIZE && |yuvT| == mbW && AllValidTop(yuvT)
      && yuvB != cacheY.slice && yuvB != cacheU.slice && yuvB != cacheV.slice
      && cacheY.slice != cacheU.slice && cacheY.slice != cacheV.slice && cacheU.slice != cacheV.slice
    }

    function Geom(): (g: Geometry)
      reads this, cacheY, cacheU, cacheV
      ensures g.mbW == mbW && g.mbH == mbH && g.yStride == cacheYStride && g.uvStride == cacheUvStride
      ensures g.zeroY == cacheY.zero && g.zeroU == cacheU.zero && g.zeroV == cacheV.zero
    {
      Geometry(mbW, mbH, cacheY.zero, cacheU.zero, cacheV.zero, cacheYStride, cacheUvStride)
    }

    function State(): (st: RowState)
      reads this, yuvB, cacheY.slice, cacheU.slice, cacheV.slice
      ensures st.yuvB == yuvB[..] && st.yuvT == yuvT
      ensures st.y == cacheY.slice[..] && st.u == cacheU.slice[..] && st.v == cacheV.slice[..]
    {
      RowState(yuvB[..], yuvT, cacheY.slice[..], cacheU.slice[..], cacheV.slice[..])
    }

    /** The caches as values. */
    function Caches(): (p: Planes)
      reads cacheY.slice, cacheU.slice, cacheV.slice
      ensures p.y == cacheY.slice[..] && p.u == cacheU.slice[..] && p.v == cacheV.slice[..]
    {
      Planes(cacheY.slice[..], cacheU.slice[..], cacheV.slice[..])
    }

    /**
     * do_filter(mb_x, mb_y) as written: a luma view at column 16 * mb_x;
     * nothing when the filter limit is 0; the simple filter on the luma
     * view (filter type 1), else the complex filter on it and on chroma
     * views at column 8 * mb_x, whose macroblock-edge filters move the view
     * they are handed. Its `assert!(limit >= 3)` and every index the
     * filters make become preconditions.
     */
    method DoFilter(mbX: nat, mbY: nat)
      requires Valid() && mbX < |fInfo| && (fInfo[mbX].fLimit == 0 || fInfo[mbX].fLimit >= 3)
      requires FilterFits(cacheY.slice.Length, cacheU.slice.Length, cacheV.slice.Length, Geom(), filterType, fInfo[mbX], mbX, mbY, true)
      modifies cacheY.slice, cacheU.slice, cacheV.slice
      ensures Caches() == MacroblockFiltered(old(Caches()), Geom(), filterType, fInfo[mbX], mbX, mbY, true)
    {
      hide PlaneFiltered, PlaneFilterFits;
      var yBps := cacheYStride;
      var yDst := cacheY.WithOffset(mbX * 16);
      var f := fInfo[mbX];
      var e := EdgesOf(f, mbX, mbY);
      var limit := f.fLimit;
      if limit == 0 {
        return;
      }
      if filterType == 1 {
        SimpleFilterMacroblock(yDst, yBps, f, e);
      } else {
        var uvBps := cacheUvStride;
        var uDst := cacheU.WithOffset(mbX * 8);
        var vDst := cacheV.WithOffset(mbX * 8);
        ComplexFilterMacroblock(yDst, uDst, vDst, yBps, uvBps, f, e);
      }
    }

    /**
     * do_filter with every macroblock-edge filter handed its own copy of
     * the view, so that each filter starts at the macroblock's corner.
     */
    method DoFilterFixed(mbX: nat, mbY: nat)
      requires Valid() && mbX < |fInfo| && (fInfo[mbX].fLimit == 0 || fInfo[mbX].fLimit >= 3)
      requires FilterFits(cacheY.slice.Length, cacheU.slice.Length, cacheV.slice.Length, Geom(), filterType, fInfo[mbX], mbX, mbY, false)
      modifies cacheY.slice, cacheU.slice, cacheV.slice
      ensures Caches() == MacroblockFiltered(old(Caches()), Geom(), filterType, fInfo[mbX], mbX, mbY, false)
    {
      hide PlaneFiltered, PlaneFilterFits;
      var yBps := cacheYStride;
      var yDst := cacheY.WithOffset(mbX * 16);
      var f := fInfo[mbX];
      var e := EdgesOf(f, mbX, mbY);
      var limit := f.fLimit;
      if limit == 0 {
        return;
      }
      if filterType == 1 {
        SimpleFilterMacroblock(yDst, yBps, f, e);
      } else {
        var uvBps := cacheUvStride;
        var uDst := cacheU.WithOffset(mbX * 8);
        var vDst := cacheV.WithOffset(mbX * 8);
        ComplexFilterMacroblockFixed(yDst, uDst, vDst, yBps, uvBps, f, e);
      }
    }

    /**
     * reconstruct_row(mb_y): the left border of yuv_b set to 129, its top
     * border to 129 (mb_y > 0) or 127 (mb_y = 0), then reconstruct_macroblock
     * for mb_x = 0 .. mb_w - 1 in that order.
     */
    method ReconstructRow(mbY: nat, scan: seq<int>)
      requires Valid() && RowFits(State(), Geom(), mbData, scan)
      modifies this, yuvB, cacheY.slice, cacheU.slice, cacheV.slice
      ensures Valid() && mbData == old(mbData) && fInfo == old(fInfo)
      ensures State() == RowAfter(old(State()).(yuvB := Bordered(old(yuvB[..]), mbY)), Geom(), mbData, scan, mbY, mbW)
    {
      hide MacroblockStep, MacroblockYuv, CopyRows, BottomRow, Bordered, StepFits, RowFits;
      ghost var g := Geom();
      ghost var st0 := State();
      InitRowBorders(yuvB, mbY);
      ghost var start := State();
      assert start == st0.(yuvB := Bordered(st0.yuvB, mbY));
      RowFitsKeep(st0, start, g, mbData, scan);
      for mbX := 0 to mbW
        invariant Valid() && mbData == old(mbData) && fInfo == old(fInfo) && Geom() == g
        invariant State() == RowAfter(start, g, mbData, scan, mbY, mbX)
      {
        RowFitsStep(State(), g, mbData, scan, mbY, mbX);
        ReconstructMacroblock(mbX, mbY, scan);
      }
    }

    /**
     * reconstruct_macroblock(mb_x, mb_y) with the decoder's K_SCAN as scan:
     * the new state is MacroblockStep of the old one. It panics (here: may
     * not be called) on an unknown mode, on mb_h = 0 (mb_h - 1 underflows),
     * and when a cache row lies outside its buffer.
     */
    method ReconstructMacroblock(mbX: nat, mbY: nat, scan: seq<int>)
      requires Valid() && mbX < |mbData|
      requires StepFits(State(), Geom(), mbData[mbX], scan, mbX, mbY)
      modifies this, yuvB, cacheY.slice, cacheU.slice, cacheV.slice
      ensures Valid() && mbData == old(mbData) && fInfo == old(fInfo)
      ensures State() == MacroblockStep(old(State()), Geom(), mbData[mbX], scan, mbX, mbY)
    {
      hide MacroblockStep, MacroblockYuv, CopyRows, BottomRow;
      ghost var st0, g := State(), Geom();
      var block := mbData[mbX];
      MacroblockStepParts(st0, g, block, scan, mbX, mbY);
      ghost var r := MacroblockStep(st0, g, block, scan, mbX, mbY);
      assert MacroblockFits(yuvB[..], mbX, mbY, mbW, yuvT, block, scan);
      assert OutputFits(g, |st0.y|, |st0.u|, |st0.v|, mbX);
      assert CopyFits(cacheY.slice.Length, cacheY.zero + 16 * mbX, cacheYStride, 16, 16);
      assert CopyFits(cacheU.slice.Length, cacheU.zero + 8 * mbX, cacheUvStride, 8, 8);
      assert CopyFits(cacheV.slice.Length, cacheV.zero + 8 * mbX, cacheUvStride, 8, 8);
      assert yuvB != cacheY.slice && yuvB != cacheU.slice && yuvB != cacheV.slice;
      assert cacheY.slice != cacheU.slice && cacheY.slice != cacheV.slice && cacheU.slice != cacheV.slice;
      assert mbX < |yuvT| && AllValidTop(yuvT) && yuvB.Length == YUV_SIZE;
      assert st0.y == cacheY.slice[..] && st0.u == cacheU.slice[..] && st0.v == cacheV.slice[..];
      hide State, Geom, StepFits, CopyFits, OutputFits, MacroblockFits;
      ReconstructYuv(mbX, mbY, block, scan);
      assert yuvB[..] == r.yuvB;
      if mbY < mbH - 1 {
        yuvT := yuvT[mbX := BottomRow(yuvB[..])];
      }
      assert yuvT == r.yuvT;
      StoreAll(mbX);
      assert cacheY.slice[..] == r.y && cacheU.slice[..] == r.u && cacheV.slice[..] == r.v;
      assert yuvB[..] == r.yuvB;
      assert State() == r;
    }

    /** The copy loops of reconstruct_macroblock, from yuv_b to the three caches. */
    method StoreAll(mbX: nat)
      requires yuvB.Length == YUV_SIZE
      requires yuvB != cacheY.slice && yuvB != cacheU.slice && yuvB != cacheV.slice
      requires cacheY.slice != cacheU.slice && cacheY.slice != cacheV.slice && cacheU.slice != cacheV.slice
      requires CopyFits(cacheY.slice.Length, cacheY.zero + 16 * mbX, cacheYStride, 16, 16)
      requires CopyFits(cacheU.slice.Length, cacheU.zero + 8 * mbX, cacheUvStride, 8, 8)
      requires CopyFits(cacheV.slice.Length, cacheV.zero + 8 * mbX, cacheUvStride, 8, 8)
      modifies cacheY.slice, cacheU.slice, cacheV.slice
      ensures yuvB[..] == old(yuvB[..])
      ensures cacheY.slice[..] == CopyRows(old(cacheY.slice[..]), cacheY.zero + 16 * mbX, cacheYStride, yuvB[..], Y_OFF, 16, 16)
      ensures cacheU.slice[..] == CopyRows(old(cacheU.slice[..]), cacheU.zero + 8 * mbX, cacheUvStride, yuvB[..], U_OFF, 8, 8)
      ensures cacheV.slice[..] == CopyRows(old(cacheV.slice[..]), cacheV.zero + 8 * mbX, cacheUvStride, yuvB[..], V_OFF, 8, 8)
    {
      hide CopyRows, CopyFits;
      StoreRows(cacheY.slice, cacheY.zero + 16 * mbX, cacheYStride, yuvB, Y_OFF, 16, 16);
      StoreChromaRows(cacheU.slice, cacheV.slice, cacheU.zero + 8 * mbX, cacheV.zero + 8 * mbX, cacheUvStride, yuvB);
    }

    /** The yuv_b part of reconstruct_macroblock. */
    method ReconstructYuv(mbX: nat, mbY: nat, block: MBData, scan: seq<int>)
      requires Valid() && MacroblockFits(yuvB[..], mbX, mbY, mbW, yuvT, block, scan)
      modifies yuvB
      ensures yuvB[..] == MacroblockYuv(old(yuvB[..]), mbX, mbY, mbW, yuvT, block, scan)
    {
      hide LeftRotated, WithTop, Luma4From, Replicated, TopRightFilled, ResidualsFrom, Predicted, ChromaFrom;
      hide LumaCoeffsFrom, ChromaCoeffsFit;
      var coeffs := block.coeffs;
      var bits := block.nonZeroY;
      if mbX > 0 {
        RotateLeft(yuvB);
      }
      if mbY > 0 {
        BringTop(yuvB, yuvT[mbX]);
      }
      if block.isI4x4 != 0 {
        TopRight(yuvB, mbX, mbY, mbW, yuvT);
        Luma4Blocks(yuvB, scan, block.imodes, coeffs, bits);
      } else {
        var mode := GetMode(mbX, mbY, block.imodes[0]);
        Luma16(yuvB, mode.value, scan, coeffs, bits);
      }
      var uvMode := GetMode(mbX, mbY, block.uvmode);
      Chroma(yuvB, uvMode.value, block.nonZeroUV, coeffs);
    }
  }
}
