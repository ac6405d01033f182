# VP8 pixel reconstruction of libwebp-sys2-rs, modelled in Dafny

libwebp-sys2-rs ports parts of libwebp's lossy (VP8) decoder from C to
Rust. This project models the part that turns decoded coefficients and
modes into pixels, and proves properties of that model:

- the inverse transforms: transform_one, its DC-only and three-coefficient
  shortcuts, the chroma variants and the Walsh-Hadamard transform of the
  luma DCs;
- the intra predictors: 4x4, 16x16 and 8x8 chroma;
- the loop filters: the simple and complex edge filters, filter_loop_26
  and filter_loop_24, and the macroblock wrappers;
- the dispatchers do_transform and do_uv_transform;
- the macroblock reconstruction of VP8Decoder:
  - the rotation of the left samples;
  - the top and top-right samples;
  - prediction plus residuals;
  - stashing the bottom rows;
  - the copy into the row caches;
  - reconstruct_row and do_filter;
- the fancy (bilinear) chroma upsampler for RGBA output;
- the YUV to RGB point converters and the RGB to YUV helpers of yuv.h;
- the colourspace mode predicates;
- the offset-indexed slice views everything above works through.

Modules follow the source files. They are listed here with their work
buffers and what is proved. Everything is on unbounded integers. The
source's masks, shifts and saturations are written out. An i16 or i32
overflow, which panics in a debug build, is a precondition, and
"## Left out" names each one:

- `OffsetRef` (offsetref.rs)
  - An `OffsetSliceRef` is a value. `OffsetSliceRefMut` and `OffsetArray`
    are classes over a shared `array`.
  - An index whose inner position leaves the slice panics. That panic is a
    precondition, or the `None` of `TryIndex`.
- `ClipTables`: the VP8_KCLIP1, VP8_KSCLIP1, VP8_KSCLIP2 and VP8_KABS0
  lookup tables, as the saturations they tabulate.
- `DecTransform`, `DecPredict` and `DecFilter` (dec.rs)
  - Each operation is a `method` on an `array<byte>` (the work buffer,
    rows `BPS` = 32 bytes apart). It is proved against a specification
    function on the array's contents.
  - Lemmas about those functions give:
    - the reference definitions (section 12.3 of RFC 6386 for the
      diagonal 4x4 modes);
    - that the transform shortcuts are exact;
    - output ranges;
    - what a filter leaves alone;
    - the smoothing and bounds of the edge filters.
- `FrameDec` (frame_dec.rs): the dispatchers, with proofs that the
  shortcut each 2-bit code selects equals the full transform whenever the
  code describes the coefficients.
- `Vp8Dec` (vp8_dec.rs)
  - The decoder is a `class` whose fields are yuv_b, yuv_t, the three
    cache views and the geometry.
  - `ReconstructMacroblock`, `ReconstructRow` and `DoFilter` are proved
    against state functions (`MacroblockStep`, `RowAfter`,
    `MacroblockFiltered`).
  - Lemmas about those functions say:
    - which bytes each step writes and which it leaves;
    - that the row below sees the stashed samples;
    - that every macroblock's pixels land in its own cache columns;
    - that the dispatched residual paths equal full transforms.
- `Upsampling` (upsampling.rs)
  - `do_upsample_line_pair` for the RGBA upsampler, with its two 16-bit
    lanes packed in a u32.
  - Proved: the lanes never disturb each other; each output pixel is the
    interpolation its position calls for; interpolated chroma stays
    within the samples' range.
- `Yuv` (yuv.rs) and `RgbToYuv` (yuv.h): the fixed-point colour
  converters, with anchors, monotonicity, byte layouts and ranges.
- `Decode` (decode.rs): the colourspace mode constants and predicates.
- `Dsp` and `Arith`: shared helpers. They hold the block geometry of a
  BPS-strided buffer and small facts about division.

Calls into code outside the core become parameters:
- the scan order K_SCAN becomes `scan`;
- the caches, yuv_t and mb_data are handed in, not taken from raw
  pointers.

## Model

| member | source | states |
|---|---|---|
| OffsetRef.OffsetSliceRef.Index | src/offsetref.rs:26-29 | reading index idx of a view gives slice element idx + zero; allowed only when that position lies inside the slice |
| OffsetRef.OffsetSliceRef.TryIndex | src/offsetref.rs:26-29 | the panic made explicit: None exactly when idx + zero is outside the slice, else that element |
| OffsetRef.OffsetSliceRef.WithOffset | src/offsetref.rs:18-20 | with_offset keeps the slice and moves zero by the offset |
| OffsetRef.WithOffsetIndex | src/offsetref.rs:18-29 | index i of with_offset(o) is index i + o of the original view, and panics exactly when that does |
| OffsetRef.WithOffsetCompose | src/offsetref.rs:18-20 | two with_offset steps equal one step by the sum |
| OffsetRef.OffsetSliceRefMut.constructor | src/offsetref.rs:38-43 | new stores the slice and zero it is given |
| OffsetRef.OffsetSliceRefMut.Index | src/offsetref.rs:64-67 | the mutable view reads what its value view reads, element idx + zero |
| OffsetRef.OffsetSliceRefMut.WithOffset | src/offsetref.rs:45-47 | a fresh view over the same slice, zero moved; the original view is unchanged |
| OffsetRef.OffsetSliceRefMut.MoveZero | src/offsetref.rs:56-58 | move_zero moves this view's zero in place and changes no element |
| OffsetRef.OffsetSliceRefMut.IndexMut | src/offsetref.rs:70-73 | an assignment through index_mut changes exactly element idx + zero |
| OffsetRef.MoveZeroTwice | src/offsetref.rs:56-58 | move_zero(a) then move_zero(b) is move_zero(a + b), the contents untouched |
| OffsetRef.OffsetArray.Index | src/offsetref.rs:91-94 | index reads arr[idx + ZERO] |
| OffsetRef.OffsetArray.IndexMut | src/offsetref.rs:98-101 | an assignment through index_mut changes exactly arr[idx + ZERO] |
| OffsetRef.OffsetArray.WithOffset | src/offsetref.rs:83-85 | a view of the whole array at ZERO + offset; its index i is in range exactly when the array's index i + offset is |
| ClipTables.Clip1 | src/dec.rs:483-484 | VP8_KCLIP1 saturates to [0, 255]: identity inside, 0 below, 255 above |
| ClipTables.SClip1 | src/dec.rs:480 | VP8_KSCLIP1 saturates to [-128, 127] |
| ClipTables.SClip2 | src/dec.rs:481-482 | VP8_KSCLIP2 saturates to [-16, 15] |
| ClipTables.Abs0 | src/dec.rs:532 | VP8_KABS0 is the absolute value: non-negative and equal to v or -v |
| ClipTables.Clip8bIsClip1 | src/dec.rs:1263-1273 | clip_8b's mask test saturates every int exactly as VP8_KCLIP1 does |
| DecTransform.Mul1Monotone | src/dec.rs:15-17 | mul1 (the 20091/65536 rotation) is non-decreasing |
| DecTransform.Mul2Monotone | src/dec.rs:19-21 | mul2 (the 35468/65536 rotation) is non-decreasing |
| DecTransform.Store | src/dec.rs:23-25 | store changes only pixel (x, y) of the block, to clip_8b(pixel + (v >> 3)) |
| DecTransform.Store2 | src/dec.rs:27-32 | store2 adds the row dc + d, dc + c, dc - c, dc - d into row y |
| DecTransform.AddRowPixels | src/dec.rs:23-32 | adding a row changes its four pixels to the clamped sums and nothing else |
| DecTransform.AddResidualFrame | src/dec.rs:70-108 | adding a residual table leaves every pixel outside its rows of the block alone |
| DecTransform.AddResidualPixels | src/dec.rs:70-108 | each pixel of the block becomes clip_8b(old pixel + residual >> 3) |
| DecTransform.AddResidualNoop | src/dec.rs:34-41 | a residual table whose entries all shift to 0 changes no pixel |
| DecTransform.VerticalColumnInto | src/dec.rs:74-85 | one pass of the first loop writes column i of the vertical pass into tmp[4i .. 4i + 3] |
| DecTransform.VerticalPassInto | src/dec.rs:71-85 | the first loop leaves the whole vertical pass in tmp, whatever tmp held |
| DecTransform.ColumnsDoneAll | src/dec.rs:71-85 | the four column passes fill tmp completely, independent of its old contents |
| DecTransform.HorizontalRowAdd | src/dec.rs:95-107 | one pass of the second loop adds row j of the residual into the block |
| DecTransform.HorizontalPassAdd | src/dec.rs:93-107 | the second loop adds the whole horizontal pass into the block |
| DecTransform.TransformOne | src/dec.rs:70-108 | transform_one gives the block plus the residual table of the two butterfly passes |
| DecTransform.TransformDC | src/dec.rs:34-41 | transform_dc adds (in + 4) >> 3 to all 16 pixels; the column-major stores give the row-major result; every i16 input up to 32763 is accepted, above which in + 4 overflows |
| DecTransform.TransformAC3 | src/dec.rs:111-121 | transform_ac3 adds the table built from in[0], in[1] and in[4] by four store2 calls, for any coefficients (it computes in i32) |
| DecTransform.ButterflyOfEven | src/dec.rs:75-82 | with zero odd inputs the butterfly keeps only the even sum and difference |
| DecTransform.ButterflyOfTop | src/dec.rs:75-82 | with only two inputs the butterfly is the mul1/mul2 rotation of x1 around x0 |
| DecTransform.ColumnOfConst | src/dec.rs:75-82 | a column holding only its top coefficient x gives four copies of x |
| DecTransform.ColumnOfTop | src/dec.rs:75-82 | a column with only its two top coefficients is the ac3 column |
| DecTransform.HorizontalRowOfTop | src/dec.rs:96-104 | a horizontal row whose last two inputs are zero is the store2 row of transform_ac3 |
| DecTransform.VerticalPassOfColumns | src/dec.rs:74-85 | the vertical pass is its four columns laid end to end |
| DecTransform.VerticalPassOfDc | src/dec.rs:74-85 | with only a DC coefficient the vertical pass is the DC in the first four entries and zeros elsewhere |
| DecTransform.HorizontalPassOfDc | src/dec.rs:95-107 | the horizontal pass of that vector is the transform_dc table |
| DecTransform.TransformOneOfDc | src/dec.rs:34-41 | for a DC-only block, transform_dc computes exactly transform_one's table |
| DecTransform.VerticalPassOfAc3 | src/dec.rs:74-85 | with only in[0], in[1] and in[4] the vertical pass is the ac3 columns |
| DecTransform.HorizontalPassOfAc3 | src/dec.rs:111-121 | the horizontal pass of the ac3 columns is transform_ac3's table |
| DecTransform.TransformOneOfAc3 | src/dec.rs:111-121 | when only in[0], in[1] and in[4] are non-zero, transform_ac3 equals transform_one |
| DecTransform.TransformOneOfZero | src/dec.rs:70-108 | an all-zero block leaves the pixels unchanged |
| DecTransform.ColumnRange | src/dec.rs:75-82 | each vertical-pass column of coefficients in [-2048, 2047] lies in [-7881, 7879] |
| DecTransform.VerticalPassRange | src/dec.rs:74-85 | every tmp entry lies in [-7881, 7879], the interval the source's comment gives |
| DecTransform.HorizontalRowRange | src/dec.rs:86-104 | each correction of a row, v >> 3, lies in [-3794, 3794] |
| DecTransform.HorizontalPassRange | src/dec.rs:86-107 | every correction transform_one adds lies in [-3794, 3794] |
| DecTransform.TransformTwo | src/dec.rs:58-63 | transform_two is transform_one on the block and, when do_two, on the block 4 pixels right; only the blocks it transforms need transform_one's range |
| DecTransform.TransformUV | src/dec.rs:65-68 | transform_uv is transform_two on the top and on the bottom pair of 4x4 sub-blocks |
| DecTransform.DcSubBlock | src/dec.rs:43-56 | one step of transform_dc_uv: transform_dc on sub-block k when its DC is non-zero, else nothing; only that DC must fit transform_dc |
| DecTransform.TransformDCUV | src/dec.rs:43-56 | transform_dc_uv runs that step on the four sub-blocks in order, reading only the four DCs |
| DecTransform.TransformOneOfDcSub | src/dec.rs:43-56 | for a DC-only sub-block the step equals transform_one on the sub-block |
| DecTransform.TransformDCUVIsTransformUV | src/dec.rs:43-68 | when every sub-block has only its DC, transform_dc_uv equals transform_uv |
| DecTransform.AddPixelAppend | src/dec.rs:23-25 | a store ignores any bytes appended after the buffer |
| DecTransform.AddRowAppend | src/dec.rs:27-32 | a row store ignores any bytes appended after the buffer |
| DecTransform.AddResidualAppend | src/dec.rs:70-108 | adding a residual ignores any bytes appended after the buffer |
| DecTransform.TransformOneAppend | src/dec.rs:70-108 | transform_one touches no byte past its block |
| DecTransform.TransformTwoAppend | src/dec.rs:58-63 | transform_two touches no byte past its blocks |
| DecTransform.TransformUVAppend | src/dec.rs:65-68 | transform_uv touches no byte past the 8x8 block |
| DecTransform.DcIfNonZeroAppend | src/dec.rs:43-56 | a transform_dc_uv step touches no byte past the 8x8 block |
| DecTransform.TransformDCUVAppend | src/dec.rs:43-56 | transform_dc_uv touches no byte past the 8x8 block |
| DecTransform.WhtColumnInto | src/dec.rs:129-138 | one pass of the first loop of transform_wht writes tmp[i], tmp[4 + i], tmp[8 + i], tmp[12 + i] and nothing else |
| DecTransform.WhtRowInto | src/dec.rs:139-150 | one pass of the second loop writes the DCs of blocks 4i .. 4i + 3 |
| DecTransform.TransformWHT | src/dec.rs:126-151 | transform_wht leaves out as the two passes define it, on every input where none of its i16 additions or subtractions overflows |
| DecTransform.WhtStoreRowFrame | src/dec.rs:139-150 | a second-loop pass writes only the DC slots of its four blocks |
| DecTransform.WhtStoreRowDcs | src/dec.rs:139-150 | those four slots receive the Walsh-Hadamard output of their blocks |
| DecTransform.WhtApplySlots | src/dec.rs:139-150 | after n passes, the DCs of blocks 0 .. 4n - 1 hold their outputs and every other entry of out is unchanged |
| DecTransform.TransformWHTSlots | src/dec.rs:126-151 | transform_wht writes exactly out[16b] for the 16 luma blocks b and leaves the other 240 entries alone |
| DecTransform.WhtColumnRange | src/dec.rs:129-138 | a first-pass column of coefficients in [-2048, 2047] lies in [-8192, 8190] |
| DecTransform.WhtRowRange | src/dec.rs:139-150 | a row of first-pass values in [-8192, 8190] goes through the second pass without an i16 overflow |
| DecTransform.WhtNoOverflow | src/dec.rs:126-151 | with such coefficients no i16 operation of transform_wht overflows, so transform_wht accepts them |
| DecTransform.WhtOverflows | src/dec.rs:129-131 | outside that range it can overflow: in[0] = in[12] = 16384 makes a0 = 32768 |
| DecTransform.WhtOfDc | src/dec.rs:126-151 | a lone DC coefficient x spreads to (x + 3) >> 3 in all 16 blocks |
| DecPredict.TrueMotion | src/dec.rs:157-170 | true_motion fills the n x n block with clip(top[x] + left[y] - topleft) and changes nothing else |
| DecPredict.TmRowInto | src/dec.rs:161-168 | the inner loop writes row y of that block, pixel by pixel |
| DecPredict.TrueMotionPixels | src/dec.rs:157-170 | every pixel of the TrueMotion block is that clipped gradient |
| DecPredict.TrueMotionFlat | src/dec.rs:157-170 | neighbours all equal to v give a block of v |
| DecPredict.Tm4 | src/dec.rs:172-174 | tm4 is true_motion on a 4x4 block |
| DecPredict.Tm8uv | src/dec.rs:176-178 | tm8uv is true_motion on an 8x8 block |
| DecPredict.Tm16 | src/dec.rs:180-182 | tm16 is true_motion on a 16x16 block |
| DecPredict.BorderKept | src/dec.rs:157-182 | filling a block narrower than BPS keeps its left and top neighbours |
| DecPredict.Ve16 | src/dec.rs:187-193 | ve16 copies the 16 pixels above into every row of the block |
| DecPredict.He16 | src/dec.rs:195-201 | he16 fills each row with the pixel left of it |
| DecPredict.Put16 | src/dec.rs:203-207 | put16 fills the 16x16 block with v |
| DecPredict.MeanBetween | src/dec.rs:209-239 | the rounded mean of values in [lo, hi] lies in [lo, hi] |
| DecPredict.Dc16 | src/dec.rs:209-219 | dc16 fills the block with the rounded mean of its 32 neighbours; the u32 sum never wraps and the & 0xff never bites |
| DecPredict.Dc16NoTop | src/dec.rs:221-227 | dc16_no_top fills the block with the rounded mean of the 16 left pixels |
| DecPredict.Dc16NoLeft | src/dec.rs:229-235 | dc16_no_left fills the block with the rounded mean of the 16 top pixels |
| DecPredict.Dc16NoTopLeft | src/dec.rs:237-239 | dc16_no_top_left fills the block with 0x80 |
| DecPredict.SidesBetween | src/dec.rs:209-235 | each neighbour sum of n values in [lo, hi] lies in [n * lo, n * hi] |
| DecPredict.MeanOfBoth | src/dec.rs:209-219 | the rounded mean of two such sums lies in [lo, hi] |
| DecPredict.DcBetween | src/dec.rs:209-239 | every DC predictor's value lies between the least and greatest neighbour it averages, so flat neighbours v give v |
| DecPredict.Ve8uv | src/dec.rs:419-425 | ve8_uv copies the 8 pixels above into every row |
| DecPredict.He8uv | src/dec.rs:427-434 | he8_uv fills each row with the pixel left of it, rows 0..6 from whole chunks and row 7 separately |
| DecPredict.Put8x8uv | src/dec.rs:436-440 | put_8x8_uv fills the 8x8 block with v |
| DecPredict.Dc8uv | src/dec.rs:442-448 | dc8_uv fills with the rounded mean of the 8 top and 8 left pixels |
| DecPredict.Dc8uvNoLeft | src/dec.rs:450-456 | dc8_uv_no_left fills with the rounded mean of the 8 top pixels |
| DecPredict.Dc8uvNoTop | src/dec.rs:458-464 | dc8_uv_no_top fills with the rounded mean of the 8 left pixels |
| DecPredict.Dc8uvNoTopLeft | src/dec.rs:466-468 | dc8_uv_no_top_left fills with 0x80 |
| DecPredict.Avg3Between | src/dec.rs:243-245 | avg3 is symmetric in its outer taps and lies between its least and greatest tap |
| DecPredict.Avg2Between | src/dec.rs:247-249 | avg2 is symmetric and lies between its two pixels |
| DecPredict.Ve4 | src/dec.rs:251-262 | ve4 writes the avg3-smoothed top row into all 4 rows and nothing else |
| DecPredict.He4 | src/dec.rs:265-276 | row y of he4 is four copies of the smoothed left pixel; the last row uses the bottom-left pixel twice |
| DecPredict.Dc4 | src/dec.rs:279-289 | dc4 fills the 4x4 block with the rounded mean of its 8 neighbours |
| DecPredict.Rd4 | src/dec.rs:297-314 | rd4 writes the down-right block (each pixel set once through assign) and nothing else |
| DecPredict.Ld4 | src/dec.rs:316-332 | ld4 writes the down-left block |
| DecPredict.Vr4 | src/dec.rs:334-354 | vr4 writes the vertical-right block |
| DecPredict.Vl4 | src/dec.rs:356-376 | vl4 writes the vertical-left block |
| DecPredict.Hu4 | src/dec.rs:378-391 | hu4 writes the horizontal-up block |
| DecPredict.Hd4 | src/dec.rs:393-414 | hd4 writes the horizontal-down block |
| DecPredict.Rd4Reference | src/dec.rs:297-314 | rd4's block matches the B_RD_PRED formula of section 12.3 of RFC 6386 over the edge left column, corner, top row |
| DecPredict.Ld4Reference | src/dec.rs:316-332 | ld4's block matches B_LD_PRED of section 12.3 of RFC 6386, including the bottom-right avg3(A[6], A[7], A[7]) |
| DecPredict.Diagonal4Shifts | src/dec.rs:297-414 | the diagonal modes repeat along their directions: rd4 down-right, ld4 down-left, vr4/vl4 two rows down and one across, hd4/hu4 one row down and two across |
| DecPredict.Flat4 | src/dec.rs:251-414 | flat neighbours v give a block of v in every one of the ten 4x4 modes |
| DecFilter.DoFilter2 | src/dec.rs:475-485 | do_filter_2 replaces p0 and q0 as the filter formula says, changes no other pixel, and leaves the view where it was |
| DecFilter.DoFilter4 | src/dec.rs:489-502 | do_filter_4 replaces p1, p0, q0 and q1 and nothing else |
| DecFilter.DoFilter6 | src/dec.rs:506-524 | do_filter_6 replaces p2 .. q2 and nothing else |
| DecFilter.SetSix | src/dec.rs:518-523 | the six index_mut assignments put the six values at p2 .. q2 |
| DecFilter.NeedsFilter2Strengthens | src/dec.rs:536-560 | an edge that passes needs_filter_2 passes needs_filter with the same t |
| DecFilter.ThresholdsMonotone | src/dec.rs:527-542 | needs_filter accepts more edges as t grows; hev flags fewer as thresh grows |
| DecFilter.ClipMove | src/dec.rs:483-484 | a saturated adjustment moves a byte by at most the adjustment |
| DecFilter.GapBound | src/dec.rs:481-482 | an adjustment in [-m, m] is at most m away from 0 |
| DecFilter.Filter2Bounded | src/dec.rs:475-485 | do_filter_2 moves p0 and q0 by at most 16 |
| DecFilter.Filter4Bounded | src/dec.rs:489-502 | do_filter_4 moves p0 and q0 by at most 16, p1 and q1 by at most 8 |
| DecFilter.WeightRanges | src/dec.rs:514-517 | for a in [-128, 127] the weights lie in [-27, 27], [-18, 18], [-9, 9], as the source's comment says |
| DecFilter.Filter6Bounded | src/dec.rs:506-524 | do_filter_6 moves p0/q0 by at most 27, p1/q1 by at most 18, p2/q2 by at most 9 |
| DecFilter.Filter2Smooths | src/dec.rs:475-485 | on a step with p1 == q1 and p0 <= q0, do_filter_2 raises p0 and lowers q0 without crossing them |
| DecFilter.Filter2KeepsFlat | src/dec.rs:475-485 | a flat edge is left unchanged by do_filter_2 |
| DecFilter.Filter4KeepsFlat | src/dec.rs:489-502 | a flat edge is left unchanged by do_filter_4 |
| DecFilter.Filter6KeepsFlat | src/dec.rs:506-524 | a flat edge is left unchanged by do_filter_6 |
| DecFilter.FilterLoop | src/dec.rs:609-648 | filter_loop_26/24 filter the run of positions along the edge in order, and the view they were handed ends moved by size * vstride |
| DecFilter.FilterLoopOn | src/dec.rs:617-626 | the loop body filters at the view's current zero, then moves the view by vstride |
| DecFilter.FilterPosition | src/dec.rs:617-625 | one iteration applies needs_filter_2, then hev, then do_filter_2 or do_filter_6/4 at the view's zero |
| DecFilter.SimplePosition | src/dec.rs:568-572 | one position of the simple filter applies needs_filter, then do_filter_2 |
| DecFilter.SimpleVFilter16 | src/dec.rs:566-573 | simple_v_filter_16 filters the horizontal edge at 16 columns and leaves the view where it was |
| DecFilter.SimpleHFilter16 | src/dec.rs:586-593 | simple_h_filter_16 filters the vertical edge at 16 rows |
| DecFilter.SimpleVFilter16i | src/dec.rs:576-583 | simple_v_filter_16i filters the three inner horizontal edges on a moving copy; the caller's view stays |
| DecFilter.SimpleHFilter16i | src/dec.rs:596-603 | simple_h_filter_16i filters the three inner vertical edges, 4 columns apart |
| DecFilter.VFilter16 | src/dec.rs:652-654 | v_filter_16 filters the top macroblock edge; the view ends 16 columns right |
| DecFilter.HFilter16 | src/dec.rs:657-659 | h_filter_16 filters the left macroblock edge; the view ends 16 rows down |
| DecFilter.VFilter16i | src/dec.rs:663-668 | v_filter_16i filters the three inner horizontal edges, each on a fresh copy of the view |
| DecFilter.HFilter16i | src/dec.rs:671-676 | h_filter_16i filters the three inner vertical edges, each on a fresh copy |
| DecFilter.VFilter8 | src/dec.rs:680-684 | v_filter_8 filters the top edge of both chroma blocks; each view ends 8 columns on |
| DecFilter.HFilter8 | src/dec.rs:687-691 | h_filter_8 filters the left edge of both chroma blocks; each view ends 8 rows down |
| DecFilter.VFilter8i | src/dec.rs:694-698 | v_filter_8i filters the inner horizontal chroma edge on copies of both views |
| DecFilter.HFilter8i | src/dec.rs:701-705 | h_filter_8i filters the inner vertical chroma edge on copies of both views |
| DecFilter.TapsKeepFlat | src/dec.rs:475-524 | every tap filter writes back what it read from a flat buffer |
| DecFilter.EdgeAtKeepsFlat | src/dec.rs:617-625 | an edge position of any kind leaves a flat buffer as it is, whatever the thresholds |
| DecFilter.EdgeRunKeepsFlat | src/dec.rs:609-648 | a whole run of edge positions leaves a flat buffer as it is |
| DecFilter.InnerEdgesKeepFlat | src/dec.rs:663-676 | the inner edges of a macroblock leave a flat buffer as it is |
| DecFilter.EdgeAtFrame | src/dec.rs:475-524 | an edge position changes at most p2 .. q2 around it; the simple filter changes at most p0 and q0 |
| DecFilter.EdgeRunFrame | src/dec.rs:609-648 | a run changes nothing before p2 of its first position and nothing past q2 of its last |
| DecFilter.DitherDelta | src/dec.rs:707-718 | the correction (d - 128 + 8) >> 4 lies in [-8, 8] and is 0 exactly for d in [120, 135] |
| DecFilter.DitherRow | src/dec.rs:715-719 | one dithered row: its count pixels become clip_8b(pixel + correction) and the rest stay |
| DecFilter.DitherCombine8x8 | src/dec.rs:711-722 | dither_combine_8x8 applies the 64 dither values to the 8 rows of 8 pixels, in order |
| DecFilter.DitherRowAt | src/dec.rs:715-719 | the inner loop dithers one row of 8 pixels |
| DecFilter.DitherNeutral | src/dec.rs:711-722 | dither values all in [120, 135] leave the pixels as they were |
| DecFilter.DitherRowsFrame | src/dec.rs:711-722 | no pixel before the first row or past the last row is touched |
| DecFilter.DitherRowsPixel | src/dec.rs:711-722 | with rows at least 8 apart, pixel i of row r takes dither value 8r + i against its own original value |
| FrameDec.DoTransform | src/frame_dec.rs:5-12 | do_transform on the block equals the transform its 2-bit code selects; only the coefficients that transform reads are constrained |
| FrameDec.DoTransformIsTransformOne | src/frame_dec.rs:5-12 | whenever the code describes the coefficients, the selected transform equals transform_one |
| FrameDec.DoUVTransform | src/frame_dec.rs:14-22 | do_uv_transform does nothing, transform_uv or transform_dc_uv as bits & 0xff and bits & 0xaa select; only the coefficients the chosen transform reads are constrained |
| FrameDec.DoUVTransformIsTransformUV | src/frame_dec.rs:14-22 | when the codes describe the coefficients, do_uv_transform equals the full transform_uv |
| FrameDec.DoUVTransformAppend | src/frame_dec.rs:14-22 | do_uv_transform touches no byte past the 8x8 block |
| Vp8Dec.GetMode | src/vp8_dec.rs:625-639 | mode 0 becomes the DC variant for the neighbours that exist at (mb_x, mb_y), modes 1 .. 6 fixed predictors, others None (panic) |
| Vp8Dec.PredLuma16 | src/vp8_dec.rs:598-608 | vp8_pred_luma16 fills the 16x16 block as the chosen predictor does |
| Vp8Dec.PredChroma8 | src/vp8_dec.rs:610-620 | vp8_pred_chroma8 fills the 8x8 block as the chosen predictor does |
| Vp8Dec.PredLuma4 | src/vp8_dec.rs:582-596 | vp8_pred_luma4 maps imode 0 .. 9 to dc4, tm4, ve4, he4, rd4, vr4, ld4, vl4, hd4, hu4 |
| Vp8Dec.PredictorsFit | src/vp8_dec.rs:327-330 | with YUV_SIZE, Y_OFF, U_OFF and V_OFF every predictor's array fits inside yuv_b at its origin |
| Vp8Dec.CopyInto | src/vp8_dec.rs:543-547 | copy_from_slice replaces exactly the bytes p .. p + length with the row |
| Vp8Dec.Copy32bLeft | src/vp8_dec.rs:364-367 | copy_32b_left copies 4 bytes left; split_at_mut makes it panic unless the destination ends before the source |
| Vp8Dec.LumaRotateStep | src/vp8_dec.rs:463-467 | rotating luma row r copies its columns 12..15 to columns -4..-1 |
| Vp8Dec.URotateStep | src/vp8_dec.rs:468-471 | rotating u row r copies its columns 4..7 to columns -4..-1 |
| Vp8Dec.VRotateStep | src/vp8_dec.rs:468-471 | rotating v row r does the same in the v block |
| Vp8Dec.RotateLeft | src/vp8_dec.rs:462-472 | the rotation loops rotate all 17 luma and 9 + 9 chroma rows |
| Vp8Dec.RotateLumaRows | src/vp8_dec.rs:463-467 | the luma loop rotates the 17 luma rows in order |
| Vp8Dec.RotateChromaRows | src/vp8_dec.rs:468-471 | the chroma loop rotates u before v in each of the 9 rows |
| Vp8Dec.LeftRotatedPixels | src/vp8_dec.rs:462-472 | after rotation, columns -4..-1 hold the old columns 12..15 (luma) or 4..7 (chroma) and nothing else changed |
| Vp8Dec.BringTop | src/vp8_dec.rs:481-485 | the saved top samples are copied into row -1 of the three blocks |
| Vp8Dec.WithBottomRow | src/vp8_dec.rs:481-485 | after the stash of line 533, bringing the samples back gives row -1 equal to the stashed bottom rows, the rest unchanged |
| Vp8Dec.TopRightFilledPixels | src/vp8_dec.rs:491-498 | below row 0 the 4 top-right bytes come from the macroblock above-right, or repeat the last top byte on the rightmost one; nothing else changes |
| Vp8Dec.ReplicatedPixels | src/vp8_dec.rs:499-503 | the four bytes right of rows 3, 7 and 11 equal those right of row -1, and nothing else changes |
| Vp8Dec.TopRight | src/vp8_dec.rs:491-503 | top_right writes the top-right fill, then its replication |
| Vp8Dec.Luma4Blocks | src/vp8_dec.rs:506-511 | the 4x4 loop predicts each block with imodes[n] at Y_OFF + scan[n], then runs do_transform with the next 2-bit code |
| Vp8Dec.Luma4IsReference | src/vp8_dec.rs:506-511 | when the codes describe the coefficients, the 4x4 loop gives prediction plus full transform_one per block |
| Vp8Dec.ResidualsOfZero | src/vp8_dec.rs:515-520 | skipping the residual loop when bits == 0 changes nothing the loop would have changed |
| Vp8Dec.ResidualsIsReference | src/vp8_dec.rs:516-519 | when the codes describe the coefficients, the residual loop equals transform_one per block |
| Vp8Dec.Residuals16 | src/vp8_dec.rs:516-519 | the 16x16 residual loop runs do_transform at Y_OFF + scan[n] with bits shifted by 2 each time |
| Vp8Dec.Luma16 | src/vp8_dec.rs:513-520 | the 16x16 path is the predictor, then the residual loop unless bits is 0 |
| Vp8Dec.ChromaIsReference | src/vp8_dec.rs:525-530 | when non_zero_uv describes the coefficients, the chroma is prediction plus the full transform_uv of each plane |
| Vp8Dec.ChromaDestinationTooShort | src/vp8_dec.rs:529-530 | yuv_b holds only 248 bytes from U_OFF and 232 from V_OFF, fewer than do_uv_transform's [u8; 260], though each 8x8 block fits |
| Vp8Dec.DoUVTransformInBlock | src/frame_dec.rs:14-22 | do_uv_transform on a destination that holds just the 8x8 block: same result as on a padded destination |
| Vp8Dec.Chroma | src/vp8_dec.rs:525-530 | predicts u then v with the chroma mode, then runs do_uv_transform on u with non_zero_uv and on v with non_zero_uv >> 8 |
| Vp8Dec.CopyRowsPixel | src/vp8_dec.rs:542-548 | with stride >= w, byte k of row j of the cache holds byte k of row j of yuv_b |
| Vp8Dec.CopyRowsFrame | src/vp8_dec.rs:542-548 | the copy loops touch no cache byte outside the block's rows |
| Vp8Dec.StoreRows | src/vp8_dec.rs:542-544 | the luma copy loop copies the 16 rows of the block, in order |
| Vp8Dec.StoreChromaRows | src/vp8_dec.rs:545-548 | the chroma copy loop copies row j of u, then row j of v |
| Vp8Dec.BorderCorners | src/vp8_dec.rs:562-565 | below row 0 the three top-left corners set to 129 complete the borders |
| Vp8Dec.BorderTopFill | src/vp8_dec.rs:566-572 | on row 0 the three runs of 127 complete the borders |
| Vp8Dec.Fill | src/vp8_dec.rs:569-571 | fill sets exactly the bytes p .. p + len to v |
| Vp8Dec.InitRowBorders | src/vp8_dec.rs:551-572 | reconstruct_row's border initialisation gives the Bordered buffer |
| Vp8Dec.BorderedPixels | src/vp8_dec.rs:551-572 | left columns are 129; the top-left corner is 129 below row 0 and 127 on it; on row 0 the row above each block (luma top-right included) is 127; nothing else changes |
| Vp8Dec.MacroblockStepParts | src/vp8_dec.rs:456-549 | a macroblock step equals its yuv_b reconstruction, then the stash unless on the last row, then the copy into the caches |
| Vp8Dec.RowAfterTop | src/vp8_dec.rs:533-537 | a row that is not the last leaves yuv_t[x] = the bottom samples of macroblock x; the last row leaves yuv_t untouched |
| Vp8Dec.ColumnsApart | src/vp8_dec.rs:539-548 | when a cache row fits all mb_w blocks, macroblock m's rows miss every byte of an earlier macroblock's rows |
| Vp8Dec.RowAfterCache | src/vp8_dec.rs:539-548 | after the row loop passes x, cache plane p holds macroblock x's pixels at x's columns; later macroblocks do not overwrite them |
| Vp8Dec.PlaneFilteredKeepsFlat | src/vp8_dec.rs:401-454 | do_filter leaves a one-colour plane as it is, wherever the view stands |
| Vp8Dec.DisplacementHarmless | src/vp8_dec.rs:437-452 | a moving view filters what a fixed one does unless a macroblock edge is filtered before an inner one |
| Vp8Dec.MacroblockFilteredFrame | src/vp8_dec.rs:401-454 | limit 0 leaves every cache alone; the simple filter leaves the chroma caches alone; one-colour caches stay as they are |
| Vp8Dec.PlaneFitsInBlock | src/vp8_dec.rs:401-454 | a view fixed at the macroblock corner fits every filter when the block, 4 rows above and 4 bytes before lie in the slice |
| Vp8Dec.ColumnsFit | src/vp8_dec.rs:438-443 | the left-edge and inner-vertical-edge runs stay inside that region |
| Vp8Dec.RowsFit | src/vp8_dec.rs:446-451 | the top-edge and inner-horizontal-edge runs stay inside that region |
| Vp8Dec.InnerEdgesSingle | src/dec.rs:694-705 | a single inner edge is the run 4 positions in |
| Vp8Dec.SimpleFilterMacroblock | src/vp8_dec.rs:411-429 | the simple path filters left, inner vertical, top and inner horizontal edges as the flags say, without moving the view |
| Vp8Dec.ComplexFilterMacroblock | src/vp8_dec.rs:430-453 | the complex path as written: each macroblock-edge filter moves the shared views before the later passes |
| Vp8Dec.ComplexFilterMacroblockFixed | src/vp8_dec.rs:430-453 | the complex path with each macroblock-edge filter on its own copy of the view at the macroblock corner |
| Vp8Dec.LumaFilterFixed | src/vp8_dec.rs:438-450 | the luma filters of that corrected path |
| Vp8Dec.ChromaFilterFixed | src/vp8_dec.rs:439-451 | the chroma filters of that corrected path |
| Vp8Dec.DisplacedFilterLeavesCache | src/vp8_dec.rs:437-443 | at macroblock (1, 1) with inner edges the fixed view fits every filter, while the moving view puts the inner vertical luma edges past the end of the cache |
| Vp8Dec.Decoder.constructor | src/vp8_dec.rs:340-362 | the decoder holds the given dimensions, buffers, cache views, strides, macroblock data and filter type |
| Vp8Dec.Decoder.DoFilter | src/vp8_dec.rs:401-454 | do_filter as written gives MacroblockFiltered with moving views; assert!(limit >= 3) is a precondition |
| Vp8Dec.Decoder.DoFilterFixed | src/vp8_dec.rs:401-454 | the corrected do_filter gives MacroblockFiltered with views fixed at the corner |
| Vp8Dec.Decoder.ReconstructRow | src/vp8_dec.rs:551-579 | reconstruct_row sets the borders, then runs the macroblock steps for mb_x = 0 .. mb_w - 1 in order |
| Vp8Dec.Decoder.ReconstructMacroblock | src/vp8_dec.rs:456-549 | reconstruct_macroblock takes the state to MacroblockStep of the old state |
| Vp8Dec.Decoder.StoreAll | src/vp8_dec.rs:538-548 | the three copy loops write the rows of yuv_b into the caches and leave yuv_b unchanged |
| Vp8Dec.Decoder.ReconstructYuv | src/vp8_dec.rs:462-530 | yuv_b becomes the rotation, top samples, luma and chroma reconstruction of MacroblockYuv |
| Upsampling.LoadUv | src/upsampling.rs:33-35 | load_uv packs u into the low 16 bits and v into the high 16 bits |
| Upsampling.EdgeLanes | src/upsampling.rs:48-54 | the packed edge weighting (3 near + far + 2) >> 2 gives each lane's own weighting |
| Upsampling.HalfStepLanes | src/upsampling.rs:64-77 | the diagonal-and-halve step gives Mix4 of each lane; the v lane's shifted bits never reach the u lane |
| Upsampling.SplitLanes | src/upsampling.rs:50 | (uv & 0xff) and (uv >> 16) recover the two lanes of a packed word |
| Upsampling.InteriorLanes | src/upsampling.rs:61-77 | each packed result of an iteration gives, in each lane, the bilinear interpolation towards its nearest sample |
| Upsampling.ChromaSamples | src/upsampling.rs:108-114 | a line of len pixels reads (len - 1) / 2 + 1 chroma samples: enough for every pixel and no more |
| Upsampling.UpsampledRowAt | src/upsampling.rs:60-100 | bytes 4i .. 4i + 3 of an output row are pixel i |
| Upsampling.EdgeChroma | src/upsampling.rs:47-58 | pixel 0, and pixel len - 1 when len is even, get the edge weighting of the nearest samples |
| Upsampling.PairChroma | src/upsampling.rs:60-86 | iteration x gives pixels 2x - 1 and 2x of each row, interpolated towards its own chroma line |
| Upsampling.RowStep | src/upsampling.rs:60-100 | storing pixel n after pixels 0 .. n - 1 gives the first n + 1 |
| Upsampling.StorePixel | src/upsampling.rs:129-134 | one upsample call stores pixel n's RGBA bytes |
| Upsampling.StoreEdge | src/upsampling.rs:47-58 | the edge upsample calls store the edge pixel |
| Upsampling.StorePair | src/upsampling.rs:67-83 | the two upsample calls of an iteration store pixels 2x - 1 and 2x |
| Upsampling.PixelPairs | src/upsampling.rs:60-86 | the pair loop stores pixels 1 .. 2 * ((len - 1) / 2) of both rows; tl_uv and l_uv end on the last samples |
| Upsampling.DoUpsampleLinePair | src/upsampling.rs:37-101 | the top row becomes the upsampled row towards the top line, the bottom row (if any) towards the current line, and nothing past len pixels changes |
| Upsampling.FfiUpsampleLinePair | src/upsampling.rs:103-126 | with len > 0 and the slice lengths the wrapper builds, the rows are upsampled; a null bottom pointer leaves bottom_dst unchanged |
| Upsampling.Mix4Within | src/upsampling.rs:8-13 | the 9-3-3-1 weighting lies between its least and greatest sample |
| Upsampling.Mix2Within | src/upsampling.rs:48-54 | the 3-1 edge weighting lies between its two samples |
| Upsampling.PixelChromaWithin | src/upsampling.rs:37-101 | when both chroma lines lie in [lo, hi], so does every pixel's interpolated chroma |
| Upsampling.FlatChromaRow | src/upsampling.rs:37-101 | with flat chroma, the fancy upsampler gives exactly the point conversion with that chroma |
| Yuv.MaskTest | src/yuv.rs:39 | v & !YUV_MASK2 == 0 exactly when v, read unsigned, is below 256 << 6 |
| Yuv.Clip8 | src/yuv.rs:38-46 | vp8_clip8 is 0 for negative v, v >> 6 inside the range, 255 above |
| Yuv.Clip8Monotone | src/yuv.rs:38-46 | vp8_clip8 is non-decreasing |
| Yuv.MultHiMonotone | src/yuv.rs:34-36 | mult_hi with a non-negative coefficient is non-decreasing |
| Yuv.RgbMonotoneInY | src/yuv.rs:48-59 | for fixed u and v, R, G and B are each non-decreasing in y |
| Yuv.RgbAnchors | src/yuv.rs:48-65 | y = 16 gives black, y = 235 white, and mid grey 128 gives 130 |
| Yuv.YuvToRgb | src/yuv.rs:61-65 | vp8_yuv_to_rgb stores R, G, B at dst[0..3] and nothing else |
| Yuv.YuvToBgr | src/yuv.rs:67-71 | vp8_yuv_to_bgr stores B, G, R at dst[0..3] |
| Yuv.BgrIsReversedRgb | src/yuv.rs:61-71 | the BGR bytes are the RGB bytes reversed |
| Yuv.Bits | src/yuv.rs:77-78 | the masks and shifts of the packers are divisions, and `\|` of disjoint fields is a sum |
| Yuv.YuvToRgb565 | src/yuv.rs:73-81 | vp8_yuv_to_rgb_565 stores the two packed bytes |
| Yuv.Pack565Layout | src/yuv.rs:73-81 | as a big-endian word: the top 5 bits of R, top 6 of G, top 5 of B |
| Yuv.YuvToRgba4444 | src/yuv.rs:83-91 | vp8_yuv_to_rgba_4444 stores the two packed bytes |
| Yuv.Pack4444Layout | src/yuv.rs:83-91 | the top 4 bits of R, G and B, then an alpha nibble of all ones |
| Yuv.YuvToRgba | src/yuv.rs:98-101 | the RGB bytes, then opaque alpha |
| Yuv.YuvToBgra | src/yuv.rs:103-106 | the BGR bytes, then opaque alpha |
| Yuv.YuvToArgb | src/yuv.rs:108-111 | opaque alpha, then the RGB bytes |
| RgbToYuv.ClipUV | c_src/src/dsp/yuv.h:96-99 | VP8ClipUV descales around 128 and saturates to [0, 255] |
| RgbToYuv.RGBToU | c_src/src/dsp/yuv.h:106-109 | VP8RGBToU is a byte |
| RgbToYuv.RGBToV | c_src/src/dsp/yuv.h:111-114 | VP8RGBToV is a byte |
| RgbToYuv.RGBToYNoClip | c_src/src/dsp/yuv.h:101-104 | "no need to clip": for bytes and a rounding below 1 << 16, Y lies in [16, 236] |
| RgbToYuv.RGBToYStudioRange | c_src/src/dsp/yuv.h:101-104 | with a rounding up to 56829 (YUV_HALF included) Y lies in [16, 235] |
| RgbToYuv.RGBToYWhiteAtLargeRounding | c_src/src/dsp/yuv.h:101-104 | white with rounding 65535 gives 236, so 235 is not a bound for every rounding |
| RgbToYuv.RGBToYAnchors | c_src/src/dsp/yuv.h:27-28 | with YUV_HALF, black gives 16 and white 235 |
| RgbToYuv.RGBToYMonotone | c_src/src/dsp/yuv.h:101-104 | Y is non-decreasing in r, g and b |
| RgbToYuv.GrayHasNeutralChroma | c_src/src/dsp/yuv.h:106-114 | grey input gives U = V = 128 for any rounding below 1 << 18 |
| Decode.IsPremultipliedMode | src/decode.rs:64-66 | 1 for rgbA, bgrA, Argb and rgbA_4444; 0 for everything else |
| Decode.IsAlphaMode | src/decode.rs:70-77 | 1 for the straight alpha modes, YUVA and every premultiplied mode |
| Decode.IsRGBMode | src/decode.rs:81-83 | 1 exactly for the modes below MODE_YUV |
| Decode.PremultipliedIsAlphaRgb | src/decode.rs:64-83 | every premultiplied mode is both an alpha and an RGB mode |
| Decode.NonAlphaModes | src/decode.rs:39-58 | RGB, BGR, RGB_565 and YUV carry no alpha; YUVA is the only alpha mode that is not RGB |

## Left out

- The `extern "C"` wrappers (`*_C`, `DoTransform`, `DoUVTransform`, `ReconstructRow`, `DoFilter`, `ShowParams`) and `VP8Decoder::from_ffi` turn raw pointers into slices. The model starts from the slices they would build: the decoder's constructor receives the buffers, the cache views' zeros and the strides directly, including the K_FILTER_EXTRA_ROWS offsets from_ffi computes.
- `OffsetSliceRefMut::from_zero_mut_ptr` and `OffsetArray::from_zero_offset_slice_mut` (defined outside the selected files) are modelled through the views they are used to make.
- isize/usize overflow of index arithmetic is not modelled; every index is an unbounded integer and an out-of-range index is a precondition, as the source's bounds checks panic there.
- `mb_h - 1` underflows when mb_h = 0: `Vp8Dec.Decoder.ReconstructMacroblock` requires mb_h > 0 (in StepFits) rather than model the panic of a debug build or the wrap-around of a release build, where every row would stash its samples.
- DecTransform.TransformOne: the coefficients are assumed in [-2048, 2047]. This is the source's own stated assumption (src/dec.rs:88-89). Outside it, the i32 products of the second pass can overflow, and that is not modelled. Nothing in this model bounds the coefficients, because parsing and dequantisation are left out. The same assumption applies wherever transform_one runs, and nowhere else:
  - DecTransform.TransformTwo: on the blocks it transforms;
  - DecTransform.TransformUV: on all 64 coefficients;
  - FrameDec.DoTransform: on the first block, for code 3 only;
  - FrameDec.DoUVTransform and Vp8Dec.DoUVTransformInBlock: when some AC code is set;
  - Vp8Dec.Luma4Blocks, Vp8Dec.Residuals16, Vp8Dec.Luma16 and Vp8Dec.Chroma: through those calls;
  - Vp8Dec.ValidMBData: through those calls, and so the Decoder methods.
- DecTransform.TransformWHT: an input on which an i16 addition or subtraction overflows is excluded (WhtFits). A debug build panics there. The wrap-around a release build would compute instead is not modelled. transform_one's range avoids every such overflow (WhtNoOverflow).
- DecTransform.TransformDC: an input above 32763 is excluded because `in + 4` overflows i16 there. This is a panic in a debug build; the release-build wrap-around is not modelled.
- The K_SCAN table is not part of this model; it is a parameter `scan` with the fit conditions the 4x4 blocks need.
- The dithering and alpha fields of the decoder, segment headers and skip flags are outside the reconstruction and filtering paths and are not modelled.
- Only the RGBA upsampler (XSTEP = 4) is modelled: the BGRA, ARGB, RGB, BGR, RGBA4444, RGB565 and premultiplied upsamplers are `todo!()` in the source, and the dispatch table that picks one is not part of this model.
- `upsample_line_pair` only forwards to `do_upsample_line_pair`, which is modelled.
- Upsampling.DoUpsampleLinePair: len = 0 is excluded; `len - 1` underflows and panics there.
- Vp8Dec.RowAfterCache: proved only when a cache row is wide enough for all mb_w macroblocks (stride >= 16 * mb_w, or 8 * mb_w for chroma), because narrower rows make macroblocks overwrite one another.
- The VP8 boolean decoder, the parsing of modes and coefficients, and the dequantisation that fills mb_data are not part of this model.
- Threading and the C side's caching of finished rows are not modelled.

## Findings

| source | as written | input that shows it | evidently intended | confidence | as-written member | corrected member |
|---|---|---|---|---|---|---|
| src/vp8_dec.rs:437-452 with src/dec.rs:609-648 | `h_filter_16`, `h_filter_8`, `v_filter_16` and `v_filter_8` pass the caller's view into filter_loop_26, which moves it along the edge; the inner-edge and top-edge passes of do_filter then start 16 rows (8 for chroma) or 16 columns away from the macroblock | a 2 x 2 macroblock frame, luma stride 32, complex filter, limit 20, inner edges, at macroblock (1, 1): the inner vertical luma edges land 16 rows below the macroblock, past the end of the cache | each filter starts at the macroblock's corner, as the C decoder's by-value pointers do | not executed; high (index arithmetic traced by the proof) | Vp8Dec.Decoder.DoFilter, Vp8Dec.DisplacedFilterLeavesCache | Vp8Dec.Decoder.DoFilterFixed, Vp8Dec.ComplexFilterMacroblockFixed, Vp8Dec.PlaneFitsInBlock |
| src/frame_dec.rs:14-22 with src/vp8_dec.rs:529-530 | do_uv_transform takes `&mut [u8; 132 + 4 * UBPS]` (260 bytes), but reconstruct_macroblock hands it `self.yuv_b[U_OFF..]` and `[V_OFF..]`, which hold 248 and 232 bytes, so no such array exists there | any macroblock: YUV_SIZE = 832, U_OFF = 584, V_OFF = 600 | a destination that only has to hold the 8x8 block, which does fit | not executed; medium (the conversion between slice and array is not shown) | FrameDec.DoUVTransform, Vp8Dec.ChromaDestinationTooShort | Vp8Dec.DoUVTransformInBlock, Vp8Dec.Chroma |

The comment at src/upsampling.rs:8-13 gives the top-right weights as
3a + 9b + 3c + d; the code computes 3a + 9b + c + 3d, the bilinear weights.
The model follows the code.
