// In-loop edge filters of the decoder (src/dec.rs): the tap filters
// do_filter_2/4/6, the threshold tests hev, needs_filter and needs_filter_2,
// the simple filters (section 15.2 of RFC 6386) and the complex filters
// (section 15.3) over 16 luma or 8 chroma pixels, and dither_combine_8x8.
//
// A filter works on an OffsetSliceRefMut: the pixel at offset k of the
// view is slice[zero + k]. Position z of an edge has the pixels
// p3 p2 p1 p0 | q0 q1 q2 q3 at z - 4*step .. z + 3*step. Every function
// below says what a filter does to the slice's contents s (a sequence) with
// the view's zero z; the methods are proved to do exactly that.
module DecFilter {
  import opened Dsp
  import opened ClipTables
  import opened OffsetRef

  /**
   * The pixels p1 .. q1 (z + k*step for k in [-2, 2)) lie in a slice of
   * length n: the two ends do, and those between them follow. Reading
   * outside panics in the source.
   */
  predicate Reach2(n: int, z: int, step: int)
  {
    0 <= z - 2 * step < n && 0 <= z + step < n
  }

  /** The pixels p2 .. q2 lie in the slice. */
  predicate Reach3(n: int, z: int, step: int)
  {
    0 <= z - 3 * step < n && 0 <= z + 2 * step < n
  }

  /** The pixels p3 .. q3 lie in the slice. */
  predicate Reach4(n: int, z: int, step: int)
  {
    0 <= z - 4 * step < n && 0 <= z + 3 * step < n
  }

  /** |a - b|, the VP8_KABS0 lookup the threshold tests make. */
  function Gap(a: int, b: int): nat { Abs0(a - b) }

  //------------------------------------------------------------------------
  // Tap filters

  /** do_filter_2 on the pixel values: 4 pixels in, the new p0 and q0 out. */
  function Filter2Taps(p1: int, p0: int, q0: int, q1: int): (r: (byte, byte))
  {
    var a := 3 * (q0 - p0) + SClip1(p1 - q1);
    var a1 := SClip2((a + 4) / 8);
    var a2 := SClip2((a + 3) / 8);
    (Clip1(p0 + a2), Clip1(q0 - a1))
  }

  /** do_filter_4 on the pixel values: 4 pixels in, the new p1, p0, q0, q1 out; the p1 - q1 term is not used. */
  function Filter4Taps(p1: int, p0: int, q0: int, q1: int): (r: (byte, byte, byte, byte))
  {
    var a := 3 * (q0 - p0);
    var a1 := SClip2((a + 4) / 8);
    var a2 := SClip2((a + 3) / 8);
    var a3 := (a1 + 1) / 2;
    (Clip1(p1 + a3), Clip1(p0 + a2), Clip1(q0 - a1), Clip1(q1 - a3))
  }

  /** The three weights of do_filter_6: 27/128, 18/128 and 9/128 of a, rounded. */
  function Weight(w: int, a: int): int { (w * a + 63) / 128 }

  /** do_filter_6 on the pixel values: 6 pixels in, 6 out. */
  function Filter6Taps(p2: int, p1: int, p0: int, q0: int, q1: int, q2: int): (r: (byte, byte, byte, byte, byte, byte))
  {
    var a := SClip1(3 * (q0 - p0) + SClip1(p1 - q1));
    var a1, a2, a3 := Weight(27, a), Weight(18, a), Weight(9, a);
    (Clip1(p2 + a3), Clip1(p1 + a2), Clip1(p0 + a1), Clip1(q0 - a1), Clip1(q1 - a2), Clip1(q2 - a3))
  }

  /** do_filter_2 on the slice: p0 and q0 are replaced, nothing else changes. */
  function Filter2At(s: seq<byte>, z: int, step: int): (r: seq<byte>)
    requires Reach2(|s|, z, step)
    ensures |r| == |s|
    ensures forall j :: 0 <= j < |s| && j != z - step && j != z ==> r[j] == s[j]
  {
    Pixels2(|s|, z, step);
    var t := Filter2Taps(s[z - 2 * step], s[z - step], s[z], s[z + step]);
    s[z - step := t.0][z := t.1]
  }

  /** do_filter_4 on the slice: p1, p0, q0 and q1 are replaced, nothing else changes. */
  function Filter4At(s: seq<byte>, z: int, step: int): (r: seq<byte>)
    requires Reach2(|s|, z, step)
    ensures |r| == |s|
    ensures forall j :: 0 <= j < |s| && j != z - 2 * step && j != z - step && j != z && j != z + step ==> r[j] == s[j]
  {
    Pixels2(|s|, z, step);
    var t := Filter4Taps(s[z - 2 * step], s[z - step], s[z], s[z + step]);
    s[z - 2 * step := t.0][z - step := t.1][z := t.2][z + step := t.3]
  }

  /** do_filter_6 on the slice: p2 .. q2 are replaced, nothing else changes. */
  function Filter6At(s: seq<byte>, z: int, step: int): (r: seq<byte>)
    requires Reach3(|s|, z, step)
    ensures |r| == |s|
    ensures forall j :: 0 <= j < |s| && j !in {z - 3 * step, z - 2 * step, z - step, z, z + step, z + 2 * step} ==> r[j] == s[j]
  {
    Pixels3(|s|, z, step);
    var t := Filter6Taps(s[z - 3 * step], s[z - 2 * step], s[z - step], s[z], s[z + step], s[z + 2 * step]);
    PutSix(s, z, step, t)
  }

  /** Every pixel p1 .. q1 is in the slice. */
  lemma Pixels2(n: int, z: int, step: int)
    requires Reach2(n, z, step)
    ensures 0 <= z - step < n && 0 <= z < n
  {
  }

  /** Every pixel p2 .. q2 is in the slice. */
  lemma Pixels3(n: int, z: int, step: int)
    requires Reach3(n, z, step)
    ensures Reach2(n, z, step)
    ensures 0 <= z - step < n && 0 <= z < n && 0 <= z + step < n
  {
  }

  /** Every pixel p3 .. q3 is in the slice. */
  lemma Pixels4(n: int, z: int, step: int)
    requires Reach4(n, z, step)
    ensures Reach3(n, z, step) && Reach2(n, z, step)
    ensures 0 <= z - 3 * step < n && 0 <= z - 2 * step < n && 0 <= z - step < n
    ensures 0 <= z < n && 0 <= z + step < n && 0 <= z + 2 * step < n
  {
  }

  /**
   * do_filter_2 on the view whose slice is a and whose zero is z: the
   * pixels change as Filter2At says; the view itself does not move.
   */
  method DoFilter2(a: array<byte>, z: int, step: int)
    requires Reach2(a.Length, z, step)
    modifies a
    ensures a[..] == Filter2At(old(a[..]), z, step)
  {
    Pixels2(a.Length, z, step);
    var t := Filter2Taps(a[z - 2 * step], a[z - step], a[z], a[z + step]);
    a[z - step] := t.0;
    a[z] := t.1;
  }

  /** do_filter_4 on the view (a, z). */
  method DoFilter4(a: array<byte>, z: int, step: int)
    requires Reach2(a.Length, z, step)
    modifies a
    ensures a[..] == Filter4At(old(a[..]), z, step)
  {
    Pixels2(a.Length, z, step);
    var t := Filter4Taps(a[z - 2 * step], a[z - step], a[z], a[z + step]);
    a[z - 2 * step] := t.0;
    a[z - step] := t.1;
    a[z] := t.2;
    a[z + step] := t.3;
  }

  /** do_filter_6 on the view (a, z). */
  method DoFilter6(a: array<byte>, z: int, step: int)
    requires Reach3(a.Length, z, step)
    modifies a
    ensures a[..] == Filter6At(old(a[..]), z, step)
  {
    Pixels3(a.Length, z, step);
    var p2, p1, p0 := a[z - 3 * step], a[z - 2 * step], a[z - step];
    var q0, q1, q2 := a[z], a[z + step], a[z + 2 * step];
    var t := Filter6Taps(p2, p1, p0, q0, q1, q2);
    SetSix(a, z, step, t);
  }

  /** p2 .. q2 replaced by the six values, p2 first and q2 last. */
  function PutSix(s: seq<byte>, z: int, step: int, v: (byte, byte, byte, byte, byte, byte)): (r: seq<byte>)
    requires Reach3(|s|, z, step)
    ensures |r| == |s|
  {
    Pixels3(|s|, z, step);
    s[z - 3 * step := v.0][z - 2 * step := v.1][z - step := v.2][z := v.3][z + step := v.4][z + 2 * step := v.5]
  }

  /** The six index_mut assignments of do_filter_6, on the view's slice at its zero z. */
  method SetSix(a: array<byte>, z: int, step: int, v: (byte, byte, byte, byte, byte, byte))
    requires Reach3(a.Length, z, step)
    modifies a
    ensures a[..] == PutSix(old(a[..]), z, step, v)
  {
    Pixels3(a.Length, z, step);
    a[z - 3 * step] := v.0;
    a[z - 2 * step] := v.1;
    a[z - step] := v.2;
    a[z] := v.3;
    a[z + step] := v.4;
    a[z + 2 * step] := v.5;
  }

  //------------------------------------------------------------------------
  // Threshold tests

  /** hev: high edge variance, either side's step from the edge pixel exceeds thresh. */
  predicate Hev(s: seq<byte>, z: int, step: int, thresh: int)
    requires Reach2(|s|, z, step)
  {
    Pixels2(|s|, z, step);
    Gap(s[z - 2 * step], s[z - step]) > thresh || Gap(s[z + step], s[z]) > thresh
  }

  /** The edge activity 4*|p0 - q0| + |p1 - q1| that needs_filter compares with t. */
  function EdgeActivity(s: seq<byte>, z: int, step: int): (r: nat)
    requires Reach2(|s|, z, step)
    ensures r <= 5 * 255
  {
    Pixels2(|s|, z, step);
    4 * Gap(s[z - step], s[z]) + Gap(s[z - 2 * step], s[z + step])
  }

  /** needs_filter. */
  predicate NeedsFilter(s: seq<byte>, z: int, step: int, t: int)
    requires Reach2(|s|, z, step)
  {
    EdgeActivity(s, z, step) <= t
  }

  /** needs_filter_2: the edge test, then all six interior steps at most it. */
  predicate NeedsFilter2(s: seq<byte>, z: int, step: int, t: int, it: int)
    requires Reach4(|s|, z, step)
  {
    Pixels4(|s|, z, step);
    if EdgeActivity(s, z, step) > t then false
    else
      Gap(s[z - 4 * step], s[z - 3 * step]) <= it && Gap(s[z - 3 * step], s[z - 2 * step]) <= it
      && Gap(s[z - 2 * step], s[z - step]) <= it && Gap(s[z + 3 * step], s[z + 2 * step]) <= it
      && Gap(s[z + 2 * step], s[z + step]) <= it && Gap(s[z + step], s[z]) <= it
  }

  /** An edge passing needs_filter_2 passes needs_filter with the same t, and hev fails for any thresh >= it. */
  lemma NeedsFilter2Strengthens(s: seq<byte>, z: int, step: int, t: int, it: int, thresh: int)
    requires Reach4(|s|, z, step) && NeedsFilter2(s, z, step, t, it)
    ensures NeedsFilter(s, z, step, t)
    ensures thresh >= it ==> !Hev(s, z, step, thresh)
  {
  }

  /** needs_filter accepts more edges as t grows; hev holds for fewer as thresh grows. */
  lemma ThresholdsMonotone(s: seq<byte>, z: int, step: int, t: int, t': int, thresh: int, thresh': int)
    requires Reach2(|s|, z, step) && t <= t' && thresh <= thresh'
    ensures NeedsFilter(s, z, step, t) ==> NeedsFilter(s, z, step, t')
    ensures Hev(s, z, step, thresh') ==> Hev(s, z, step, thresh)
  {
  }

  //------------------------------------------------------------------------
  // What the tap filters do

  /** A saturated adjustment moves a byte by no more than the adjustment. */
  lemma ClipMove(v: byte, d: int)
    ensures Gap(Clip1(v + d), v) <= Gap(d, 0)
  {
  }

  /** An adjustment in [-m, m] is at most m away from 0. */
  lemma GapBound(d: int, m: int)
    requires -m <= d <= m
    ensures Gap(d, 0) <= m
  {
  }

  /** do_filter_2 moves p0 and q0 by at most 16 (a1 and a2 lie in [-16, 15]). */
  lemma Filter2Bounded(p1: byte, p0: byte, q0: byte, q1: byte)
    ensures var r := Filter2Taps(p1, p0, q0, q1);
      Gap(r.0, p0) <= 16 && Gap(r.1, q0) <= 16
  {
    hide Clip1, SClip2;
    var a := 3 * (q0 - p0) + SClip1(p1 - q1);
    assert -893 <= a <= 892;
    ClipMove(p0, SClip2((a + 3) / 8));
    ClipMove(q0, -SClip2((a + 4) / 8));
  }

  /** do_filter_4 moves p0 and q0 by at most 16 and p1 and q1 by at most 8. */
  lemma Filter4Bounded(p1: byte, p0: byte, q0: byte, q1: byte)
    ensures var r := Filter4Taps(p1, p0, q0, q1);
      Gap(r.0, p1) <= 8 && Gap(r.1, p0) <= 16 && Gap(r.2, q0) <= 16 && Gap(r.3, q1) <= 8
  {
    hide Clip1, SClip2, Gap;
    var a := 3 * (q0 - p0);
    var a1 := SClip2((a + 4) / 8);
    var a2 := SClip2((a + 3) / 8);
    var a3 := (a1 + 1) / 2;
    assert -8 <= a3 <= 8;
    ClipMove(p1, a3);
    GapBound(a3, 8);
    ClipMove(p0, a2);
    GapBound(a2, 16);
    ClipMove(q0, -a1);
    GapBound(-a1, 16);
    ClipMove(q1, -a3);
    GapBound(-a3, 8);
  }

  /** The weights of do_filter_6 for a in [-128, 127]: 27 gives [-27, 27], 18 gives [-18, 18], 9 gives [-9, 9]. */
  lemma WeightRanges(a: int)
    requires -128 <= a <= 127
    ensures -27 <= Weight(27, a) <= 27 && -18 <= Weight(18, a) <= 18 && -9 <= Weight(9, a) <= 9
    ensures Weight(27, a) == ((3 * a + 7) * 9) / 128
    ensures Weight(18, a) == ((2 * a + 7) * 9) / 128
    ensures Weight(9, a) == ((a + 7) * 9) / 128
  {
    assert 27 * a + 63 == (3 * a + 7) * 9 && 18 * a + 63 == (2 * a + 7) * 9;
  }

  /** do_filter_6 moves p0 and q0 by at most 27, p1 and q1 by at most 18, p2 and q2 by at most 9. */
  lemma Filter6Bounded(p2: byte, p1: byte, p0: byte, q0: byte, q1: byte, q2: byte)
    ensures var r := Filter6Taps(p2, p1, p0, q0, q1, q2);
      Gap(r.0, p2) <= 9 && Gap(r.1, p1) <= 18 && Gap(r.2, p0) <= 27
      && Gap(r.3, q0) <= 27 && Gap(r.4, q1) <= 18 && Gap(r.5, q2) <= 9
  {
    hide Clip1, SClip1, Weight, Gap;
    var a := SClip1(3 * (q0 - p0) + SClip1(p1 - q1));
    WeightRanges(a);
    var a1, a2, a3 := Weight(27, a), Weight(18, a), Weight(9, a);
    ClipMove(p2, a3);
    GapBound(a3, 9);
    ClipMove(p1, a2);
    GapBound(a2, 18);
    ClipMove(p0, a1);
    GapBound(a1, 27);
    ClipMove(q0, -a1);
    GapBound(-a1, 27);
    ClipMove(q1, -a2);
    GapBound(-a2, 18);
    ClipMove(q2, -a3);
    GapBound(-a3, 9);
  }

  /**
   * do_filter_2 smooths a step without inverting it: with p1 == q1 and
   * p0 <= q0, p0 rises, q0 falls, and they do not cross.
   */
  lemma Filter2Smooths(p1: byte, p0: byte, q0: byte)
    requires p0 <= q0
    ensures var r := Filter2Taps(p1, p0, q0, p1);
      p0 <= r.0 <= r.1 <= q0
  {
    var d := q0 - p0;
    var a := 3 * d;
    assert SClip1(p1 - p1) == 0;
    var b1, b2 := (a + 4) / 8, (a + 3) / 8;
    assert 0 <= b2 <= b1;
    assert b1 + b2 <= d by {
      assert 8 * b1 <= a + 4 && 8 * b2 <= a + 3;
      if d < 4 {
        assert d == 0 || d == 1 || d == 2 || d == 3;
      }
    }
  }

  /** do_filter_2 leaves a flat edge as it is: both adjustments are zero. */
  lemma Filter2KeepsFlat(c: byte)
    ensures Filter2Taps(c, c, c, c) == (c, c)
  {
  }

  /** do_filter_4 leaves a flat edge as it is. */
  lemma Filter4KeepsFlat(c: byte)
    ensures Filter4Taps(c, c, c, c) == (c, c, c, c)
  {
  }

  /** do_filter_6 leaves a flat edge as it is: a is zero and so is each weight of it. */
  lemma Filter6KeepsFlat(c: byte)
    ensures Filter6Taps(c, c, c, c, c, c) == (c, c, c, c, c, c)
  {
  }

  //------------------------------------------------------------------------
  // One edge position, and a run of positions along an edge

  /**
   * Which filter runs at an edge position: the simple filter
   * (needs_filter, then do_filter_2), filter_loop_26 on macroblock edges
   * or filter_loop_24 on inner edges.
   */
  datatype EdgeKind = Simple | MacroblockEdge | InnerEdge

  /** thresh (a u32), the interior limit ithresh and hev_thresh (u8s). */
  datatype Thresholds = Thresholds(thresh: int, ithresh: int, hevThresh: int)

  /** The pixels the filter of that kind reads at z lie in the slice. */
  predicate Fits(kind: EdgeKind, n: int, z: int, hstride: int)
  {
    if kind == Simple then Reach2(n, z, hstride) else Reach4(n, z, hstride)
  }

  /**
   * The body of the loops: at position z, with thresh2 = 2*thresh + 1, the
   * simple filter applies do_filter_2 when needs_filter holds; the complex
   * filters test needs_filter_2, then apply do_filter_2 on high edge
   * variance and otherwise do_filter_6 (macroblock edges) or do_filter_4
   * (inner edges).
   */
  function EdgeAt(kind: EdgeKind, s: seq<byte>, z: int, hstride: int, th: Thresholds): (r: seq<byte>)
    requires Fits(kind, |s|, z, hstride)
    ensures |r| == |s|
  {
    var thresh2 := 2 * th.thresh + 1;
    match kind
    case Simple =>
      if NeedsFilter(s, z, hstride, thresh2) then Filter2At(s, z, hstride) else s
    case MacroblockEdge =>
      Pixels4(|s|, z, hstride);
      if !NeedsFilter2(s, z, hstride, thresh2, th.ithresh) then s
      else if Hev(s, z, hstride, th.hevThresh) then Filter2At(s, z, hstride)
      else Filter6At(s, z, hstride)
    case InnerEdge =>
      Pixels4(|s|, z, hstride);
      if !NeedsFilter2(s, z, hstride, thresh2, th.ithresh) then s
      else if Hev(s, z, hstride, th.hevThresh) then Filter2At(s, z, hstride)
      else Filter4At(s, z, hstride)
  }

  /** Every one of the size positions z, z + vstride, ... fits. */
  predicate RunFits(kind: EdgeKind, n: int, z: int, hstride: int, vstride: int, size: nat)
    decreases size
  {
    size == 0 || (Fits(kind, n, z, hstride) && RunFits(kind, n, z + vstride, hstride, vstride, size - 1))
  }

  /**
   * The edge filter applied at z, z + vstride, ..., z + (size-1)*vstride in
   * that order, each on the result of the one before.
   */
  function EdgeRun(kind: EdgeKind, s: seq<byte>, z: int, hstride: int, vstride: int, size: nat, th: Thresholds): (r: seq<byte>)
    requires RunFits(kind, |s|, z, hstride, vstride, size)
    ensures |r| == |s|
    decreases size
  {
    if size == 0 then s
    else EdgeRun(kind, EdgeAt(kind, s, z, hstride, th), z + vstride, hstride, vstride, size - 1, th)
  }

  /** EdgeRun filters its first position, then runs on from the next one. */
  lemma EdgeRunFirst(kind: EdgeKind, s: seq<byte>, z: int, hstride: int, vstride: int, size: nat, th: Thresholds)
    requires RunFits(kind, |s|, z, hstride, vstride, size)
    ensures size == 0 ==> EdgeRun(kind, s, z, hstride, vstride, size, th) == s
    ensures size > 0 ==> Fits(kind, |s|, z, hstride) && RunFits(kind, |s|, z + vstride, hstride, vstride, size - 1)
    ensures size > 0 ==>
              EdgeRun(kind, s, z, hstride, vstride, size, th)
              == EdgeRun(kind, EdgeAt(kind, s, z, hstride, th), z + vstride, hstride, vstride, size - 1, th)
  {
  }

  /**
   * filter_loop_26 (kind MacroblockEdge) and filter_loop_24 (kind
   * InnerEdge): the run of edge filters along the edge, and the view p
   * itself ends moved by size*vstride, because the loop moves the view it
   * was handed rather than a copy.
   */
  method FilterLoop(kind: EdgeKind, p: OffsetSliceRefMut<byte>, hstride: int, vstride: int, size: nat,
                    thresh: int, ithresh: int, hevThresh: int)
    requires kind != Simple
    requires RunFits(kind, p.slice.Length, p.zero, hstride, vstride, size)
    modifies p, p.slice
    ensures p.slice[..] == EdgeRun(kind, old(p.slice[..]), old(p.zero), hstride, vstride, size, Thresholds(thresh, ithresh, hevThresh))
    ensures p.zero == old(p.zero) + size * vstride
  {
    hide EdgeRun, RunFits;
    FilterLoopOn(kind, p, p.slice, p.zero, hstride, vstride, size, thresh, ithresh, hevThresh);
  }

  /**
   * The loop of FilterLoop, with the view's array a and its starting zero
   * z0 named: each position is filtered at the view's current zero, then
   * the view moves by vstride.
   */
  method FilterLoopOn(kind: EdgeKind, p: OffsetSliceRefMut<byte>, a: array<byte>, ghost z0: int,
                      hstride: int, vstride: int, size: nat, thresh: int, ithresh: int, hevThresh: int)
    requires kind != Simple && p.slice == a && p.zero == z0
    requires RunFits(kind, a.Length, z0, hstride, vstride, size)
    modifies p, a
    ensures a[..] == EdgeRun(kind, old(a[..]), z0, hstride, vstride, size, Thresholds(thresh, ithresh, hevThresh))
    ensures p.zero == z0 + size * vstride
  {
    ghost var th := Thresholds(thresh, ithresh, hevThresh);
    // The loop needs only the unfolding of EdgeRun, not what a position does.
    hide EdgeAt, EdgeRun, RunFits;
    for k := 0 to size
      invariant p.zero == z0 + k * vstride
      invariant RunFits(kind, a.Length, p.zero, hstride, vstride, size - k)
      invariant EdgeRun(kind, a[..], p.zero, hstride, vstride, size - k, th)
                == EdgeRun(kind, old(a[..]), z0, hstride, vstride, size, th)
    {
      EdgeRunFirst(kind, a[..], p.zero, hstride, vstride, size - k, th);
      FilterPosition(kind, a, p.zero, hstride, thresh, ithresh, hevThresh);
      p.MoveZero(vstride);
    }
    EdgeRunFirst(kind, a[..], p.zero, hstride, vstride, 0, th);
  }

  /** One iteration of filter_loop_26 / filter_loop_24, at the view's zero z. */
  method FilterPosition(kind: EdgeKind, a: array<byte>, z: int, hstride: int, thresh: int, ithresh: int, hevThresh: int)
    requires kind != Simple && Reach4(a.Length, z, hstride)
    modifies a
    ensures a[..] == EdgeAt(kind, old(a[..]), z, hstride, Thresholds(thresh, ithresh, hevThresh))
  {
    var thresh2 := 2 * thresh + 1;
    Pixels4(a.Length, z, hstride);
    if NeedsFilter2(a[..], z, hstride, thresh2, ithresh) {
      if Hev(a[..], z, hstride, hevThresh) {
        DoFilter2(a, z, hstride);
      } else if kind == MacroblockEdge {
        DoFilter6(a, z, hstride);
      } else {
        DoFilter4(a, z, hstride);
      }
    }
  }

  /** One position of the simple filter: needs_filter, then do_filter_2. */
  method SimplePosition(a: array<byte>, z: int, hstride: int, thresh: int)
    requires Reach2(a.Length, z, hstride)
    modifies a
    ensures a[..] == EdgeAt(Simple, old(a[..]), z, hstride, SimpleThresholds(thresh))
  {
    var thresh2 := 2 * thresh + 1;
    if NeedsFilter(a[..], z, hstride, thresh2) {
      DoFilter2(a, z, hstride);
    }
  }

  /** The simple filter uses thresh only. */
  function SimpleThresholds(thresh: int): Thresholds
  {
    Thresholds(thresh, 0, 0)
  }

  //------------------------------------------------------------------------
  // Simple in-loop filtering (section 15.2 of RFC 6386)

  /**
   * simple_v_filter_16: the horizontal edge at p's zero, filtered at the 16
   * columns zero, zero + 1, ...; taps step by stride. p does not move.
   */
  method SimpleVFilter16(p: OffsetSliceRefMut<byte>, stride: int, thresh: int)
    requires RunFits(Simple, p.slice.Length, p.zero, stride, 1, 16)
    modifies p.slice
    ensures p.slice[..] == EdgeRun(Simple, old(p.slice[..]), p.zero, stride, 1, 16, SimpleThresholds(thresh))
  {
    ghost var th := SimpleThresholds(thresh);
    hide EdgeAt, EdgeRun, RunFits;
    for i := 0 to 16
      invariant RunFits(Simple, p.slice.Length, p.zero + i, stride, 1, 16 - i)
      invariant EdgeRun(Simple, p.slice[..], p.zero + i, stride, 1, 16 - i, th)
                == EdgeRun(Simple, old(p.slice[..]), p.zero, stride, 1, 16, th)
    {
      EdgeRunFirst(Simple, p.slice[..], p.zero + i, stride, 1, 16 - i, th);
      var q := p.WithOffset(i);
      SimplePosition(q.slice, q.zero, stride, thresh);
    }
    EdgeRunFirst(Simple, p.slice[..], p.zero + 16, stride, 1, 0, th);
  }

  /**
   * simple_h_filter_16: the vertical edge at p's zero, filtered at the 16
   * rows zero, zero + stride, ...; taps step by 1.
   */
  method SimpleHFilter16(p: OffsetSliceRefMut<byte>, stride: int, thresh: int)
    requires RunFits(Simple, p.slice.Length, p.zero, 1, stride, 16)
    modifies p.slice
    ensures p.slice[..] == EdgeRun(Simple, old(p.slice[..]), p.zero, 1, stride, 16, SimpleThresholds(thresh))
  {
    ghost var th := SimpleThresholds(thresh);
    hide EdgeAt, EdgeRun, RunFits;
    for i := 0 to 16
      invariant RunFits(Simple, p.slice.Length, p.zero + i * stride, 1, stride, 16 - i)
      invariant EdgeRun(Simple, p.slice[..], p.zero + i * stride, 1, stride, 16 - i, th)
                == EdgeRun(Simple, old(p.slice[..]), p.zero, 1, stride, 16, th)
    {
      EdgeRunFirst(Simple, p.slice[..], p.zero + i * stride, 1, stride, 16 - i, th);
      var q := p.WithOffset(i * stride);
      SimplePosition(q.slice, q.zero, 1, thresh);
      assert p.zero + (i + 1) * stride == q.zero + stride;
    }
    EdgeRunFirst(Simple, p.slice[..], p.zero + 16 * stride, 1, stride, 0, th);
  }

  /** The inner edges at z + 4*hstride, z + 8*hstride, ... each fit. */
  predicate InnerFits(kind: EdgeKind, n: int, z: int, hstride: int, vstride: int, size: nat, edges: nat)
    decreases edges
  {
    edges == 0 || (RunFits(kind, n, z + 4 * hstride, hstride, vstride, size)
                   && InnerFits(kind, n, z + 4 * hstride, hstride, vstride, size, edges - 1))
  }

  /**
   * The inner edges of a macroblock whose top-left pixel is at z: runs at
   * z + 4*hstride, z + 8*hstride, ... (edges of them), in that order.
   */
  function InnerEdges(kind: EdgeKind, s: seq<byte>, z: int, hstride: int, vstride: int, size: nat, edges: nat, th: Thresholds): (r: seq<byte>)
    requires InnerFits(kind, |s|, z, hstride, vstride, size, edges)
    ensures |r| == |s|
    decreases edges
  {
    if edges == 0 then s
    else
      var z' := z + 4 * hstride;
      InnerEdges(kind, EdgeRun(kind, s, z', hstride, vstride, size, th), z', hstride, vstride, size, edges - 1, th)
  }

  /** InnerEdges filters the first inner edge, then goes on from there. */
  lemma InnerEdgesFirst(kind: EdgeKind, s: seq<byte>, z: int, hstride: int, vstride: int, size: nat, edges: nat, th: Thresholds)
    requires InnerFits(kind, |s|, z, hstride, vstride, size, edges)
    ensures edges == 0 ==> InnerEdges(kind, s, z, hstride, vstride, size, edges, th) == s
    ensures edges > 0 ==>
              RunFits(kind, |s|, z + 4 * hstride, hstride, vstride, size)
              && InnerFits(kind, |s|, z + 4 * hstride, hstride, vstride, size, edges - 1)
    ensures edges > 0 ==>
              InnerEdges(kind, s, z, hstride, vstride, size, edges, th)
              == InnerEdges(kind, EdgeRun(kind, s, z + 4 * hstride, hstride, vstride, size, th), z + 4 * hstride,
                            hstride, vstride, size, edges - 1, th)
  {
  }

  /**
   * simple_v_filter_16i: a copy of p moved down 4 rows at a time, the three
   * inner horizontal edges filtered on it; p itself does not move.
   */
  method SimpleVFilter16i(p: OffsetSliceRefMut<byte>, stride: int, thresh: int)
    requires InnerFits(Simple, p.slice.Length, p.zero, stride, 1, 16, 3)
    modifies p.slice
    ensures p.slice[..] == InnerEdges(Simple, old(p.slice[..]), p.zero, stride, 1, 16, 3, SimpleThresholds(thresh))
  {
    ghost var th := SimpleThresholds(thresh);
    var off := 0;
    hide EdgeRun, InnerEdges, InnerFits, RunFits;
    for k := 0 to 3
      invariant InnerFits(Simple, p.slice.Length, p.zero + off, stride, 1, 16, 3 - k)
      invariant InnerEdges(Simple, p.slice[..], p.zero + off, stride, 1, 16, 3 - k, th)
                == InnerEdges(Simple, old(p.slice[..]), p.zero, stride, 1, 16, 3, th)
    {
      InnerEdgesFirst(Simple, p.slice[..], p.zero + off, stride, 1, 16, 3 - k, th);
      off := off + 4 * stride;
      var q := p.WithOffset(off);
      SimpleVFilter16(q, stride, thresh);
    }
    InnerEdgesFirst(Simple, p.slice[..], p.zero + off, stride, 1, 16, 0, th);
  }

  /** simple_h_filter_16i: the three inner vertical edges, 4 columns apart. */
  method SimpleHFilter16i(p: OffsetSliceRefMut<byte>, stride: int, thresh: int)
    requires InnerFits(Simple, p.slice.Length, p.zero, 1, stride, 16, 3)
    modifies p.slice
    ensures p.slice[..] == InnerEdges(Simple, old(p.slice[..]), p.zero, 1, stride, 16, 3, SimpleThresholds(thresh))
  {
    ghost var th := SimpleThresholds(thresh);
    var off := 0;
    hide EdgeRun, InnerEdges, InnerFits, RunFits;
    for k := 0 to 3
      invariant InnerFits(Simple, p.slice.Length, p.zero + off, 1, stride, 16, 3 - k)
      invariant InnerEdges(Simple, p.slice[..], p.zero + off, 1, stride, 16, 3 - k, th)
                == InnerEdges(Simple, old(p.slice[..]), p.zero, 1, stride, 16, 3, th)
    {
      InnerEdgesFirst(Simple, p.slice[..], p.zero + off, 1, stride, 16, 3 - k, th);
      off := off + 4;
      var q := p.WithOffset(off);
      SimpleHFilter16(q, stride, thresh);
    }
    InnerEdgesFirst(Simple, p.slice[..], p.zero + off, 1, stride, 16, 0, th);
  }

  //------------------------------------------------------------------------
  // Complex in-loop filtering (section 15.3 of RFC 6386)

  /** v_filter_16: the macroblock's top edge; p ends 16 columns to the right. */
  method VFilter16(p: OffsetSliceRefMut<byte>, stride: int, thresh: int, ithresh: int, hevThresh: int)
    requires RunFits(MacroblockEdge, p.slice.Length, p.zero, stride, 1, 16)
    modifies p, p.slice
    ensures p.slice[..] == EdgeRun(MacroblockEdge, old(p.slice[..]), old(p.zero), stride, 1, 16, Thresholds(thresh, ithresh, hevThresh))
    ensures p.zero == old(p.zero) + 16
  {
    hide EdgeRun, RunFits;
    FilterLoop(MacroblockEdge, p, stride, 1, 16, thresh, ithresh, hevThresh);
  }

  /** h_filter_16: the macroblock's left edge; p ends 16 rows down. */
  method HFilter16(p: OffsetSliceRefMut<byte>, stride: int, thresh: int, ithresh: int, hevThresh: int)
    requires RunFits(MacroblockEdge, p.slice.Length, p.zero, 1, stride, 16)
    modifies p, p.slice
    ensures p.slice[..] == EdgeRun(MacroblockEdge, old(p.slice[..]), old(p.zero), 1, stride, 16, Thresholds(thresh, ithresh, hevThresh))
    ensures p.zero == old(p.zero) + 16 * stride
  {
    hide EdgeRun, RunFits;
    FilterLoop(MacroblockEdge, p, 1, stride, 16, thresh, ithresh, hevThresh);
  }

  /** v_filter_16i: the three inner horizontal edges, each on a fresh copy of p. */
  method VFilter16i(p: OffsetSliceRefMut<byte>, stride: int, thresh: int, ithresh: int, hevThresh: int)
    requires InnerFits(InnerEdge, p.slice.Length, p.zero, stride, 1, 16, 3)
    modifies p.slice
    ensures p.slice[..] == InnerEdges(InnerEdge, old(p.slice[..]), p.zero, stride, 1, 16, 3, Thresholds(thresh, ithresh, hevThresh))
  {
    ghost var th := Thresholds(thresh, ithresh, hevThresh);
    hide EdgeRun, InnerEdges, InnerFits, RunFits;
    for k := 1 to 4
      invariant InnerFits(InnerEdge, p.slice.Length, p.zero + (k - 1) * 4 * stride, stride, 1, 16, 4 - k)
      invariant InnerEdges(InnerEdge, p.slice[..], p.zero + (k - 1) * 4 * stride, stride, 1, 16, 4 - k, th)
                == InnerEdges(InnerEdge, old(p.slice[..]), p.zero, stride, 1, 16, 3, th)
    {
      InnerEdgesFirst(InnerEdge, p.slice[..], p.zero + (k - 1) * 4 * stride, stride, 1, 16, 4 - k, th);
      var newP := p.WithOffset(k * 4 * stride);
      assert newP.zero == p.zero + (k - 1) * 4 * stride + 4 * stride;
      FilterLoop(InnerEdge, newP, stride, 1, 16, thresh, ithresh, hevThresh);
    }
    InnerEdgesFirst(InnerEdge, p.slice[..], p.zero + 3 * 4 * stride, stride, 1, 16, 0, th);
  }

  /** h_filter_16i: the three inner vertical edges, each on a fresh copy of p. */
  method HFilter16i(p: OffsetSliceRefMut<byte>, stride: int, thresh: int, ithresh: int, hevThresh: int)
    requires InnerFits(InnerEdge, p.slice.Length, p.zero, 1, stride, 16, 3)
    modifies p.slice
    ensures p.slice[..] == InnerEdges(InnerEdge, old(p.slice[..]), p.zero, 1, stride, 16, 3, Thresholds(thresh, ithresh, hevThresh))
  {
    ghost var th := Thresholds(thresh, ithresh, hevThresh);
    hide EdgeRun, InnerEdges, InnerFits, RunFits;
    for k := 1 to 4
      invariant InnerFits(InnerEdge, p.slice.Length, p.zero + (k - 1) * 4, 1, stride, 16, 4 - k)
      invariant InnerEdges(InnerEdge, p.slice[..], p.zero + (k - 1) * 4, 1, stride, 16, 4 - k, th)
                == InnerEdges(InnerEdge, old(p.slice[..]), p.zero, 1, stride, 16, 3, th)
    {
      InnerEdgesFirst(InnerEdge, p.slice[..], p.zero + (k - 1) * 4, 1, stride, 16, 4 - k, th);
      var newP := p.WithOffset(k * 4);
      FilterLoop(InnerEdge, newP, 1, stride, 16, thresh, ithresh, hevThresh);
    }
    InnerEdgesFirst(InnerEdge, p.slice[..], p.zero + 12, 1, stride, 16, 0, th);
  }

  /**
   * v_filter_8: the top edge of the two chroma blocks, u first; u and v
   * are views of two different planes, and each ends 8 columns on.
   */
  method VFilter8(u: OffsetSliceRefMut<byte>, v: OffsetSliceRefMut<byte>, stride: int, thresh: int, ithresh: int, hevThresh: int)
    requires u.slice != v.slice
    requires RunFits(MacroblockEdge, u.slice.Length, u.zero, stride, 1, 8)
    requires RunFits(MacroblockEdge, v.slice.Length, v.zero, stride, 1, 8)
    modifies u, u.slice, v, v.slice
    ensures u.slice[..] == EdgeRun(MacroblockEdge, old(u.slice[..]), old(u.zero), stride, 1, 8, Thresholds(thresh, ithresh, hevThresh))
    ensures v.slice[..] == EdgeRun(MacroblockEdge, old(v.slice[..]), old(v.zero), stride, 1, 8, Thresholds(thresh, ithresh, hevThresh))
    ensures u.zero == old(u.zero) + 8 && v.zero == old(v.zero) + 8
  {
    hide EdgeRun, RunFits;
    FilterLoop(MacroblockEdge, u, stride, 1, 8, thresh, ithresh, hevThresh);
    FilterLoop(MacroblockEdge, v, stride, 1, 8, thresh, ithresh, hevThresh);
  }

  /** h_filter_8: the left edge of the two chroma blocks; each view ends 8 rows down. */
  method HFilter8(u: OffsetSliceRefMut<byte>, v: OffsetSliceRefMut<byte>, stride: int, thresh: int, ithresh: int, hevThresh: int)
    requires u.slice != v.slice
    requires RunFits(MacroblockEdge, u.slice.Length, u.zero, 1, stride, 8)
    requires RunFits(MacroblockEdge, v.slice.Length, v.zero, 1, stride, 8)
    modifies u, u.slice, v, v.slice
    ensures u.slice[..] == EdgeRun(MacroblockEdge, old(u.slice[..]), old(u.zero), 1, stride, 8, Thresholds(thresh, ithresh, hevThresh))
    ensures v.slice[..] == EdgeRun(MacroblockEdge, old(v.slice[..]), old(v.zero), 1, stride, 8, Thresholds(thresh, ithresh, hevThresh))
    ensures u.zero == old(u.zero) + 8 * stride && v.zero == old(v.zero) + 8 * stride
  {
    hide EdgeRun, RunFits;
    FilterLoop(MacroblockEdge, u, 1, stride, 8, thresh, ithresh, hevThresh);
    FilterLoop(MacroblockEdge, v, 1, stride, 8, thresh, ithresh, hevThresh);
  }

  /** v_filter_8i: the inner horizontal edge of each chroma block, on copies of u and v. */
  method VFilter8i(u: OffsetSliceRefMut<byte>, v: OffsetSliceRefMut<byte>, stride: int, thresh: int, ithresh: int, hevThresh: int)
    requires u.slice != v.slice
    requires RunFits(InnerEdge, u.slice.Length, u.zero + 4 * stride, stride, 1, 8)
    requires RunFits(InnerEdge, v.slice.Length, v.zero + 4 * stride, stride, 1, 8)
    modifies u.slice, v.slice
    ensures var zu := u.zero + 4 * stride;
      u.slice[..] == EdgeRun(InnerEdge, old(u.slice[..]), zu, stride, 1, 8, Thresholds(thresh, ithresh, hevThresh))
    ensures var zv := v.zero + 4 * stride;
      v.slice[..] == EdgeRun(InnerEdge, old(v.slice[..]), zv, stride, 1, 8, Thresholds(thresh, ithresh, hevThresh))
  {
    hide EdgeRun, RunFits;
    var u4 := u.WithOffset(4 * stride);
    FilterLoop(InnerEdge, u4, stride, 1, 8, thresh, ithresh, hevThresh);
    var v4 := v.WithOffset(4 * stride);
    FilterLoop(InnerEdge, v4, stride, 1, 8, thresh, ithresh, hevThresh);
  }

  /** h_filter_8i: the inner vertical edge of each chroma block, on copies of u and v. */
  method HFilter8i(u: OffsetSliceRefMut<byte>, v: OffsetSliceRefMut<byte>, stride: int, thresh: int, ithresh: int, hevThresh: int)
    requires u.slice != v.slice
    requires RunFits(InnerEdge, u.slice.Length, u.zero + 4, 1, stride, 8)
    requires RunFits(InnerEdge, v.slice.Length, v.zero + 4, 1, stride, 8)
    modifies u.slice, v.slice
    ensures var zu := u.zero + 4;
      u.slice[..] == EdgeRun(InnerEdge, old(u.slice[..]), zu, 1, stride, 8, Thresholds(thresh, ithresh, hevThresh))
    ensures var zv := v.zero + 4;
      v.slice[..] == EdgeRun(InnerEdge, old(v.slice[..]), zv, 1, stride, 8, Thresholds(thresh, ithresh, hevThresh))
  {
    hide EdgeRun, RunFits;
    var u4 := u.WithOffset(4);
    FilterLoop(InnerEdge, u4, 1, stride, 8, thresh, ithresh, hevThresh);
    var v4 := v.WithOffset(4);
    FilterLoop(InnerEdge, v4, 1, stride, 8, thresh, ithresh, hevThresh);
  }

  //------------------------------------------------------------------------
  // What the edge filters preserve

  /** Every pixel of s has the value c. */
  predicate Flat(s: seq<byte>, c: byte)
  {
    forall j :: 0 <= j < |s| ==> s[j] == c
  }

  /** Each tap filter puts back what it read from a flat slice. */
  lemma TapsKeepFlat(s: seq<byte>, c: byte, z: int, step: int)
    requires Flat(s, c)
    ensures Reach2(|s|, z, step) ==> Filter2At(s, z, step) == s && Filter4At(s, z, step) == s
    ensures Reach3(|s|, z, step) ==> Filter6At(s, z, step) == s
  {
    Filter2KeepsFlat(c);
    Filter4KeepsFlat(c);
    Filter6KeepsFlat(c);
    if Reach2(|s|, z, step) {
      Pixels2(|s|, z, step);
      assert Filter2At(s, z, step) == s;
      assert Filter4At(s, z, step) == s;
    }
    if Reach3(|s|, z, step) {
      Pixels3(|s|, z, step);
      assert Filter6At(s, z, step) == s;
    }
  }

  /** An edge position of any kind leaves a flat slice as it is, whatever the thresholds. */
  lemma EdgeAtKeepsFlat(kind: EdgeKind, s: seq<byte>, c: byte, z: int, hstride: int, th: Thresholds)
    requires Fits(kind, |s|, z, hstride) && Flat(s, c)
    ensures EdgeAt(kind, s, z, hstride, th) == s
  {
    TapsKeepFlat(s, c, z, hstride);
  }

  /** A run of edge positions leaves a flat slice as it is. */
  lemma {:induction false} EdgeRunKeepsFlat(kind: EdgeKind, s: seq<byte>, c: byte, z: int, hstride: int, vstride: int, size: nat, th: Thresholds)
    requires RunFits(kind, |s|, z, hstride, vstride, size) && Flat(s, c)
    ensures EdgeRun(kind, s, z, hstride, vstride, size, th) == s
    decreases size
  {
    hide *;
    EdgeRunFirst(kind, s, z, hstride, vstride, size, th);
    if size > 0 {
      EdgeAtKeepsFlat(kind, s, c, z, hstride, th);
      EdgeRunKeepsFlat(kind, s, c, z + vstride, hstride, vstride, size - 1, th);
    }
  }

  /** The inner edges of a macroblock leave a flat slice as it is. */
  lemma {:induction false} InnerEdgesKeepFlat(kind: EdgeKind, s: seq<byte>, c: byte, z: int, hstride: int, vstride: int, size: nat, edges: nat, th: Thresholds)
    requires InnerFits(kind, |s|, z, hstride, vstride, size, edges) && Flat(s, c)
    ensures InnerEdges(kind, s, z, hstride, vstride, size, edges, th) == s
    decreases edges
  {
    hide *;
    InnerEdgesFirst(kind, s, z, hstride, vstride, size, edges, th);
    if edges > 0 {
      var z' := z + 4 * hstride;
      EdgeRunKeepsFlat(kind, s, c, z', hstride, vstride, size, th);
      InnerEdgesKeepFlat(kind, s, c, z', hstride, vstride, size, edges - 1, th);
    }
  }

  /**
   * An edge position changes at most the six pixels p2 .. q2 around z, and
   * the simple filter at most p0 and q0.
   */
  lemma EdgeAtFrame(kind: EdgeKind, s: seq<byte>, z: int, hstride: int, th: Thresholds, j: int)
    requires Fits(kind, |s|, z, hstride) && 0 <= j < |s|
    requires j !in {z - 3 * hstride, z - 2 * hstride, z - hstride, z, z + hstride, z + 2 * hstride}
             || (kind == Simple && j != z - hstride && j != z)
    ensures EdgeAt(kind, s, z, hstride, th)[j] == s[j]
  {
  }

  /**
   * A run with positive steps changes nothing before p2 of its first
   * position (z - 3*hstride) and nothing from two steps past its last
   * position (z + (size-1)*vstride + 3*hstride) on.
   */
  lemma {:induction false} EdgeRunFrame(kind: EdgeKind, s: seq<byte>, z: int, hstride: int, vstride: int, size: nat, th: Thresholds, j: int)
    requires RunFits(kind, |s|, z, hstride, vstride, size) && 0 <= j < |s|
    requires hstride > 0 && vstride >= 0
    requires size == 0 || j < z - 3 * hstride || j >= RowStart(z, vstride, size - 1) + 3 * hstride
    ensures EdgeRun(kind, s, z, hstride, vstride, size, th)[j] == s[j]
    decreases size
  {
    hide EdgeRun, RunFits, RowStart, EdgeAt, Fits;
    EdgeRunFirst(kind, s, z, hstride, vstride, size, th);
    if size > 0 {
      RowStartNext(z, vstride, 0);
      RowStartNext(z, vstride, size - 1);
      if size > 1 {
        RowStartNext(z, vstride, size - 2);
      }
      EdgeAtFrame(kind, s, z, hstride, th, j);
      EdgeRunFrame(kind, EdgeAt(kind, s, z, hstride, th), z + vstride, hstride, vstride, size - 1, th, j);
    }
  }

  //------------------------------------------------------------------------
  // Dithering

  /** VP8_DITHER_AMP_CENTER, VP8_DITHER_DESCALE_ROUNDER and VP8_DITHER_DESCALE. */
  const DITHER_AMP_CENTER: int := 128
  const DITHER_DESCALE_ROUNDER: int := 8
  const DITHER_DESCALE_DIV: int := 16

  /**
   * The correction a dither value d makes: (d - 128 + 8) >> 4, the
   * arithmetic shift being a flooring division by 16. It lies in [-8, 8]
   * and is 0 exactly for d in [120, 135], around the centre 128.
   */
  function DitherDelta(d: byte): (r: int)
    ensures -8 <= r <= 8
    ensures r == 0 <==> 120 <= d <= 135
    ensures r * DITHER_DESCALE_DIV <= d - DITHER_AMP_CENTER + DITHER_DESCALE_ROUNDER < (r + 1) * DITHER_DESCALE_DIV
  {
    (d - DITHER_AMP_CENTER + DITHER_DESCALE_ROUNDER) / DITHER_DESCALE_DIV
  }

  /**
   * The first count pixels of the row at base dithered with row, the rest
   * of s as it was.
   */
  function DitherRow(s: seq<byte>, base: int, row: seq<byte>, count: nat): (r: seq<byte>)
    requires 0 <= base && base + count <= |s| && count <= |row|
    ensures |r| == |s|
    ensures forall j :: 0 <= j < |s| && !(base <= j < base + count) ==> r[j] == s[j]
    ensures forall k :: 0 <= k < count ==> r[base + k] == Clip8b(s[base + k] + DitherDelta(row[k]))
  {
    seq(|s|, j requires 0 <= j < |s| =>
      if base <= j < base + count then Clip8b(s[j] + DitherDelta(row[j - base])) else s[j])
  }

  /** rows rows of 8 pixels, stride apart from base on, lie in a slice of length n. */
  predicate DitherFits(n: int, base: int, stride: int, rows: nat)
    decreases rows
  {
    rows == 0 || (0 <= base && base + 8 <= n && base + stride <= n && DitherFits(n, base + stride, stride, rows - 1))
  }

  /**
   * The rows of dither_combine_8x8 one after the other: the first 8 dither
   * values go to the row at base, and the rest to the rows from base +
   * stride on. Rows overlap when stride < 8; a later row then sees the
   * earlier one's result.
   */
  function DitherRows(s: seq<byte>, base: int, stride: int, dither: seq<byte>, rows: nat): (r: seq<byte>)
    requires |dither| == 8 * rows && DitherFits(|s|, base, stride, rows)
    ensures |r| == |s|
    decreases rows
  {
    if rows == 0 then s
    else DitherRows(DitherRow(s, base, dither[..8], 8), base + stride, stride, dither[8..], rows - 1)
  }

  /**
   * dither_combine_8x8: each of the 8 rows of 8 pixels (the rows
   * dst_stride apart) gets clip_8b(pixel + DitherDelta(dither value)), the
   * dither values taken 8 per row in order.
   */
  method DitherCombine8x8(dither: seq<byte>, dst: array<byte>, dstStride: nat)
    requires |dither| == 64 && DitherFits(dst.Length, 0, dstStride, 8)
    modifies dst
    ensures dst[..] == DitherRows(old(dst[..]), 0, dstStride, dither, 8)
  {
    var d := dither;
    var base := 0;
    hide DitherRows, DitherFits;
    for r := 0 to 8
      invariant |d| == 8 * (8 - r)
      invariant DitherFits(dst.Length, base, dstStride, 8 - r)
      invariant DitherRows(dst[..], base, dstStride, d, 8 - r) == DitherRows(old(dst[..]), 0, dstStride, dither, 8)
    {
      DitherRowsFirst(dst[..], base, dstStride, d, 8 - r);
      DitherRowAt(dst, base, d[..8]);
      base := base + dstStride;
      d := d[8..];
    }
    DitherRowsFirst(dst[..], base, dstStride, d, 0);
  }

  /** The inner loop of dither_combine_8x8: one row of 8 pixels at base. */
  method DitherRowAt(dst: array<byte>, base: int, row: seq<byte>)
    requires 0 <= base && base + 8 <= dst.Length && |row| == 8
    modifies dst
    ensures dst[..] == DitherRow(old(dst[..]), base, row, 8)
  {
    for i := 0 to 8
      invariant dst[..] == DitherRow(old(dst[..]), base, row, i)
    {
      var delta1 := DitherDelta(row[i]);
      dst[base + i] := Clip8b(dst[base + i] as int + delta1);
    }
  }

  /** One step of DitherRows, for the loop that has DitherRows hidden. */
  lemma DitherRowsFirst(s: seq<byte>, base: int, stride: int, dither: seq<byte>, rows: nat)
    requires |dither| == 8 * rows && DitherFits(|s|, base, stride, rows)
    ensures rows == 0 ==> DitherRows(s, base, stride, dither, rows) == s
    ensures rows > 0 ==> 0 <= base && base + 8 <= |s| && DitherFits(|s|, base + stride, stride, rows - 1)
    ensures rows > 0 ==>
              DitherRows(s, base, stride, dither, rows)
              == DitherRows(DitherRow(s, base, dither[..8], 8), base + stride, stride, dither[8..], rows - 1)
  {
  }

  /** Dither values all in [120, 135] (all 128, say) leave the pixels as they were. */
  lemma {:induction false} DitherNeutral(s: seq<byte>, base: int, stride: int, dither: seq<byte>, rows: nat)
    requires |dither| == 8 * rows && DitherFits(|s|, base, stride, rows)
    requires forall k :: 0 <= k < |dither| ==> 120 <= dither[k] <= 135
    ensures DitherRows(s, base, stride, dither, rows) == s
    decreases rows
  {
    if rows > 0 {
      var s' := DitherRow(s, base, dither[..8], 8);
      assert s' == s;
      DitherNeutral(s', base + stride, stride, dither[8..], rows - 1);
    }
  }

  /** Where row r of the rows stride apart from base starts. */
  function RowStart(base: int, stride: int, r: nat): int
  {
    base + r * stride
  }

  /** Row r + 1 from base is row r from the next row on. */
  lemma RowStartNext(base: int, stride: int, r: nat)
    ensures RowStart(base, stride, 0) == base
    ensures RowStart(base, stride, r + 1) == RowStart(base + stride, stride, r)
    ensures stride >= 0 ==> RowStart(base, stride, r) >= base
  {
    assert (r + 1) * stride == r * stride + stride;
    if stride >= 0 {
      assert r * stride >= 0;
    }
  }

  /** Pixels before the first row and from the end of the last row on are not touched. */
  lemma {:induction false} DitherRowsFrame(s: seq<byte>, base: int, stride: int, dither: seq<byte>, rows: nat, j: int)
    requires |dither| == 8 * rows && DitherFits(|s|, base, stride, rows)
    requires stride >= 0 && 0 <= j < |s|
    requires rows == 0 || j < base || j >= RowStart(base, stride, rows - 1) + 8
    ensures DitherRows(s, base, stride, dither, rows)[j] == s[j]
    decreases rows
  {
    hide DitherRows, DitherFits, RowStart, DitherRow, Clip8b, DitherDelta;
    DitherRowsFirst(s, base, stride, dither, rows);
    if rows > 0 {
      RowStartNext(base, stride, 0);
      RowStartNext(base, stride, rows - 1);
      if rows > 1 {
        RowStartNext(base, stride, rows - 2);
      }
      var s' := DitherRow(s, base, dither[..8], 8);
      DitherRowsFrame(s', base + stride, stride, dither[8..], rows - 1, j);
    }
  }

  /**
   * With rows at least 8 pixels apart, pixel i of row r takes dither value
   * 8*r + i against its own original value: the rows do not interfere.
   */
  lemma {:induction false} DitherRowsPixel(s: seq<byte>, base: int, stride: int, dither: seq<byte>, rows: nat, r: nat, i: nat)
    requires |dither| == 8 * rows && DitherFits(|s|, base, stride, rows)
    requires stride >= 8 && r < rows && i < 8
    ensures RowStart(base, stride, r) + i < |s|
    ensures DitherRows(s, base, stride, dither, rows)[RowStart(base, stride, r) + i]
            == Clip8b(s[RowStart(base, stride, r) + i] + DitherDelta(dither[8 * r + i]))
    decreases rows
  {
    hide DitherRows, DitherFits, RowStart, DitherRow, Clip8b, DitherDelta;
    DitherRowsFirst(s, base, stride, dither, rows);
    RowStartNext(base, stride, 0);
    var s' := DitherRow(s, base, dither[..8], 8);
    if r == 0 {
      DitherRowsFrame(s', base + stride, stride, dither[8..], rows - 1, base + i);
    } else {
      RowStartNext(base, stride, r - 1);
      RowStartNext(base + stride, stride, r - 1);
      DitherRowsPixel(s', base + stride, stride, dither[8..], rows - 1, r - 1, i);
      var pos := RowStart(base, stride, r) + i;
      assert base + 8 <= pos < |s|;
      assert s'[pos] == s[pos];
      assert dither[8..][8 * (r - 1) + i] == dither[8 * r + i];
    }
  }
}
