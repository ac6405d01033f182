// Intra predictors of the VP8 decoder (src/dec.rs lines 153-468; sections
// 12.2 and 12.3 of RFC 6386). Each predictor fills a square block of the
// BPS-strided work buffer from the row above it, the column to its left
// and the pixel above-left.
//
// The OffsetArray<u8, SIZE, ZERO> a predictor receives is modelled as the
// whole buffer `dst` plus `off`, the buffer position of the view's index 0;
// Window(dst.Length, off, ZERO, SIZE) is the condition under which that
// view exists.
module DecPredict {
  import opened Dsp
  import opened ClipTables
  import opened Arith

  // ---------------------------------------------------------------------
  // Neighbours of the block at off

  /** The pixel above column x (index x - BPS of the view). */
  function Above(s: seq<byte>, off: int, x: int): byte
    requires 0 <= off - BPS + x < |s|
  {
    s[off - BPS + x]
  }

  /** The pixel left of row y (index -1 + y * BPS of the view). */
  function LeftOf(s: seq<byte>, off: int, y: int): byte
    requires 0 <= off - 1 + BPS * y < |s|
  {
    s[off - 1 + BPS * y]
  }

  /** The pixel above-left of the block (index -1 - BPS of the view). */
  function Corner(s: seq<byte>, off: int): byte
    requires 0 <= off - BPS - 1 < |s|
  {
    s[off - BPS - 1]
  }

  /** The left column is never inside a block narrower than BPS. */
  lemma LeftOutside(off: int, w: nat, h: nat, y: int)
    requires w < BPS
    ensures !InRect(off, w, h, off - 1 + BPS * y)
  {
    RowShift(-1, -y);
  }

  /** Filling a block narrower than BPS keeps its neighbours. */
  lemma BorderKept(s: seq<byte>, off: int, w: nat, h: nat, rows: seq<seq<byte>>)
    requires w < BPS && IsTable(rows, w, h)
    ensures forall x :: 0 <= x < BPS && 0 <= off - BPS + x < |s| ==>
      Above(FillBlock(s, off, w, h, rows), off, x) == Above(s, off, x)
    ensures forall y :: 0 <= off - 1 + BPS * y < |s| ==>
      LeftOf(FillBlock(s, off, w, h, rows), off, y) == LeftOf(s, off, y)
    ensures 0 <= off - BPS - 1 < |s| ==> Corner(FillBlock(s, off, w, h, rows), off) == Corner(s, off)
  {
    forall y | 0 <= off - 1 + BPS * y < |s|
      ensures LeftOf(FillBlock(s, off, w, h, rows), off, y) == LeftOf(s, off, y)
    {
      LeftOutside(off, w, h, y);
    }
  }

  // ---------------------------------------------------------------------
  // True motion (TM_PRED)

  /** Row y of the true-motion block: clip(top[x] + left[y] - topleft). */
  function TmRow(s: seq<byte>, off: int, n: nat, y: int): (row: seq<byte>)
    requires n <= 16 && BPS + 1 <= off && 0 <= y < n && Pos(off, n - 1, n - 1) < |s|
    ensures |row| == n
  {
    seq(n, x requires 0 <= x < n => Clip1(Above(s, off, x) + LeftOf(s, off, y) - Corner(s, off)))
  }

  /** The n x n true-motion block. */
  function TmTable(s: seq<byte>, off: int, n: nat): (t: seq<seq<byte>>)
    requires 0 < n <= 16 && BPS + 1 <= off && Pos(off, n - 1, n - 1) < |s|
    ensures IsTable(t, n, n)
  {
    seq(n, y requires 0 <= y < n => TmRow(s, off, n, y))
  }

  /** The inner loop of true_motion: row y of the block, pixel by pixel. */
  method TmRowInto(dst: array<byte>, off: int, n: nat, y: nat, corner: byte, left: byte)
    requires 0 < n <= 16 && y < n && BPS + 1 <= off && Pos(off, n - 1, n - 1) < dst.Length
    requires corner == Corner(dst[..], off) && left == LeftOf(dst[..], off, y)
    modifies dst
    ensures dst[..] == FillBlock(old(dst[..]), Pos(off, 0, y), n, 1, [TmRow(old(dst[..]), off, n, y)])
  {
    ghost var s := dst[..];
    ghost var row := TmRow(s, off, n, y);
    for x := 0 to n
      invariant forall j :: 0 <= j < dst.Length ==>
        dst[j] == if Pos(off, 0, y) <= j < Pos(off, x, y) then row[j - Pos(off, 0, y)] else s[j]
    {
      dst[Pos(off, x, y)] := Clip1(dst[off - BPS + x] + left - corner);
    }
    FillOneRow(s, Pos(off, 0, y), row);
  }

  /**
   * true_motion: pixel (x, y) becomes clip(top[x] + left[y] - topleft) for
   * the n x n block and nothing else changes. The view is
   * OffsetArray<u8, (BPS + 1) * n + 1, BPS + 1>.
   */
  method TrueMotion(dst: array<byte>, off: int, n: nat)
    requires 0 < n <= 16 && Window(dst.Length, off, BPS + 1, (BPS + 1) * n + 1)
    modifies dst
    ensures dst[..] == FillBlock(old(dst[..]), off, n, n, TmTable(old(dst[..]), off, n))
  {
    ghost var s := dst[..];
    ghost var t := TmTable(s, off, n);
    var corner := dst[off - BPS - 1];
    for y := 0 to n
      invariant dst[..] == FillBlock(s, off, n, y, t[..y])
    {
      BorderKept(s, off, n, y, t[..y]);
      var left := dst[off - 1 + BPS * y];
      assert TmRow(dst[..], off, n, y) == TmRow(s, off, n, y);
      TmRowInto(dst, off, n, y, corner, left);
      FillBlockRow(s, off, n, y, t[..y + 1]);
      assert t[..y + 1][..y] == t[..y];
    }
    assert t[..n] == t;
  }

  /** Every pixel of the true_motion block is clip(top[x] + left[y] - topleft). */
  lemma TrueMotionPixels(s: seq<byte>, off: int, n: nat)
    requires 0 < n <= 16 && BPS + 1 <= off && Pos(off, n - 1, n - 1) < |s|
    ensures forall x, y :: 0 <= x < n && 0 <= y < n ==>
      FillBlock(s, off, n, n, TmTable(s, off, n))[Pos(off, x, y)]
        == Clip1(Above(s, off, x) + LeftOf(s, off, y) - Corner(s, off))
  {
    forall x, y | 0 <= x < n && 0 <= y < n
      ensures FillBlock(s, off, n, n, TmTable(s, off, n))[Pos(off, x, y)]
        == Clip1(Above(s, off, x) + LeftOf(s, off, y) - Corner(s, off))
    {
      FillBlockAt(s, off, n, n, TmTable(s, off, n), x, y);
    }
  }

  /** Uniform neighbours V give a block of V. */
  lemma TrueMotionFlat(s: seq<byte>, off: int, n: nat, v: byte)
    requires 0 < n <= 16 && BPS + 1 <= off && Pos(off, n - 1, n - 1) < |s|
    requires Corner(s, off) == v
    requires forall x :: 0 <= x < n ==> Above(s, off, x) == v
    requires forall y :: 0 <= y < n ==> LeftOf(s, off, y) == v
    ensures TmTable(s, off, n) == Uniform(n, n, v)
  {
    forall y | 0 <= y < n
      ensures TmTable(s, off, n)[y] == Uniform(n, n, v)[y]
    {
      assert TmRow(s, off, n, y) == seq(n, _ => v);
    }
  }

  /** tm4: true_motion on a 4 x 4 block. */
  method Tm4(dst: array<byte>, off: int)
    requires Window(dst.Length, off, BPS + 1, (BPS + 1) * 4 + 1)
    modifies dst
    ensures dst[..] == FillBlock(old(dst[..]), off, 4, 4, TmTable(old(dst[..]), off, 4))
  {
    TrueMotion(dst, off, 4);
  }

  /** tm8uv: true_motion on an 8 x 8 chroma block. */
  method Tm8uv(dst: array<byte>, off: int)
    requires Window(dst.Length, off, BPS + 1, (BPS + 1) * 8 + 1)
    modifies dst
    ensures dst[..] == FillBlock(old(dst[..]), off, 8, 8, TmTable(old(dst[..]), off, 8))
  {
    TrueMotion(dst, off, 8);
  }

  /** tm16: true_motion on a 16 x 16 luma block. */
  method Tm16(dst: array<byte>, off: int)
    requires Window(dst.Length, off, BPS + 1, (BPS + 1) * 16 + 1)
    modifies dst
    ensures dst[..] == FillBlock(old(dst[..]), off, 16, 16, TmTable(old(dst[..]), off, 16))
  {
    TrueMotion(dst, off, 16);
  }

  // ---------------------------------------------------------------------
  // Filling a block row by row

  /** The first n pixels of the row above the block. */
  function TopRow(s: seq<byte>, off: int, n: nat): (row: seq<byte>)
    requires BPS <= off && off - BPS + n <= |s|
    ensures |row| == n
    ensures forall x :: 0 <= x < n ==> row[x] == Above(s, off, x)
  {
    s[off - BPS..off - BPS + n]
  }

  /** A table whose every row is `row`. */
  function Repeat(row: seq<byte>, h: nat): (t: seq<seq<byte>>)
    ensures IsTable(t, |row|, h)
  {
    seq(h, _ => row)
  }

  /** A table whose row y is left[y] repeated: the horizontal prediction of n rows. */
  function LeftRows(s: seq<byte>, off: int, w: nat, h: nat): (t: seq<seq<byte>>)
    requires 1 <= off && (h > 0 ==> off - 1 + BPS * (h - 1) < |s|)
    ensures IsTable(t, w, h)
  {
    seq(h, y requires 0 <= y < h => seq(w, _ => LeftOf(s, off, y)))
  }

  /** Writes the same row into rows 0..h of the block at off, top to bottom. */
  method PutRows(dst: array<byte>, off: int, row: seq<byte>, h: nat)
    requires 0 < |row| <= BPS && BlockFits(dst.Length, off, |row|, h)
    modifies dst
    ensures dst[..] == FillBlock(old(dst[..]), off, |row|, h, Repeat(row, h))
  {
    ghost var s := dst[..];
    ghost var t := Repeat(row, h);
    for y := 0 to h
      invariant dst[..] == FillBlock(s, off, |row|, y, t[..y])
    {
      PutBlock(dst, Pos(off, 0, y), |row|, 1, [row]);
      FillBlockRow(s, off, |row|, y, t[..y + 1]);
      assert t[..y + 1][..y] == t[..y];
    }
    assert t[..h] == t;
  }

  /**
   * Fills row y of the block with the pixel left of it, for rows 0..h,
   * reading each left pixel just before its row is written.
   */
  method PutLeftRows(dst: array<byte>, off: int, w: nat, h: nat)
    requires 0 < w < BPS && 1 <= off && BlockFits(dst.Length, off, w, h)
    modifies dst
    ensures dst[..] == FillBlock(old(dst[..]), off, w, h, LeftRows(old(dst[..]), off, w, h))
  {
    ghost var s := dst[..];
    ghost var t := LeftRows(s, off, w, h);
    for y := 0 to h
      invariant dst[..] == FillBlock(s, off, w, y, t[..y])
    {
      BorderKept(s, off, w, y, t[..y]);
      var v := dst[off - 1 + BPS * y];
      PutBlock(dst, Pos(off, 0, y), w, 1, [seq(w, _ => v)]);
      FillBlockRow(s, off, w, y, t[..y + 1]);
      assert t[..y + 1][..y] == t[..y];
    }
    assert t[..h] == t;
  }

  // ---------------------------------------------------------------------
  // 16 x 16 luma

  /**
   * ve16 on OffsetArray<u8, 16 * BPS + 16, BPS>: the 16 pixels above the
   * block are split off and copied into each of the 16 rows.
   */
  method Ve16(dst: array<byte>, off: int)
    requires Window(dst.Length, off, BPS, 16 * BPS + 16)
    modifies dst
    ensures dst[..] == FillBlock(old(dst[..]), off, 16, 16, Repeat(TopRow(old(dst[..]), off, 16), 16))
  {
    var src := dst[off - BPS..off - BPS + 16];
    PutRows(dst, off, src, 16);
  }

  /**
   * he16 on OffsetArray<u8, 15 * BPS + 17, 1>: the BPS-sized chunks of the
   * whole array start at the left pixel of rows 0..15 (the last chunk is
   * the 17 bytes left), and bytes 1..17 of each chunk get its byte 0.
   */
  method He16(dst: array<byte>, off: int)
    requires Window(dst.Length, off, 1, 15 * BPS + 17)
    modifies dst
    ensures dst[..] == FillBlock(old(dst[..]), off, 16, 16, LeftRows(old(dst[..]), off, 16, 16))
  {
    PutLeftRows(dst, off, 16, 16);
  }

  /** put16 on a [u8; 15 * BPS + 16] starting at the block: 16 rows of 16 copies of v. */
  method Put16(v: byte, dst: array<byte>, off: int)
    requires Window(dst.Length, off, 0, 15 * BPS + 16)
    modifies dst
    ensures dst[..] == FillBlock(old(dst[..]), off, 16, 16, Uniform(16, 16, v))
  {
    PutRows(dst, off, seq(16, _ => v), 16);
    assert Repeat(seq(16, _ => v), 16) == Uniform(16, 16, v);
  }

  // ---------------------------------------------------------------------
  // Sums of neighbours for the DC predictors

  /** s[start] + s[start + step] + ... (n terms). */
  function SumRun(s: seq<byte>, start: int, step: int, n: nat): (r: int)
    requires 0 <= start && (n > 0 ==> start + step * (n - 1) < |s|) && step >= 0
    ensures 0 <= r <= 255 * n
  {
    if n == 0 then 0 else SumRun(s, start, step, n - 1) + s[start + step * (n - 1)]
  }

  /** The sum of the first n pixels above the block. */
  function SumAbove(s: seq<byte>, off: int, n: nat): (r: int)
    requires BPS <= off && off - BPS + n <= |s|
  {
    SumRun(s, off - BPS, 1, n)
  }

  /** The sum of the first n pixels left of the block. */
  function SumLeft(s: seq<byte>, off: int, n: nat): (r: int)
    requires 1 <= off && (n > 0 ==> off - 1 + BPS * (n - 1) < |s|)
  {
    SumRun(s, off - 1, BPS, n)
  }

  lemma {:induction false} SumRunRange(s: seq<byte>, start: int, step: int, n: nat, lo: int, hi: int)
    requires 0 <= start && (n > 0 ==> start + step * (n - 1) < |s|) && step >= 0
    requires forall i :: 0 <= i < n ==> lo <= s[start + step * i] <= hi
    ensures lo * n <= SumRun(s, start, step, n) <= hi * n
  {
    if n > 0 {
      SumRunRange(s, start, step, n - 1, lo, hi);
      assert lo <= s[start + step * (n - 1)] <= hi;
      assert lo * n == lo * (n - 1) + lo && hi * n == hi * (n - 1) + hi;
    }
  }

  /** sum / count rounded to nearest (half up): the `(sum + count / 2) >> log2(count)` of the DC predictors. */
  function Mean(sum: int, count: nat): (r: byte)
    requires count > 0 && 0 <= sum <= 255 * count
  {
    MeanBetween(sum, count, 0, 255);
    (sum + count / 2) / count
  }

  /** The rounded mean of values in [lo, hi] is in [lo, hi]. */
  lemma MeanBetween(sum: int, count: nat, lo: int, hi: int)
    requires count > 0 && lo * count <= sum <= hi * count
    ensures lo <= (sum + count / 2) / count <= hi
  {
    hide *;
    var half := count / 2;
    assert 0 <= half < count;
    MeanAtLeast(sum + half, count, lo);
    MeanAtMost(sum + half, count, hi);
  }

  /** A dividend of at least d * lo gives a quotient of at least lo. */
  lemma MeanAtLeast(a: int, d: nat, lo: int)
    requires d > 0 && lo * d <= a
    ensures lo <= a / d
  {
    DivUnique(d * lo, d, lo);
    DivMonotone(d * lo, a, d);
  }

  /** A dividend below d * hi + d gives a quotient of at most hi. */
  lemma MeanAtMost(a: int, d: nat, hi: int)
    requires d > 0 && a < hi * d + d
    ensures a / d <= hi
  {
    DivUnique(d * hi + d - 1, d, hi);
    DivMonotone(a, d * hi + d - 1, d);
  }

  /**
   * dc16 on OffsetArray<u8, 16 * BPS + 16, BPS>: dc starts at 16 and adds
   * left[j] + top[j] for j in 0..16 with u32 wrapping_add; the block is
   * filled with (dc >> 5) & 0xff. The sum never wraps and the mask never
   * bites, so the value is the rounded mean of the 32 neighbours.
   */
  method Dc16(dst: array<byte>, off: int)
    requires Window(dst.Length, off, BPS, 16 * BPS + 16)
    modifies dst
    ensures dst[..] == FillBlock(old(dst[..]), off, 16, 16,
      Uniform(16, 16, Mean(SumAbove(old(dst[..]), off, 16) + SumLeft(old(dst[..]), off, 16), 32)))
  {
    var dc: int := 16;
    for j := 0 to 16
      invariant dc == 16 + SumAbove(dst[..], off, j) + SumLeft(dst[..], off, j)
    {
      var first: int := dst[off - 1 + j * BPS];
      var second: int := dst[off + j - BPS];
      dc := (dc + (first + second)) % 0x1_0000_0000;
    }
    Put16((dc / 32) % 256, dst, off);
  }

  /** dc16_no_top on OffsetArray<u8, 15 * BPS + 17, 1>: 8 plus the 16 left pixels, >> 4. */
  method Dc16NoTop(dst: array<byte>, off: int)
    requires Window(dst.Length, off, 1, 15 * BPS + 17)
    modifies dst
    ensures dst[..] == FillBlock(old(dst[..]), off, 16, 16, Uniform(16, 16, Mean(SumLeft(old(dst[..]), off, 16), 16)))
  {
    var dc: int := 8;
    for j := 0 to 16
      invariant dc == 8 + SumLeft(dst[..], off, j)
    {
      dc := (dc + dst[off - 1 + j * BPS]) % 0x1_0000_0000;
    }
    Put16((dc / 16) % 256, dst, off);
  }

  /** dc16_no_left on OffsetArray<u8, 16 * BPS + 16, BPS>: 8 plus the 16 top pixels, >> 4. */
  method Dc16NoLeft(dst: array<byte>, off: int)
    requires Window(dst.Length, off, BPS, 16 * BPS + 16)
    modifies dst
    ensures dst[..] == FillBlock(old(dst[..]), off, 16, 16, Uniform(16, 16, Mean(SumAbove(old(dst[..]), off, 16), 16)))
  {
    var dc: int := 8;
    for i := 0 to 16
      invariant dc == 8 + SumAbove(dst[..], off, i)
    {
      dc := (dc + dst[off + i - BPS]) % 0x1_0000_0000;
    }
    Put16((dc / 16) % 256, dst, off);
  }

  /** dc16_no_top_left on a [u8; 15 * BPS + 16]: the block becomes 0x80. */
  method Dc16NoTopLeft(dst: array<byte>, off: int)
    requires Window(dst.Length, off, 0, 15 * BPS + 16)
    modifies dst
    ensures dst[..] == FillBlock(old(dst[..]), off, 16, 16, Uniform(16, 16, 0x80))
  {
    Put16(0x80, dst, off);
  }

  /** The n pixels above and the n pixels left of the block all lie in [lo, hi]. */
  predicate NeighboursIn(s: seq<byte>, off: int, n: nat, lo: int, hi: int)
    requires BPS <= off && off + BPS * n <= |s|
  {
    (forall x :: 0 <= x < n ==> lo <= Above(s, off, x) <= hi) &&
    (forall y :: 0 <= y < n ==> lo <= LeftOf(s, off, y) <= hi)
  }

  /** Both neighbour sums of a block whose neighbours lie in [lo, hi]. */
  lemma SidesBetween(s: seq<byte>, off: int, n: nat, lo: int, hi: int)
    requires 0 < n && BPS <= off && off + BPS * n <= |s| && NeighboursIn(s, off, n, lo, hi)
    ensures lo * n <= SumAbove(s, off, n) <= hi * n
    ensures lo * n <= SumLeft(s, off, n) <= hi * n
  {
    forall i | 0 <= i < n
      ensures lo <= s[off - BPS + 1 * i] <= hi && lo <= s[off - 1 + BPS * i] <= hi
    {
      assert Above(s, off, i) == s[off - BPS + 1 * i];
      assert LeftOf(s, off, i) == s[off - 1 + BPS * i];
    }
    SumRunRange(s, off - BPS, 1, n, lo, hi);
    SumRunRange(s, off - 1, BPS, n, lo, hi);
  }

  /** The mean of two sums of n values in [lo, hi] each. */
  lemma MeanOfBoth(a: int, b: int, n: nat, lo: int, hi: int)
    requires 0 < n && 0 <= a <= 255 * n && 0 <= b <= 255 * n
    requires lo * n <= a <= hi * n && lo * n <= b <= hi * n
    ensures lo <= Mean(a + b, 2 * n) <= hi
  {
    assert lo * (2 * n) == lo * n + lo * n && hi * (2 * n) == hi * n + hi * n;
    assert 255 * (2 * n) == 255 * n + 255 * n;
    MeanBetween(a + b, 2 * n, lo, hi);
  }

  /**
   * The DC values lie between the least and the greatest neighbour they
   * average, so in particular flat neighbours v give v: the mean of both
   * sides (dc16, dc8_uv, dc4) and of either side alone (the no-top and
   * no-left variants).
   */
  lemma DcBetween(s: seq<byte>, off: int, n: nat, lo: int, hi: int)
    requires 0 < n && BPS <= off && off + BPS * n <= |s| && NeighboursIn(s, off, n, lo, hi)
    ensures lo <= Mean(SumAbove(s, off, n) + SumLeft(s, off, n), 2 * n) <= hi
    ensures lo <= Mean(SumAbove(s, off, n), n) <= hi
    ensures lo <= Mean(SumLeft(s, off, n), n) <= hi
  {
    SidesBetween(s, off, n, lo, hi);
    MeanOfBoth(SumAbove(s, off, n), SumLeft(s, off, n), n, lo, hi);
    MeanBetween(SumAbove(s, off, n), n, lo, hi);
    MeanBetween(SumLeft(s, off, n), n, lo, hi);
  }

  // ---------------------------------------------------------------------
  // 8 x 8 chroma

  /** ve8_uv on OffsetArray<u8, 8 * BPS + 8, BPS>: the 8 pixels above, copied into each of the 8 rows. */
  method Ve8uv(dst: array<byte>, off: int)
    requires Window(dst.Length, off, BPS, 8 * BPS + 8)
    modifies dst
    ensures dst[..] == FillBlock(old(dst[..]), off, 8, 8, Repeat(TopRow(old(dst[..]), off, 8), 8))
  {
    var src := dst[off - BPS..off - BPS + 8];
    PutRows(dst, off, src, 8);
  }

  /**
   * he8_uv on OffsetArray<u8, 7 * BPS + 9, 1>: the seven whole BPS-sized
   * chunks fill rows 0..6 from their left pixel (the 9 trailing bytes are
   * no whole chunk), then row 7 is filled from dst[7 * BPS - 1].
   */
  method He8uv(dst: array<byte>, off: int)
    requires Window(dst.Length, off, 1, 7 * BPS + 9)
    modifies dst
    ensures dst[..] == FillBlock(old(dst[..]), off, 8, 8, LeftRows(old(dst[..]), off, 8, 8))
  {
    ghost var s := dst[..];
    ghost var t := LeftRows(s, off, 8, 8);
    PutLeftRows(dst, off, 8, 7);
    assert t[..7] == LeftRows(s, off, 8, 7);
    BorderKept(s, off, 8, 7, t[..7]);
    var v := dst[off + 7 * BPS - 1];
    PutBlock(dst, off + 7 * BPS, 8, 1, [seq(8, _ => v)]);
    FillBlockRow(s, off, 8, 7, t);
  }

  /** put_8x8_uv on a [u8; 7 * BPS + 8] starting at the block: 8 rows of 8 copies of v. */
  method Put8x8uv(v: byte, dst: array<byte>, off: int)
    requires Window(dst.Length, off, 0, 7 * BPS + 8)
    modifies dst
    ensures dst[..] == FillBlock(old(dst[..]), off, 8, 8, Uniform(8, 8, v))
  {
    PutRows(dst, off, seq(8, _ => v), 8);
    assert Repeat(seq(8, _ => v), 8) == Uniform(8, 8, v);
  }

  /** dc8_uv on OffsetArray<u8, 8 * BPS + 8, BPS>: 8 plus the 8 top and 8 left pixels, >> 4, as u8. */
  method Dc8uv(dst: array<byte>, off: int)
    requires Window(dst.Length, off, BPS, 8 * BPS + 8)
    modifies dst
    ensures dst[..] == FillBlock(old(dst[..]), off, 8, 8,
      Uniform(8, 8, Mean(SumAbove(old(dst[..]), off, 8) + SumLeft(old(dst[..]), off, 8), 16)))
  {
    var dc0: int := 8;
    for i := 0 to 8
      invariant dc0 == 8 + SumAbove(dst[..], off, i) + SumLeft(dst[..], off, i)
    {
      dc0 := dc0 + (dst[off + i - BPS] as int + dst[off - 1 + i * BPS] as int);
    }
    Put8x8uv((dc0 / 16) % 256, dst, off);
  }

  /** dc8_uv_no_left on OffsetArray<u8, 8 * BPS + 8, BPS>: 4 plus the 8 top pixels, >> 3. */
  method Dc8uvNoLeft(dst: array<byte>, off: int)
    requires Window(dst.Length, off, BPS, 8 * BPS + 8)
    modifies dst
    ensures dst[..] == FillBlock(old(dst[..]), off, 8, 8, Uniform(8, 8, Mean(SumAbove(old(dst[..]), off, 8), 8)))
  {
    var dc0: int := 4;
    for i := 0 to 8
      invariant dc0 == 4 + SumAbove(dst[..], off, i)
    {
      dc0 := dc0 + dst[off + i - BPS];
    }
    Put8x8uv((dc0 / 8) % 256, dst, off);
  }

  /** dc8_uv_no_top on OffsetArray<u8, 7 * BPS + 9, 1>: 4 plus the 8 left pixels, >> 3. */
  method Dc8uvNoTop(dst: array<byte>, off: int)
    requires Window(dst.Length, off, 1, 7 * BPS + 9)
    modifies dst
    ensures dst[..] == FillBlock(old(dst[..]), off, 8, 8, Uniform(8, 8, Mean(SumLeft(old(dst[..]), off, 8), 8)))
  {
    var dc0: int := 4;
    for i := 0 to 8
      invariant dc0 == 4 + SumLeft(dst[..], off, i)
    {
      dc0 := dc0 + dst[off - 1 + i * BPS];
    }
    Put8x8uv((dc0 / 8) % 256, dst, off);
  }

  /** dc8_uv_no_top_left on a [u8; 7 * BPS + 8]: the block becomes 0x80. */
  method Dc8uvNoTopLeft(dst: array<byte>, off: int)
    requires Window(dst.Length, off, 0, 7 * BPS + 8)
    modifies dst
    ensures dst[..] == FillBlock(old(dst[..]), off, 8, 8, Uniform(8, 8, 0x80))
  {
    Put8x8uv(0x80, dst, off);
  }

  // ---------------------------------------------------------------------
  // 4 x 4 luma

  /** avg3: (p1 + 2 * p2 + p3 + 2) >> 2, a [1 2 1] smoothing tap. */
  function Avg3(p1: byte, p2: byte, p3: byte): byte
  {
    (p1 + 2 * p2 + p3 + 2) / 4
  }

  /** avg2: (p1 + p2 + 1) >> 1, the rounded mean of two pixels. */
  function Avg2(p1: byte, p2: byte): byte
  {
    (p1 + p2 + 1) / 2
  }

  /** avg3 is symmetric in its outer taps and stays between the least and greatest tap. */
  lemma Avg3Between(p1: byte, p2: byte, p3: byte, lo: int, hi: int)
    requires lo <= p1 <= hi && lo <= p2 <= hi && lo <= p3 <= hi
    ensures Avg3(p1, p2, p3) == Avg3(p3, p2, p1)
    ensures lo <= Avg3(p1, p2, p3) <= hi
  {
    MeanBetween(p1 + 2 * p2 + p3, 4, lo, hi);
  }

  /** avg2 is symmetric and stays between its two pixels. */
  lemma Avg2Between(p1: byte, p2: byte, lo: int, hi: int)
    requires lo <= p1 <= hi && lo <= p2 <= hi
    ensures Avg2(p1, p2) == Avg2(p2, p1)
    ensures lo <= Avg2(p1, p2) <= hi
  {
    MeanBetween(p1 + p2, 2, lo, hi);
  }

  /** The four values ve4 smooths out of top[-1..5]: every row of its block. */
  function Ve4Row(x: byte, a: byte, b: byte, c: byte, d: byte, e: byte): (row: seq<byte>)
    ensures |row| == 4
  {
    [Avg3(x, a, b), Avg3(a, b, c), Avg3(b, c, d), Avg3(c, d, e)]
  }

  /**
   * ve4 on OffsetArray<u8, 5 * BPS + 1, BPS + 1>: the smoothed top row
   * (top-left, the 4 pixels above and the first above-right one) copied
   * into each of the 4 rows.
   */
  method Ve4(dst: array<byte>, off: int)
    requires Window(dst.Length, off, BPS + 1, 5 * BPS + 1)
    modifies dst
    ensures dst[..] == FillBlock(old(dst[..]), off, 4, 4, Repeat(Ve4Row(Corner(old(dst[..]), off),
      Above(old(dst[..]), off, 0), Above(old(dst[..]), off, 1), Above(old(dst[..]), off, 2),
      Above(old(dst[..]), off, 3), Above(old(dst[..]), off, 4)), 4))
  {
    hide FillBlock, Repeat, Avg3;
    ghost var s := dst[..];
    var vals := Ve4Row(dst[off - BPS - 1], dst[off - BPS], dst[off - BPS + 1], dst[off - BPS + 2],
                       dst[off - BPS + 3], dst[off - BPS + 4]);
    assert vals == Ve4Row(Corner(s, off), Above(s, off, 0), Above(s, off, 1), Above(s, off, 2),
                          Above(s, off, 3), Above(s, off, 4));
    PutRows(dst, off, vals, 4);
  }

  /** The he4 block from top-left a and the left column b, c, d, e. */
  function He4Of(a: byte, b: byte, c: byte, d: byte, e: byte): (t: seq<seq<byte>>)
    ensures IsTable(t, 4, 4)
  {
    [seq(4, _ => Avg3(a, b, c)), seq(4, _ => Avg3(b, c, d)),
     seq(4, _ => Avg3(c, d, e)), seq(4, _ => Avg3(d, e, e))]
  }

  /** The he4 block of the buffer s. */
  function He4Table(s: seq<byte>, off: int): (t: seq<seq<byte>>)
    requires BPS + 1 <= off && off + 3 * BPS < |s|
    ensures IsTable(t, 4, 4)
  {
    He4Of(Corner(s, off), LeftOf(s, off, 0), LeftOf(s, off, 1), LeftOf(s, off, 2), LeftOf(s, off, 3))
  }

  /**
   * he4 on OffsetArray<u8, 5 * BPS + 1, BPS + 1>: row y is four copies of
   * the smoothed left pixel (each row one little-endian write_u32 of
   * 0x01010101 * value); the last row repeats the bottom-left pixel.
   */
  method He4(dst: array<byte>, off: int)
    requires Window(dst.Length, off, BPS + 1, 5 * BPS + 1)
    modifies dst
    ensures dst[..] == FillBlock(old(dst[..]), off, 4, 4, He4Table(old(dst[..]), off))
  {
    hide FillBlock, Avg2, Avg3, He4Of;
    ghost var s := dst[..];
    var a := dst[off - 1 - BPS];
    var b := dst[off - 1];
    var c := dst[off - 1 + BPS];
    var d := dst[off - 1 + 2 * BPS];
    var e := dst[off - 1 + 3 * BPS];
    assert He4Of(a, b, c, d, e) == He4Table(s, off);
    PutBlock(dst, off, 4, 4, He4Of(a, b, c, d, e));
  }

  /**
   * dc4 on OffsetArray<u8, 5 * BPS, BPS>: 4 plus the 4 top and 4 left
   * pixels, >> 3, as u8; the 4 rows of the block are filled with it.
   */
  method Dc4(dst: array<byte>, off: int)
    requires Window(dst.Length, off, BPS, 5 * BPS)
    modifies dst
    ensures dst[..] == FillBlock(old(dst[..]), off, 4, 4,
      Uniform(4, 4, Mean(SumAbove(old(dst[..]), off, 4) + SumLeft(old(dst[..]), off, 4), 8)))
  {
    var dc: int := 4;
    for i := 0 to 4
      invariant dc == 4 + SumAbove(dst[..], off, i) + SumLeft(dst[..], off, i)
    {
      dc := dc + (dst[off + i - BPS] as int + dst[off - 1 + i * BPS] as int);
    }
    var v: byte := (dc / 8) % 256;
    PutRows(dst, off, seq(4, _ => v), 4);
    assert Repeat(seq(4, _ => v), 4) == Uniform(4, 4, v);
  }

  /** The rd4 (down-right) block from the left column i, j, k, l, the corner x and the top row a, b, c, d. */
  function Rd4Of(i: byte, j: byte, k: byte, l: byte, x: byte, a: byte, b: byte, c: byte, d: byte): (t: seq<seq<byte>>)
    ensures IsTable(t, 4, 4)
  {
    [[Avg3(a, x, i), Avg3(b, a, x), Avg3(c, b, a), Avg3(d, c, b)],
     [Avg3(x, i, j), Avg3(a, x, i), Avg3(b, a, x), Avg3(c, b, a)],
     [Avg3(i, j, k), Avg3(x, i, j), Avg3(a, x, i), Avg3(b, a, x)],
     [Avg3(j, k, l), Avg3(i, j, k), Avg3(x, i, j), Avg3(a, x, i)]]
  }

  /** The ld4 (down-left) block from the eight pixels above and above-right a .. h. */
  function Ld4Of(a: byte, b: byte, c: byte, d: byte, e: byte, f: byte, g: byte, h: byte): (t: seq<seq<byte>>)
    ensures IsTable(t, 4, 4)
  {
    [[Avg3(a, b, c), Avg3(b, c, d), Avg3(c, d, e), Avg3(d, e, f)],
     [Avg3(b, c, d), Avg3(c, d, e), Avg3(d, e, f), Avg3(e, f, g)],
     [Avg3(c, d, e), Avg3(d, e, f), Avg3(e, f, g), Avg3(f, g, h)],
     [Avg3(d, e, f), Avg3(e, f, g), Avg3(f, g, h), Avg3(g, h, h)]]
  }

  /** The vr4 (vertical-right) block from the left pixels i, j, k, the corner x and the top row a, b, c, d. */
  function Vr4Of(i: byte, j: byte, k: byte, x: byte, a: byte, b: byte, c: byte, d: byte): (t: seq<seq<byte>>)
    ensures IsTable(t, 4, 4)
  {
    [[Avg2(x, a), Avg2(a, b), Avg2(b, c), Avg2(c, d)],
     [Avg3(i, x, a), Avg3(x, a, b), Avg3(a, b, c), Avg3(b, c, d)],
     [Avg3(j, i, x), Avg2(x, a), Avg2(a, b), Avg2(b, c)],
     [Avg3(k, j, i), Avg3(i, x, a), Avg3(x, a, b), Avg3(a, b, c)]]
  }

  /** The vl4 (vertical-left) block from the eight pixels above and above-right a .. h. */
  function Vl4Of(a: byte, b: byte, c: byte, d: byte, e: byte, f: byte, g: byte, h: byte): (t: seq<seq<byte>>)
    ensures IsTable(t, 4, 4)
  {
    [[Avg2(a, b), Avg2(b, c), Avg2(c, d), Avg2(d, e)],
     [Avg3(a, b, c), Avg3(b, c, d), Avg3(c, d, e), Avg3(d, e, f)],
     [Avg2(b, c), Avg2(c, d), Avg2(d, e), Avg3(e, f, g)],
     [Avg3(b, c, d), Avg3(c, d, e), Avg3(d, e, f), Avg3(f, g, h)]]
  }

  /** The hu4 (horizontal-up) block from the left column i, j, k, l. */
  function Hu4Of(i: byte, j: byte, k: byte, l: byte): (t: seq<seq<byte>>)
    ensures IsTable(t, 4, 4)
  {
    [[Avg2(i, j), Avg3(i, j, k), Avg2(j, k), Avg3(j, k, l)],
     [Avg2(j, k), Avg3(j, k, l), Avg2(k, l), Avg3(k, l, l)],
     [Avg2(k, l), Avg3(k, l, l), l, l],
     [l, l, l, l]]
  }

  /** The hd4 (horizontal-down) block from the left column i, j, k, l, the corner x and the top pixels a, b, c. */
  function Hd4Of(i: byte, j: byte, k: byte, l: byte, x: byte, a: byte, b: byte, c: byte): (t: seq<seq<byte>>)
    ensures IsTable(t, 4, 4)
  {
    [[Avg2(i, x), Avg3(i, x, a), Avg3(x, a, b), Avg3(a, b, c)],
     [Avg2(j, i), Avg3(j, i, x), Avg2(i, x), Avg3(i, x, a)],
     [Avg2(k, j), Avg3(k, j, i), Avg2(j, i), Avg3(j, i, x)],
     [Avg2(l, k), Avg3(l, k, j), Avg2(k, j), Avg3(k, j, i)]]
  }

  /** The rd4 block of the buffer s. */
  function Rd4Table(s: seq<byte>, off: int): (t: seq<seq<byte>>)
    requires BPS + 1 <= off && off + 3 * BPS < |s|
    ensures IsTable(t, 4, 4)
  {
    Rd4Of(LeftOf(s, off, 0), LeftOf(s, off, 1), LeftOf(s, off, 2), LeftOf(s, off, 3), Corner(s, off),
          Above(s, off, 0), Above(s, off, 1), Above(s, off, 2), Above(s, off, 3))
  }

  /** The ld4 block of the buffer s. */
  function Ld4Table(s: seq<byte>, off: int): (t: seq<seq<byte>>)
    requires BPS <= off && off + 3 * BPS < |s|
    ensures IsTable(t, 4, 4)
  {
    Ld4Of(Above(s, off, 0), Above(s, off, 1), Above(s, off, 2), Above(s, off, 3),
          Above(s, off, 4), Above(s, off, 5), Above(s, off, 6), Above(s, off, 7))
  }

  /** The vr4 block of the buffer s. */
  function Vr4Table(s: seq<byte>, off: int): (t: seq<seq<byte>>)
    requires BPS + 1 <= off && off + 3 * BPS < |s|
    ensures IsTable(t, 4, 4)
  {
    Vr4Of(LeftOf(s, off, 0), LeftOf(s, off, 1), LeftOf(s, off, 2), Corner(s, off),
          Above(s, off, 0), Above(s, off, 1), Above(s, off, 2), Above(s, off, 3))
  }

  /** The vl4 block of the buffer s. */
  function Vl4Table(s: seq<byte>, off: int): (t: seq<seq<byte>>)
    requires BPS <= off && off + 3 * BPS < |s|
    ensures IsTable(t, 4, 4)
  {
    Vl4Of(Above(s, off, 0), Above(s, off, 1), Above(s, off, 2), Above(s, off, 3),
          Above(s, off, 4), Above(s, off, 5), Above(s, off, 6), Above(s, off, 7))
  }

  /** The hu4 block of the buffer s. */
  function Hu4Table(s: seq<byte>, off: int): (t: seq<seq<byte>>)
    requires 1 <= off && off + 3 * BPS < |s|
    ensures IsTable(t, 4, 4)
  {
    Hu4Of(LeftOf(s, off, 0), LeftOf(s, off, 1), LeftOf(s, off, 2), LeftOf(s, off, 3))
  }

  /** The hd4 block of the buffer s. */
  function Hd4Table(s: seq<byte>, off: int): (t: seq<seq<byte>>)
    requires BPS + 1 <= off && off + 3 * BPS < |s|
    ensures IsTable(t, 4, 4)
  {
    Hd4Of(LeftOf(s, off, 0), LeftOf(s, off, 1), LeftOf(s, off, 2), LeftOf(s, off, 3), Corner(s, off),
          Above(s, off, 0), Above(s, off, 1), Above(s, off, 2))
  }

  // The diagonal predictors read their neighbours into locals and then make
  // one `assign` per distinct value; the assign lists of each predictor
  // name every pixel of the 4 x 4 block exactly once, so the block ends up
  // holding the predictor's table whatever the order of the writes, and the
  // model writes that table.

  /** rd4 on OffsetArray<u8, 4 * BPS + 5, 1 + BPS>. */
  method Rd4(dst: array<byte>, off: int)
    requires Window(dst.Length, off, 1 + BPS, 4 * BPS + 5)
    modifies dst
    ensures dst[..] == FillBlock(old(dst[..]), off, 4, 4, Rd4Table(old(dst[..]), off))
  {
    hide FillBlock, Avg2, Avg3, Rd4Of;
    ghost var s := dst[..];
    var i := dst[off - 1];
    var j := dst[off - 1 + BPS];
    var k := dst[off - 1 + 2 * BPS];
    var l := dst[off - 1 + 3 * BPS];
    var x := dst[off - 1 - BPS];
    var a := dst[off - BPS];
    var b := dst[off + 1 - BPS];
    var c := dst[off + 2 - BPS];
    var d := dst[off + 3 - BPS];
    assert Rd4Of(i, j, k, l, x, a, b, c, d) == Rd4Table(s, off);
    PutBlock(dst, off, 4, 4, Rd4Of(i, j, k, l, x, a, b, c, d));
  }

  /** ld4 on OffsetArray<u8, 4 * BPS + 4, BPS>. */
  method Ld4(dst: array<byte>, off: int)
    requires Window(dst.Length, off, BPS, 4 * BPS + 4)
    modifies dst
    ensures dst[..] == FillBlock(old(dst[..]), off, 4, 4, Ld4Table(old(dst[..]), off))
  {
    hide FillBlock, Avg2, Avg3, Ld4Of;
    ghost var s := dst[..];
    var a := dst[off - BPS];
    var b := dst[off + 1 - BPS];
    var c := dst[off + 2 - BPS];
    var d := dst[off + 3 - BPS];
    var e := dst[off + 4 - BPS];
    var f := dst[off + 5 - BPS];
    var g := dst[off + 6 - BPS];
    var h := dst[off + 7 - BPS];
    assert Ld4Of(a, b, c, d, e, f, g, h) == Ld4Table(s, off);
    PutBlock(dst, off, 4, 4, Ld4Of(a, b, c, d, e, f, g, h));
  }

  /** vr4 on OffsetArray<u8, 4 * BPS + 5, 1 + BPS>. */
  method Vr4(dst: array<byte>, off: int)
    requires Window(dst.Length, off, 1 + BPS, 4 * BPS + 5)
    modifies dst
    ensures dst[..] == FillBlock(old(dst[..]), off, 4, 4, Vr4Table(old(dst[..]), off))
  {
    hide FillBlock, Avg2, Avg3, Vr4Of;
    ghost var s := dst[..];
    var i := dst[off - 1];
    var j := dst[off - 1 + BPS];
    var k := dst[off - 1 + 2 * BPS];
    var x := dst[off - 1 - BPS];
    var a := dst[off - BPS];
    var b := dst[off + 1 - BPS];
    var c := dst[off + 2 - BPS];
    var d := dst[off + 3 - BPS];
    assert Vr4Of(i, j, k, x, a, b, c, d) == Vr4Table(s, off);
    PutBlock(dst, off, 4, 4, Vr4Of(i, j, k, x, a, b, c, d));
  }

  /** vl4 on OffsetArray<u8, 4 * BPS + 4, BPS>. */
  method Vl4(dst: array<byte>, off: int)
    requires Window(dst.Length, off, BPS, 4 * BPS + 4)
    modifies dst
    ensures dst[..] == FillBlock(old(dst[..]), off, 4, 4, Vl4Table(old(dst[..]), off))
  {
    hide FillBlock, Avg2, Avg3, Vl4Of;
    ghost var s := dst[..];
    var a := dst[off - BPS];
    var b := dst[off + 1 - BPS];
    var c := dst[off + 2 - BPS];
    var d := dst[off + 3 - BPS];
    var e := dst[off + 4 - BPS];
    var f := dst[off + 5 - BPS];
    var g := dst[off + 6 - BPS];
    var h := dst[off + 7 - BPS];
    assert Vl4Of(a, b, c, d, e, f, g, h) == Vl4Table(s, off);
    PutBlock(dst, off, 4, 4, Vl4Of(a, b, c, d, e, f, g, h));
  }

  /** hu4 on OffsetArray<u8, 4 * BPS + 5, 1 + BPS>. */
  method Hu4(dst: array<byte>, off: int)
    requires Window(dst.Length, off, 1 + BPS, 4 * BPS + 5)
    modifies dst
    ensures dst[..] == FillBlock(old(dst[..]), off, 4, 4, Hu4Table(old(dst[..]), off))
  {
    hide FillBlock, Avg2, Avg3, Hu4Of;
    ghost var s := dst[..];
    var i := dst[off - 1];
    var j := dst[off - 1 + BPS];
    var k := dst[off - 1 + 2 * BPS];
    var l := dst[off - 1 + 3 * BPS];
    assert Hu4Of(i, j, k, l) == Hu4Table(s, off);
    PutBlock(dst, off, 4, 4, Hu4Of(i, j, k, l));
  }

  /** hd4 on OffsetArray<u8, 4 * BPS + 5, 1 + BPS>. */
  method Hd4(dst: array<byte>, off: int)
    requires Window(dst.Length, off, 1 + BPS, 4 * BPS + 5)
    modifies dst
    ensures dst[..] == FillBlock(old(dst[..]), off, 4, 4, Hd4Table(old(dst[..]), off))
  {
    hide FillBlock, Avg2, Avg3, Hd4Of;
    ghost var s := dst[..];
    var i := dst[off - 1];
    var j := dst[off - 1 + BPS];
    var k := dst[off - 1 + 2 * BPS];
    var l := dst[off - 1 + 3 * BPS];
    var x := dst[off - 1 - BPS];
    var a := dst[off - BPS];
    var b := dst[off + 1 - BPS];
    var c := dst[off + 2 - BPS];
    assert Hd4Of(i, j, k, l, x, a, b, c) == Hd4Table(s, off);
    PutBlock(dst, off, 4, 4, Hd4Of(i, j, k, l, x, a, b, c));
  }

  // ---------------------------------------------------------------------
  // Properties of the 4 x 4 blocks

  /**
   * Section 12.3 of RFC 6386, B_RD_PRED: with the edge E = L[3], L[2], L[1],
   * L[0], P, A[0], A[1], A[2], A[3] (left column bottom-up, corner, top row),
   * pixel (row r, column c) is avg3(E[3 - r + c], E[4 - r + c], E[5 - r + c]).
   */
  lemma Rd4Reference(e: seq<byte>)
    requires |e| == 9
    ensures forall r, c :: 0 <= r < 4 && 0 <= c < 4 ==>
      Rd4Of(e[3], e[2], e[1], e[0], e[4], e[5], e[6], e[7], e[8])[r][c]
        == Avg3(e[3 - r + c], e[4 - r + c], e[5 - r + c])
  {
  }

  /**
   * Section 12.3 of RFC 6386, B_LD_PRED: with the eight pixels above and
   * above-right A[0..8], pixel (r, c) is avg3(A[r + c], A[r + c + 1],
   * A[r + c + 2]) except the bottom-right one, avg3(A[6], A[7], A[7]).
   */
  lemma Ld4Reference(p: seq<byte>)
    requires |p| == 8
    ensures forall r, c :: 0 <= r < 4 && 0 <= c < 4 ==>
      Ld4Of(p[0], p[1], p[2], p[3], p[4], p[5], p[6], p[7])[r][c]
        == if r + c < 6 then Avg3(p[r + c], p[r + c + 1], p[r + c + 2]) else Avg3(p[6], p[7], p[7])
  {
  }

  /** Entry (y, x) of t reappears at (y + dy, x + dx) for y < ny and x < nx. */
  predicate RepeatsAlong(t: seq<seq<byte>>, dy: nat, dx: nat, ny: nat, nx: nat)
    requires IsTable(t, 4, 4) && ny + dy <= 4 && nx + dx <= 4
  {
    forall y, x {:trigger t[y][x]} :: 0 <= y < ny && 0 <= x < nx ==> t[y + dy][x + dx] == t[y][x]
  }

  /** Entry (y, x) of t reappears at (y + dy, x - dx) for y < ny and dx <= x < dx + nx. */
  predicate RepeatsBack(t: seq<seq<byte>>, dy: nat, dx: nat, ny: nat, nx: nat)
    requires IsTable(t, 4, 4) && ny + dy <= 4 && nx + dx <= 4
  {
    forall y, x {:trigger t[y][x]} :: 0 <= y < ny && dx <= x < dx + nx ==> t[y + dy][x - dx] == t[y][x]
  }

  /**
   * The shifts along which the diagonal modes repeat their values: rd4 is
   * constant along down-right diagonals and ld4 along down-left ones; vr4
   * repeats two rows down and one right, vl4 two rows down and one left,
   * hd4 one row down and two right, hu4 one row down and two left.
   */
  lemma Diagonal4Shifts(i: byte, j: byte, k: byte, l: byte, x: byte, a: byte, b: byte, c: byte, d: byte,
                        e: byte, f: byte, g: byte, h: byte)
    ensures RepeatsAlong(Rd4Of(i, j, k, l, x, a, b, c, d), 1, 1, 3, 3)
    ensures RepeatsBack(Ld4Of(a, b, c, d, e, f, g, h), 1, 1, 3, 3)
    ensures RepeatsAlong(Vr4Of(i, j, k, x, a, b, c, d), 2, 1, 2, 3)
    ensures RepeatsBack(Vl4Of(a, b, c, d, e, f, g, h), 2, 1, 2, 3)
    ensures RepeatsAlong(Hd4Of(i, j, k, l, x, a, b, c), 1, 2, 3, 2)
    ensures RepeatsBack(Hu4Of(i, j, k, l), 1, 2, 3, 2)
  {
  }

  /** Flat neighbours v give a block of v in every 4 x 4 mode. */
  lemma Flat4(v: byte)
    ensures He4Of(v, v, v, v, v) == Uniform(4, 4, v)
    ensures Repeat(Ve4Row(v, v, v, v, v, v), 4) == Uniform(4, 4, v)
    ensures Rd4Of(v, v, v, v, v, v, v, v, v) == Uniform(4, 4, v)
    ensures Ld4Of(v, v, v, v, v, v, v, v) == Uniform(4, 4, v)
    ensures Vr4Of(v, v, v, v, v, v, v, v) == Uniform(4, 4, v)
    ensures Vl4Of(v, v, v, v, v, v, v, v) == Uniform(4, 4, v)
    ensures Hu4Of(v, v, v, v) == Uniform(4, 4, v)
    ensures Hd4Of(v, v, v, v, v, v, v, v) == Uniform(4, 4, v)
  {
    assert Avg3(v, v, v) == v && Avg2(v, v) == v;
    assert seq(4, _ => v) == [v, v, v, v];
  }
}
