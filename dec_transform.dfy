// Inverse transforms of the VP8 decoder (src/dec.rs lines 15-151,
// section 14.3 and 14.4 of RFC 6386): a residual block of 16 dequantized
// coefficients is turned into 4 x 4 pixel corrections that are added to the
// predicted pixels in place.
module DecTransform {
  import opened Dsp
  import opened ClipTables

  /**
   * Coefficients in [-2048, 2047], the interval transform_one's own range
   * comments assume (dec.rs lines 86-91); outside it the i32 products of its
   * second pass may overflow.
   */
  predicate CoeffsInRange(data: seq<int>)
  {
    forall k :: 0 <= k < |data| ==> -2048 <= data[k] <= 2047
  }

  /** An i16 value. */
  predicate InI16(v: int) { -32768 <= v <= 32767 }

  /** transform_dc adds 4 to its i16 input in i16: an input above 32763 overflows. */
  predicate DcFits(dc: int) { -32768 <= dc <= 32763 }

  /** mul1: a * (1 + 20091 / 65536), the sqrt(2) * cos(pi/8) rotation. */
  function Mul1(a: int): int { (a * 20091) / 65536 + a }

  /** mul2: a * 35468 / 65536, the sqrt(2) * sin(pi/8) rotation. */
  function Mul2(a: int): int { (a * 35468) / 65536 }

  lemma Mul1Monotone(a: int, b: int)
    requires a <= b
    ensures Mul1(a) <= Mul1(b)
  {
    assert a * 20091 <= b * 20091;
  }

  lemma Mul2Monotone(a: int, b: int)
    requires a <= b
    ensures Mul2(a) <= Mul2(b)
  {
    assert a * 35468 <= b * 35468;
  }

  // ---------------------------------------------------------------------
  // Adding a 4 x 4 residual to the predicted pixels

  /** Pixel j after store: clip_8b(pixel + (v >> 3)). */
  function AddPixel(s: seq<byte>, j: int, v: int): (r: seq<byte>)
    requires 0 <= j < |s|
    ensures |r| == |s|
  {
    s[j := Clip8b(s[j] + v / 8)]
  }

  /** store: pixel (x, y) of the block at off gets clip_8b(pixel + (v >> 3)). */
  method Store(dst: array<byte>, off: int, x: int, y: int, v: int)
    requires 0 <= Pos(off, x, y) < dst.Length
    modifies dst
    ensures dst[..] == AddPixel(old(dst[..]), Pos(off, x, y), v)
  {
    dst[Pos(off, x, y)] := Clip8b(dst[Pos(off, x, y)] + v / 8);
  }

  /** A 4 x 4 block at off lies inside a buffer of n bytes. */
  predicate Fits4(n: int, off: int)
  {
    0 <= off && Pos(off, 3, 3) < n
  }

  /** An 8 x 8 block at off lies inside a buffer of n bytes. */
  predicate Fits8(n: int, off: int)
  {
    0 <= off && Pos(off, 7, 7) < n
  }

  /** The block at off after the four residuals of row y are stored into it, left to right. */
  function AddRow(s: seq<byte>, off: int, y: int, row: seq<int>): (r: seq<byte>)
    requires |row| == 4 && 0 <= Pos(off, 0, y) && Pos(off, 3, y) < |s|
    ensures |r| == |s|
  {
    var s1 := AddPixel(s, Pos(off, 0, y), row[0]);
    var s2 := AddPixel(s1, Pos(off, 1, y), row[1]);
    var s3 := AddPixel(s2, Pos(off, 2, y), row[2]);
    AddPixel(s3, Pos(off, 3, y), row[3])
  }

  /** The block at off after the first n rows of the 4 x 4 table res are stored, top row first. */
  function AddResidual(s: seq<byte>, off: int, res: seq<seq<int>>, n: nat): (r: seq<byte>)
    requires IsTable(res, 4, 4) && n <= 4 && Fits4(|s|, off)
    ensures |r| == |s|
  {
    if n == 0 then s else AddRow(AddResidual(s, off, res, n - 1), off, n - 1, res[n - 1])
  }

  /** Stores the four residuals of row y. */
  method StoreRow(dst: array<byte>, off: int, y: int, row: seq<int>)
    requires |row| == 4 && 0 <= Pos(off, 0, y) && Pos(off, 3, y) < dst.Length
    modifies dst
    ensures dst[..] == AddRow(old(dst[..]), off, y, row)
  {
    Store(dst, off, 0, y, row[0]);
    Store(dst, off, 1, y, row[1]);
    Store(dst, off, 2, y, row[2]);
    Store(dst, off, 3, y, row[3]);
  }

  /** store2: the row dc + d, dc + c, dc - c, dc - d. */
  method Store2(dst: array<byte>, off: int, y: int, dc: int, d: int, c: int)
    requires 0 <= Pos(off, 0, y) && Pos(off, 3, y) < dst.Length
    modifies dst
    ensures dst[..] == AddRow(old(dst[..]), off, y, Ac3Row(dc, d, c))
  {
    StoreRow(dst, off, y, [dc + d, dc + c, dc - c, dc - d]);
  }

  /** Adding one row changes exactly the four pixels of that row. */
  lemma AddRowPixels(s: seq<byte>, off: int, y: int, row: seq<int>)
    requires |row| == 4 && 0 <= Pos(off, 0, y) && Pos(off, 3, y) < |s|
    ensures forall x :: 0 <= x < 4 ==> AddRow(s, off, y, row)[Pos(off, x, y)] == Clip8b(s[Pos(off, x, y)] + row[x] / 8)
    ensures forall j :: 0 <= j < |s| && !(Pos(off, 0, y) <= j < Pos(off, 4, y)) ==> AddRow(s, off, y, row)[j] == s[j]
  {
  }

  /** Adding the first n rows of a 4 x 4 table leaves every pixel outside them as it was. */
  lemma {:induction false} AddResidualFrame(s: seq<byte>, off: int, res: seq<seq<int>>, n: nat)
    requires IsTable(res, 4, 4) && n <= 4 && Fits4(|s|, off)
    ensures forall j :: 0 <= j < |s| && !InRect(off, 4, n, j) ==> AddResidual(s, off, res, n)[j] == s[j]
  {
    if n > 0 {
      AddResidualFrame(s, off, res, n - 1);
      var prev := AddResidual(s, off, res, n - 1);
      AddRowPixels(prev, off, n - 1, res[n - 1]);
      forall j | 0 <= j < |s| && !InRect(off, 4, n, j)
        ensures AddResidual(s, off, res, n)[j] == s[j]
      {
        assert !InRect(off, 4, n - 1, j);
        if Pos(off, 0, n - 1) <= j < Pos(off, 4, n - 1) {
          PosCoords(off, j - Pos(off, 0, n - 1), n - 1);
          assert false;
        }
      }
    }
  }

  /** Each pixel of the first n rows becomes the clamped sum of its old value and residual >> 3. */
  lemma {:induction false} AddResidualPixels(s: seq<byte>, off: int, res: seq<seq<int>>, n: nat)
    requires IsTable(res, 4, 4) && n <= 4 && Fits4(|s|, off)
    ensures forall x, y :: 0 <= x < 4 && 0 <= y < n ==>
      AddResidual(s, off, res, n)[Pos(off, x, y)] == Clip8b(s[Pos(off, x, y)] + res[y][x] / 8)
  {
    if n > 0 {
      AddResidualPixels(s, off, res, n - 1);
      AddResidualFrame(s, off, res, n - 1);
      var prev := AddResidual(s, off, res, n - 1);
      AddRowPixels(prev, off, n - 1, res[n - 1]);
      forall x, y | 0 <= x < 4 && 0 <= y < n
        ensures AddResidual(s, off, res, n)[Pos(off, x, y)] == Clip8b(s[Pos(off, x, y)] + res[y][x] / 8)
      {
        PosCoords(off, x, y);
        if y < n - 1 {
          assert !(Pos(off, 0, n - 1) <= Pos(off, x, y) < Pos(off, 4, n - 1));
        } else {
          assert !InRect(off, 4, n - 1, Pos(off, x, y));
        }
      }
    }
  }

  /** A table whose every entry shifts to 0 leaves the pixels as they are. */
  lemma {:induction false} AddResidualNoop(s: seq<byte>, off: int, res: seq<seq<int>>, n: nat)
    requires IsTable(res, 4, 4) && n <= 4 && Fits4(|s|, off)
    requires forall y, x :: 0 <= y < 4 && 0 <= x < 4 ==> 0 <= res[y][x] < 8
    ensures AddResidual(s, off, res, n) == s
  {
    if n > 0 {
      AddResidualNoop(s, off, res, n - 1);
      var row := res[n - 1];
      assert row[0] / 8 == 0 && row[1] / 8 == 0 && row[2] / 8 == 0 && row[3] / 8 == 0;
    }
  }

  // ---------------------------------------------------------------------
  // The full transform

  /**
   * The butterfly both passes of transform_one apply to four values
   * x0, x1, x2, x3 (in[0], in[4], in[8], in[12] of a column, or the rounded
   * tmp[0], tmp[4], tmp[8], tmp[12] of a row).
   */
  function Butterfly(x0: int, x1: int, x2: int, x3: int): (out: seq<int>)
    ensures |out| == 4
  {
    var a := x0 + x2;
    var b := x0 - x2;
    var c := Mul2(x1) - Mul1(x3);
    var d := Mul1(x1) + Mul2(x3);
    [a + d, b + c, b - c, a - d]
  }

  /** The vertical pass of transform_one on column i: tmp[4i .. 4i + 3]. */
  function Column(data: seq<int>, i: int): (col: seq<int>)
    requires |data| == 16 && 0 <= i < 4
    ensures |col| == 4
  {
    Butterfly(data[i], data[4 + i], data[8 + i], data[12 + i])
  }

  /** tmp after the vertical pass: column i occupies tmp[4i .. 4i + 3]. */
  function VerticalPass(data: seq<int>): (tmp: seq<int>)
    requires |data| == 16
    ensures |tmp| == 16
  {
    Column(data, 0) + Column(data, 1) + Column(data, 2) + Column(data, 3)
  }

  /** The four residuals stored in row j by the horizontal pass, rounder included. */
  function HorizontalRow(tmp: seq<int>, j: int): (row: seq<int>)
    requires |tmp| == 16 && 0 <= j < 4
    ensures |row| == 4
  {
    Butterfly(tmp[j] + 4, tmp[4 + j], tmp[8 + j], tmp[12 + j])
  }

  /** The residual table of the horizontal pass over tmp (rounder included, before >> 3). */
  function HorizontalPass(tmp: seq<int>): (res: seq<seq<int>>)
    requires |tmp| == 16
    ensures IsTable(res, 4, 4)
  {
    seq(4, j requires 0 <= j < 4 => HorizontalRow(tmp, j))
  }

  /** The residual table of transform_one. */
  function TransformOneTable(data: seq<int>): (res: seq<seq<int>>)
    requires |data| == 16
    ensures IsTable(res, 4, 4)
  {
    HorizontalPass(VerticalPass(data))
  }

  /** Pixels after transform_one(data) on the block at off. */
  function TransformOneSpec(s: seq<byte>, off: int, data: seq<int>): (r: seq<byte>)
    requires |data| == 16 && Fits4(|s|, off)
    ensures |r| == |s|
  {
    AddResidual(s, off, TransformOneTable(data), 4)
  }

  /** tmp after column i of the vertical pass is written into tmp[4i .. 4i + 3]. */
  function PutColumn(t: seq<int>, i: int, col: seq<int>): (r: seq<int>)
    requires |t| == 16 && 0 <= i < 4 && |col| == 4
    ensures |r| == 16
  {
    t[4 * i := col[0]][4 * i + 1 := col[1]][4 * i + 2 := col[2]][4 * i + 3 := col[3]]
  }

  /** tmp after the first n passes of the first loop of transform_one. */
  function ColumnsDone(t: seq<int>, data: seq<int>, n: nat): (r: seq<int>)
    requires |t| == 16 && |data| == 16 && n <= 4
    ensures |r| == 16
  {
    if n == 0 then t else PutColumn(ColumnsDone(t, data, n - 1), n - 1, Column(data, n - 1))
  }

  lemma PutColumnsAll(t: seq<int>, c0: seq<int>, c1: seq<int>, c2: seq<int>, c3: seq<int>)
    requires |t| == 16 && |c0| == 4 && |c1| == 4 && |c2| == 4 && |c3| == 4
    ensures PutColumn(PutColumn(PutColumn(PutColumn(t, 0, c0), 1, c1), 2, c2), 3, c3) == c0 + c1 + c2 + c3
  {
    var r := PutColumn(PutColumn(PutColumn(PutColumn(t, 0, c0), 1, c1), 2, c2), 3, c3);
    assert r == [c0[0], c0[1], c0[2], c0[3], c1[0], c1[1], c1[2], c1[3],
                 c2[0], c2[1], c2[2], c2[3], c3[0], c3[1], c3[2], c3[3]];
  }

  /** Whatever tmp held before, the four passes leave the whole vertical pass in it. */
  lemma ColumnsDoneAll(t: seq<int>, data: seq<int>)
    requires |t| == 16 && |data| == 16
    ensures ColumnsDone(t, data, 4) == VerticalPass(data)
  {
    assert ColumnsDone(t, data, 0) == t;
    var t1 := ColumnsDone(t, data, 1);
    assert t1 == PutColumn(ColumnsDone(t, data, 0), 0, Column(data, 0));
    var t2 := ColumnsDone(t, data, 2);
    assert t2 == PutColumn(t1, 1, Column(data, 1));
    var t3 := ColumnsDone(t, data, 3);
    assert t3 == PutColumn(t2, 2, Column(data, 2));
    assert ColumnsDone(t, data, 4) == PutColumn(t3, 3, Column(data, 3));
    PutColumnsAll(t, Column(data, 0), Column(data, 1), Column(data, 2), Column(data, 3));
  }

  /** One pass of the first loop of transform_one: column i of the vertical pass into tmp. */
  method VerticalColumnInto(data: seq<int>, i: int, tmp: array<int>)
    requires |data| == 16 && 0 <= i < 4 && tmp.Length == 16
    modifies tmp
    ensures tmp[..] == PutColumn(old(tmp[..]), i, Column(data, i))
  {
    var a := data[i] + data[8 + i];
    var b := data[i] - data[8 + i];
    var c := Mul2(data[4 + i]) - Mul1(data[12 + i]);
    var d := Mul1(data[4 + i]) + Mul2(data[12 + i]);
    assert [a + d, b + c, b - c, a - d] == Column(data, i);
    tmp[4 * i] := a + d;
    tmp[4 * i + 1] := b + c;
    tmp[4 * i + 2] := b - c;
    tmp[4 * i + 3] := a - d;
  }

  /** The first loop of transform_one: the vertical pass, column by column, into tmp. */
  method VerticalPassInto(data: seq<int>, tmp: array<int>)
    requires |data| == 16 && tmp.Length == 16
    modifies tmp
    ensures tmp[..] == VerticalPass(data)
  {
    ghost var t := tmp[..];
    for i := 0 to 4
      invariant tmp[..] == ColumnsDone(t, data, i)
    {
      VerticalColumnInto(data, i, tmp);
    }
    ColumnsDoneAll(t, data);
  }

  /** One pass of the second loop of transform_one: row j of the residual added into dst. */
  method HorizontalRowAdd(tmp: array<int>, j: int, dst: array<byte>, off: int)
    requires tmp.Length == 16 && 0 <= j < 4
    requires Window(dst.Length, off, 0, 128)
    modifies dst
    ensures dst[..] == AddRow(old(dst[..]), off, j, HorizontalRow(tmp[..], j))
  {
    var dc := tmp[j] + 4;
    var a := dc + tmp[8 + j];
    var b := dc - tmp[8 + j];
    var c := Mul2(tmp[4 + j]) - Mul1(tmp[12 + j]);
    var d := Mul1(tmp[4 + j]) + Mul2(tmp[12 + j]);
    assert [a + d, b + c, b - c, a - d] == HorizontalRow(tmp[..], j);
    StoreRow(dst, off, j, [a + d, b + c, b - c, a - d]);
  }

  /** The second loop of transform_one: the horizontal pass, row by row, added into dst. */
  method HorizontalPassAdd(tmp: array<int>, dst: array<byte>, off: int)
    requires tmp.Length == 16
    requires Window(dst.Length, off, 0, 128)
    modifies dst
    ensures dst[..] == AddResidual(old(dst[..]), off, HorizontalPass(tmp[..]), 4)
  {
    ghost var s := dst[..];
    ghost var table := HorizontalPass(tmp[..]);
    for j := 0 to 4
      invariant dst[..] == AddResidual(s, off, table, j)
    {
      HorizontalRowAdd(tmp, j, dst, off);
    }
  }

  /** transform_one: vertical pass into tmp, then horizontal pass into dst. */
  method TransformOne(data: seq<int>, dst: array<byte>, off: int)
    requires |data| == 16 && CoeffsInRange(data)
    requires Window(dst.Length, off, 0, 128)
    modifies dst
    ensures dst[..] == TransformOneSpec(old(dst[..]), off, data)
  {
    var tmp := new int[16];
    VerticalPassInto(data, tmp);
    HorizontalPassAdd(tmp, dst, off);
  }

  // ---------------------------------------------------------------------
  // Short-cut transforms

  /** The residual table of transform_dc: in + 4 everywhere. */
  function DcTable(dc: int): (res: seq<seq<int>>)
    ensures IsTable(res, 4, 4)
  {
    var row := [dc + 4, dc + 4, dc + 4, dc + 4];
    [row, row, row, row]
  }

  /** Pixels after transform_dc(dc) on the block at off. */
  function TransformDCSpec(s: seq<byte>, off: int, dc: int): (r: seq<byte>)
    requires Fits4(|s|, off)
    ensures |r| == |s|
  {
    AddResidual(s, off, DcTable(dc), 4)
  }

  /**
   * transform_dc: adds (in + 4) >> 3 to all 16 pixels. The source stores
   * column by column; the 16 stores touch distinct pixels, so storing row by
   * row gives the same bytes.
   */
  method TransformDC(dc: int, dst: array<byte>, off: int)
    requires DcFits(dc)
    requires Window(dst.Length, off, 0, 128)
    modifies dst
    ensures dst[..] == TransformDCSpec(old(dst[..]), off, dc)
  {
    var v := dc + 4;
    ghost var s := dst[..];
    for j := 0 to 4
      invariant dst[..] == AddResidual(s, off, DcTable(dc), j)
    {
      StoreRow(dst, off, j, [v, v, v, v]);
    }
  }

  /** Row y of transform_ac3: store2 with the given dc, d1 and c1. */
  function Ac3Row(dc: int, d1: int, c1: int): (row: seq<int>)
  {
    [dc + d1, dc + c1, dc - c1, dc - d1]
  }

  /** The residual table of transform_ac3 from in[0], in[1] and in[4]. */
  function Ac3Table(inp: seq<int>): (res: seq<seq<int>>)
    requires |inp| == 5
    ensures IsTable(res, 4, 4)
  {
    var a := inp[0] + 4;
    var c4 := Mul2(inp[4]);
    var d4 := Mul1(inp[4]);
    var c1 := Mul2(inp[1]);
    var d1 := Mul1(inp[1]);
    [Ac3Row(a + d4, d1, c1), Ac3Row(a + c4, d1, c1), Ac3Row(a - c4, d1, c1), Ac3Row(a - d4, d1, c1)]
  }

  /** Pixels after transform_ac3(in) on the block at off. */
  function TransformAC3Spec(s: seq<byte>, off: int, inp: seq<int>): (r: seq<byte>)
    requires |inp| == 5 && Fits4(|s|, off)
    ensures |r| == |s|
  {
    AddResidual(s, off, Ac3Table(inp), 4)
  }

  /**
   * transform_ac3: the transform when only in[0], in[1] and in[4] may be
   * non-zero. The source makes four store2 calls, one per row; the loop
   * makes the same calls in the same order. It computes in i32, where no
   * i16 input can overflow, so any coefficients are accepted.
   */
  method TransformAC3(inp: seq<int>, dst: array<byte>, off: int)
    requires |inp| == 5
    requires Window(dst.Length, off, 0, 128)
    modifies dst
    ensures dst[..] == TransformAC3Spec(old(dst[..]), off, inp)
  {
    hide Mul1, Mul2, AddRow;
    var a := inp[0] + 4;
    var c4 := Mul2(inp[4]);
    var d4 := Mul1(inp[4]);
    var c1 := Mul2(inp[1]);
    var d1 := Mul1(inp[1]);
    var dcs := [a + d4, a + c4, a - c4, a - d4];
    ghost var s := dst[..];
    ghost var table := Ac3Table(inp);
    for y := 0 to 4
      invariant dst[..] == AddResidual(s, off, table, y)
    {
      assert table[y] == Ac3Row(dcs[y], d1, c1);
      Store2(dst, off, y, dcs[y], d1, c1);
    }
  }

  /** Only the DC coefficient may be non-zero. */
  predicate DcOnly(data: seq<int>)
    requires |data| == 16
  {
    forall k :: 1 <= k < 16 ==> data[k] == 0
  }

  /** Only coefficients 0, 1 and 4 may be non-zero. */
  predicate Ac3Only(data: seq<int>)
    requires |data| == 16
  {
    forall k :: 0 <= k < 16 && k != 0 && k != 1 && k != 4 ==> data[k] == 0
  }

  /** With no odd inputs the butterfly keeps only the even sum and difference. */
  lemma ButterflyOfEven(x0: int, x2: int)
    ensures Butterfly(x0, 0, x2, 0) == [x0 + x2, x0 - x2, x0 - x2, x0 + x2]
  {
    assert Mul1(0) == 0 && Mul2(0) == 0;
  }

  /** With only the first two inputs the butterfly is a rotation of x1 around x0. */
  lemma ButterflyOfTop(x0: int, x1: int)
    ensures Butterfly(x0, x1, 0, 0) == [x0 + Mul1(x1), x0 + Mul2(x1), x0 - Mul2(x1), x0 - Mul1(x1)]
  {
    assert Mul1(0) == 0 && Mul2(0) == 0;
  }

  /** The fifteen zero coefficients of a DC-only block, one by one. */
  lemma DcOnlyZeros(data: seq<int>)
    requires |data| == 16 && DcOnly(data)
    ensures data[1] == 0 && data[2] == 0 && data[3] == 0 && data[4] == 0 && data[5] == 0
    ensures data[6] == 0 && data[7] == 0 && data[8] == 0 && data[9] == 0 && data[10] == 0
    ensures data[11] == 0 && data[12] == 0 && data[13] == 0 && data[14] == 0 && data[15] == 0
  {
  }

  /** The thirteen zero coefficients of a block with only in[0], in[1] and in[4]. */
  lemma Ac3OnlyZeros(data: seq<int>)
    requires |data| == 16 && Ac3Only(data)
    ensures data[2] == 0 && data[3] == 0 && data[5] == 0 && data[6] == 0 && data[7] == 0
    ensures data[8] == 0 && data[9] == 0 && data[10] == 0 && data[11] == 0
    ensures data[12] == 0 && data[13] == 0 && data[14] == 0 && data[15] == 0
  {
  }

  /** A column with only its top coefficient x is constant. */
  lemma ColumnOfConst(data: seq<int>, i: int, x: int)
    requires |data| == 16 && 0 <= i < 4
    requires data[i] == x && data[4 + i] == 0 && data[8 + i] == 0 && data[12 + i] == 0
    ensures Column(data, i) == [x, x, x, x]
  {
    ButterflyOfEven(x, 0);
  }

  /** Column 0 of the vertical pass when only in[0] and in[4] feed it. */
  function Ac3Column(x: int, z: int): (col: seq<int>)
  {
    [x + Mul1(z), x + Mul2(z), x - Mul2(z), x - Mul1(z)]
  }

  /** A column with only its two top coefficients. */
  lemma ColumnOfTop(data: seq<int>, i: int)
    requires |data| == 16 && 0 <= i < 4 && data[8 + i] == 0 && data[12 + i] == 0
    ensures Column(data, i) == Ac3Column(data[i], data[4 + i])
  {
    ButterflyOfTop(data[i], data[4 + i]);
  }

  /** A row of the horizontal pass whose last two inputs are zero. */
  lemma HorizontalRowOfTop(t: seq<int>, j: int)
    requires |t| == 16 && 0 <= j < 4 && t[8 + j] == 0 && t[12 + j] == 0
    ensures HorizontalRow(t, j) == Ac3Row(t[j] + 4, Mul1(t[4 + j]), Mul2(t[4 + j]))
  {
    ButterflyOfTop(t[j] + 4, t[4 + j]);
  }

  /** The vertical pass is the concatenation of its four columns. */
  lemma VerticalPassOfColumns(data: seq<int>, c0: seq<int>, c1: seq<int>, c2: seq<int>, c3: seq<int>)
    requires |data| == 16
    requires Column(data, 0) == c0 && Column(data, 1) == c1 && Column(data, 2) == c2 && Column(data, 3) == c3
    ensures VerticalPass(data) == c0 + c1 + c2 + c3
  {
  }

  lemma VerticalPassOfDc(data: seq<int>)
    requires |data| == 16 && DcOnly(data)
    ensures VerticalPass(data) == [data[0], data[0], data[0], data[0]] + [0, 0, 0, 0] + [0, 0, 0, 0] + [0, 0, 0, 0]
  {
    DcOnlyZeros(data);
    ColumnOfConst(data, 0, data[0]);
    ColumnOfConst(data, 1, 0);
    ColumnOfConst(data, 2, 0);
    ColumnOfConst(data, 3, 0);
    VerticalPassOfColumns(data, [data[0], data[0], data[0], data[0]], [0, 0, 0, 0], [0, 0, 0, 0], [0, 0, 0, 0]);
  }

  lemma HorizontalPassOfDc(x: int)
    ensures HorizontalPass([x, x, x, x] + [0, 0, 0, 0] + [0, 0, 0, 0] + [0, 0, 0, 0]) == DcTable(x)
  {
    var t := [x, x, x, x] + [0, 0, 0, 0] + [0, 0, 0, 0] + [0, 0, 0, 0];
    ButterflyOfEven(x + 4, 0);
    forall j | 0 <= j < 4
      ensures HorizontalRow(t, j) == DcTable(x)[j]
    {
      assert t[j] == x && t[4 + j] == 0 && t[8 + j] == 0 && t[12 + j] == 0;
    }
  }

  /** With only a DC coefficient the full transform and transform_dc agree. */
  lemma TransformOneOfDc(data: seq<int>)
    requires |data| == 16 && DcOnly(data)
    ensures TransformOneTable(data) == DcTable(data[0])
  {
    VerticalPassOfDc(data);
    HorizontalPassOfDc(data[0]);
  }

  /** The table of the vertical pass when only in[0], in[1] and in[4] may be non-zero. */
  function Ac3Columns(x: int, y: int, z: int): (t: seq<int>)
  {
    Ac3Column(x, z) + [y, y, y, y] + [0, 0, 0, 0] + [0, 0, 0, 0]
  }

  lemma VerticalPassOfAc3(data: seq<int>)
    requires |data| == 16 && Ac3Only(data)
    ensures VerticalPass(data) == Ac3Columns(data[0], data[1], data[4])
  {
    Ac3OnlyZeros(data);
    ColumnOfTop(data, 0);
    ColumnOfConst(data, 1, data[1]);
    ColumnOfConst(data, 2, 0);
    ColumnOfConst(data, 3, 0);
    VerticalPassOfColumns(data, Ac3Column(data[0], data[4]), [data[1], data[1], data[1], data[1]], [0, 0, 0, 0], [0, 0, 0, 0]);
  }

  lemma HorizontalPassOfAc3(inp: seq<int>)
    requires |inp| == 5
    ensures HorizontalPass(Ac3Columns(inp[0], inp[1], inp[4])) == Ac3Table(inp)
  {
    var t := Ac3Columns(inp[0], inp[1], inp[4]);
    assert t[4] == inp[1] && t[5] == inp[1] && t[6] == inp[1] && t[7] == inp[1];
    assert t[8] == 0 && t[9] == 0 && t[10] == 0 && t[11] == 0;
    assert t[12] == 0 && t[13] == 0 && t[14] == 0 && t[15] == 0;
    HorizontalRowOfTop(t, 0);
    HorizontalRowOfTop(t, 1);
    HorizontalRowOfTop(t, 2);
    HorizontalRowOfTop(t, 3);
  }

  /** When only in[0], in[1] and in[4] are non-zero, transform_ac3 equals the full transform. */
  lemma TransformOneOfAc3(data: seq<int>)
    requires |data| == 16 && Ac3Only(data)
    ensures TransformOneTable(data) == Ac3Table(data[..5])
  {
    VerticalPassOfAc3(data);
    var inp := data[..5];
    assert inp[0] == data[0] && inp[1] == data[1] && inp[4] == data[4];
    HorizontalPassOfAc3(inp);
  }

  /** An all-zero block leaves the pixels unchanged. */
  lemma TransformOneOfZero(s: seq<byte>, off: int, data: seq<int>)
    requires |data| == 16 && Fits4(|s|, off) && forall k :: 0 <= k < 16 ==> data[k] == 0
    ensures TransformOneSpec(s, off, data) == s
  {
    TransformOneOfDc(data);
    AddResidualNoop(s, off, DcTable(0), 4);
  }

  lemma ColumnRange(data: seq<int>, i: int)
    requires |data| == 16 && CoeffsInRange(data) && 0 <= i < 4
    ensures forall r :: 0 <= r < 4 ==> -7881 <= Column(data, i)[r] <= 7879
  {
    Mul1Monotone(-2048, data[4 + i]); Mul1Monotone(data[4 + i], 2047);
    Mul1Monotone(-2048, data[12 + i]); Mul1Monotone(data[12 + i], 2047);
    Mul2Monotone(-2048, data[4 + i]); Mul2Monotone(data[4 + i], 2047);
    Mul2Monotone(-2048, data[12 + i]); Mul2Monotone(data[12 + i], 2047);
  }

  /** The interval comment on the vertical pass: every tmp entry is in [-7881, 7879]. */
  lemma VerticalPassRange(data: seq<int>)
    requires |data| == 16 && CoeffsInRange(data)
    ensures forall k :: 0 <= k < 16 ==> -7881 <= VerticalPass(data)[k] <= 7879
  {
    ColumnRange(data, 0);
    ColumnRange(data, 1);
    ColumnRange(data, 2);
    ColumnRange(data, 3);
  }

  lemma HorizontalRowRange(tmp: seq<int>, j: int)
    requires |tmp| == 16 && 0 <= j < 4
    requires forall k :: 0 <= k < 16 ==> -7881 <= tmp[k] <= 7879
    ensures forall x :: 0 <= x < 4 ==> -3794 <= HorizontalRow(tmp, j)[x] / 8 <= 3794
  {
    Mul1Monotone(-7881, tmp[4 + j]); Mul1Monotone(tmp[4 + j], 7879);
    Mul1Monotone(-7881, tmp[12 + j]); Mul1Monotone(tmp[12 + j], 7879);
    Mul2Monotone(-7881, tmp[4 + j]); Mul2Monotone(tmp[4 + j], 7879);
    Mul2Monotone(-7881, tmp[12 + j]); Mul2Monotone(tmp[12 + j], 7879);
  }

  /** The interval comment on the horizontal pass: each correction v >> 3 is in [-3794, 3794]. */
  lemma HorizontalPassRange(data: seq<int>)
    requires |data| == 16 && CoeffsInRange(data)
    ensures forall y, x :: 0 <= y < 4 && 0 <= x < 4 ==> -3794 <= TransformOneTable(data)[y][x] / 8 <= 3794
  {
    var tmp := VerticalPass(data);
    VerticalPassRange(data);
    HorizontalRowRange(tmp, 0);
    HorizontalRowRange(tmp, 1);
    HorizontalRowRange(tmp, 2);
    HorizontalRowRange(tmp, 3);
  }

  // ---------------------------------------------------------------------
  // Pairs of blocks and chroma

  /** transform_two: one block at off and, if do_two, the next one at off + 4. */
  function TransformTwoSpec(s: seq<byte>, off: int, inp: seq<int>, doTwo: bool): (r: seq<byte>)
    requires |inp| == 32 && Fits4(|s|, off) && (doTwo ==> Fits4(|s|, off + 4))
    ensures |r| == |s|
  {
    var s1 := TransformOneSpec(s, off, inp[..16]);
    if doTwo then TransformOneSpec(s1, off + 4, inp[16..32]) else s1
  }

  /** transform_two: transform_one on the first 16 coefficients, and on the next 16 only when do_two. */
  method TransformTwo(inp: seq<int>, dst: array<byte>, off: int, doTwo: bool)
    requires |inp| == 32 && CoeffsInRange(inp[..16]) && (doTwo ==> CoeffsInRange(inp[16..]))
    requires Window(dst.Length, off, 0, 132)
    modifies dst
    ensures dst[..] == TransformTwoSpec(old(dst[..]), off, inp, doTwo)
  {
    TransformOne(inp[..16], dst, off);
    if doTwo {
      TransformOne(inp[16..32], dst, off + 4);
    }
  }

  /** transform_uv: the four 4 x 4 blocks of an 8 x 8 chroma block. */
  function TransformUVSpec(s: seq<byte>, off: int, inp: seq<int>): (r: seq<byte>)
    requires |inp| == 64 && Fits8(|s|, off)
    ensures |r| == |s|
  {
    TransformTwoSpec(TransformTwoSpec(s, off, inp[..32], true), off + 4 * BPS, inp[32..64], true)
  }

  /** transform_uv: transform_two with do_two on the top pair of sub-blocks, then on the bottom pair. */
  method TransformUV(inp: seq<int>, dst: array<byte>, off: int)
    requires |inp| == 64 && CoeffsInRange(inp)
    requires Window(dst.Length, off, 0, 132 + 4 * BPS)
    modifies dst
    ensures dst[..] == TransformUVSpec(old(dst[..]), off, inp)
  {
    assert inp[..32][..16] == inp[..16] && inp[..32][16..] == inp[16..32];
    assert inp[32..64][..16] == inp[32..48] && inp[32..64][16..] == inp[48..64];
    TransformTwo(inp[..32], dst, off, true);
    TransformTwo(inp[32..64], dst, off + 4 * BPS, true);
  }

  /** Origin of chroma sub-block k (0 .. 3) inside the 8 x 8 block at off. */
  function SubBlock(off: int, k: int): int
  {
    if k == 0 then off else if k == 1 then off + 4 else if k == 2 then off + 4 * BPS else off + 4 * BPS + 4
  }

  /** transform_dc on sub-block k when its DC coefficient is non-zero. */
  function DcIfNonZero(s: seq<byte>, off: int, inp: seq<int>, k: int): (r: seq<byte>)
    requires |inp| == 64 && 0 <= k < 4 && Fits8(|s|, off)
    ensures |r| == |s|
  {
    if inp[16 * k] != 0 then TransformDCSpec(s, SubBlock(off, k), inp[16 * k]) else s
  }

  /** transform_dc_uv: transform_dc on each sub-block with a non-zero DC, in order. */
  function TransformDCUVSpec(s: seq<byte>, off: int, inp: seq<int>): (r: seq<byte>)
    requires |inp| == 64 && Fits8(|s|, off)
    ensures |r| == |s|
  {
    DcIfNonZero(DcIfNonZero(DcIfNonZero(DcIfNonZero(s, off, inp, 0), off, inp, 1), off, inp, 2), off, inp, 3)
  }

  /** The four DC coefficients transform_dc_uv hands to transform_dc fit it. */
  predicate ChromaDcsFit(inp: seq<int>)
    requires |inp| == 64
  {
    DcFits(inp[0]) && DcFits(inp[16]) && DcFits(inp[32]) && DcFits(inp[48])
  }

  /** One step of transform_dc_uv: sub-block k, skipped when its DC is zero. */
  method DcSubBlock(inp: seq<int>, dst: array<byte>, off: int, k: int)
    requires |inp| == 64 && 0 <= k < 4 && DcFits(inp[16 * k])
    requires Window(dst.Length, off, 0, 128 + 4 * BPS + 4)
    modifies dst
    ensures dst[..] == DcIfNonZero(old(dst[..]), off, inp, k)
  {
    if inp[16 * k] != 0 {
      TransformDC(inp[16 * k], dst, SubBlock(off, k));
    }
  }

  /**
   * transform_dc_uv: transform_dc on each sub-block whose DC coefficient is
   * non-zero; it reads no other coefficient.
   */
  method TransformDCUV(inp: seq<int>, dst: array<byte>, off: int)
    requires |inp| == 64 && ChromaDcsFit(inp)
    requires Window(dst.Length, off, 0, 128 + 4 * BPS + 4)
    modifies dst
    ensures dst[..] == TransformDCUVSpec(old(dst[..]), off, inp)
  {
    DcSubBlock(inp, dst, off, 0);
    DcSubBlock(inp, dst, off, 1);
    DcSubBlock(inp, dst, off, 2);
    DcSubBlock(inp, dst, off, 3);
  }

  /** Every sub-block of a chroma block carries only its DC coefficient. */
  predicate ChromaDcOnly(inp: seq<int>)
    requires |inp| == 64
  {
    forall k :: 0 <= k < 64 && k % 16 != 0 ==> inp[k] == 0
  }

  lemma TransformOneOfDcSub(s: seq<byte>, off: int, inp: seq<int>, k: int)
    requires |inp| == 64 && ChromaDcOnly(inp) && 0 <= k < 4 && Fits8(|s|, off)
    ensures TransformOneSpec(s, SubBlock(off, k), inp[16 * k..16 * k + 16]) == DcIfNonZero(s, off, inp, k)
  {
    var blk := inp[16 * k..16 * k + 16];
    forall i | 1 <= i < 16
      ensures blk[i] == 0
    {
      assert blk[i] == inp[16 * k + i];
      assert (16 * k + i) % 16 == i;
    }
    if inp[16 * k] != 0 {
      TransformOneOfDc(blk);
    } else {
      TransformOneOfZero(s, SubBlock(off, k), blk);
    }
  }

  /**
   * transform_dc_uv is a short cut: when every sub-block carries only its DC
   * coefficient it gives the same pixels as transform_uv.
   */
  lemma TransformDCUVIsTransformUV(s: seq<byte>, off: int, inp: seq<int>)
    requires |inp| == 64 && ChromaDcOnly(inp) && Fits8(|s|, off)
    ensures TransformDCUVSpec(s, off, inp) == TransformUVSpec(s, off, inp)
  {
    var lo := inp[..32];
    var hi := inp[32..64];
    assert lo[..16] == inp[0..16] && lo[16..32] == inp[16..32];
    assert hi[..16] == inp[32..48] && hi[16..32] == inp[48..64];
    var s0 := DcIfNonZero(s, off, inp, 0);
    TransformOneOfDcSub(s, off, inp, 0);
    var s1 := DcIfNonZero(s0, off, inp, 1);
    TransformOneOfDcSub(s0, off, inp, 1);
    var s2 := DcIfNonZero(s1, off, inp, 2);
    TransformOneOfDcSub(s1, off, inp, 2);
    TransformOneOfDcSub(s2, off, inp, 3);
  }

  // ---------------------------------------------------------------------
  // Bytes past the block

  /** Bytes appended after the buffer play no part in a store. */
  lemma AddPixelAppend(s: seq<byte>, t: seq<byte>, j: int, v: int)
    requires 0 <= j < |s|
    ensures AddPixel(s + t, j, v) == AddPixel(s, j, v) + t
  {
    assert (s + t)[j] == s[j];
  }

  lemma AddRowAppend(s: seq<byte>, t: seq<byte>, off: int, y: int, row: seq<int>)
    requires |row| == 4 && 0 <= Pos(off, 0, y) && Pos(off, 3, y) < |s|
    ensures AddRow(s + t, off, y, row) == AddRow(s, off, y, row) + t
  {
    var s1 := AddPixel(s, Pos(off, 0, y), row[0]);
    var s2 := AddPixel(s1, Pos(off, 1, y), row[1]);
    var s3 := AddPixel(s2, Pos(off, 2, y), row[2]);
    AddPixelAppend(s, t, Pos(off, 0, y), row[0]);
    AddPixelAppend(s1, t, Pos(off, 1, y), row[1]);
    AddPixelAppend(s2, t, Pos(off, 2, y), row[2]);
    AddPixelAppend(s3, t, Pos(off, 3, y), row[3]);
  }

  lemma {:induction false} AddResidualAppend(s: seq<byte>, t: seq<byte>, off: int, res: seq<seq<int>>, n: nat)
    requires IsTable(res, 4, 4) && n <= 4 && Fits4(|s|, off)
    ensures AddResidual(s + t, off, res, n) == AddResidual(s, off, res, n) + t
  {
    if n > 0 {
      AddResidualAppend(s, t, off, res, n - 1);
      AddRowAppend(AddResidual(s, off, res, n - 1), t, off, n - 1, res[n - 1]);
    }
  }

  /**
   * transform_uv and transform_dc_uv never touch a byte past the 8 x 8
   * block: running them on a buffer with bytes appended gives the same
   * buffer with the same bytes appended.
   */
  lemma TransformOneAppend(s: seq<byte>, t: seq<byte>, off: int, data: seq<int>)
    requires |data| == 16 && Fits4(|s|, off)
    ensures TransformOneSpec(s + t, off, data) == TransformOneSpec(s, off, data) + t
  {
    hide AddResidual;
    AddResidualAppend(s, t, off, TransformOneTable(data), 4);
  }

  lemma TransformTwoAppend(s: seq<byte>, t: seq<byte>, off: int, inp: seq<int>, doTwo: bool)
    requires |inp| == 32 && Fits4(|s|, off) && (doTwo ==> Fits4(|s|, off + 4))
    ensures TransformTwoSpec(s + t, off, inp, doTwo) == TransformTwoSpec(s, off, inp, doTwo) + t
  {
    hide TransformOneSpec;
    TransformOneAppend(s, t, off, inp[..16]);
    if doTwo {
      TransformOneAppend(TransformOneSpec(s, off, inp[..16]), t, off + 4, inp[16..32]);
    }
  }

  lemma TransformUVAppend(s: seq<byte>, t: seq<byte>, off: int, inp: seq<int>)
    requires |inp| == 64 && Fits8(|s|, off)
    ensures TransformUVSpec(s + t, off, inp) == TransformUVSpec(s, off, inp) + t
  {
    hide TransformTwoSpec;
    TransformTwoAppend(s, t, off, inp[..32], true);
    TransformTwoAppend(TransformTwoSpec(s, off, inp[..32], true), t, off + 4 * BPS, inp[32..64], true);
  }

  lemma DcIfNonZeroAppend(s: seq<byte>, t: seq<byte>, off: int, inp: seq<int>, k: int)
    requires |inp| == 64 && 0 <= k < 4 && Fits8(|s|, off)
    ensures DcIfNonZero(s + t, off, inp, k) == DcIfNonZero(s, off, inp, k) + t
  {
    if inp[16 * k] != 0 {
      hide AddResidual;
      AddResidualAppend(s, t, SubBlock(off, k), DcTable(inp[16 * k]), 4);
    }
  }

  lemma TransformDCUVAppend(s: seq<byte>, t: seq<byte>, off: int, inp: seq<int>)
    requires |inp| == 64 && Fits8(|s|, off)
    ensures TransformDCUVSpec(s + t, off, inp) == TransformDCUVSpec(s, off, inp) + t
  {
    var s0 := DcIfNonZero(s, off, inp, 0);
    var s1 := DcIfNonZero(s0, off, inp, 1);
    var s2 := DcIfNonZero(s1, off, inp, 2);
    DcIfNonZeroAppend(s, t, off, inp, 0);
    DcIfNonZeroAppend(s0, t, off, inp, 1);
    DcIfNonZeroAppend(s1, t, off, inp, 2);
    DcIfNonZeroAppend(s2, t, off, inp, 3);
  }

  // ---------------------------------------------------------------------
  // Walsh-Hadamard transform of the 16 luma DC coefficients

  /** The first pass of transform_wht on column i, as (tmp[i], tmp[4 + i], tmp[8 + i], tmp[12 + i]). */
  function WhtColumn(inp: seq<int>, i: int): (col: seq<int>)
    requires |inp| == 16 && 0 <= i < 4
    ensures |col| == 4
  {
    var a0 := inp[i] + inp[12 + i];
    var a1 := inp[4 + i] + inp[8 + i];
    var a2 := inp[4 + i] - inp[8 + i];
    var a3 := inp[i] - inp[12 + i];
    [a0 + a1, a3 + a2, a0 - a1, a3 - a2]
  }

  /** tmp of transform_wht: tmp[4m + i] is WhtFirstPass(inp)[i][m]. */
  function WhtFirstPass(inp: seq<int>): (tmp: seq<seq<int>>)
    requires |inp| == 16
    ensures IsTable(tmp, 4, 4)
  {
    seq(4, i requires 0 <= i < 4 => WhtColumn(inp, i))
  }

  /** The second pass on row i of tmp: the DC values of blocks 4i .. 4i + 3. */
  function WhtRow(tmp: seq<seq<int>>, i: int): (dcs: seq<int>)
    requires IsTable(tmp, 4, 4) && 0 <= i < 4
    ensures |dcs| == 4
  {
    var dc := tmp[0][i] + 3;
    var a0 := dc + tmp[3][i];
    var a1 := tmp[1][i] + tmp[2][i];
    var a2 := tmp[1][i] - tmp[2][i];
    var a3 := dc - tmp[3][i];
    [(a0 + a1) / 8, (a3 + a2) / 8, (a0 - a1) / 8, (a3 - a2) / 8]
  }

  /** The DC of luma block 4i + m produced by transform_wht: WhtOutput(inp)[i][m]. */
  function WhtOutput(inp: seq<int>): (dcs: seq<seq<int>>)
    requires |inp| == 16
    ensures IsTable(dcs, 4, 4)
  {
    var tmp := WhtFirstPass(inp);
    seq(4, i requires 0 <= i < 4 => WhtRow(tmp, i))
  }

  /** The DC value transform_wht produces for luma block b (0 .. 15, raster order). */
  function WhtDc(inp: seq<int>, b: int): int
    requires |inp| == 16 && 0 <= b < 16
  {
    WhtOutput(inp)[b / 4][b % 4]
  }

  /** Index in out of the DC coefficient of luma block b: each block owns 16 coefficients. */
  function DcSlot(b: int): int { 16 * b }

  lemma DcSlotIsMultiple(b: int)
    ensures DcSlot(b) % 16 == 0
  {
  }

  lemma BlockOfRow(i: int, m: int)
    requires 0 <= i < 4 && 0 <= m < 4
    ensures (4 * i + m) / 4 == i && (4 * i + m) % 4 == m
  {
  }

  /** out after the DC values of blocks 4i .. 4i + 3 are written. */
  function WhtStoreRow(s: seq<int>, i: int, row: seq<int>): (r: seq<int>)
    requires |s| == 256 && 0 <= i < 4 && |row| == 4
    ensures |r| == 256
  {
    s[DcSlot(4 * i) := row[0]][DcSlot(4 * i + 1) := row[1]][DcSlot(4 * i + 2) := row[2]][DcSlot(4 * i + 3) := row[3]]
  }

  /** out after the first n passes of the second loop of transform_wht. */
  function WhtApply(s: seq<int>, inp: seq<int>, n: nat): (r: seq<int>)
    requires |s| == 256 && |inp| == 16 && n <= 4
    ensures |r| == 256
  {
    if n == 0 then s else WhtStoreRow(WhtApply(s, inp, n - 1), n - 1, WhtRow(WhtFirstPass(inp), n - 1))
  }

  /** out after transform_wht(inp, out). */
  function TransformWHTSpec(s: seq<int>, inp: seq<int>): (r: seq<int>)
    requires |s| == 256 && |inp| == 16
    ensures |r| == 256
  {
    WhtApply(s, inp, 4)
  }

  /** One pass of the first loop of transform_wht: column i of tmp. */
  method WhtColumnInto(inp: seq<int>, i: int, tmp: array<int>)
    requires |inp| == 16 && 0 <= i < 4 && tmp.Length == 16
    modifies tmp
    ensures forall m :: 0 <= m < 4 ==> tmp[4 * m + i] == WhtColumn(inp, i)[m]
    ensures forall k :: 0 <= k < 16 && k % 4 != i ==> tmp[k] == old(tmp[k])
  {
    var a0 := inp[i] + inp[12 + i];
    var a1 := inp[4 + i] + inp[8 + i];
    var a2 := inp[4 + i] - inp[8 + i];
    var a3 := inp[i] - inp[12 + i];
    tmp[i] := a0 + a1;
    tmp[8 + i] := a0 - a1;
    tmp[4 + i] := a3 + a2;
    tmp[12 + i] := a3 - a2;
  }

  /** One pass of the second loop of transform_wht: the DC of blocks 4i .. 4i + 3. */
  method WhtRowInto(tmp: array<int>, i: int, out: array<int>, ghost fp: seq<seq<int>>)
    requires tmp.Length == 16 && out.Length == 256 && IsTable(fp, 4, 4) && 0 <= i < 4
    requires tmp[4 * i] == fp[0][i] && tmp[4 * i + 1] == fp[1][i]
    requires tmp[4 * i + 2] == fp[2][i] && tmp[4 * i + 3] == fp[3][i]
    modifies out
    ensures out[..] == WhtStoreRow(old(out[..]), i, WhtRow(fp, i))
  {
    var dc := tmp[4 * i] + 3;
    var a0 := dc + tmp[4 * i + 3];
    var a1 := tmp[4 * i + 1] + tmp[4 * i + 2];
    var a2 := tmp[4 * i + 1] - tmp[4 * i + 2];
    var a3 := dc - tmp[4 * i + 3];
    assert [(a0 + a1) / 8, (a3 + a2) / 8, (a0 - a1) / 8, (a3 - a2) / 8] == WhtRow(fp, i);
    out[DcSlot(4 * i)] := (a0 + a1) / 8;
    out[DcSlot(4 * i + 1)] := (a3 + a2) / 8;
    out[DcSlot(4 * i + 2)] := (a0 - a1) / 8;
    out[DcSlot(4 * i + 3)] := (a3 - a2) / 8;
  }

  /**
   * transform_wht: the first pass into tmp, then the DC of each luma block
   * into out. Both passes add and subtract in i16; an overflow panics, so
   * the inputs are those on which no step overflows.
   */
  method TransformWHT(inp: seq<int>, out: array<int>)
    requires |inp| == 16 && WhtFits(inp) && out.Length == 256
    modifies out
    ensures out[..] == TransformWHTSpec(old(out[..]), inp)
  {
    hide WhtFits;
    ghost var fp := WhtFirstPass(inp);
    ghost var s := out[..];
    var tmp := new int[16];
    for i := 0 to 4
      modifies tmp
      invariant forall i', m :: 0 <= i' < i && 0 <= m < 4 ==> tmp[4 * m + i'] == fp[i'][m]
    {
      WhtColumnInto(inp, i, tmp);
    }
    for i := 0 to 4
      modifies out
      invariant out[..] == WhtApply(s, inp, i)
    {
      WhtRowInto(tmp, i, out, fp);
    }
  }

  /**
   * transform_wht writes the DC coefficient of each of the 16 luma blocks
   * (every 16th entry of out) and nothing else.
   */
  lemma WhtStoreRowFrame(s: seq<int>, i: int, row: seq<int>)
    requires |s| == 256 && 0 <= i < 4 && |row| == 4
    ensures forall j :: 0 <= j < 256 && (j % 16 != 0 || j < DcSlot(4 * i) || j >= DcSlot(4 * i + 4)) ==>
      WhtStoreRow(s, i, row)[j] == s[j]
  {
    DcSlotIsMultiple(4 * i); DcSlotIsMultiple(4 * i + 1);
    DcSlotIsMultiple(4 * i + 2); DcSlotIsMultiple(4 * i + 3);
  }

  lemma WhtStoreRowDcs(inp: seq<int>, s: seq<int>, i: int)
    requires |s| == 256 && |inp| == 16 && 0 <= i < 4
    ensures forall b :: 4 * i <= b < 4 * i + 4 ==> WhtStoreRow(s, i, WhtRow(WhtFirstPass(inp), i))[DcSlot(b)] == WhtDc(inp, b)
  {
    var row := WhtRow(WhtFirstPass(inp), i);
    var r := WhtStoreRow(s, i, row);
    assert WhtOutput(inp)[i] == row;
    BlockOfRow(i, 0); BlockOfRow(i, 1); BlockOfRow(i, 2); BlockOfRow(i, 3);
    assert r[DcSlot(4 * i)] == row[0] && r[DcSlot(4 * i + 1)] == row[1];
    assert r[DcSlot(4 * i + 2)] == row[2] && r[DcSlot(4 * i + 3)] == row[3];
  }

  lemma {:induction false} WhtApplySlots(s: seq<int>, inp: seq<int>, n: nat)
    requires |s| == 256 && |inp| == 16 && n <= 4
    ensures forall b :: 0 <= b < 4 * n ==> WhtApply(s, inp, n)[DcSlot(b)] == WhtDc(inp, b)
    ensures forall j :: 0 <= j < 256 && (j % 16 != 0 || j >= DcSlot(4 * n)) ==> WhtApply(s, inp, n)[j] == s[j]
  {
    if n > 0 {
      var i := n - 1;
      var prev := WhtApply(s, inp, i);
      WhtApplySlots(s, inp, i);
      WhtStoreRowFrame(prev, i, WhtRow(WhtFirstPass(inp), i));
      WhtStoreRowDcs(inp, prev, i);
    }
  }

  lemma TransformWHTSlots(s: seq<int>, inp: seq<int>)
    requires |s| == 256 && |inp| == 16
    ensures forall b :: 0 <= b < 16 ==> TransformWHTSpec(s, inp)[DcSlot(b)] == WhtDc(inp, b)
    ensures forall j :: 0 <= j < 256 && j % 16 != 0 ==> TransformWHTSpec(s, inp)[j] == s[j]
  {
    WhtApplySlots(s, inp, 4);
  }

  /** The four i16 sums of the second pass on row i of tmp, rounder included. */
  predicate WhtSumsInI16(tmp: seq<seq<int>>, i: int)
    requires IsTable(tmp, 4, 4) && 0 <= i < 4
  {
    var dc := tmp[0][i] + 3;
    InI16(dc + tmp[3][i] + tmp[1][i] + tmp[2][i]) &&
    InI16(dc - tmp[3][i] + tmp[1][i] - tmp[2][i]) &&
    InI16(dc + tmp[3][i] - tmp[1][i] - tmp[2][i]) &&
    InI16(dc - tmp[3][i] - tmp[1][i] + tmp[2][i])
  }

  /** The eight i16 operations of the first pass on column i. */
  predicate WhtColumnFits(inp: seq<int>, i: int)
    requires |inp| == 16 && 0 <= i < 4
  {
    var c := WhtColumn(inp, i);
    InI16(inp[i] + inp[12 + i]) && InI16(inp[4 + i] + inp[8 + i]) &&
    InI16(inp[4 + i] - inp[8 + i]) && InI16(inp[i] - inp[12 + i]) &&
    InI16(c[0]) && InI16(c[1]) && InI16(c[2]) && InI16(c[3])
  }

  /** The nine i16 operations of the second pass on row i of tmp. */
  predicate WhtRowFits(tmp: seq<seq<int>>, i: int)
    requires IsTable(tmp, 4, 4) && 0 <= i < 4
  {
    var dc := tmp[0][i] + 3;
    InI16(dc) && InI16(dc + tmp[3][i]) && InI16(tmp[1][i] + tmp[2][i]) &&
    InI16(tmp[1][i] - tmp[2][i]) && InI16(dc - tmp[3][i]) && WhtSumsInI16(tmp, i)
  }

  /** i16 inputs on which no addition or subtraction of transform_wht overflows. */
  predicate WhtFits(inp: seq<int>)
    requires |inp| == 16
  {
    var fp := WhtFirstPass(inp);
    (forall k :: 0 <= k < 16 ==> InI16(inp[k])) &&
    WhtColumnFits(inp, 0) && WhtColumnFits(inp, 1) && WhtColumnFits(inp, 2) && WhtColumnFits(inp, 3) &&
    WhtRowFits(fp, 0) && WhtRowFits(fp, 1) && WhtRowFits(fp, 2) && WhtRowFits(fp, 3)
  }

  /** One column of the first pass stays in [-8192, 8190]. */
  lemma WhtColumnRange(inp: seq<int>, i: int)
    requires |inp| == 16 && CoeffsInRange(inp) && 0 <= i < 4
    ensures forall m :: 0 <= m < 4 ==> -8192 <= WhtColumn(inp, i)[m] <= 8190
    ensures WhtColumnFits(inp, i)
  {
    assert -2048 <= inp[i] <= 2047 && -2048 <= inp[4 + i] <= 2047;
    assert -2048 <= inp[8 + i] <= 2047 && -2048 <= inp[12 + i] <= 2047;
    var c := WhtColumn(inp, i);
    assert -8192 <= c[0] <= 8190 && -8192 <= c[1] <= 8190;
    assert -8192 <= c[2] <= 8190 && -8192 <= c[3] <= 8190;
  }

  /** A row of first-pass values in [-8192, 8190] passes the second pass without an i16 overflow. */
  lemma WhtRowRange(tmp: seq<seq<int>>, i: int)
    requires IsTable(tmp, 4, 4) && 0 <= i < 4
    requires forall m :: 0 <= m < 4 ==> -8192 <= tmp[m][i] <= 8190
    ensures WhtRowFits(tmp, i) && WhtSumsInI16(tmp, i)
  {
    assert -8192 <= tmp[0][i] <= 8190 && -8192 <= tmp[1][i] <= 8190;
    assert -8192 <= tmp[2][i] <= 8190 && -8192 <= tmp[3][i] <= 8190;
  }

  /**
   * With coefficients in [-2048, 2047] no i16 operation of transform_wht
   * overflows: the first pass stays in [-8192, 8190] and every second-pass
   * sum is an i16.
   */
  lemma WhtNoOverflow(inp: seq<int>)
    requires |inp| == 16 && CoeffsInRange(inp)
    ensures forall i, m :: 0 <= i < 4 && 0 <= m < 4 ==> -8192 <= WhtFirstPass(inp)[i][m] <= 8190
    ensures forall i :: 0 <= i < 4 ==> WhtSumsInI16(WhtFirstPass(inp), i)
    ensures WhtFits(inp)
  {
    hide WhtColumnFits, WhtRowFits, WhtSumsInI16;
    var fp := WhtFirstPass(inp);
    WhtColumnRange(inp, 0);
    WhtColumnRange(inp, 1);
    WhtColumnRange(inp, 2);
    WhtColumnRange(inp, 3);
    assert fp[0] == WhtColumn(inp, 0) && fp[1] == WhtColumn(inp, 1);
    assert fp[2] == WhtColumn(inp, 2) && fp[3] == WhtColumn(inp, 3);
    forall k | 0 <= k < 16
      ensures InI16(inp[k])
    {
    }
    WhtRowRange(fp, 0);
    WhtRowRange(fp, 1);
    WhtRowRange(fp, 2);
    WhtRowRange(fp, 3);
  }

  /**
   * Outside that range the i16 sums can overflow: in[0] = in[12] = 16384
   * makes the first a0 = in[0] + in[12] = 32768.
   */
  lemma WhtOverflows(inp: seq<int>)
    requires |inp| == 16 && inp[0] == 16384 && inp[12] == 16384
    ensures !WhtFits(inp)
  {
    assert !InI16(inp[0] + inp[12]);
  }

  /** A lone DC coefficient x spreads to (x + 3) >> 3 in all 16 blocks. */
  lemma WhtOfDc(inp: seq<int>)
    requires |inp| == 16 && forall k :: 1 <= k < 16 ==> inp[k] == 0
    ensures forall i, m :: 0 <= i < 4 && 0 <= m < 4 ==> WhtOutput(inp)[i][m] == (inp[0] + 3) / 8
  {
    var x := inp[0];
    assert WhtFirstPass(inp) == [[x, x, x, x], [0, 0, 0, 0], [0, 0, 0, 0], [0, 0, 0, 0]] by {
      assert inp[4] == 0 && inp[8] == 0 && inp[12] == 0;
      assert inp[1] == 0 && inp[5] == 0 && inp[9] == 0 && inp[13] == 0;
      assert inp[2] == 0 && inp[6] == 0 && inp[10] == 0 && inp[14] == 0;
      assert inp[3] == 0 && inp[7] == 0 && inp[11] == 0 && inp[15] == 0;
    }
  }
}
