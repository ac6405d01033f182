// Shared layout of the VP8 reconstruction buffers (src/dsp.rs) and helpers
// that describe writes to a rectangular block of such a buffer.
module Dsp {
  /** An 8-bit sample (u8). */
  type byte = x: int | 0 <= x < 256

  /** Row stride of the work buffer yuv_b (BPS/UBPS). */
  const BPS: int := 32

  /** Index of pixel (x, y) of a block whose pixel (0, 0) is at off. */
  function Pos(off: int, x: int, y: int): int { off + x + BPS * y }

  /** Does index j fall in the w x h block whose pixel (0, 0) is at off? */
  predicate InRect(off: int, w: nat, h: nat, j: int)
  {
    off <= j && (j - off) % BPS < w && (j - off) / BPS < h
  }

  /** rows is an h x w table (rows[y][x]). */
  predicate IsTable<T>(rows: seq<seq<T>>, w: nat, h: nat)
  {
    |rows| == h && forall y :: 0 <= y < h ==> |rows[y]| == w
  }

  /** The block lies inside a buffer of length n. */
  predicate BlockFits(n: int, off: int, w: nat, h: nat)
  {
    0 <= off && (h > 0 && w > 0 ==> Pos(off, w - 1, h - 1) < n)
  }

  /**
   * The OffsetArray<_, SIZE, ZERO> view whose index 0 is at off lies inside a
   * buffer of length n (building the view panics otherwise).
   */
  predicate Window(n: int, off: int, zero: int, size: int)
  {
    0 <= off - zero && off - zero + size <= n
  }

  lemma PosCoords(off: int, x: int, y: int)
    requires 0 <= x < BPS && 0 <= y
    ensures (Pos(off, x, y) - off) % BPS == x && (Pos(off, x, y) - off) / BPS == y
  {
  }

  /** s with the w x h block at off overwritten by the table rows. */
  function FillBlock(s: seq<byte>, off: int, w: nat, h: nat, rows: seq<seq<byte>>): (r: seq<byte>)
    requires w <= BPS && IsTable(rows, w, h)
    ensures |r| == |s|
  {
    seq(|s|, j requires 0 <= j < |s| =>
      if InRect(off, w, h, j) then rows[(j - off) / BPS][(j - off) % BPS] else s[j])
  }

  lemma FillBlockAt(s: seq<byte>, off: int, w: nat, h: nat, rows: seq<seq<byte>>, x: int, y: int)
    requires w <= BPS && IsTable(rows, w, h)
    requires 0 <= x < w && 0 <= y < h && 0 <= Pos(off, x, y) < |s|
    ensures FillBlock(s, off, w, h, rows)[Pos(off, x, y)] == rows[y][x]
  {
    PosCoords(off, x, y);
  }

  /** Writes the table rows into the block at off, row by row. */
  method PutBlock(dst: array<byte>, off: int, w: nat, h: nat, rows: seq<seq<byte>>)
    requires 0 < w <= BPS && IsTable(rows, w, h) && BlockFits(dst.Length, off, w, h)
    modifies dst
    ensures dst[..] == FillBlock(old(dst[..]), off, w, h, rows)
  {
    ghost var s := dst[..];
    for y := 0 to h
      invariant forall j :: 0 <= j < dst.Length ==>
        dst[j] == (if InRect(off, w, y, j) then rows[(j - off) / BPS][(j - off) % BPS] else s[j])
    {
      forall x | 0 <= x < w {
        dst[off + BPS * y + x] := rows[y][x];
      }
    }
    assert dst[..] == FillBlock(s, off, w, h, rows);
  }

  /** Euclidean division by BPS is shifted exactly by whole rows. */
  lemma RowShift(a: int, y: int)
    ensures (a - BPS * y) / BPS == a / BPS - y && (a - BPS * y) % BPS == a % BPS
  {
    var q := a / BPS;
    var r := a % BPS;
    assert a - BPS * y == BPS * (q - y) + r;
  }

  /** A one-row block is the run of w indices starting at p. */
  lemma OneRow(p: int, w: nat, j: int)
    requires w <= BPS
    ensures InRect(p, w, 1, j) <==> p <= j < p + w
  {
  }

  /** Writing a 1 x w block is overwriting the w indices from p on. */
  lemma FillOneRow(s: seq<byte>, p: int, row: seq<byte>)
    requires |row| <= BPS
    ensures FillBlock(s, p, |row|, 1, [row])
         == seq(|s|, j requires 0 <= j < |s| => if p <= j < p + |row| then row[j - p] else s[j])
  {
    forall j | 0 <= j < |s|
      ensures FillBlock(s, p, |row|, 1, [row])[j]
           == (if p <= j < p + |row| then row[j - p] else s[j])
    {
      OneRow(p, |row|, j);
    }
  }

  /** Filling rows 0..y and then row y is filling rows 0..y+1. */
  lemma FillBlockRow(s: seq<byte>, off: int, w: nat, y: nat, rows: seq<seq<byte>>)
    requires 0 < w <= BPS && IsTable(rows, w, y + 1)
    ensures FillBlock(FillBlock(s, off, w, y, rows[..y]), Pos(off, 0, y), w, 1, [rows[y]])
         == FillBlock(s, off, w, y + 1, rows)
  {
    var a := FillBlock(s, off, w, y, rows[..y]);
    forall j | 0 <= j < |s|
      ensures FillBlock(a, Pos(off, 0, y), w, 1, [rows[y]])[j] == FillBlock(s, off, w, y + 1, rows)[j]
    {
      RowShift(j - off, y);
      OneRow(Pos(off, 0, y), w, j);
    }
  }

  /** A w x h table whose every entry is v. */
  function Uniform(w: nat, h: nat, v: byte): (rows: seq<seq<byte>>)
    ensures IsTable(rows, w, h)
  {
    seq(h, _ => seq(w, _ => v))
  }
}
