// The offset-indexed buffer views every predictor and filter works through
// (src/offsetref.rs). A view is a slice plus a signed `zero`; index `i` of
// the view is element `i + zero` of the slice, and an index whose inner
// position falls outside the slice panics (`inner_idx as usize` turns a
// negative position into a huge one, so both ends panic). Panics are the
// precondition of Index and the None of TryIndex. isize overflow of
// `idx + zero` is not modelled.
module OffsetRef {
  datatype Option<T> = None | Some(value: T)

  /** OffsetSliceRef: a read-only view, a value. */
  datatype OffsetSliceRef<T> = OffsetSliceRef(slice: seq<T>, zero: int)
  {
    /** Whether `index(idx)` stays inside the slice (and so does not panic). */
    predicate InRange(idx: int)
    {
      0 <= idx + zero < |slice|
    }

    /** index: element idx + zero of the slice. */
    function Index(idx: int): (r: T)
      requires InRange(idx)
      ensures r == slice[idx + zero]
    {
      slice[idx + zero]
    }

    /** index with its panic made explicit: None exactly when the inner position is outside the slice. */
    function TryIndex(idx: int): (r: Option<T>)
      ensures r.None? <==> !(0 <= idx + zero < |slice|)
      ensures r.Some? ==> r.value == slice[idx + zero]
    {
      if InRange(idx) then Some(Index(idx)) else None
    }

    /** with_offset: the same slice with zero moved by `offset`. */
    function WithOffset(offset: int): (r: OffsetSliceRef<T>)
      ensures r.slice == slice && r.zero == zero + offset
    {
      OffsetSliceRef(slice, zero + offset)
    }
  }

  /** with_offset(o).index(i) is index(i + o), and it panics exactly when that does. */
  lemma WithOffsetIndex<T>(view: OffsetSliceRef<T>, offset: int, idx: int)
    ensures view.WithOffset(offset).InRange(idx) <==> view.InRange(idx + offset)
    ensures view.WithOffset(offset).TryIndex(idx) == view.TryIndex(idx + offset)
  {
  }

  /** Two with_offset steps are one step by the sum. */
  lemma WithOffsetCompose<T>(view: OffsetSliceRef<T>, a: int, b: int)
    ensures view.WithOffset(a).WithOffset(b) == view.WithOffset(a + b)
  {
  }

  /**
   * OffsetSliceRefMut: a view whose `zero` the owner moves in place and
   * through which elements are written. The slice is shared with whatever
   * the view was made from.
   */
  class OffsetSliceRefMut<T> {
    const slice: array<T>
    var zero: int

    /** new. */
    constructor (slice: array<T>, zero: int)
      ensures this.slice == slice && this.zero == zero
    {
      this.slice := slice;
      this.zero := zero;
    }

    /** The view as a value: the slice's current contents and zero. */
    function View(): (r: OffsetSliceRef<T>)
      reads this, slice
      ensures r.slice == slice[..] && r.zero == zero
    {
      OffsetSliceRef(slice[..], zero)
    }

    predicate InRange(idx: int)
      reads this
    {
      0 <= idx + zero < slice.Length
    }

    /** index: element idx + zero of the slice; the same as the value view's index. */
    function Index(idx: int): (r: T)
      reads this, slice
      requires InRange(idx)
      ensures r == slice[idx + zero]
      ensures View().InRange(idx) && r == View().Index(idx)
    {
      slice[idx + zero]
    }

    /**
     * with_offset: a new view over the same slice with zero moved by
     * `offset`; this view is left as it is.
     */
    method WithOffset(offset: int) returns (r: OffsetSliceRefMut<T>)
      ensures fresh(r)
      ensures r.slice == slice && r.zero == zero + offset
      ensures r.View() == View().WithOffset(offset)
    {
      r := new OffsetSliceRefMut(slice, zero + offset);
    }

    /** move_zero: this view's zero moves by `offset`; no element changes. */
    method MoveZero(offset: int)
      modifies this
      ensures zero == old(zero) + offset
      ensures View() == old(View()).WithOffset(offset)
    {
      zero := zero + offset;
    }

    /** index_mut followed by assignment: slice[idx + zero] becomes `value`, nothing else changes. */
    method IndexMut(idx: int, value: T)
      requires InRange(idx)
      modifies slice
      ensures slice[..] == old(slice[..])[idx + zero := value]
    {
      slice[idx + zero] := value;
    }
  }

  /** move_zero(a) then move_zero(b) ends where move_zero(a + b) does, and leaves the slice alone. */
  method MoveZeroTwice<T>(view: OffsetSliceRefMut<T>, a: int, b: int)
    modifies view
    ensures view.zero == old(view.zero) + (a + b)
    ensures view.View() == old(view.View()).WithOffset(a + b)
  {
    view.MoveZero(a);
    view.MoveZero(b);
    WithOffsetCompose(old(view.View()), a, b);
  }

  /**
   * OffsetArray<T, SIZE, ZERO>: an owned array of SIZE elements whose index
   * 0 is at position ZERO. SIZE is the array's length; ZERO is a constant of
   * the type.
   */
  class OffsetArray<T> {
    const arr: array<T>
    const ZERO: int

    constructor (arr: array<T>, ZERO: int)
      ensures this.arr == arr && this.ZERO == ZERO
    {
      this.arr := arr;
      this.ZERO := ZERO;
    }

    predicate InRange(idx: int)
    {
      0 <= idx + ZERO < arr.Length
    }

    /** index: arr[idx + ZERO]. */
    function Index(idx: int): (r: T)
      reads arr
      requires InRange(idx)
      ensures r == arr[idx + ZERO]
    {
      arr[idx + ZERO]
    }

    /** index_mut followed by assignment. */
    method IndexMut(idx: int, value: T)
      requires InRange(idx)
      modifies arr
      ensures arr[..] == old(arr[..])[idx + ZERO := value]
    {
      arr[idx + ZERO] := value;
    }

    /** with_offset: a mutable view over the whole array with zero ZERO + offset. */
    method WithOffset(offset: int) returns (r: OffsetSliceRefMut<T>)
      ensures fresh(r)
      ensures r.slice == arr && r.zero == ZERO + offset
      ensures forall i :: r.InRange(i) <==> InRange(i + offset)
    {
      r := new OffsetSliceRefMut(arr, ZERO + offset);
    }
  }
}
