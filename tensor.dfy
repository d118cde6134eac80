// Value-backed tensors: the `elems[max_size]` member array of lin/core/types/tensor.hpp, the
// accessors of lin/core/types/base.hpp and include/lin/core/types/inl/tensor.inl, and the
// assignment loops of include/lin/core/types/mapping.hpp.

module Storage {
  import opened TensorTraits
  import opened Dims
  import opened RowMajor

  /** A runtime size within the maxima has at most `MaxSize` elements. */
  lemma {:induction false} SizeWithinMax(r: nat, c: nat, mr: nat, mc: nat)
    requires r <= mr && c <= mc
    ensures r * c <= mr * mc
  {
    assert mr * mc == r * c + (mr - r) * c + mr * (mc - c);
    assert (mr - r) * c >= 0 && mr * (mc - c) >= 0;
  }

  /** `Tensor<D>`: compile-time traits, runtime dimensions and a backing array of `max_size`
      elements holding the current elements in row-major order at its front. */
  class Tensor {
    const t: Traits
    const dims: Dimensions
    const elems: array<int>

    ghost predicate Valid()
      reads this, dims
    {
      dims.t == t && dims.Valid() && elems.Length == MaxSize(t)
    }

    function Rows(): (r: nat)
      reads this, dims
      requires Valid()
      ensures 0 < r <= t.maxRows
    {
      dims.Rows()
    }

    function Cols(): (c: nat)
      reads this, dims
      requires Valid()
      ensures 0 < c <= t.maxCols
    {
      dims.Cols()
    }

    /** `size()`: never more than the backing array holds. */
    function Size(): (n: nat)
      reads this, dims
      requires Valid()
      ensures 0 < n <= elems.Length
    {
      SizeWithinMax(Rows(), Cols(), t.maxRows, t.maxCols);
      Rows() * Cols()
    }

    /** The stream value of the tensor. */
    ghost function Value(): (m: Mat)
      reads this, dims, elems
      requires Valid()
      ensures WellFormed(m) && m.rows == Rows() && m.cols == Cols()
    {
      Mat(Rows(), Cols(), elems[..Size()])
    }

    /** `Tensor()`: the largest allowable dimensions and every element zero. */
    constructor (t: Traits)
      requires HasDimensionsSpecialization(t)
      ensures Valid() && this.t == t && fresh(dims) && fresh(elems)
      ensures Rows() == t.maxRows && Cols() == t.maxCols
      ensures forall k :: 0 <= k < elems.Length ==> elems[k] == 0
    {
      this.t := t;
      dims := new Dimensions(t);
      elems := new int[MaxSize(t)](_ => 0);
    }

    /** `Tensor(r, c)`: resized, every element zero. */
    constructor Sized(t: Traits, r: nat, c: nat)
      requires HasDimensionsSpecialization(t) && ResizeAllowed(t, r, c)
      ensures Valid() && this.t == t && fresh(dims) && fresh(elems)
      ensures Rows() == r && Cols() == c
      ensures forall k :: 0 <= k < elems.Length ==> elems[k] == 0
    {
      this.t := t;
      var d := new Dimensions(t);
      d.Resize(r, c);
      dims := d;
      elems := new int[MaxSize(t)](_ => 0);
    }

    /** `resize(r, c)`: the elements stay where they are in the backing array. */
    method Resize(r: nat, c: nat)
      requires Valid() && ResizeAllowed(t, r, c)
      modifies dims
      ensures Valid() && Rows() == r && Cols() == c
    {
      dims.Resize(r, c);
    }

    /** `Base::operator()(i, j)` read: asserts `i < rows()` and `j < cols()`. */
    method Get(i: nat, j: nat) returns (v: int)
      requires Valid() && i < Rows() && j < Cols()
      ensures v == At(Value(), i, j)
    {
      OffsetInBounds(i, j, Rows(), Cols());
      v := elems[i * Cols() + j];
    }

    /** `Base::operator()(i)` read: asserts `i < size()`. */
    method GetLinear(i: nat) returns (v: int)
      requires Valid() && i < Size()
      ensures v == AtLinear(Value(), i)
    {
      v := elems[i];
    }

    /** Write through the reference `(i, j)` returns: only that element changes. */
    method Set(i: nat, j: nat, v: int)
      requires Valid() && i < Rows() && j < Cols()
      modifies elems
      ensures Valid() && Value() == Update(old(Value()), i, j, v)
    {
      OffsetInBounds(i, j, Rows(), Cols());
      elems[i * Cols() + j] := v;
      assert elems[..Size()] == old(elems[..Size()])[i * Cols() + j := v];
    }

    /** Write through the reference `(i)` returns: only `elems[i]` changes. */
    method SetLinear(i: nat, v: int)
      requires Valid() && i < Size()
      modifies elems
      ensures Valid() && Rows() == old(Rows()) && Cols() == old(Cols())
      ensures elems[..] == old(elems[..])[i := v]
    {
      elems[i] := v;
    }

    /** `Mapping::operator=(std::initializer_list)`: the list length must be `size()`, and element
      `k` of the list is written to linear index `k`; storage past `size()` is untouched. */
    method AssignList(list: seq<int>)
      requires Valid() && |list| == Size()
      modifies elems
      ensures Valid() && Value() == Mat(Rows(), Cols(), list)
      ensures elems[Size()..] == old(elems[Size()..])
    {
      var k := 0;
      while k < |list|
        invariant 0 <= k <= |list|
        invariant elems[..k] == list[..k]
        invariant elems[|list|..] == old(elems[|list|..])
      {
        elems[k] := list[k];
        k := k + 1;
      }
    }

    /** `Mapping::operator=(Stream)`: the runtime dimensions must agree, and every linear index
      is copied, so afterwards the tensor's value is the stream's. */
    method AssignStream(s: Mat)
      requires Valid() && WellFormed(s) && s.rows == Rows() && s.cols == Cols()
      modifies elems
      ensures Valid() && Value() == s
      ensures forall k :: 0 <= k < Size() ==> AtLinear(Value(), k) == AtLinear(s, k)
    {
      var k := 0;
      while k < Size()
        invariant 0 <= k <= Size()
        invariant forall q :: 0 <= q < k ==> elems[q] == AtLinear(s, q)
      {
        elems[k] := AtLinear(s, k);
        k := k + 1;
      }
      assert elems[..Size()] == s.elems;
    }

    /** `Tensor(std::initializer_list)`: the largest dimensions, then the list assignment. */
    constructor FromList(t: Traits, list: seq<int>)
      requires HasDimensionsSpecialization(t) && |list| == MaxSize(t)
      ensures Valid() && this.t == t && fresh(dims) && fresh(elems)
      ensures Value() == Mat(t.maxRows, t.maxCols, list)
    {
      this.t := t;
      dims := new Dimensions(t);
      elems := new int[MaxSize(t)](_ => 0);
      new;
      AssignList(list);
    }

    /** `Tensor(r, c, std::initializer_list)`: resize first, then the list assignment. */
    constructor SizedFromList(t: Traits, r: nat, c: nat, list: seq<int>)
      requires HasDimensionsSpecialization(t) && ResizeAllowed(t, r, c) && |list| == r * c
      ensures Valid() && this.t == t && fresh(dims) && fresh(elems)
      ensures Value() == Mat(r, c, list)
    {
      this.t := t;
      var d := new Dimensions(t);
      d.Resize(r, c);
      dims := d;
      elems := new int[MaxSize(t)](_ => 0);
      new;
      AssignList(list);
    }

    /** `Tensor(Stream)`: take the stream's runtime dimensions, then copy its elements. */
    constructor FromStream(t: Traits, s: Mat)
      requires HasDimensionsSpecialization(t) && WellFormed(s) && ResizeAllowed(t, s.rows, s.cols)
      ensures Valid() && this.t == t && fresh(dims) && fresh(elems)
      ensures Value() == s
    {
      this.t := t;
      var d := new Dimensions(t);
      d.Resize(s.rows, s.cols);
      dims := d;
      elems := new int[MaxSize(t)](_ => 0);
      new;
      AssignStream(s);
    }
  }

  /** `Stream::eval()`: a fresh value-backed tensor of the same type holding the same elements. */
  method Eval(x: Tensor) returns (y: Tensor)
    requires x.Valid()
    ensures fresh(y) && y.Valid() && y.t == x.t && y.Value() == x.Value()
  {
    var list := x.elems[..x.Size()];
    y := new Tensor.FromStream(x.t, Mat(x.Rows(), x.Cols(), list));
  }

  // ----- The element accessors of include/lin/core/types/inl/tensor.inl -----

  /** The guard of `Tensor::operator()(i)` AS WRITTEN: `i <= size()`. */
  predicate InlLinearGuard(i: nat, size: nat) { i <= size }

  /** The guards of `Tensor::operator()(i, j)` AS WRITTEN: `i <= rows()` and `j <= cols()`. */
  predicate InlPairGuard(i: nat, j: nat, rows: nat, cols: nat) { i <= rows && j <= cols }

  /** For a fixed-size type the written guards admit the linear index `max_size` and the pair
      `(rows, 0)`, both of which address `elems[max_size]`, one past the backing array. */
  lemma InlGuardAdmitsOnePastEnd(t: Traits)
    requires HasFixedRows(t) && HasFixedCols(t)
    ensures InlLinearGuard(MaxSize(t), TensorTraits.Size(t))
    ensures InlPairGuard(t.rows, 0, t.rows, t.cols) && t.rows * t.cols + 0 == MaxSize(t)
    ensures !BaseLinearGuard(MaxSize(t), TensorTraits.Size(t)) && !BasePairGuard(t.rows, 0, t.rows, t.cols)
  {
  }

  /** The same admission on a live tensor of a fixed type: the written guards accept the
      linear index `elems.Length` and the pair `(rows(), 0)`, whose row-major offset is
      `elems.Length`, so neither is an index of the backing array. */
  lemma InlGuardReachesPastStorage(x: Tensor)
    requires x.Valid() && HasFixedRows(x.t) && HasFixedCols(x.t)
    ensures InlLinearGuard(x.elems.Length, x.Size())
    ensures InlPairGuard(x.Rows(), 0, x.Rows(), x.Cols()) && x.Rows() * x.Cols() + 0 == x.elems.Length
  {
  }

  /** The guards of lin/core/types/base.hpp, `i < size()` and `i < rows()`, `j < cols()`: the
      corrected bounds that the model's accessors use. */
  predicate BaseLinearGuard(i: nat, size: nat) { i < size }
  predicate BasePairGuard(i: nat, j: nat, rows: nat, cols: nat) { i < rows && j < cols }

  /** Whatever the corrected guards admit lies inside the backing array. */
  lemma BaseGuardInBounds(t: Traits, rows: nat, cols: nat, i: nat, j: nat, k: nat)
    requires rows <= t.maxRows && cols <= t.maxCols
    ensures BaseLinearGuard(k, rows * cols) ==> k < MaxSize(t)
    ensures BasePairGuard(i, j, rows, cols) ==> i * cols + j < MaxSize(t)
  {
    SizeWithinMax(rows, cols, t.maxRows, t.maxCols);
    if BasePairGuard(i, j, rows, cols) {
      OffsetInBounds(i, j, rows, cols);
    }
  }
}
