// References into tensors: the anchored sub-window `TensorMappingReference`
// (lin/references/tensor_mapping_reference.hpp, include/lin/references/inl/mapping_reference.inl),
// the `DiagonalMappingReference` (lin/references/diagonal_mapping_reference.hpp), the writable
// `MappingTranspose` (lin/core/operations/mapping_transpose.hpp), and the reference type
// selection and `ref`/`row`/`col`/`diag` helpers of lin/references.hpp. A mapping reference
// holds the `Tensor` it refers to; reading it reads that tensor and writing it writes that
// tensor. A read-only stream reference reads as the `Window` of its stream's value.

module References {
  import opened TraitUtilities
  import opened TensorTraits
  import opened VectorTraits
  import opened Dims
  import RowMajor
  import Storage
  import Expressions

  // ----- Values -----

  /** The `r` by `c` window of `m` anchored at `(i, j)`: element `(a, b)` is `m(i + a, j + b)`. */
  function Window(m: RowMajor.Mat, i: nat, j: nat, r: nat, c: nat): (w: RowMajor.Mat)
    requires RowMajor.WellFormed(m) && i + r <= m.rows && j + c <= m.cols
    ensures RowMajor.WellFormed(w) && w.rows == r && w.cols == c
    ensures forall a: nat, b: nat :: a < r && b < c ==> RowMajor.At(w, a, b) == RowMajor.At(m, i + a, j + b)
  {
    RowMajor.Tabulate(r, c, (a: nat, b: nat) requires a < r && b < c => RowMajor.At(m, i + a, j + b))
  }

  /** Writing element `(a, b)` of a window writes element `(i + a, j + b)` of the underlying
      value and nothing else; a write outside the window leaves the window unchanged. */
  lemma WindowWriteThrough(m: RowMajor.Mat, i: nat, j: nat, r: nat, c: nat, p: nat, q: nat, v: int)
    requires RowMajor.WellFormed(m) && i + r <= m.rows && j + c <= m.cols && p < m.rows && q < m.cols
    ensures i <= p < i + r && j <= q < j + c ==>
      Window(RowMajor.Update(m, p, q, v), i, j, r, c) == RowMajor.Update(Window(m, i, j, r, c), p - i, q - j, v)
    ensures !(i <= p < i + r && j <= q < j + c) ==>
      Window(RowMajor.Update(m, p, q, v), i, j, r, c) == Window(m, i, j, r, c)
  {
    var l := Window(RowMajor.Update(m, p, q, v), i, j, r, c);
    if i <= p < i + r && j <= q < j + c {
      RowMajor.MatExtensionality(l, RowMajor.Update(Window(m, i, j, r, c), p - i, q - j, v));
    } else {
      RowMajor.MatExtensionality(l, Window(m, i, j, r, c));
    }
  }

  /** The window anchored at `(0, 0)` covering everything is the value itself. */
  lemma WholeWindow(m: RowMajor.Mat)
    requires RowMajor.WellFormed(m)
    ensures Window(m, 0, 0, m.rows, m.cols) == m
  {
    RowMajor.MatExtensionality(Window(m, 0, 0, m.rows, m.cols), m);
  }

  /** `col(stream, j)`: anchored at `(0, j)`, `rows` by 1. */
  function ColOf(m: RowMajor.Mat, j: nat): (w: RowMajor.Mat)
    requires RowMajor.WellFormed(m) && j < m.cols
    ensures RowMajor.WellFormed(w) && w.rows == m.rows && w.cols == 1
    ensures forall a: nat :: a < m.rows ==> RowMajor.At(w, a, 0) == RowMajor.At(m, a, j)
  {
    Window(m, 0, j, m.rows, 1)
  }

  /** `row(stream, i)`: anchored at `(i, 0)`, 1 by `cols`. */
  function RowOf(m: RowMajor.Mat, i: nat): (w: RowMajor.Mat)
    requires RowMajor.WellFormed(m) && i < m.rows
    ensures RowMajor.WellFormed(w) && w.rows == 1 && w.cols == m.cols
    ensures forall b: nat :: b < m.cols ==> RowMajor.At(w, 0, b) == RowMajor.At(m, i, b)
  {
    Window(m, i, 0, 1, m.cols)
  }

  /** Column `j` of a value, transposed, is row `j` of the transposed value. */
  lemma ColIsTransposedRow(m: RowMajor.Mat, j: nat)
    requires RowMajor.WellFormed(m) && j < m.cols
    ensures Expressions.Transpose(ColOf(m, j)) == RowOf(Expressions.Transpose(m), j)
  {
    RowMajor.MatExtensionality(Expressions.Transpose(ColOf(m, j)), RowOf(Expressions.Transpose(m), j));
  }

  // ----- Reference type selection -----

  datatype Option<T> = None | Some(value: T)

  /** The three reference templates: `MatrixMappingReference<D, R, C, MR, MC>`,
      `VectorMappingReference<D, N, MN>` and `RowVectorMappingReference<D, N, MN>`. */
  datatype RefKind =
    | MatrixReference(rows: nat, cols: nat, maxRows: nat, maxCols: nat)
    | VectorReference(length: nat, maxLength: nat)
    | RowVectorReference(length: nat, maxLength: nat)

  /** The compile-time dimensions of a reference template with element type `e`. */
  function KindTraits(k: RefKind, e: Elem): Traits
  {
    match k
    case MatrixReference(r, c, mr, mc) => Traits(e, r, c, mr, mc)
    case VectorReference(n, mn) => Traits(e, n, 1, mn, 1)
    case RowVectorReference(n, mn) => Traits(e, 1, n, 1, mn)
  }

  /** `mapping_reference<C, D>` (and `stream_reference<C, D>`, which selects the same way):
      none unless `C` and `D` share the element type; otherwise chosen by whether `C` is a
      matrix, a column vector or a row vector. */
  function ReferenceFor(c: Traits, d: Traits): (k: Option<RefKind>)
    ensures k.Some? <==> c.elem == d.elem
    ensures k.Some? ==> KindTraits(k.value, c.elem) == c
    ensures k.Some? ==> (k.value.MatrixReference? <==> IsMatrix(c))
  {
    var ts := [c, d];
    assert seq(|ts| - 1, k requires 0 <= k < |ts| - 1 => ts[0].elem == ts[k + 1].elem) == [c.elem == d.elem];
    Classified(c);
    if !HaveSameElements(ts) then None
    else if IsMatrix(c) then Some(MatrixReference(c.rows, c.cols, c.maxRows, c.maxCols))
    else if IsColVector(c) then Some(VectorReference(VectorDimsOf(c).length, VectorDimsOf(c).maxLength))
    else Some(RowVectorReference(VectorDimsOf(c).length, VectorDimsOf(c).maxLength))
  }

  /** The type `T` that `col(mapping, j)` references: a 1 by 1 matrix on a row vector, otherwise
      a column vector with the mapping's rows. */
  function ColTraits(d: Traits): (t: Traits)
    ensures t.elem == d.elem && t.cols == 1 && t.maxCols == 1
  {
    if IsRowVector(d) then Traits(d.elem, 1, 1, 1, 1) else Traits(d.elem, d.rows, 1, d.maxRows, 1)
  }

  /** The type `T` that `row(mapping, i)` references: a 1 by 1 matrix on a column vector,
      otherwise a row vector with the mapping's columns. */
  function RowTraits(d: Traits): (t: Traits)
    ensures t.elem == d.elem && t.rows == 1 && t.maxRows == 1
  {
    if IsColVector(d) then Traits(d.elem, 1, 1, 1, 1) else Traits(d.elem, 1, d.cols, 1, d.maxCols)
  }

  /** The column and row reference types have a `Dimensions` specialization whenever the
      mapping has one, and accept the mapping's own runtime rows (columns); on a column
      (row) vector, `ref_row` (`ref_col`), which always uses `1, Cols, 1, MaxCols`
      (`Rows, 1, MaxRows, 1`), selects the same dimensions as `row` (`col`). */
  lemma ColRowTraitsFit(d: Traits, r: nat, c: nat)
    requires HasDimensionsSpecialization(d) && ResizeAllowed(d, r, c)
    ensures HasDimensionsSpecialization(ColTraits(d)) && ResizeAllowed(ColTraits(d), r, 1)
    ensures HasDimensionsSpecialization(RowTraits(d)) && ResizeAllowed(RowTraits(d), 1, c)
    ensures RowTraits(d) == Traits(d.elem, 1, d.cols, 1, d.maxCols)
    ensures ColTraits(d) == Traits(d.elem, d.rows, 1, d.maxRows, 1)
    ensures IsMatrix(d) && d.maxRows > 1 ==> IsColVector(ColTraits(d))
    ensures IsRowVector(d) ==> IsMatrix(ColTraits(d)) && IsMatrix(RowTraits(d)) == false
  {
    Classified(d);
    Classified(ColTraits(d));
    Classified(RowTraits(d));
  }

  /** `diag` is enabled only for square matrix types. */
  predicate CanDiag(t: Traits) { IsMatrix(t) && IsSquare(t) }

  // ----- The mapping references -----

  /** `TensorMappingReference` / `MappingReference`: a window of tensor `d` anchored at
      `(i, j)`, with dimensions of its own. */
  class MappingReference {
    const t: Traits
    const d: Storage.Tensor
    const i: nat
    const j: nat
    const dims: Dimensions

    ghost predicate Valid()
      reads this, dims, d, d.dims
    {
      d.Valid() && dims.t == t && dims.Valid() && i + dims.Rows() <= d.Rows() && j + dims.Cols() <= d.Cols()
    }

    function Rows(): (r: nat)
      reads this, dims
      requires dims.Valid()
    {
      dims.Rows()
    }

    function Cols(): (c: nat)
      reads this, dims
      requires dims.Valid()
    {
      dims.Cols()
    }

    /** What the reference reads as: its window of the tensor's current value. */
    ghost function Value(): (m: RowMajor.Mat)
      reads this, dims, d, d.dims, d.elems
      requires Valid()
      ensures RowMajor.WellFormed(m) && m.rows == Rows() && m.cols == Cols()
    {
      Window(d.Value(), i, j, Rows(), Cols())
    }

    /** The `(mapping, i, j, r, c)` constructor: the window must fit, then `resize(r, c)`. */
    constructor (t: Traits, d: Storage.Tensor, i: nat, j: nat, r: nat, c: nat)
      requires d.Valid() && HasDimensionsSpecialization(t) && ResizeAllowed(t, r, c)
      requires i + r <= d.Rows() && j + c <= d.Cols()
      ensures Valid() && this.t == t && this.d == d && this.i == i && this.j == j && fresh(dims)
      ensures Rows() == r && Cols() == c
    {
      this.t := t;
      this.d := d;
      this.i := i;
      this.j := j;
      var ds := new Dimensions(t);
      ds.Resize(r, c);
      dims := ds;
    }

    /** The `(mapping, i, j)` constructor: the maximum dimensions must fit, then
        `resize(max_rows, max_cols)`. */
    constructor Anchored(t: Traits, d: Storage.Tensor, i: nat, j: nat)
      requires d.Valid() && HasDimensionsSpecialization(t)
      requires i + t.maxRows <= d.Rows() && j + t.maxCols <= d.Cols()
      ensures Valid() && this.t == t && this.d == d && this.i == i && this.j == j && fresh(dims)
      ensures Rows() == t.maxRows && Cols() == t.maxCols
    {
      this.t := t;
      this.d := d;
      this.i := i;
      this.j := j;
      ResizeAllowedExactly(t, t.maxRows, t.maxCols);
      var ds := new Dimensions(t);
      ds.Resize(t.maxRows, t.maxCols);
      dims := ds;
    }

    /** `operator()(a, b)` read: asserts `a < rows()`, `b < cols()`; reads `d(i + a, j + b)`. */
    method Get(a: nat, b: nat) returns (v: int)
      requires Valid() && a < Rows() && b < Cols()
      ensures v == RowMajor.At(Value(), a, b) && v == RowMajor.At(d.Value(), i + a, j + b)
    {
      v := d.Get(i + a, j + b);
    }

    /** Write through `operator()(a, b)`: exactly element `(i + a, j + b)` of `d` changes, which
        is element `(a, b)` of the reference. */
    method Set(a: nat, b: nat, v: int)
      requires Valid() && a < Rows() && b < Cols()
      modifies d.elems
      ensures Valid()
      ensures d.Value() == RowMajor.Update(old(d.Value()), i + a, j + b, v)
      ensures Value() == RowMajor.Update(old(Value()), a, b, v)
    {
      d.Set(i + a, j + b, v);
      WindowWriteThrough(old(d.Value()), i, j, Rows(), Cols(), i + a, j + b, v);
    }

    /** `operator()(k)` read: element `(k / cols, k % cols)`. */
    method GetLinear(k: nat) returns (v: int)
      requires Valid() && k < Rows() * Cols()
      ensures k < RowMajor.Size(Value()) && v == RowMajor.AtLinear(Value(), k)
    {
      RowMajor.LinearInBounds(k, Rows(), Cols());
      v := Get(k / Cols(), k % Cols());
    }

    /** Write through `operator()(k)`: element `(k / cols, k % cols)` of the reference. */
    method SetLinear(k: nat, v: int)
      requires Valid() && k < Rows() * Cols()
      modifies d.elems
      ensures Valid() && k / Cols() < Rows() && k % Cols() < Cols()
      ensures Value() == RowMajor.Update(old(Value()), k / Cols(), k % Cols(), v)
      ensures Value().elems == old(Value()).elems[k := v]
    {
      RowMajor.LinearInBounds(k, Rows(), Cols());
      ghost var before := Value();
      Set(k / Cols(), k % Cols(), v);
      LinearUpdate(before, k, v);
    }
  }

  /** Updating at `(k / cols, k % cols)` updates flat position `k`. */
  lemma LinearUpdate(m: RowMajor.Mat, k: nat, v: int)
    requires RowMajor.WellFormed(m) && k < m.rows * m.cols
    ensures m.cols > 0 && k / m.cols < m.rows && k % m.cols < m.cols
    ensures RowMajor.Update(m, k / m.cols, k % m.cols, v).elems == m.elems[k := v]
  {
    RowMajor.LinearInBounds(k, m.rows, m.cols);
  }

  /** `row(mapping, i)`: a reference anchored at `(i, 0)`, 1 by `cols`, of type `RowTraits`. */
  method Row(d: Storage.Tensor, i: nat) returns (r: MappingReference)
    requires d.Valid() && i < d.Rows()
    ensures fresh(r.dims) && r.Valid() && r.d == d && r.t == RowTraits(d.t)
    ensures r.Value() == RowOf(d.Value(), i)
  {
    ColRowTraitsFit(d.t, d.Rows(), d.Cols());
    r := new MappingReference(RowTraits(d.t), d, i, 0, 1, d.Cols());
  }

  /** `col(mapping, j)`: a reference anchored at `(0, j)`, `rows` by 1, of type `ColTraits`. */
  method Col(d: Storage.Tensor, j: nat) returns (r: MappingReference)
    requires d.Valid() && j < d.Cols()
    ensures fresh(r.dims) && r.Valid() && r.d == d && r.t == ColTraits(d.t)
    ensures r.Value() == ColOf(d.Value(), j)
  {
    ColRowTraitsFit(d.t, d.Rows(), d.Cols());
    r := new MappingReference(ColTraits(d.t), d, 0, j, d.Rows(), 1);
  }

  /** The guard on the column index of `DiagonalMappingReference::operator()(i, j)` AS WRITTEN:
      `j < rows()`. */
  predicate DiagonalColGuardAsWritten(j: nat, rows: nat) { j < rows }

  /** The guard as evidently intended: `j < cols()`, and `cols()` is 1. */
  predicate DiagonalColGuard(j: nat) { j < 1 }

  /** On a diagonal reference of two or more rows the written guard lets column 1 through,
      although the reference has one column; the intended guard admits column 0 only. */
  lemma DiagonalGuardAdmitsColumnOne(rows: nat)
    requires rows >= 2
    ensures DiagonalColGuardAsWritten(1, rows) && !DiagonalColGuard(1)
    ensures forall j: nat :: DiagonalColGuard(j) ==> DiagonalColGuardAsWritten(j, rows)
  {
  }

  /** `DiagonalMappingReference`: the diagonal of the square tensor `d` as a column. */
  class DiagonalReference {
    const d: Storage.Tensor

    ghost predicate Valid()
      reads this, d, d.dims
    {
      d.Valid() && d.Rows() == d.Cols()
    }

    function Rows(): (r: nat)
      reads this, d, d.dims
      requires Valid()
      ensures r == d.Rows()
    {
      d.Rows()
    }

    /** `cols()` is always 1. */
    function Cols(): (c: nat)
      ensures c == 1
    {
      1
    }

    /** What the reference reads as: element `(a, 0)` is `d(a, a)`. */
    ghost function Value(): (m: RowMajor.Mat)
      reads this, d, d.dims, d.elems
      requires Valid()
      ensures RowMajor.WellFormed(m) && m.rows == Rows() && m.cols == 1
      ensures forall a: nat :: a < m.rows ==> RowMajor.At(m, a, 0) == RowMajor.At(d.Value(), a, a)
    {
      var dv := d.Value();
      RowMajor.Tabulate(d.Rows(), 1, (a: nat, b: nat) requires a < dv.rows && a < dv.cols => RowMajor.At(dv, a, a))
    }

    /** The constructor asserts a square runtime shape. */
    constructor (d: Storage.Tensor)
      requires d.Valid() && d.Rows() == d.Cols()
      ensures Valid() && this.d == d
    {
      this.d := d;
    }

    /** `operator()(a, b)` read: `d(a, a)`, with the column guard corrected to `b < cols()`. */
    method Get(a: nat, b: nat) returns (v: int)
      requires Valid() && a < Rows() && DiagonalColGuard(b)
      ensures v == RowMajor.At(Value(), a, b) && v == RowMajor.At(d.Value(), a, a)
    {
      v := d.Get(a, a);
    }

    /** `operator()(a)` read: asserts `a < size()`, reads `d(a, a)`. */
    method GetLinear(a: nat) returns (v: int)
      requires Valid() && a < Rows()
      ensures v == RowMajor.AtLinear(Value(), a) && v == RowMajor.At(d.Value(), a, a)
    {
      v := d.Get(a, a);
    }

    /** Write through `operator()(a)`: exactly `d(a, a)` changes. */
    method SetLinear(a: nat, v: int)
      requires Valid() && a < Rows()
      modifies d.elems
      ensures Valid()
      ensures d.Value() == RowMajor.Update(old(d.Value()), a, a, v)
      ensures Value() == RowMajor.Update(old(Value()), a, 0, v)
    {
      ghost var before := Value();
      d.Set(a, a, v);
      RowMajor.MatExtensionality(Value(), RowMajor.Update(before, a, 0, v));
    }
  }

  /** `MappingTranspose`: tensor `c` with rows and columns swapped; reads and writes of `(a, b)`
      go to `c(b, a)`. */
  class TransposeReference {
    const c: Storage.Tensor

    ghost predicate Valid()
      reads this, c, c.dims
    {
      c.Valid()
    }

    function Rows(): (r: nat)
      reads this, c, c.dims
      requires Valid()
      ensures r == c.Cols()
    {
      c.Cols()
    }

    function Cols(): (n: nat)
      reads this, c, c.dims
      requires Valid()
      ensures n == c.Rows()
    {
      c.Rows()
    }

    ghost function Value(): (m: RowMajor.Mat)
      reads this, c, c.dims, c.elems
      requires Valid()
      ensures RowMajor.WellFormed(m) && m.rows == Rows() && m.cols == Cols()
    {
      Expressions.Transpose(c.Value())
    }

    constructor (c: Storage.Tensor)
      requires c.Valid()
      ensures Valid() && this.c == c
    {
      this.c := c;
    }

    /** `operator()(a, b)` read: `c(b, a)`. */
    method Get(a: nat, b: nat) returns (v: int)
      requires Valid() && a < Rows() && b < Cols()
      ensures v == RowMajor.At(Value(), a, b) && v == RowMajor.At(c.Value(), b, a)
    {
      v := c.Get(b, a);
    }

    /** Write through `operator()(a, b)`: exactly `c(b, a)` changes, which is element `(a, b)`
        of the transpose. */
    method Set(a: nat, b: nat, v: int)
      requires Valid() && a < Rows() && b < Cols()
      modifies c.elems
      ensures Valid()
      ensures c.Value() == RowMajor.Update(old(c.Value()), b, a, v)
      ensures Value() == RowMajor.Update(old(Value()), a, b, v)
    {
      ghost var before := Value();
      c.Set(b, a, v);
      RowMajor.MatExtensionality(Value(), RowMajor.Update(before, a, b, v));
    }

    /** `operator()(k)` read: element `(k / cols, k % cols)`. */
    method GetLinear(k: nat) returns (v: int)
      requires Valid() && k < Rows() * Cols()
      ensures k < RowMajor.Size(Value()) && v == RowMajor.AtLinear(Value(), k)
    {
      RowMajor.LinearInBounds(k, Rows(), Cols());
      v := Get(k / Cols(), k % Cols());
    }
  }
}
