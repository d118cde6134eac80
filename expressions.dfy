// The lazy expression streams: `StreamAdd`, `StreamSubtract`, `StreamScale`, `StreamDivide`,
// `StreamNegate` and `StreamMultiply` of include/lin/core/tensor/inl/operators.inl (with their
// twin lin/core/operations/stream_multiply.hpp), `StreamTranspose` of
// include/lin/core/operations/stream_transpose.hpp and `StreamElementWiseOperator` of
// include/lin/core/operations/stream_element_wise_operator.hpp. A stream is modelled by the
// value it evaluates to; its compile-time dimensions by the rules on `Traits`.

module Expressions {
  import opened TensorTraits
  import opened VectorTraits
  import opened RowMajor
  import opened Functors

  // ----- Compile-time dimension rules -----

  /** `can_add<C, D>` and `can_subtract<C, D>` as written: gated on `have_same_dimensions<C, D>`,
      which ignores `C`. */
  predicate CanAddAsWritten(c: Traits, d: Traits) { HaveSameDimensionsAsWritten([c, d]) }

  /** The gate the operators evidently intend: equal compile-time dimensions. */
  predicate CanAdd(c: Traits, d: Traits) { HaveSameDimensions([c, d]) }

  /** The written gate of `+` and `-` lets every pair of types through; the intended one demands
      all four dimension numbers agree. */
  lemma CanAddGate(c: Traits, d: Traits)
    ensures CanAddAsWritten(c, d)
    ensures CanAdd(c, d) <==>
      c.rows == d.rows && c.cols == d.cols && c.maxRows == d.maxRows && c.maxCols == d.maxCols
  {
    TwoArgumentSameDimensionsAlwaysHolds(c, d);
    HaveSameDimensionsSymmetric(c, d);
  }

  /** `can_multiply<C, D>`: the inner dimensions agree, exactly and at their maximum. */
  predicate CanMultiply(c: Traits, d: Traits) { c.cols == d.rows && c.maxCols == d.maxRows }

  /** The product's compile-time dimensions: rows of `C`, columns of `D`. */
  function MultiplyTraits(c: Traits, d: Traits): Traits
  {
    Traits(c.elem, c.rows, d.cols, c.maxRows, d.maxCols)
  }

  /** The transpose's compile-time dimensions: exact and maximum sizes swapped. */
  function TransposeTraits(t: Traits): Traits
  {
    Traits(t.elem, t.cols, t.rows, t.maxCols, t.maxRows)
  }

  /** A product of two valid types is valid; a column vector times a row vector is a matrix and
      a row vector times a column vector is a 1x1 matrix. */
  lemma MultiplyTraitsFacts(c: Traits, d: Traits, e: Elem, n: nat, m: nat)
    requires n > 1 && m > 1
    ensures HasValidTraits(c) && HasValidTraits(d) && CanMultiply(c, d) ==>
      HasValidTraits(MultiplyTraits(c, d))
    ensures IsSquare(c) && IsSquare(d) && CanMultiply(c, d) ==> IsSquare(MultiplyTraits(c, d))
    ensures CanMultiply(Traits(e, n, 1, n, 1), Traits(e, 1, m, 1, m))
    ensures IsMatrix(MultiplyTraits(Traits(e, n, 1, n, 1), Traits(e, 1, m, 1, m)))
    ensures MultiplyTraits(Traits(e, 1, n, 1, n), Traits(e, n, 1, n, 1)) == Traits(e, 1, 1, 1, 1)
  {
    DimensionPredicatesIff(c);
    DimensionPredicatesIff(d);
    DimensionPredicatesIff(MultiplyTraits(c, d));
    SquareIffEqualMaxima(c);
    SquareIffEqualMaxima(d);
    SquareIffEqualMaxima(MultiplyTraits(c, d));
    Classified(MultiplyTraits(Traits(e, n, 1, n, 1), Traits(e, 1, m, 1, m)));
  }

  /** Transposing the dimensions twice is the identity; it keeps validity, squareness and both
      sizes, and turns row vectors into column vectors and back. A 2x4 type becomes 4x2. */
  lemma TransposeTraitsFacts(t: Traits)
    ensures TransposeTraits(TransposeTraits(t)) == t
    ensures HasValidTraits(TransposeTraits(t)) <==> HasValidTraits(t)
    ensures IsSquare(TransposeTraits(t)) <==> IsSquare(t)
    ensures TensorTraits.Size(TransposeTraits(t)) == TensorTraits.Size(t)
    ensures MaxSize(TransposeTraits(t)) == MaxSize(t)
    ensures IsRowVector(TransposeTraits(t)) <==> IsColVector(t)
    ensures IsColVector(TransposeTraits(t)) <==> IsRowVector(t)
    ensures TransposeTraits(Traits(Double, 2, 4, 2, 4)) == Traits(Double, 4, 2, 4, 2)
  {
    DimensionPredicatesIff(t);
    DimensionPredicatesIff(TransposeTraits(t));
    SquareIffEqualMaxima(t);
    SquareIffEqualMaxima(TransposeTraits(t));
    RowColMirror(t.elem, t.rows, t.cols, t.maxRows, t.maxCols);
    RowColMirror(t.elem, t.cols, t.rows, t.maxCols, t.maxRows);
  }

  // ----- The element-wise operator -----

  /** One or more streams sharing the runtime dimensions of the first. */
  predicate SameShape(cs: seq<Mat>)
  {
    |cs| > 0 &&
    forall a :: 0 <= a < |cs| ==> WellFormed(cs[a]) && cs[a].rows == cs[0].rows && cs[a].cols == cs[0].cols
  }

  /** The operands' elements at `(i, j)`, in argument order. */
  function ArgsAt(cs: seq<Mat>, i: nat, j: nat): (args: seq<int>)
    requires SameShape(cs) && i < cs[0].rows && j < cs[0].cols
    ensures |args| == |cs| && forall a :: 0 <= a < |cs| ==> args[a] == At(cs[a], i, j)
  {
    seq(|cs|, a requires 0 <= a < |cs| => At(cs[a], i, j))
  }

  /** The operands' linear elements `k`, in argument order. */
  function LinearArgs(cs: seq<Mat>, k: nat): (args: seq<int>)
    requires SameShape(cs) && k < RowMajor.Size(cs[0])
    ensures |args| == |cs| && forall a :: 0 <= a < |cs| ==> args[a] == AtLinear(cs[a], k)
  {
    seq(|cs|, a requires 0 <= a < |cs| => AtLinear(cs[a], k))
  }

  /** The functor is defined on the operands at every position (no division by zero). */
  predicate DefinedOn(f: Functor, cs: seq<Mat>)
    requires SameShape(cs) && |cs| == Arity(f)
  {
    forall i: nat, j: nat :: i < cs[0].rows && j < cs[0].cols ==> Defined(f, ArgsAt(cs, i, j))
  }

  /** `StreamElementWiseOperator<F, Cs...>`: the dimensions of the first operand, and element
      `(i, j)` is `f(c1(i, j), ..., cn(i, j))`. */
  function ElementWise(f: Functor, cs: seq<Mat>): (r: Mat)
    requires SameShape(cs) && |cs| == Arity(f) && DefinedOn(f, cs)
    ensures WellFormed(r) && r.rows == cs[0].rows && r.cols == cs[0].cols
    ensures forall i: nat, j: nat :: i < r.rows && j < r.cols ==> At(r, i, j) == Apply(f, ArgsAt(cs, i, j))
  {
    Tabulate(cs[0].rows, cs[0].cols,
      (i: nat, j: nat) requires i < cs[0].rows && j < cs[0].cols => Apply(f, ArgsAt(cs, i, j)))
  }

  /** The linear accessor `f(c1(k), ..., cn(k))` reads the same element as `(k / cols, k % cols)`. */
  lemma ElementWiseLinear(f: Functor, cs: seq<Mat>, k: nat)
    requires SameShape(cs) && |cs| == Arity(f) && DefinedOn(f, cs) && k < RowMajor.Size(cs[0])
    ensures LinearArgs(cs, k) == ArgsAt(cs, k / cs[0].cols, k % cs[0].cols)
    ensures Defined(f, LinearArgs(cs, k))
    ensures k < RowMajor.Size(ElementWise(f, cs)) && AtLinear(ElementWise(f, cs), k) == Apply(f, LinearArgs(cs, k))
  {
    LinearInBounds(k, cs[0].rows, cs[0].cols);
    var i, j := k / cs[0].cols, k % cs[0].cols;
    assert LinearArgs(cs, k) == ArgsAt(cs, i, j);
    var r := ElementWise(f, cs);
    assert AtLinear(r, k) == At(r, i, j);
  }

  // ----- The arithmetic streams -----

  /** `StreamAdd`: the runtime dimensions must agree; element `c(i, j) + d(i, j)`. */
  function Add(c: Mat, d: Mat): (r: Mat)
    requires WellFormed(c) && WellFormed(d) && c.rows == d.rows && c.cols == d.cols
    ensures WellFormed(r) && r.rows == c.rows && r.cols == c.cols
    ensures forall i: nat, j: nat :: i < r.rows && j < r.cols ==> At(r, i, j) == At(c, i, j) + At(d, i, j)
  {
    ElementWise(AddOp, [c, d])
  }

  /** `StreamSubtract`: element `c(i, j) - d(i, j)`. */
  function Subtract(c: Mat, d: Mat): (r: Mat)
    requires WellFormed(c) && WellFormed(d) && c.rows == d.rows && c.cols == d.cols
    ensures WellFormed(r) && r.rows == c.rows && r.cols == c.cols
    ensures forall i: nat, j: nat :: i < r.rows && j < r.cols ==> At(r, i, j) == At(c, i, j) - At(d, i, j)
  {
    ElementWise(SubtractOp, [c, d])
  }

  /** `StreamScale`, for `c * t` and for `t * c` alike: element `t * c(i, j)`. */
  function Scale(c: Mat, t: int): (r: Mat)
    requires WellFormed(c)
    ensures WellFormed(r) && r.rows == c.rows && r.cols == c.cols
    ensures forall i: nat, j: nat :: i < r.rows && j < r.cols ==> At(r, i, j) == t * At(c, i, j)
  {
    ElementWise(MultiplySt(t), [c])
  }

  /** `StreamDivide`: element `c(i, j) / t`, truncating as C++ integer division does. */
  function Divide(c: Mat, t: int): (r: Mat)
    requires WellFormed(c) && t != 0
    ensures WellFormed(r) && r.rows == c.rows && r.cols == c.cols
    ensures forall i: nat, j: nat :: i < r.rows && j < r.cols ==> At(r, i, j) == CDiv(At(c, i, j), t)
  {
    ElementWise(DivideTs(t), [c])
  }

  /** `StreamNegate`: element `-c(i, j)`. */
  function Negate(c: Mat): (r: Mat)
    requires WellFormed(c)
    ensures WellFormed(r) && r.rows == c.rows && r.cols == c.cols
    ensures forall i: nat, j: nat :: i < r.rows && j < r.cols ==> At(r, i, j) == -At(c, i, j)
  {
    ElementWise(NegateOp, [c])
  }

  /** `c + d == d + c`. */
  lemma AddCommutes(c: Mat, d: Mat)
    requires WellFormed(c) && WellFormed(d) && c.rows == d.rows && c.cols == d.cols
    ensures Add(c, d) == Add(d, c)
  {
    MatExtensionality(Add(c, d), Add(d, c));
  }

  /** Subtraction undoes addition: `(c + d) - d == c`. */
  lemma SubtractUndoesAdd(c: Mat, d: Mat)
    requires WellFormed(c) && WellFormed(d) && c.rows == d.rows && c.cols == d.cols
    ensures Subtract(Add(c, d), d) == c
  {
    MatExtensionality(Subtract(Add(c, d), d), c);
  }

  /** `c - d == c + (-d)`, and negating twice is the identity. */
  lemma SubtractIsAddNegated(c: Mat, d: Mat)
    requires WellFormed(c) && WellFormed(d) && c.rows == d.rows && c.cols == d.cols
    ensures Subtract(c, d) == Add(c, Negate(d))
    ensures Negate(Negate(c)) == c
  {
    MatExtensionality(Subtract(c, d), Add(c, Negate(d)));
    MatExtensionality(Negate(Negate(c)), c);
  }

  /** Scaling distributes over addition. */
  lemma ScaleDistributes(c: Mat, d: Mat, t: int)
    requires WellFormed(c) && WellFormed(d) && c.rows == d.rows && c.cols == d.cols
    ensures Scale(Add(c, d), t) == Add(Scale(c, t), Scale(d, t))
  {
    var l, r := Scale(Add(c, d), t), Add(Scale(c, t), Scale(d, t));
    forall i: nat, j: nat | i < l.rows && j < l.cols ensures At(l, i, j) == At(r, i, j) {
      assert t * (At(c, i, j) + At(d, i, j)) == t * At(c, i, j) + t * At(d, i, j);
    }
    MatExtensionality(l, r);
  }

  /** Dividing by a non-zero scale factor recovers the stream, even with truncating division. */
  lemma DivideUndoesScale(c: Mat, t: int)
    requires WellFormed(c) && t != 0
    ensures Divide(Scale(c, t), t) == c
  {
    var l := Divide(Scale(c, t), t);
    forall i: nat, j: nat | i < l.rows && j < l.cols ensures At(l, i, j) == At(c, i, j) {
      CDivOfMultiple(t, At(c, i, j));
    }
    MatExtensionality(l, c);
  }

  // ----- Multiplication -----

  /** `sum_{k < n} c(i, k) * d(k, j)`. */
  function RowColSum(c: Mat, d: Mat, i: nat, j: nat, n: nat): int
    requires WellFormed(c) && WellFormed(d) && c.cols == d.rows
    requires i < c.rows && j < d.cols && n <= c.cols
    decreases n
  {
    if n == 0 then 0 else RowColSum(c, d, i, j, n - 1) + At(c, i, n - 1) * At(d, n - 1, j)
  }

  /** `StreamMultiply`: the inner runtime dimensions must agree; the product has the rows of `c`
      and the columns of `d`, and element `(i, j)` is the sum over the inner index. */
  function Multiply(c: Mat, d: Mat): (r: Mat)
    requires WellFormed(c) && WellFormed(d) && c.cols == d.rows
    ensures WellFormed(r) && r.rows == c.rows && r.cols == d.cols
    ensures forall i: nat, j: nat :: i < r.rows && j < r.cols ==> At(r, i, j) == RowColSum(c, d, i, j, c.cols)
  {
    Tabulate(c.rows, d.cols,
      (i: nat, j: nat) requires i < c.rows && j < d.cols => RowColSum(c, d, i, j, c.cols))
  }

  /** `StreamMultiply::operator()(i, j)`: start from `c(i, 0) * d(0, j)` and accumulate the rest
      of the inner index. The first product is read unconditionally, so `c` needs a column. */
  method MultiplyAt(c: Mat, d: Mat, i: nat, j: nat) returns (x: int)
    requires WellFormed(c) && WellFormed(d) && c.cols == d.rows && c.cols > 0
    requires i < c.rows && j < d.cols
    ensures x == At(Multiply(c, d), i, j)
  {
    x := At(c, i, 0) * At(d, 0, j);
    var k := 1;
    while k < c.cols
      invariant 1 <= k <= c.cols
      invariant x == RowColSum(c, d, i, j, k)
    {
      x := x + At(c, i, k) * At(d, k, j);
      k := k + 1;
    }
  }

  /** `StreamMultiply::operator()(k)`: element `(k / cols, k % cols)`. */
  method MultiplyAtLinear(c: Mat, d: Mat, k: nat) returns (x: int)
    requires WellFormed(c) && WellFormed(d) && c.cols == d.rows && c.cols > 0
    requires k < c.rows * d.cols
    ensures k < RowMajor.Size(Multiply(c, d)) && x == AtLinear(Multiply(c, d), k)
  {
    LinearInBounds(k, c.rows, d.cols);
    x := MultiplyAt(c, d, k / d.cols, k % d.cols);
  }

  /** The product the source's own check expects: [[1,2],[3,4]] * [[5,6],[7,8]] == [[19,22],[43,50]]. */
  lemma MultiplyExample()
    ensures Multiply(Mat(2, 2, [1, 2, 3, 4]), Mat(2, 2, [5, 6, 7, 8])) == Mat(2, 2, [19, 22, 43, 50])
  {
    TwoByTwoProduct(Mat(2, 2, [1, 2, 3, 4]), Mat(2, 2, [5, 6, 7, 8]));
  }

  /** The product of two 2x2 values, written out entry by entry. */
  lemma TwoByTwoProduct(c: Mat, d: Mat)
    requires WellFormed(c) && WellFormed(d) && c.rows == c.cols == d.rows == d.cols == 2
    ensures Multiply(c, d).elems == [c.elems[0] * d.elems[0] + c.elems[1] * d.elems[2],
                                     c.elems[0] * d.elems[1] + c.elems[1] * d.elems[3],
                                     c.elems[2] * d.elems[0] + c.elems[3] * d.elems[2],
                                     c.elems[2] * d.elems[1] + c.elems[3] * d.elems[3]]
  {
    var p := Multiply(c, d);
    InnerSumOfTwo(c, d, 0, 0);
    InnerSumOfTwo(c, d, 0, 1);
    InnerSumOfTwo(c, d, 1, 0);
    InnerSumOfTwo(c, d, 1, 1);
    assert p.elems[0] == At(p, 0, 0) && p.elems[1] == At(p, 0, 1);
    assert p.elems[2] == At(p, 1, 0) && p.elems[3] == At(p, 1, 1);
  }

  /** With an inner dimension of two, the sum has two terms. */
  lemma InnerSumOfTwo(c: Mat, d: Mat, i: nat, j: nat)
    requires WellFormed(c) && WellFormed(d) && c.cols == d.rows == 2
    requires i < c.rows && j < d.cols
    ensures RowColSum(c, d, i, j, 2) == At(c, i, 0) * At(d, 0, j) + At(c, i, 1) * At(d, 1, j)
  {
  }

  // ----- Transposition -----

  /** `StreamTranspose`: rows and columns swapped, element `(i, j)` is `c(j, i)`. */
  function Transpose(c: Mat): (r: Mat)
    requires WellFormed(c)
    ensures WellFormed(r) && r.rows == c.cols && r.cols == c.rows
    ensures forall i: nat, j: nat :: i < r.rows && j < r.cols ==> At(r, i, j) == At(c, j, i)
  {
    Tabulate(c.cols, c.rows, (i: nat, j: nat) requires i < c.cols && j < c.rows => At(c, j, i))
  }

  /** Transposing twice gives back every element. */
  lemma TransposeInvolution(c: Mat)
    requires WellFormed(c)
    ensures Transpose(Transpose(c)) == c
  {
    MatExtensionality(Transpose(Transpose(c)), c);
  }

  /** The transpose's linear element `k` is read at `(k / cols, k % cols)` of the transposed
      shape, which is `c(k % c.rows, k / c.rows)`. */
  lemma TransposeLinear(c: Mat, k: nat)
    requires WellFormed(c) && k < RowMajor.Size(c)
    ensures k < RowMajor.Size(Transpose(c))
    ensures k % c.rows < c.rows && k / c.rows < c.cols
    ensures AtLinear(Transpose(c), k) == At(c, k % c.rows, k / c.rows)
  {
    LinearInBounds(k, c.cols, c.rows);
  }

  /** The sum behind element `(i, j)` of `c * d` is the sum behind element `(j, i)` of
      `d^T * c^T`. */
  lemma {:induction false} RowColSumTransposed(c: Mat, d: Mat, i: nat, j: nat, n: nat)
    requires WellFormed(c) && WellFormed(d) && c.cols == d.rows
    requires i < c.rows && j < d.cols && n <= c.cols
    ensures RowColSum(c, d, i, j, n) == RowColSum(Transpose(d), Transpose(c), j, i, n)
  {
    if n > 0 {
      RowColSumTransposed(c, d, i, j, n - 1);
      var td, tc := Transpose(d), Transpose(c);
      var a, b := At(c, i, n - 1), At(d, n - 1, j);
      assert At(td, j, n - 1) == b && At(tc, n - 1, i) == a;
      assert RowColSum(td, tc, j, i, n) == RowColSum(td, tc, j, i, n - 1) + b * a;
      assert a * b == b * a;
    }
  }

  /** `(c * d)^T == d^T * c^T`. */
  lemma MultiplyTransposes(c: Mat, d: Mat)
    requires WellFormed(c) && WellFormed(d) && c.cols == d.rows
    ensures Transpose(Multiply(c, d)) == Multiply(Transpose(d), Transpose(c))
  {
    var l, r := Transpose(Multiply(c, d)), Multiply(Transpose(d), Transpose(c));
    forall i: nat, j: nat | i < l.rows && j < l.cols ensures At(l, i, j) == At(r, i, j) {
      RowColSumTransposed(c, d, j, i, c.cols);
    }
    MatExtensionality(l, r);
  }
}
