// Row-major element addressing shared by every tensor stream: `(i, j)` lives at flat offset
// `i * cols + j` (lin/core/types/base.hpp) and a linear index `k` is read at
// `(k / cols, k % cols)` (every stream's `operator()(size_t)`). A stream's value is modelled as
// `Mat`: its runtime dimensions and its elements flattened in row-major order.

module RowMajor {

  /** The value of a tensor stream: runtime rows, runtime columns and row-major elements. */
  datatype Mat = Mat(rows: nat, cols: nat, elems: seq<int>)

  predicate WellFormed(m: Mat) { |m.elems| == m.rows * m.cols }

  /** `Stream::size()`. */
  function Size(m: Mat): nat { m.rows * m.cols }

  /** Offset `i * cols + j` of an in-bounds pair is in bounds, and the pair is recovered from it
      by division and remainder. */
  lemma {:induction false} OffsetInBounds(i: nat, j: nat, rows: nat, cols: nat)
    requires i < rows && j < cols
    ensures i * cols + j < rows * cols
    ensures (i * cols + j) / cols == i && (i * cols + j) % cols == j
  {
    OffsetBound(i, j, rows, cols);
    DivModUnique(i * cols + j, cols, i, j);
  }

  /** The bound half of `OffsetInBounds`. */
  lemma {:induction false} OffsetBound(i: nat, j: nat, rows: nat, cols: nat)
    requires i < rows && j < cols
    ensures i * cols + j < rows * cols
  {
    assert (rows - i - 1) * cols >= 0;
    assert rows * cols == i * cols + cols + (rows - i - 1) * cols;
  }

  /** Euclidean division is unique: `n == q * d + r` with `0 <= r < d` fixes `n / d` and `n % d`. */
  lemma {:induction false} DivModUnique(n: int, d: int, q: int, r: int)
    requires d > 0 && 0 <= r < d && n == q * d + r
    ensures n / d == q && n % d == r
  {
    var q', r' := n / d, n % d;
    assert (q - q') * d == r' - r;
    if q > q' {
      MultipleAtLeast(q - q', d);
      assert false;
    } else if q < q' {
      MultipleAtLeast(q' - q, d);
      assert false;
    }
  }

  /** A positive multiple of a natural number is at least that number. */
  lemma MultipleAtLeast(a: int, d: int)
    requires a >= 1 && d >= 0
    ensures a * d >= d
  {
    assert a * d == (a - 1) * d + d;
  }

  /** A linear index below `rows * cols` splits into an in-bounds row and column. */
  lemma {:induction false} LinearInBounds(k: nat, rows: nat, cols: nat)
    requires k < rows * cols
    ensures cols > 0
    ensures k / cols < rows && k % cols < cols
    ensures (k / cols) * cols + k % cols == k
  {
  }

  /** Element `(i, j)`, as `data()[i * cols() + j]`. */
  function At(m: Mat, i: nat, j: nat): int
    requires WellFormed(m) && i < m.rows && j < m.cols
  {
    OffsetBound(i, j, m.rows, m.cols);
    m.elems[i * m.cols + j]
  }

  /** Linear element `k`, read at `(k / cols, k % cols)`. */
  function AtLinear(m: Mat, k: nat): (v: int)
    requires WellFormed(m) && k < Size(m)
    ensures v == m.elems[k]
  {
    LinearInBounds(k, m.rows, m.cols);
    At(m, k / m.cols, k % m.cols)
  }

  /** Builds the value whose element `(i, j)` is `f(i, j)`. */
  function Tabulate(rows: nat, cols: nat, f: (nat, nat) --> int): (m: Mat)
    requires forall i: nat, j: nat :: i < rows && j < cols ==> f.requires(i, j)
    ensures WellFormed(m) && m.rows == rows && m.cols == cols
    ensures forall i: nat, j: nat :: i < rows && j < cols ==> At(m, i, j) == f(i, j)
  {
    var m := Mat(rows, cols, seq(rows * cols, k requires 0 <= k < rows * cols =>
      LinearInBounds(k, rows, cols); f(k / cols, k % cols)));
    assert forall i: nat, j: nat :: i < rows && j < cols ==> At(m, i, j) == f(i, j) by {
      forall i: nat, j: nat | i < rows && j < cols ensures At(m, i, j) == f(i, j) {
        OffsetInBounds(i, j, rows, cols);
      }
    }
    m
  }

  /** `(i, j)` and linear `i * cols + j` are the same element, distinct in-bounds pairs have
      distinct offsets, and two values with the same dimensions and the same elements at every
      `(i, j)` are equal. */
  lemma {:induction false} RowMajorAddressing(m: Mat, i: nat, j: nat, i': nat, j': nat)
    requires WellFormed(m) && i < m.rows && j < m.cols && i' < m.rows && j' < m.cols
    ensures i * m.cols + j < Size(m) && At(m, i, j) == AtLinear(m, i * m.cols + j)
    ensures (i, j) != (i', j') ==> i * m.cols + j != i' * m.cols + j'
  {
    OffsetInBounds(i, j, m.rows, m.cols);
    OffsetInBounds(i', j', m.rows, m.cols);
  }

  /** The value with element `(i, j)` replaced by `v`: that element reads `v` and every other
      element is unchanged. */
  function Update(m: Mat, i: nat, j: nat, v: int): (r: Mat)
    requires WellFormed(m) && i < m.rows && j < m.cols
    ensures WellFormed(r) && r.rows == m.rows && r.cols == m.cols
    ensures At(r, i, j) == v
    ensures forall a: nat, b: nat :: a < m.rows && b < m.cols && (a != i || b != j) ==>
      At(r, a, b) == At(m, a, b)
  {
    OffsetBound(i, j, m.rows, m.cols);
    var r := Mat(m.rows, m.cols, m.elems[i * m.cols + j := v]);
    forall a: nat, b: nat | a < m.rows && b < m.cols && (a != i || b != j)
      ensures At(r, a, b) == At(m, a, b)
    {
      UpdateElsewhere(m, i * m.cols + j, v, i, j, a, b);
    }
    r
  }

  lemma UpdateElsewhere(m: Mat, k: nat, v: int, i: nat, j: nat, a: nat, b: nat)
    requires WellFormed(m) && i < m.rows && j < m.cols && a < m.rows && b < m.cols
    requires k == i * m.cols + j && k < |m.elems|
    requires a != i || b != j
    ensures At(Mat(m.rows, m.cols, m.elems[k := v]), a, b) == At(m, a, b)
  {
    DistinctOffsets(i, j, a, b, m.rows, m.cols);
    OffsetBound(a, b, m.rows, m.cols);
    var q := a * m.cols + b;
    var s := m.elems[k := v];
    assert s[q] == m.elems[q];
    var r := Mat(m.rows, m.cols, s);
    assert At(r, a, b) == s[q];
    assert At(m, a, b) == m.elems[q];
  }

  /** Distinct in-bounds pairs have distinct row-major offsets. */
  lemma DistinctOffsets(i: nat, j: nat, a: nat, b: nat, rows: nat, cols: nat)
    requires i < rows && j < cols && a < rows && b < cols && (a != i || b != j)
    ensures i * cols + j != a * cols + b
  {
    OffsetInBounds(i, j, rows, cols);
    OffsetInBounds(a, b, rows, cols);
  }

  /** Values are determined by their dimensions and their `(i, j)` elements. */
  lemma {:induction false} MatExtensionality(a: Mat, b: Mat)
    requires WellFormed(a) && WellFormed(b) && a.rows == b.rows && a.cols == b.cols
    requires forall i: nat, j: nat :: i < a.rows && j < a.cols ==> At(a, i, j) == At(b, i, j)
    ensures a == b
  {
    forall k | 0 <= k < |a.elems| ensures a.elems[k] == b.elems[k] {
      LinearInBounds(k, a.rows, a.cols);
      assert At(a, k / a.cols, k % a.cols) == At(b, k / a.cols, k % a.cols);
    }
  }
}
