// The generator streams: `StreamConstants` (lin/generators/stream_constants.hpp),
// `StreamIdentity` (include/lin/generators/stream_identity.hpp) and `StreamDiagonal`
// (lin/generators/stream_diagonal.hpp). Each is read-only; its value is modelled as the `Mat`
// it reads as, and each reads linear element `k` at `(k / cols, k % cols)` like every stream.

module Generators {
  import TensorTraits
  import opened VectorTraits
  import opened RowMajor
  import opened Dims
  import Reductions
  import Expressions

  /** `StreamConstants(t, r, c)`: resized to `(r, c)` under the `Dimensions` rules; every element
      is `v`. */
  function Constants(t: TensorTraits.Traits, v: int, r: nat, c: nat): (m: Mat)
    requires ResizeAllowed(t, r, c)
    ensures WellFormed(m) && m.rows == r && m.cols == c
    ensures forall i: nat, j: nat :: i < r && j < c ==> At(m, i, j) == v
    ensures forall k :: 0 <= k < |m.elems| ==> m.elems[k] == v
  {
    var m := Tabulate(r, c, (i: nat, j: nat) => v);
    forall k | 0 <= k < |m.elems| ensures m.elems[k] == v {
      LinearInBounds(k, r, c);
      assert AtLinear(m, k) == At(m, k / c, k % c);
    }
    m
  }

  /** `StreamIdentity(r, c)`: square traits, `r == c` asserted; element `(i, j)` is 1 on the
      diagonal and 0 elsewhere. */
  function Identity(t: TensorTraits.Traits, r: nat, c: nat): (m: Mat)
    requires TensorTraits.IsSquare(t) && r == c && ResizeAllowed(t, r, c)
    ensures WellFormed(m) && m.rows == r && m.cols == c
    ensures forall i: nat, j: nat :: i < r && j < c ==> At(m, i, j) == if i == j then 1 else 0
  {
    Tabulate(r, c, (i: nat, j: nat) => if i == j then 1 else 0)
  }

  /** `StreamDiagonal(v)`: both dimensions are the size of the vector stream `v`; element
      `(i, i)` is `v(i)` and every other element is 0. */
  function Diagonal(v: Mat): (m: Mat)
    requires WellFormed(v)
    ensures WellFormed(m) && m.rows == Size(v) && m.cols == Size(v)
    ensures forall i: nat, j: nat :: i < Size(v) && j < Size(v) ==>
      At(m, i, j) == if i == j then AtLinear(v, i) else 0
  {
    Tabulate(Size(v), Size(v), (i: nat, j: nat) requires i < Size(v) => if i == j then AtLinear(v, i) else 0)
  }

  /** The compile-time dimensions of `StreamDiagonal<E>`: length by length, maximum length by
      maximum length of the vector type. */
  function DiagonalTraits(t: TensorTraits.Traits): (d: TensorTraits.Traits)
    requires IsVector(t)
    ensures TensorTraits.IsSquare(d) && d.elem == t.elem
    ensures d.rows == d.cols == VectorDimsOf(t).length
    ensures TensorTraits.HasValidTraits(t) ==> TensorTraits.HasValidTraits(d)
  {
    var v := VectorDimsOf(t);
    TensorTraits.Traits(t.elem, v.length, v.length, v.maxLength, v.maxLength)
  }

  // ----- Properties -----

  /** `consts<Vector3>(2)`: size 3, every element 2. */
  lemma ConstantsExample()
    ensures Constants(TensorTraits.Traits(TensorTraits.Float, 3, 1, 3, 1), 2, 3, 1).elems == [2, 2, 2]
  {
    var m := Constants(TensorTraits.Traits(TensorTraits.Float, 3, 1, 3, 1), 2, 3, 1);
    assert m.elems[0] == 2 && m.elems[1] == 2 && m.elems[2] == 2;
  }

  /** The sum of the first `n` elements of a constant stream is `n * v`. */
  lemma {:induction false} ConstantsSum(t: TensorTraits.Traits, v: int, r: nat, c: nat, n: nat)
    requires ResizeAllowed(t, r, c) && n <= r * c
    ensures Reductions.SumTo(Constants(t, v, r, c).elems, n) == n * v
  {
    if n > 0 {
      var s := Constants(t, v, r, c).elems;
      ConstantsSum(t, v, r, c, n - 1);
      assert Reductions.SumTo(s, n) == Reductions.SumTo(s, n - 1) + s[n - 1];
      assert s[n - 1] == v;
      assert (n - 1) * v + v == n * v;
    }
  }

  /** The trace of an `n` by `n` identity is `n`. */
  lemma IdentityTrace(t: TensorTraits.Traits, n: nat)
    requires TensorTraits.IsSquare(t) && ResizeAllowed(t, n, n)
    ensures Reductions.TraceTo(Identity(t, n, n), n) == n
  {
    IdentityTracePrefix(Identity(t, n, n), n, n);
  }

  lemma {:induction false} IdentityTracePrefix(m: Mat, n: nat, p: nat)
    requires WellFormed(m) && m.rows == n && m.cols == n && p <= n
    requires forall i: nat, j: nat :: i < n && j < n ==> At(m, i, j) == if i == j then 1 else 0
    ensures Reductions.TraceTo(m, p) == p
  {
    if p > 0 {
      IdentityTracePrefix(m, n, p - 1);
    }
  }

  /** The identity is a unit of `StreamMultiply` on both sides. */
  lemma IdentityIsUnit(t: TensorTraits.Traits, n: nat, d: Mat)
    requires TensorTraits.IsSquare(t) && ResizeAllowed(t, n, n) && WellFormed(d)
    ensures d.rows == n ==> Expressions.Multiply(Identity(t, n, n), d) == d
    ensures d.cols == n ==> Expressions.Multiply(d, Identity(t, n, n)) == d
  {
    var e := Identity(t, n, n);
    if d.rows == n {
      var p := Expressions.Multiply(e, d);
      forall i: nat, j: nat | i < p.rows && j < p.cols ensures At(p, i, j) == At(d, i, j) {
        IdentityLeftSum(e, d, i, j, n);
      }
      MatExtensionality(p, d);
    }
    if d.cols == n {
      var p := Expressions.Multiply(d, e);
      forall i: nat, j: nat | i < p.rows && j < p.cols ensures At(p, i, j) == At(d, i, j) {
        IdentityRightSum(d, e, i, j, n);
      }
      MatExtensionality(p, d);
    }
  }

  /** Summing `e(i, k) * d(k, j)` over `k < p` picks out `d(i, j)` once `p` passes `i`. */
  lemma {:induction false} IdentityLeftSum(e: Mat, d: Mat, i: nat, j: nat, p: nat)
    requires WellFormed(e) && WellFormed(d) && e.cols == d.rows && e.rows == e.cols
    requires forall a: nat, b: nat :: a < e.rows && b < e.cols ==> At(e, a, b) == if a == b then 1 else 0
    requires i < e.rows && j < d.cols && p <= e.cols
    ensures Expressions.RowColSum(e, d, i, j, p) == if i < p then At(d, i, j) else 0
  {
    if p > 0 {
      IdentityLeftSum(e, d, i, j, p - 1);
    }
  }

  /** Summing `d(i, k) * e(k, j)` over `k < p` picks out `d(i, j)` once `p` passes `j`. */
  lemma {:induction false} IdentityRightSum(d: Mat, e: Mat, i: nat, j: nat, p: nat)
    requires WellFormed(e) && WellFormed(d) && d.cols == e.rows && e.rows == e.cols
    requires forall a: nat, b: nat :: a < e.rows && b < e.cols ==> At(e, a, b) == if a == b then 1 else 0
    requires i < d.rows && j < e.cols && p <= d.cols
    ensures Expressions.RowColSum(d, e, i, j, p) == if j < p then At(d, i, j) else 0
  {
    if p > 0 {
      IdentityRightSum(d, e, i, j, p - 1);
    }
  }

  /** The trace of a diagonal stream is the sum of its vector. */
  lemma {:induction false} DiagonalTrace(v: Mat, n: nat)
    requires WellFormed(v) && n <= Size(v)
    ensures Reductions.TraceTo(Diagonal(v), n) == Reductions.SumTo(v.elems, n)
  {
    if n > 0 {
      DiagonalTrace(v, n - 1);
    }
  }

  /** The diagonal stream of a vector of ones is the identity. */
  lemma DiagonalOfOnes(t: TensorTraits.Traits, v: Mat)
    requires WellFormed(v) && TensorTraits.IsSquare(t) && ResizeAllowed(t, Size(v), Size(v))
    requires forall k :: 0 <= k < |v.elems| ==> v.elems[k] == 1
    ensures Diagonal(v) == Identity(t, Size(v), Size(v))
  {
    MatExtensionality(Diagonal(v), Identity(t, Size(v), Size(v)));
  }
}
