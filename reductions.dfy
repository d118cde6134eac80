// The reductions: `sum` and `fro` of lin/core/operations/tensor_operations.hpp (and the `fro` of
// include/lin/core/tensor/inl/operations.inl), `trace` of lin/core/operations/matrix_operations.hpp,
// and `dot` and `cross` of include/lin/core/operations/inl/vector_operations.inl. Each loop
// starts from the element at index 0 and accumulates the rest, so each needs a non-empty stream.

module Reductions {
  import opened TraitUtilities
  import TensorTraits
  import opened VectorTraits
  import opened RowMajor

  // ----- Specifications -----

  /** `s[0] + ... + s[n - 1]`. */
  function SumTo(s: seq<int>, n: nat): int
    requires n <= |s|
  {
    if n == 0 then 0 else SumTo(s, n - 1) + s[n - 1]
  }

  /** `u[0] * v[0] + ... + u[n - 1] * v[n - 1]`. */
  function DotTo(u: seq<int>, v: seq<int>, n: nat): int
    requires n <= |u| && n <= |v|
  {
    if n == 0 then 0 else DotTo(u, v, n - 1) + u[n - 1] * v[n - 1]
  }

  /** `s[0]^2 + ... + s[n - 1]^2`. */
  function SumSquaresTo(s: seq<int>, n: nat): int
    requires n <= |s|
  {
    if n == 0 then 0 else SumSquaresTo(s, n - 1) + s[n - 1] * s[n - 1]
  }

  /** `c(0, 0) + ... + c(n - 1, n - 1)`. */
  function TraceTo(m: Mat, n: nat): int
    requires WellFormed(m) && n <= m.rows && n <= m.cols
  {
    if n == 0 then 0 else TraceTo(m, n - 1) + At(m, n - 1, n - 1)
  }

  // ----- The loops -----

  /** `sum(c)`: `c(0)` plus every later linear element. */
  method Sum(c: Mat) returns (x: int)
    requires WellFormed(c) && Size(c) > 0
    ensures x == SumTo(c.elems, Size(c))
  {
    x := AtLinear(c, 0);
    var i := 1;
    while i < Size(c)
      invariant 1 <= i <= Size(c)
      invariant x == SumTo(c.elems, i)
    {
      x := x + AtLinear(c, i);
      i := i + 1;
    }
  }

  /** `fro(c)`: `c(0) * c(0)` plus the square of every later linear element. */
  method Fro(c: Mat) returns (x: int)
    requires WellFormed(c) && Size(c) > 0
    ensures x == SumSquaresTo(c.elems, Size(c))
  {
    x := AtLinear(c, 0) * AtLinear(c, 0);
    var i := 1;
    while i < Size(c)
      invariant 1 <= i <= Size(c)
      invariant x == SumSquaresTo(c.elems, i)
    {
      x := x + AtLinear(c, i) * AtLinear(c, i);
      i := i + 1;
    }
  }

  /** `fro(t)` of a scalar: `t * t`, the sum of squares of the one-element sequence. */
  function FroScalar(t: int): (x: int)
    ensures x >= 0 && x == SumSquaresTo([t], 1)
  {
    t * t
  }

  /** `trace` is enabled only for square types. */
  predicate CanTrace(t: TensorTraits.Traits) { TensorTraits.IsSquare(t) }

  /** `trace(c)`: asserts a square runtime shape, then `c(0, 0)` plus every later diagonal
      element. */
  method Trace(c: Mat) returns (x: int)
    requires WellFormed(c) && c.rows == c.cols && c.rows > 0
    ensures x == TraceTo(c, c.rows)
  {
    x := At(c, 0, 0);
    var i := 1;
    while i < c.rows
      invariant 1 <= i <= c.rows
      invariant x == TraceTo(c, i)
    {
      x := x + At(c, i, i);
      i := i + 1;
    }
  }

  /** `can_dot<C, D>`: both vectors of the same length and maximum length. */
  predicate CanDot(c: TensorTraits.Traits, d: TensorTraits.Traits) { HaveSameVectorDimensionsInl([c, d]) }

  /** `dot(u, v)`: asserts equal sizes, then `u(0) * v(0)` plus every later product. */
  method Dot(u: Mat, v: Mat) returns (x: int)
    requires WellFormed(u) && WellFormed(v) && Size(u) == Size(v) && Size(u) > 0
    ensures x == DotTo(u.elems, v.elems, Size(u))
  {
    x := AtLinear(u, 0) * AtLinear(v, 0);
    var i := 1;
    while i < Size(u)
      invariant 1 <= i <= Size(u)
      invariant x == DotTo(u.elems, v.elems, i)
    {
      x := x + AtLinear(u, i) * AtLinear(v, i);
      i := i + 1;
    }
  }

  // ----- Properties of the reductions -----

  /** The sum of an element-wise sum is the sum of the sums. */
  lemma {:induction false} SumToAdditive(s: seq<int>, t: seq<int>, st: seq<int>, n: nat)
    requires n <= |s| && n <= |t| && n <= |st|
    requires forall k :: 0 <= k < n ==> st[k] == s[k] + t[k]
    ensures SumTo(st, n) == SumTo(s, n) + SumTo(t, n)
  {
    if n > 0 {
      SumToAdditive(s, t, st, n - 1);
    }
  }

  /** `dot` is symmetric, `fro(c)` is `dot(c, c)`, and neither sum of squares is negative. */
  lemma {:induction false} DotFacts(u: seq<int>, v: seq<int>, n: nat)
    requires n <= |u| && n <= |v|
    ensures DotTo(u, v, n) == DotTo(v, u, n)
    ensures SumSquaresTo(u, n) == DotTo(u, u, n)
    ensures SumSquaresTo(u, n) >= 0
  {
    if n > 0 {
      DotFacts(u, v, n - 1);
      assert u[n - 1] * v[n - 1] == v[n - 1] * u[n - 1];
      assert u[n - 1] * u[n - 1] >= 0;
    }
  }

  /** The values the source's own checks expect: `fro` of [0, 1, 2, 3, -1, 0] is 15, the trace of
      [[2,5,6],[1,4,3],[0,-7,-1]] is 5 and the trace of [[0,1,2],[3,4,5],[6,7,8]] is 12. */
  lemma ReductionExamples()
    ensures SumSquaresTo([0, 1, 2, 3, -1, 0], 6) == 15
    ensures TraceTo(Mat(3, 3, [2, 5, 6, 1, 4, 3, 0, -7, -1]), 3) == 5
    ensures TraceTo(Mat(3, 3, [0, 1, 2, 3, 4, 5, 6, 7, 8]), 3) == 12
  {
    var a := Mat(3, 3, [2, 5, 6, 1, 4, 3, 0, -7, -1]);
    var b := Mat(3, 3, [0, 1, 2, 3, 4, 5, 6, 7, 8]);
    assert At(a, 0, 0) == 2 && At(a, 1, 1) == 4 && At(a, 2, 2) == -1;
    assert At(b, 0, 0) == 0 && At(b, 1, 1) == 4 && At(b, 2, 2) == 8;
  }

  // ----- Cross product -----

  /** `can_cross<C, D>`: `have_same_vector_dimensions<C, D, Vector3f>`. */
  predicate CanCross(c: TensorTraits.Traits, d: TensorTraits.Traits)
  {
    HaveSameVectorDimensionsInl([c, d, TensorTraits.Traits(TensorTraits.Float, 3, 1, 3, 1)])
  }

  /** The three components `u1 v2 - u2 v1`, `u2 v0 - u0 v2`, `u0 v1 - u1 v0`. */
  function CrossElems(u: seq<int>, v: seq<int>): (w: seq<int>)
    requires |u| == 3 && |v| == 3
    ensures |w| == 3
  {
    [u[1] * v[2] - u[2] * v[1], u[2] * v[0] - u[0] * v[2], u[0] * v[1] - u[1] * v[0]]
  }

  /** The type `cross` returns: a column vector of the left operand's lengths when the left
      operand is a column vector, a row vector of them otherwise. */
  function CrossTraits(c: TensorTraits.Traits): (r: TensorTraits.Traits)
    requires IsVector(c)
    ensures IsVector(r) && VectorDimsOf(r) == VectorDimsOf(c)
    ensures IsColVector(r) <==> IsColVector(c)
  {
    var l := VectorDimsOf(c);
    if IsColVector(c) then TensorTraits.Traits(c.elem, l.length, 1, l.maxLength, 1)
    else TensorTraits.Traits(c.elem, 1, l.length, 1, l.maxLength)
  }

  /** `cross(u, v)`: a 3x1 value for a column-vector left operand and a 1x3 value otherwise,
      holding the three components read through the linear accessors. */
  function Cross(c: TensorTraits.Traits, u: Mat, v: Mat): (w: Mat)
    requires IsVector(c) && WellFormed(u) && WellFormed(v) && Size(u) == 3 && Size(v) == 3
    ensures WellFormed(w) && w.elems == CrossElems(u.elems, v.elems)
    ensures if IsColVector(c) then w.rows == 3 && w.cols == 1 else w.rows == 1 && w.cols == 3
  {
    var e := [AtLinear(u, 1) * AtLinear(v, 2) - AtLinear(u, 2) * AtLinear(v, 1),
              AtLinear(u, 2) * AtLinear(v, 0) - AtLinear(u, 0) * AtLinear(v, 2),
              AtLinear(u, 0) * AtLinear(v, 1) - AtLinear(u, 1) * AtLinear(v, 0)];
    if IsColVector(c) then Mat(3, 1, e) else Mat(1, 3, e)
  }

  /** `can_cross` admits exactly pairs of vectors of length 3 and maximum length 3, of either
      orientation. */
  lemma CanCrossIff(c: TensorTraits.Traits, d: TensorTraits.Traits)
    ensures CanCross(c, d) <==>
      IsVector(c) && IsVector(d) && VectorDimsOf(c) == VectorDims(3, 3) && VectorDimsOf(d) == VectorDims(3, 3)
    ensures CanCross(TensorTraits.Traits(TensorTraits.Double, 3, 1, 3, 1), TensorTraits.Traits(TensorTraits.Double, 1, 3, 1, 3))
  {
    var v3 := TensorTraits.Traits(TensorTraits.Float, 3, 1, 3, 1);
    assert IsColVector(v3) && VectorDimsOf(v3) == VectorDims(3, 3);
    var ts := [c, d, v3];
    var p := [SameVectorDimsImpl(c, d), SameVectorDimsImpl(c, v3)];
    assert seq(|ts| - 1, k requires 0 <= k < |ts| - 1 => SameVectorDimsImpl(ts[0], ts[k + 1])) == p;
    assert Conjunction(p) <==> p[0] && p[1];
    var r := TensorTraits.Traits(TensorTraits.Double, 1, 3, 1, 3);
    var q := TensorTraits.Traits(TensorTraits.Double, 3, 1, 3, 1);
    assert IsRowVector(r) && VectorDimsOf(r) == VectorDims(3, 3);
    assert IsColVector(q) && VectorDimsOf(q) == VectorDims(3, 3);
    var qs := [q, r, v3];
    var pq := [SameVectorDimsImpl(q, r), SameVectorDimsImpl(q, v3)];
    assert seq(|qs| - 1, k requires 0 <= k < |qs| - 1 => SameVectorDimsImpl(qs[0], qs[k + 1])) == pq;
    assert Conjunction(pq) <==> pq[0] && pq[1];
  }

  /** `cross(u, v) == -cross(v, u)`, so `cross(u, u) == 0`. */
  lemma CrossAnticommutes(u: seq<int>, v: seq<int>)
    requires |u| == 3 && |v| == 3
    ensures forall k :: 0 <= k < 3 ==> CrossElems(u, v)[k] == -CrossElems(v, u)[k]
    ensures CrossElems(u, u) == [0, 0, 0]
  {
  }

  /** A three-term dot product, written out. */
  lemma DotThree(w: seq<int>, u: seq<int>)
    requires |w| == 3 && |u| == 3
    ensures DotTo(w, u, 3) == w[0] * u[0] + w[1] * u[1] + w[2] * u[2]
  {
    assert DotTo(w, u, 1) == w[0] * u[0];
    assert DotTo(w, u, 2) == w[0] * u[0] + w[1] * u[1];
  }

  /** The cross product is orthogonal to both operands. */
  lemma CrossOrthogonal(u: seq<int>, v: seq<int>)
    requires |u| == 3 && |v| == 3
    ensures DotTo(CrossElems(u, v), u, 3) == 0
    ensures DotTo(CrossElems(u, v), v, 3) == 0
  {
    var w := CrossElems(u, v);
    DotThree(w, u);
    DotThree(w, v);
    TripleProductZero(u[0], u[1], u[2], v[0], v[1], v[2], w[0], w[1], w[2]);
  }

  /** A determinant with two equal rows vanishes: `(a x b) . a == 0 == (a x b) . b`. */
  lemma TripleProductZero(a0: int, a1: int, a2: int, b0: int, b1: int, b2: int, w0: int, w1: int, w2: int)
    requires w0 == a1 * b2 - a2 * b1 && w1 == a2 * b0 - a0 * b2 && w2 == a0 * b1 - a1 * b0
    ensures w0 * a0 + w1 * a1 + w2 * a2 == 0
    ensures w0 * b0 + w1 * b1 + w2 * b2 == 0
  {
    var p, q, r := a0 * a1, a1 * a2, a0 * a2;
    assert w0 * a0 == p * b2 - r * b1;
    assert w1 * a1 == q * b0 - p * b2;
    assert w2 * a2 == r * b1 - q * b0;
    var x, y, z := b0 * b1, b1 * b2, b0 * b2;
    assert w0 * b0 == a1 * z - a2 * x;
    assert w1 * b1 == a2 * x - a0 * y;
    assert w2 * b2 == a0 * y - a1 * z;
  }
}
