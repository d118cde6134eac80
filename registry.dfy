// What `autocode()` in setup.py enumerates: the Python classes it registers (`Vector<n>`,
// `RowVector<n>`, `Matrix<r>x<c>`, all over doubles), the `__mul__` overloads between them, and
// the module functions `trace`, `dot` and `cross`. The generator writes C++ text; the model keeps
// the sequence of entities each loop emits, in emission order.

module Registry {
  import TensorTraits
  import opened VectorTraits
  import Expressions
  import Reductions

  /** `_SQR` and `_ALL`: every shape up to `_ALL`, only square shapes up to `_SQR`. */
  const Sqr: nat := 6
  const All: nat := 4

  /** A generated Python class, named after its C++ type `lin::Vectord<n>`,
      `lin::RowVectord<n>` or `lin::Matrixd<rows, cols>`. */
  datatype PyType = Vector(n: nat) | RowVector(n: nat) | Matrix(rows: nat, cols: nat)

  function Rows(t: PyType): nat
  {
    match t
    case Vector(n) => n
    case RowVector(_) => 1
    case Matrix(r, _) => r
  }

  function Cols(t: PyType): nat
  {
    match t
    case Vector(_) => 1
    case RowVector(n) => n
    case Matrix(_, c) => c
  }

  function Size(t: PyType): nat { Rows(t) * Cols(t) }

  /** The classes registered by the three loops: column and row vectors of length 2 to `_SQR`,
      matrices with both dimensions 2 to `_ALL`, and square matrices up to `_SQR`. */
  predicate InRegistry(t: PyType)
  {
    match t
    case Vector(n) => 2 <= n <= Sqr
    case RowVector(n) => 2 <= n <= Sqr
    case Matrix(r, c) => (2 <= r <= All && 2 <= c <= All) || (All < r <= Sqr && c == r)
  }

  /** The traits of the C++ type behind a class: fixed dimensions, double elements. */
  function TraitsOf(t: PyType): (tr: TensorTraits.Traits)
    ensures tr.rows == Rows(t) && tr.cols == Cols(t) && tr.maxRows == Rows(t) && tr.maxCols == Cols(t)
  {
    TensorTraits.Traits(TensorTraits.Double, Rows(t), Cols(t), Rows(t), Cols(t))
  }

  /** The class of an evaluated expression (`decltype(x.eval())`): a vector, a row vector or a
      matrix as the traits classify it. */
  function PyTypeOf(tr: TensorTraits.Traits): (t: PyType)
    ensures IsColVector(tr) ==> t == Vector(tr.rows)
    ensures IsRowVector(tr) ==> t == RowVector(tr.cols)
    ensures IsMatrix(tr) ==> t == Matrix(tr.rows, tr.cols)
  {
    Classified(tr);
    if IsColVector(tr) then Vector(tr.rows)
    else if IsRowVector(tr) then RowVector(tr.cols)
    else Matrix(tr.rows, tr.cols)
  }

  /** Every registered class is the class its own traits evaluate to, and none is 1x1. */
  lemma RegistryTypesRoundTrip(t: PyType)
    requires InRegistry(t)
    ensures PyTypeOf(TraitsOf(t)) == t
    ensures Size(t) > 1 && TensorTraits.HasValidTraits(TraitsOf(t))
    ensures t.Vector? <==> IsColVector(TraitsOf(t))
    ensures t.RowVector? <==> IsRowVector(TraitsOf(t))
    ensures t.Matrix? <==> IsMatrix(TraitsOf(t))
  {
    Classified(TraitsOf(t));
  }

  /** No class is 1x1, and every class has at least two elements. */
  lemma NoOneByOne(t: PyType)
    requires InRegistry(t)
    ensures !(Rows(t) == 1 && Cols(t) == 1) && Size(t) >= 2 && Size(t) <= Sqr * Sqr
  {
    match t
    case Vector(n) =>
    case RowVector(n) =>
    case Matrix(r, c) =>
      assert r * c <= Sqr * Sqr by {
        if r <= All {
          assert r * c <= All * All;
        }
      }
      assert r * c >= 2 * 2;
  }

  /** No entry of `s` is emitted twice. */
  predicate Distinct<T(==)>(s: seq<T>)
  {
    forall a, b :: 0 <= a < b < |s| ==> s[a] != s[b]
  }

  /** Emitting an entry that is not yet there keeps the emitted sequence free of repeats. */
  lemma DistinctAppend<T>(s: seq<T>, x: T)
    requires Distinct(s) && x !in s
    ensures Distinct(s + [x])
  {
  }

  /** The class registration loops of `autocode()`: vectors, row vectors, then matrices. Each
      registered class appears once, and exactly the registry's classes appear. */
  method EmitClasses() returns (types: seq<PyType>)
    ensures forall t :: t in types <==> InRegistry(t)
    ensures Distinct(types)
  {
    types := [];
    var i := 2;
    while i <= Sqr
      invariant 2 <= i <= Sqr + 1
      invariant forall t :: t in types <==> t.Vector? && 2 <= t.n < i
      invariant Distinct(types)
    {
      types := types + [Vector(i)];
      i := i + 1;
    }
    i := 2;
    while i <= Sqr
      invariant 2 <= i <= Sqr + 1
      invariant forall t :: t in types <==> (t.Vector? && 2 <= t.n <= Sqr) || (t.RowVector? && 2 <= t.n < i)
      invariant Distinct(types)
    {
      types := types + [RowVector(i)];
      i := i + 1;
    }
    i := 2;
    while i <= All
      invariant 2 <= i <= All + 1
      invariant forall t :: t in types <==> ((!t.Matrix? && InRegistry(t)) ||
        (t.Matrix? && 2 <= t.rows < i && 2 <= t.cols <= All))
      invariant Distinct(types)
    {
      var j := 2;
      while j <= All
        invariant 2 <= j <= All + 1
        invariant forall t :: t in types <==> ((!t.Matrix? && InRegistry(t)) ||
          (t.Matrix? && ((2 <= t.rows < i && 2 <= t.cols <= All) || (t.rows == i && 2 <= t.cols < j))))
        invariant Distinct(types)
      {
        types := types + [Matrix(i, j)];
        j := j + 1;
      }
      i := i + 1;
    }
    i := All + 1;
    while i <= Sqr
      invariant All + 1 <= i <= Sqr + 1
      invariant forall t :: t in types <==> ((!t.Matrix? && InRegistry(t)) ||
        (t.Matrix? && ((2 <= t.rows <= All && 2 <= t.cols <= All) || (All < t.rows < i && t.cols == t.rows))))
      invariant Distinct(types)
    {
      types := types + [Matrix(i, i)];
      i := i + 1;
    }
  }

  // ----- Matrix multiplication operators -----

  /** `Vector<i>.__mul__(RowVector<j>)`, emitted by the first block. */
  predicate OuterProductPair(l: PyType, r: PyType)
  {
    l.Vector? && r.RowVector? &&
    ((2 <= l.n <= All && 2 <= r.n <= All) || (All < l.n <= Sqr && r.n == l.n))
  }

  /** `Matrix<i>x<j>.__mul__(Vector<j>)` and `.__mul__(Matrix<j>x<k>)`, emitted by the second
      block (the `k == 1` iteration is the vector). */
  predicate MatrixProductPair(l: PyType, r: PyType)
  {
    l.Matrix? &&
    ((2 <= l.rows <= All && 2 <= l.cols <= All &&
      ((r.Vector? && r.n == l.cols) || (r.Matrix? && r.rows == l.cols && 2 <= r.cols <= All))) ||
     (All < l.rows <= Sqr && l.cols == l.rows &&
      ((r.Matrix? && r.rows == l.rows && r.cols == l.rows) || (r.Vector? && r.n == l.rows))))
  }

  /** `RowVector<i>.__mul__(Matrix<i>x<k>)`, emitted by the third block. */
  predicate RowProductPair(l: PyType, r: PyType)
  {
    l.RowVector? && r.Matrix? && r.rows == l.n &&
    ((2 <= l.n <= All && 2 <= r.cols <= All) || (All < l.n <= Sqr && r.cols == l.n))
  }

  predicate MulEmitted(l: PyType, r: PyType)
  {
    OuterProductPair(l, r) || MatrixProductPair(l, r) || RowProductPair(l, r)
  }

  /** The class of `(self * other).eval()`. */
  function MulResult(l: PyType, r: PyType): PyType
  {
    PyTypeOf(Expressions.MultiplyTraits(TraitsOf(l), TraitsOf(r)))
  }

  /** The `__mul__` loops of `autocode()`, in emission order. */
  method EmitMulOperators() returns (pairs: seq<(PyType, PyType)>)
    ensures forall p :: p in pairs <==> MulEmitted(p.0, p.1)
    ensures Distinct(pairs)
  {
    pairs := [];
    var i := 2;
    while i <= All
      invariant 2 <= i <= All + 1
      invariant forall p :: p in pairs <==> OuterProductPair(p.0, p.1) && p.0.n < i
      invariant Distinct(pairs)
    {
      var j := 2;
      while j <= All
        invariant 2 <= j <= All + 1
        invariant forall p :: p in pairs <==> OuterProductPair(p.0, p.1) && (p.0.n < i || (p.0.n == i && p.1.n < j))
        invariant Distinct(pairs)
      {
        DistinctAppend(pairs, (Vector(i), RowVector(j)));
        pairs := pairs + [(Vector(i), RowVector(j))];
        j := j + 1;
      }
      i := i + 1;
    }
    i := All + 1;
    while i <= Sqr
      invariant All + 1 <= i <= Sqr + 1
      invariant forall p :: p in pairs <==> OuterProductPair(p.0, p.1) && p.0.n < i
      invariant Distinct(pairs)
    {
      DistinctAppend(pairs, (Vector(i), RowVector(i)));
      pairs := pairs + [(Vector(i), RowVector(i))];
      i := i + 1;
    }
    ghost var outer := pairs;
    i := 2;
    while i <= All
      invariant 2 <= i <= All + 1
      invariant forall p :: p in pairs <==> p in outer || (MatrixProductPair(p.0, p.1) && p.0.rows < i)
      invariant Distinct(pairs)
    {
      var j := 2;
      while j <= All
        invariant 2 <= j <= All + 1
        invariant forall p :: p in pairs <==> (p in outer ||
          (MatrixProductPair(p.0, p.1) && (p.0.rows < i || (p.0.rows == i && p.0.cols < j))))
        invariant Distinct(pairs)
      {
        var k := 1;
        while k <= All
          invariant 1 <= k <= All + 1
          invariant forall p :: p in pairs <==> (p in outer ||
            (MatrixProductPair(p.0, p.1) && (p.0.rows < i || (p.0.rows == i && p.0.cols < j) ||
              (p.0.rows == i && p.0.cols == j && Cols(p.1) < k))))
          invariant Distinct(pairs)
        {
          var other := if k == 1 then Vector(j) else Matrix(j, k);
          DistinctAppend(pairs, (Matrix(i, j), other));
          pairs := pairs + [(Matrix(i, j), other)];
          k := k + 1;
        }
        j := j + 1;
      }
      i := i + 1;
    }
    i := All + 1;
    while i <= Sqr
      invariant All + 1 <= i <= Sqr + 1
      invariant forall p :: p in pairs <==> p in outer || (MatrixProductPair(p.0, p.1) && p.0.rows < i)
      invariant Distinct(pairs)
    {
      DistinctAppend(pairs, (Matrix(i, i), Matrix(i, i)));
      pairs := pairs + [(Matrix(i, i), Matrix(i, i))];
      DistinctAppend(pairs, (Matrix(i, i), Vector(i)));
      pairs := pairs + [(Matrix(i, i), Vector(i))];
      i := i + 1;
    }
    ghost var matrices := pairs;
    i := 2;
    while i <= All
      invariant 2 <= i <= All + 1
      invariant forall p :: p in pairs <==> p in matrices || (RowProductPair(p.0, p.1) && p.0.n < i)
      invariant Distinct(pairs)
    {
      var k := 2;
      while k <= All
        invariant 2 <= k <= All + 1
        invariant forall p :: p in pairs <==> (p in matrices ||
          (RowProductPair(p.0, p.1) && (p.0.n < i || (p.0.n == i && p.1.cols < k))))
        invariant Distinct(pairs)
      {
        DistinctAppend(pairs, (RowVector(i), Matrix(i, k)));
        pairs := pairs + [(RowVector(i), Matrix(i, k))];
        k := k + 1;
      }
      i := i + 1;
    }
    i := All + 1;
    while i <= Sqr
      invariant All + 1 <= i <= Sqr + 1
      invariant forall p :: p in pairs <==> p in matrices || (RowProductPair(p.0, p.1) && p.0.n < i)
      invariant Distinct(pairs)
    {
      DistinctAppend(pairs, (RowVector(i), Matrix(i, i)));
      pairs := pairs + [(RowVector(i), Matrix(i, i))];
      i := i + 1;
    }
  }

  /** A `__mul__` overload is emitted exactly for the pairs of registered classes whose
      dimensions agree and whose product is itself a registered class. */
  lemma MulEmittedIff(l: PyType, r: PyType)
    ensures MulEmitted(l, r) <==>
      InRegistry(l) && InRegistry(r) && Expressions.CanMultiply(TraitsOf(l), TraitsOf(r)) &&
      InRegistry(MulResult(l, r))
  {
    var tr := Expressions.MultiplyTraits(TraitsOf(l), TraitsOf(r));
    Classified(tr);
    if InRegistry(l) && InRegistry(r) && Expressions.CanMultiply(TraitsOf(l), TraitsOf(r)) {
      NoOneByOne(l);
      NoOneByOne(r);
    }
  }

  /** Every emitted product has the shape `(left.rows, right.cols)`. */
  lemma MulResultShape(l: PyType, r: PyType)
    requires MulEmitted(l, r)
    ensures Rows(MulResult(l, r)) == Rows(l) && Cols(MulResult(l, r)) == Cols(r)
  {
    Classified(Expressions.MultiplyTraits(TraitsOf(l), TraitsOf(r)));
  }

  /** Column vector times row vector is the only product of two vectors, and it yields the
      `i` by `j` matrix; beyond `_ALL` only products of one size appear. */
  lemma MulPairsOfVectors(l: PyType, r: PyType)
    requires MulEmitted(l, r)
    ensures !l.Matrix? && !r.Matrix? ==> l.Vector? && r.RowVector? && MulResult(l, r) == Matrix(l.n, r.n)
    ensures Rows(l) > All || Cols(l) > All || Rows(r) > All || Cols(r) > All ==>
      exists n :: All < n <= Sqr && {Rows(l), Cols(l), Rows(r), Cols(r)} <= {1, n}
  {
    MulResultShape(l, r);
    Classified(Expressions.MultiplyTraits(TraitsOf(l), TraitsOf(r)));
    if Rows(l) > All || Cols(l) > All || Rows(r) > All || Cols(r) > All {
      var n := if Rows(l) > 1 then Rows(l) else Cols(l);
      assert All < n <= Sqr && {Rows(l), Cols(l), Rows(r), Cols(r)} <= {1, n};
    }
  }

  // ----- Module functions -----

  /** `trace` is emitted for the square matrix classes. */
  predicate TraceEmitted(t: PyType)
  {
    t.Matrix? && ((2 <= t.rows <= All && 2 <= t.cols <= All && t.rows == t.cols) || (All < t.rows <= Sqr && t.cols == t.rows))
  }

  /** `dot` is emitted for two vectors of one length, in either orientation. */
  predicate DotEmitted(u: PyType, v: PyType)
  {
    !u.Matrix? && !v.Matrix? && 2 <= u.n <= Sqr && v.n == u.n
  }

  /** The operator loops of `autocode()`: per vector length the four `dot` overloads, and per
      matrix class a `trace` when the class is square. */
  method EmitOperators() returns (traces: seq<PyType>, dots: seq<(PyType, PyType)>)
    ensures forall t :: t in traces <==> TraceEmitted(t)
    ensures Distinct(traces)
    ensures forall p :: p in dots <==> DotEmitted(p.0, p.1)
    ensures Distinct(dots)
  {
    traces, dots := [], [];
    var i := 2;
    while i <= Sqr
      invariant 2 <= i <= Sqr + 1
      invariant forall p :: p in dots <==> DotEmitted(p.0, p.1) && (p.0.Vector? && p.0.n < i)
      invariant Distinct(dots)
    {
      dots := dots + [(Vector(i), Vector(i)), (Vector(i), RowVector(i))];
      i := i + 1;
    }
    i := 2;
    while i <= Sqr
      invariant 2 <= i <= Sqr + 1
      invariant forall p :: p in dots <==> DotEmitted(p.0, p.1) && (p.0.Vector? || p.0.n < i)
      invariant Distinct(dots)
    {
      dots := dots + [(RowVector(i), RowVector(i)), (RowVector(i), Vector(i))];
      i := i + 1;
    }
    i := 2;
    while i <= All
      invariant 2 <= i <= All + 1
      invariant forall t :: t in traces <==> TraceEmitted(t) && t.rows < i
      invariant Distinct(traces)
    {
      var j := 2;
      while j <= All
        invariant 2 <= j <= All + 1
        invariant forall t :: t in traces <==> TraceEmitted(t) && (t.rows < i || (t.rows == i && t.cols < j))
        invariant Distinct(traces)
      {
        if i == j {
          traces := traces + [Matrix(i, j)];
        }
        j := j + 1;
      }
      i := i + 1;
    }
    i := All + 1;
    while i <= Sqr
      invariant All + 1 <= i <= Sqr + 1
      invariant forall t :: t in traces <==> TraceEmitted(t) && t.rows < i
      invariant Distinct(traces)
    {
      traces := traces + [Matrix(i, i)];
      i := i + 1;
    }
  }

  /** `trace` exists exactly for the registered classes that `trace` accepts (square ones). */
  lemma TraceEmittedIff(t: PyType)
    ensures TraceEmitted(t) <==> InRegistry(t) && t.Matrix? && Reductions.CanTrace(TraitsOf(t))
  {
    TensorTraits.SquareIffEqualMaxima(TraitsOf(t));
  }

  /** `dot` exists exactly for the pairs of registered vector classes that `dot` accepts. */
  lemma DotEmittedIff(u: PyType, v: PyType)
    ensures DotEmitted(u, v) <==>
      InRegistry(u) && InRegistry(v) && !u.Matrix? && !v.Matrix? && Reductions.CanDot(TraitsOf(u), TraitsOf(v))
  {
    Classified(TraitsOf(u));
    Classified(TraitsOf(v));
    var ts := [TraitsOf(u), TraitsOf(v)];
    var s := seq(|ts| - 1, k requires 0 <= k < |ts| - 1 => SameVectorDimsImpl(ts[0], ts[k + 1]));
    assert s == [SameVectorDimsImpl(TraitsOf(u), TraitsOf(v))];
  }

  /** The four `cross` overloads, `(u, v, result)`. */
  function CrossBindings(): (s: seq<(PyType, PyType, PyType)>)
    ensures |s| == 4
  {
    [(Vector(3), Vector(3), Vector(3)), (Vector(3), RowVector(3), Vector(3)),
     (RowVector(3), Vector(3), RowVector(3)), (RowVector(3), RowVector(3), RowVector(3))]
  }

  /** Every `cross` overload takes two registered vectors of length 3 that `cross` accepts, and
      returns the class of the left operand, which is the class `cross` evaluates to. */
  lemma CrossBindingsFollowLeft()
    ensures forall e :: e in CrossBindings() ==>
      InRegistry(e.0) && InRegistry(e.1) && !e.0.Matrix? && !e.1.Matrix? && e.0.n == 3 && e.1.n == 3 &&
      e.2 == e.0 && Reductions.CanCross(TraitsOf(e.0), TraitsOf(e.1)) &&
      TraitsOf(e.2).rows == Reductions.CrossTraits(TraitsOf(e.0)).rows &&
      TraitsOf(e.2).cols == Reductions.CrossTraits(TraitsOf(e.0)).cols
  {
    forall e | e in CrossBindings()
      ensures Reductions.CanCross(TraitsOf(e.0), TraitsOf(e.1))
    {
      Classified(TraitsOf(e.0));
      Classified(TraitsOf(e.1));
      Reductions.CanCrossIff(TraitsOf(e.0), TraitsOf(e.1));
    }
  }

  /** `transpose`, emitted for every class, returns a registered class again: a vector becomes
      the row vector of its length and a matrix swaps its dimensions. */
  lemma TransposeClosed(t: PyType)
    requires InRegistry(t)
    ensures var r := PyTypeOf(Expressions.TransposeTraits(TraitsOf(t)));
            InRegistry(r) && Rows(r) == Cols(t) && Cols(r) == Rows(t) &&
            (t.Vector? ==> r == RowVector(t.n)) && (t.RowVector? ==> r == Vector(t.n))
  {
    Classified(Expressions.TransposeTraits(TraitsOf(t)));
  }
}
