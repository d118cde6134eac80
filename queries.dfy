// The queries module: the comparison and logical functors of include/lin/queries/functors.hpp,
// their element-wise application in include/lin/queries/operations.hpp, and the `all`/`any`
// scans (with and without a predicate, include/lin/core/tensor/inl/operations.inl). A query
// stream has `bool` elements; here a truth value is stored as the integer 1 or 0, and an
// element counts as true when it is non-zero, as `bool(x)` does.

module Queries {
  import opened RowMajor

  /** `bool` converted to an element. */
  function FromBool(b: bool): (v: int)
    ensures (v != 0) == b && 0 <= v <= 1
  {
    if b then 1 else 0
  }

  /** `bool(x)`. */
  predicate Truthy(v: int) { v != 0 }

  /** The binary comparison and logical functors. */
  datatype Relation =
    EqualTo | Greater | GreaterEqual | Less | LessEqual | LogicalAnd | LogicalOr | NotEqualTo

  /** The call operator of each binary functor. */
  predicate Holds(r: Relation, a: int, b: int)
  {
    match r
    case EqualTo => a == b
    case Greater => a > b
    case GreaterEqual => a >= b
    case Less => a < b
    case LessEqual => a <= b
    case LogicalAnd => Truthy(a) && Truthy(b)
    case LogicalOr => Truthy(a) || Truthy(b)
    case NotEqualTo => a != b
  }

  /** The relations for which `r_ts<T>` is declared as an alias of `r_st<T>`. */
  predicate AliasedTs(r: Relation)
  {
    r == EqualTo || r == LogicalAnd || r == LogicalOr || r == NotEqualTo
  }

  /** A query functor: a binary functor, one with its left (`_st`) or right (`_ts`) operand
      bound to a scalar, or `logical_not`. `BoundRight` exists only for the four order
      relations, because the other `_ts` names are aliases of `_st`. */
  datatype Query =
    | Binary(r: Relation)
    | BoundLeft(r: Relation, t: int)
    | BoundRight(r: Relation, t: int)
    | LogicalNot

  /** The functor type the name `r_ts<T>` denotes. */
  function Ts(r: Relation, t: int): (q: Query)
    ensures AliasedTs(r) ==> q == BoundLeft(r, t)
    ensures !AliasedTs(r) ==> q == BoundRight(r, t)
  {
    if AliasedTs(r) then BoundLeft(r, t) else BoundRight(r, t)
  }

  function Arity(q: Query): (n: nat)
    ensures 1 <= n <= 2
  {
    if q.Binary? then 2 else 1
  }

  /** The functor's `operator()`. */
  predicate Eval(q: Query, args: seq<int>)
    requires |args| == Arity(q)
  {
    match q
    case Binary(r) => Holds(r, args[0], args[1])
    case BoundLeft(r, t) => Holds(r, t, args[0])
    case BoundRight(r, t) => Holds(r, args[0], t)
    case LogicalNot => !Truthy(args[0])
  }

  // ----- Functor properties -----

  /** `r_st(t)(u)` is `r(t, u)` and `r_ts(t)(u)` is `r(u, t)` for every relation: the aliases
      are sound because their relations are symmetric. */
  lemma OperandOrder(r: Relation, t: int, u: int)
    ensures Eval(BoundLeft(r, t), [u]) == Holds(r, t, u)
    ensures Eval(Ts(r, t), [u]) == Holds(r, u, t)
  {
    if AliasedTs(r) {
      SymmetricRelations(r, t, u);
    }
  }

  /** The four aliased relations are symmetric and the order relations are not. */
  lemma SymmetricRelations(r: Relation, a: int, b: int)
    ensures AliasedTs(r) ==> Holds(r, a, b) == Holds(r, b, a)
    ensures !AliasedTs(r) ==> Holds(r, 0, 1) != Holds(r, 1, 0)
  {
  }

  /** `greater` and `less` are converses, as are `greater_equal` and `less_equal`; `less_equal`
      is the negation of `greater`, and `not_equal_to` the negation of `equal_to`. */
  lemma ConverseRelations(a: int, b: int)
    ensures Holds(Greater, a, b) == Holds(Less, b, a)
    ensures Holds(GreaterEqual, a, b) == Holds(LessEqual, b, a)
    ensures Holds(LessEqual, a, b) == !Holds(Greater, a, b)
    ensures Holds(NotEqualTo, a, b) == !Holds(EqualTo, a, b)
  {
  }

  /** The functor checks of the source: `greater_st(0)` holds for -1 only, `greater_ts(0)` for
      1 only, and `logical_not` flips truth. */
  lemma FunctorExamples()
    ensures !Eval(Binary(Greater), [-1, 0]) && !Eval(Binary(Greater), [0, 0]) && Eval(Binary(Greater), [1, 0])
    ensures !Eval(BoundLeft(Greater, 0), [1]) && !Eval(BoundLeft(Greater, 0), [0]) && Eval(BoundLeft(Greater, 0), [-1])
    ensures !Eval(Ts(Greater, 0), [-1]) && !Eval(Ts(Greater, 0), [0]) && Eval(Ts(Greater, 0), [1])
    ensures Eval(LogicalNot, [0]) && !Eval(LogicalNot, [1])
  {
  }

  // ----- Element-wise application -----

  /** The stream of `q` applied to every element of `c`. */
  function Map(q: Query, c: Mat): (r: Mat)
    requires WellFormed(c) && Arity(q) == 1
    ensures WellFormed(r) && r.rows == c.rows && r.cols == c.cols
    ensures forall i: nat, j: nat :: i < r.rows && j < r.cols ==> At(r, i, j) == FromBool(Eval(q, [At(c, i, j)]))
  {
    Tabulate(c.rows, c.cols, (i: nat, j: nat) requires i < c.rows && j < c.cols =>
      FromBool(Eval(q, [At(c, i, j)])))
  }

  /** The stream of a binary functor applied to corresponding elements of `c` and `d`. */
  function Map2(r: Relation, c: Mat, d: Mat): (m: Mat)
    requires WellFormed(c) && WellFormed(d) && c.rows == d.rows && c.cols == d.cols
    ensures WellFormed(m) && m.rows == c.rows && m.cols == c.cols
    ensures forall i: nat, j: nat :: i < m.rows && j < m.cols ==>
      At(m, i, j) == FromBool(Holds(r, At(c, i, j), At(d, i, j)))
  {
    Tabulate(c.rows, c.cols, (i: nat, j: nat) requires i < c.rows && j < c.cols =>
      FromBool(Eval(Binary(r), [At(c, i, j), At(d, i, j)])))
  }

  /** `r(c, d)` on two tensors. */
  function CompareTensors(r: Relation, c: Mat, d: Mat): (m: Mat)
    requires WellFormed(c) && WellFormed(d) && c.rows == d.rows && c.cols == d.cols
    ensures WellFormed(m) && m.rows == c.rows && m.cols == c.cols
    ensures forall i: nat, j: nat :: i < m.rows && j < m.cols ==>
      (Truthy(At(m, i, j)) <==> Holds(r, At(c, i, j), At(d, i, j)))
  {
    Map2(r, c, d)
  }

  /** `r(t, c)`: the scalar stays on the left of every comparison. */
  function CompareScalarTensor(r: Relation, t: int, c: Mat): (m: Mat)
    requires WellFormed(c)
    ensures WellFormed(m) && m.rows == c.rows && m.cols == c.cols
    ensures forall i: nat, j: nat :: i < m.rows && j < m.cols ==>
      (Truthy(At(m, i, j)) <==> Holds(r, t, At(c, i, j)))
  {
    Map(BoundLeft(r, t), c)
  }

  /** `r(c, t)`: built with `r_ts<T>`, so the scalar stays on the right. */
  function CompareTensorScalar(r: Relation, c: Mat, t: int): (m: Mat)
    requires WellFormed(c)
    ensures WellFormed(m) && m.rows == c.rows && m.cols == c.cols
    ensures forall i: nat, j: nat :: i < m.rows && j < m.cols ==>
      (Truthy(At(m, i, j)) <==> Holds(r, At(c, i, j), t))
  {
    var m := Map(Ts(r, t), c);
    forall i: nat, j: nat | i < m.rows && j < m.cols
      ensures Truthy(At(m, i, j)) <==> Holds(r, At(c, i, j), t)
    {
      OperandOrder(r, t, At(c, i, j));
    }
    m
  }

  /** `logical_not(c)`. */
  function NotTensor(c: Mat): (m: Mat)
    requires WellFormed(c)
    ensures WellFormed(m) && m.rows == c.rows && m.cols == c.cols
    ensures forall i: nat, j: nat :: i < m.rows && j < m.cols ==> (Truthy(At(m, i, j)) <==> !Truthy(At(c, i, j)))
  {
    Map(LogicalNot, c)
  }

  /** A tensor compared with a scalar on either side gives the same stream once the relation
      is replaced by its converse: `greater(t, c) == less(c, t)`. */
  lemma ScalarSideConverse(c: Mat, t: int)
    requires WellFormed(c)
    ensures CompareScalarTensor(Greater, t, c) == CompareTensorScalar(Less, c, t)
    ensures CompareScalarTensor(GreaterEqual, t, c) == CompareTensorScalar(LessEqual, c, t)
  {
    var l, r := CompareScalarTensor(Greater, t, c), CompareTensorScalar(Less, c, t);
    forall i: nat, j: nat | i < l.rows && j < l.cols ensures At(l, i, j) == At(r, i, j) {
      assert At(l, i, j) == FromBool(Eval(BoundLeft(Greater, t), [At(c, i, j)]));
      assert At(r, i, j) == FromBool(Eval(BoundRight(Less, t), [At(c, i, j)]));
    }
    MatExtensionality(l, r);
    var l', r' := CompareScalarTensor(GreaterEqual, t, c), CompareTensorScalar(LessEqual, c, t);
    forall i: nat, j: nat | i < l'.rows && j < l'.cols ensures At(l', i, j) == At(r', i, j) {
      assert At(l', i, j) == FromBool(Eval(BoundLeft(GreaterEqual, t), [At(c, i, j)]));
      assert At(r', i, j) == FromBool(Eval(BoundRight(LessEqual, t), [At(c, i, j)]));
    }
    MatExtensionality(l', r');
  }

  // ----- all and any -----

  /** Every element is true. */
  predicate AllOf(s: seq<int>) { forall k :: 0 <= k < |s| ==> Truthy(s[k]) }

  /** Some element is true. */
  predicate AnyOf(s: seq<int>) { exists k :: 0 <= k < |s| && Truthy(s[k]) }

  /** `all(c)`: scans the linear elements and returns false at the first false one. */
  method All(c: Mat) returns (b: bool)
    requires WellFormed(c)
    ensures b == AllOf(c.elems)
  {
    var i := 0;
    while i < Size(c)
      invariant 0 <= i <= Size(c)
      invariant forall k :: 0 <= k < i ==> Truthy(c.elems[k])
    {
      if !Truthy(AtLinear(c, i)) {
        return false;
      }
      i := i + 1;
    }
    return true;
  }

  /** `any(c)`: scans the linear elements and returns true at the first true one. */
  method Any(c: Mat) returns (b: bool)
    requires WellFormed(c)
    ensures b == AnyOf(c.elems)
  {
    var i := 0;
    while i < Size(c)
      invariant 0 <= i <= Size(c)
      invariant forall k :: 0 <= k < i ==> !Truthy(c.elems[k])
    {
      if Truthy(AtLinear(c, i)) {
        return true;
      }
      i := i + 1;
    }
    return false;
  }

  /** `all(t)` and `any(t)` of a scalar: `bool(t)`, as for a one-element stream. */
  function AllScalar(t: int): (b: bool)
    ensures b == AllOf([t]) && b == AnyOf([t])
  {
    assert [t][0] == t;
    Truthy(t)
  }

  /** `all(c, f)`: true iff `f` holds for every linear element. */
  method AllWith(c: Mat, f: int -> bool) returns (b: bool)
    requires WellFormed(c)
    ensures b <==> forall k :: 0 <= k < |c.elems| ==> f(c.elems[k])
  {
    var i := 0;
    while i < Size(c)
      invariant 0 <= i <= Size(c)
      invariant forall k :: 0 <= k < i ==> f(c.elems[k])
    {
      if !f(AtLinear(c, i)) {
        return false;
      }
      i := i + 1;
    }
    return true;
  }

  /** `any(c, f)`: true iff `f` holds for some linear element. */
  method AnyWith(c: Mat, f: int -> bool) returns (b: bool)
    requires WellFormed(c)
    ensures b <==> exists k :: 0 <= k < |c.elems| && f(c.elems[k])
  {
    var i := 0;
    while i < Size(c)
      invariant 0 <= i <= Size(c)
      invariant forall k :: 0 <= k < i ==> !f(c.elems[k])
    {
      if f(AtLinear(c, i)) {
        return true;
      }
      i := i + 1;
    }
    return false;
  }

  /** `all(c)` is `!any(logical_not(c))`. */
  lemma {:induction false} AllIsNotAnyNot(c: Mat)
    requires WellFormed(c)
    ensures AllOf(c.elems) <==> !AnyOf(NotTensor(c).elems)
  {
    var n := NotTensor(c);
    forall k | 0 <= k < |c.elems|
      ensures Truthy(n.elems[k]) <==> !Truthy(c.elems[k])
    {
      LinearInBounds(k, c.rows, c.cols);
      assert AtLinear(n, k) == At(n, k / c.cols, k % c.cols);
      assert AtLinear(c, k) == At(c, k / c.cols, k % c.cols);
    }
  }

  /** `all({true, true, false})` is false, `all({true, true, true})` is true, and
      `any(logical_not({true, true, true}))` is false. */
  lemma QueryExamples()
    ensures !AllOf([1, 1, 0]) && AllOf([1, 1, 1])
    ensures AnyOf(NotTensor(Mat(3, 1, [1, 1, 0])).elems)
    ensures !AnyOf(NotTensor(Mat(3, 1, [1, 1, 1])).elems)
    ensures AllScalar(1) && !AllScalar(0)
  {
    var m := Mat(3, 1, [1, 1, 0]);
    AllIsNotAnyNot(m);
    assert !AllOf(m.elems) by { assert !Truthy(m.elems[2]); }
    AllIsNotAnyNot(Mat(3, 1, [1, 1, 1]));
  }
}
