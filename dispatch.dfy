// The overload dispatch of lin/core/operations/tensor_operations.hpp. Each argument is a tensor
// stream or a scalar (`matches_tensor` / `matches_scalar`); `add`, `divide`, `multiply` and
// `subtract` pick the element-wise operator with the plain functor for two tensors, the `_st`
// functor for a scalar on the left, the `_ts` functor for a scalar on the right, and the plain
// call for two scalars. `multiply` here is the element-wise product, not the matrix product.

module Dispatch {
  import opened RowMajor
  import Functors
  import Expressions

  /** An argument of an operation: a tensor stream (its value) or a scalar. */
  datatype Operand = TensorArg(m: Mat) | ScalarArg(t: int)

  /** `matches_tensor<T>`: the type has tensor traits. */
  predicate MatchesTensor(x: Operand) { x.TensorArg? }

  /** `matches_scalar<T>`: the negation of `matches_tensor<T>`. */
  predicate MatchesScalar(x: Operand) { !MatchesTensor(x) }

  predicate MatchesTensorTensor(x: Operand, y: Operand) { MatchesTensor(x) && MatchesTensor(y) }
  predicate MatchesTensorScalar(x: Operand, y: Operand) { MatchesTensor(x) && MatchesScalar(y) }
  predicate MatchesScalarTensor(x: Operand, y: Operand) { MatchesScalar(x) && MatchesTensor(y) }
  predicate MatchesScalarScalar(x: Operand, y: Operand) { MatchesScalar(x) && MatchesScalar(y) }

  /** Every pair of arguments selects exactly one of the four overloads. */
  lemma ExactlyOneOverload(x: Operand, y: Operand)
    ensures MatchesTensorTensor(x, y) || MatchesTensorScalar(x, y) || MatchesScalarTensor(x, y) || MatchesScalarScalar(x, y)
    ensures !(MatchesTensorTensor(x, y) && MatchesTensorScalar(x, y))
    ensures !(MatchesTensorTensor(x, y) && MatchesScalarTensor(x, y))
    ensures !(MatchesTensorTensor(x, y) && MatchesScalarScalar(x, y))
    ensures !(MatchesTensorScalar(x, y) && MatchesScalarTensor(x, y))
    ensures !(MatchesTensorScalar(x, y) && MatchesScalarScalar(x, y))
    ensures !(MatchesScalarTensor(x, y) && MatchesScalarScalar(x, y))
  {
  }

  /** The four dispatched binary operations. */
  datatype Operation = Add | Divide | Multiply | Subtract

  /** What the operation computes on two elements, the scalar broadcast to every position:
      the reference the four overloads are checked against. */
  function Combine(op: Operation, a: int, b: int): int
    requires op == Divide ==> b != 0
  {
    match op
    case Add => a + b
    case Divide => Functors.CDiv(a, b)
    case Multiply => a * b
    case Subtract => a - b
  }

  /** The functor used for two tensors and for two scalars. */
  function BinaryFunctor(op: Operation): (f: Functors.Functor)
    ensures Functors.Arity(f) == 2
  {
    match op
    case Add => Functors.AddOp
    case Divide => Functors.DivideOp
    case Multiply => Functors.MultiplyOp
    case Subtract => Functors.SubtractOp
  }

  /** The `_st<T>` functor: scalar on the left. */
  function StFunctor(op: Operation, t: int): (f: Functors.Functor)
    ensures Functors.Arity(f) == 1
  {
    match op
    case Add => Functors.AddSt(t)
    case Divide => Functors.DivideSt(t)
    case Multiply => Functors.MultiplySt(t)
    case Subtract => Functors.SubtractSt(t)
  }

  /** The `_ts<T>` functor: scalar on the right (`add_ts` and `multiply_ts` are the `_st`
      functors). */
  function TsFunctor(op: Operation, t: int): (f: Functors.Functor)
    ensures Functors.Arity(f) == 1
  {
    match op
    case Add => Functors.AddTs(t)
    case Divide => Functors.DivideTs(t)
    case Multiply => Functors.MultiplyTs(t)
    case Subtract => Functors.SubtractTs(t)
  }

  /** Element `(i, j)` of an argument: the tensor's element or the scalar itself. */
  function ElemAt(x: Operand, i: nat, j: nat): int
    requires x.TensorArg? ==> WellFormed(x.m) && i < x.m.rows && j < x.m.cols
  {
    match x
    case TensorArg(m) => At(m, i, j)
    case ScalarArg(t) => t
  }

  /** The runtime dimensions of the result: those of the tensor argument(s). */
  function ShapeOf(x: Operand, y: Operand): (rc: (nat, nat))
    requires x.TensorArg? || y.TensorArg?
  {
    if x.TensorArg? then (x.m.rows, x.m.cols) else (y.m.rows, y.m.cols)
  }

  /** What the overloads demand: well-formed tensors, equal runtime dimensions for two tensors
      (the `LIN_ASSERT`s), and no integer division by zero. */
  predicate Admissible(op: Operation, x: Operand, y: Operand)
  {
    (x.TensorArg? ==> WellFormed(x.m)) && (y.TensorArg? ==> WellFormed(y.m)) &&
    (x.TensorArg? && y.TensorArg? ==> x.m.rows == y.m.rows && x.m.cols == y.m.cols) &&
    (op == Divide ==> NonzeroDivisor(y))
  }

  /** The right argument has no zero: the scalar itself, or every element of the tensor. */
  predicate NonzeroDivisor(y: Operand)
    requires y.TensorArg? ==> WellFormed(y.m)
  {
    match y
    case ScalarArg(t) => t != 0
    case TensorArg(d) => forall i: nat, j: nat :: i < d.rows && j < d.cols ==> At(d, i, j) != 0
  }

  /** `add`/`divide`/`multiply`/`subtract(x, y)`: whichever overload the arguments select, the
      result is a tensor iff an argument is, has the tensor argument's dimensions, and holds
      `Combine(op, x(i, j), y(i, j))` with the scalar kept on its own side. */
  function Apply(op: Operation, x: Operand, y: Operand): (r: Operand)
    requires Admissible(op, x, y)
    ensures r.TensorArg? <==> (x.TensorArg? || y.TensorArg?)
    ensures r.ScalarArg? ==> r.t == Combine(op, x.t, y.t)
    ensures r.TensorArg? ==> WellFormed(r.m) && (r.m.rows, r.m.cols) == ShapeOf(x, y)
    ensures r.TensorArg? ==> forall i: nat, j: nat :: i < r.m.rows && j < r.m.cols ==>
      At(r.m, i, j) == Combine(op, ElemAt(x, i, j), ElemAt(y, i, j))
  {
    match (x, y)
    case (TensorArg(c), TensorArg(d)) =>
      var f := BinaryFunctor(op);
      var e := Expressions.ElementWise(f, [c, d]);
      assert forall i: nat, j: nat :: i < e.rows && j < e.cols ==>
        At(e, i, j) == Combine(op, At(c, i, j), At(d, i, j));
      TensorArg(e)
    case (ScalarArg(t), TensorArg(c)) =>
      var f := StFunctor(op, t);
      assert Expressions.DefinedOn(f, [c]) by {
        forall i: nat, j: nat | i < c.rows && j < c.cols
          ensures Functors.Defined(f, Expressions.ArgsAt([c], i, j))
        {
          assert op == Divide ==> At(c, i, j) != 0;
        }
      }
      var e := Expressions.ElementWise(f, [c]);
      assert forall i: nat, j: nat :: i < e.rows && j < e.cols ==>
        At(e, i, j) == Combine(op, t, At(c, i, j));
      TensorArg(e)
    case (TensorArg(c), ScalarArg(t)) =>
      var e := Expressions.ElementWise(TsFunctor(op, t), [c]);
      assert forall i: nat, j: nat :: i < e.rows && j < e.cols ==>
        At(e, i, j) == Combine(op, At(c, i, j), t);
      TensorArg(e)
    case (ScalarArg(t), ScalarArg(u)) =>
      ScalarArg(Functors.Apply(BinaryFunctor(op), [t, u]))
  }

  /** The two dispatched unary operations. */
  datatype UnaryOperation = Negate | SignOf

  /** The functor `negate` or `sign`. */
  function UnaryFunctor(op: UnaryOperation): (f: Functors.Functor)
    ensures Functors.Arity(f) == 1
  {
    match op
    case Negate => Functors.NegateOp
    case SignOf => Functors.SignOp
  }

  /** `negate`/`sign(x)`: the element-wise operator for a tensor, the functor itself for a
      scalar; the result has the argument's kind and dimensions, and negates (or takes the sign
      of) every element. */
  function ApplyUnary(op: UnaryOperation, x: Operand): (r: Operand)
    requires x.TensorArg? ==> WellFormed(x.m)
    ensures r.TensorArg? <==> x.TensorArg?
    ensures r.ScalarArg? ==> r.t == (if op == Negate then -x.t else Functors.Sign(x.t))
    ensures r.TensorArg? ==> WellFormed(r.m) && r.m.rows == x.m.rows && r.m.cols == x.m.cols
    ensures r.TensorArg? ==> forall i: nat, j: nat :: i < r.m.rows && j < r.m.cols ==>
      At(r.m, i, j) == (if op == Negate then -At(x.m, i, j) else Functors.Sign(At(x.m, i, j)))
  {
    match x
    case TensorArg(c) =>
      var e := Expressions.ElementWise(UnaryFunctor(op), [c]);
      assert forall i: nat, j: nat :: i < e.rows && j < e.cols ==>
        At(e, i, j) == Functors.Apply(UnaryFunctor(op), [At(c, i, j)]);
      TensorArg(e)
    case ScalarArg(t) => ScalarArg(Functors.Apply(UnaryFunctor(op), [t]))
  }

  // ----- Properties -----

  /** `subtract` keeps its operands in order in every overload: subtracting a tensor from a
      scalar and a scalar from a tensor give opposite elements. */
  lemma SubtractOperandOrder(c: Mat, t: int)
    requires WellFormed(c)
    ensures var l := Apply(Subtract, ScalarArg(t), TensorArg(c));
            var r := Apply(Subtract, TensorArg(c), ScalarArg(t));
            l.TensorArg? && r.TensorArg? && l.m.rows == r.m.rows && l.m.cols == r.m.cols &&
            forall i: nat, j: nat :: i < l.m.rows && j < l.m.cols ==> At(l.m, i, j) == -At(r.m, i, j)
  {
  }

  /** A tensor argument and the same tensor negated, added, cancel: `add(c, negate(c))` is zero. */
  lemma AddNegateCancels(c: Mat)
    requires WellFormed(c)
    ensures var n := ApplyUnary(Negate, TensorArg(c));
            var z := Apply(Add, TensorArg(c), n);
            z.TensorArg? && z.m.rows == c.rows && z.m.cols == c.cols &&
            forall i: nat, j: nat :: i < c.rows && j < c.cols ==> At(z.m, i, j) == 0
  {
  }

  /** Taking the sign twice changes nothing, in both overloads. */
  lemma SignIdempotent(x: Operand)
    requires x.TensorArg? ==> WellFormed(x.m)
    ensures ApplyUnary(SignOf, ApplyUnary(SignOf, x)) == ApplyUnary(SignOf, x)
  {
    var s := ApplyUnary(SignOf, x);
    var s2 := ApplyUnary(SignOf, s);
    if x.TensorArg? {
      forall i: nat, j: nat | i < s.m.rows && j < s.m.cols ensures At(s2.m, i, j) == At(s.m, i, j) {
        Functors.SignFacts(At(x.m, i, j), 0);
      }
      MatExtensionality(s2.m, s.m);
    } else {
      Functors.SignFacts(x.t, 0);
    }
  }

  /** The subtraction cases of the operations test: `subtract(a, 2)` with `a = [1, 2]` is
      `[-1, 0]`, `subtract(-2, b)` with `b = [1, 3]` is `[-3, -5]`, and `subtract(2, 3)` is -1. */
  lemma SubtractExamples()
    ensures Apply(Subtract, TensorArg(Mat(2, 1, [1, 2])), ScalarArg(2)) == TensorArg(Mat(2, 1, [-1, 0]))
    ensures Apply(Subtract, ScalarArg(-2), TensorArg(Mat(2, 1, [1, 3]))) == TensorArg(Mat(2, 1, [-3, -5]))
    ensures Apply(Subtract, ScalarArg(2), ScalarArg(3)) == ScalarArg(-1)
  {
    var a := Mat(2, 1, [1, 2]);
    var l := Apply(Subtract, TensorArg(a), ScalarArg(2));
    assert At(l.m, 0, 0) == -1 && At(l.m, 1, 0) == 0;
    MatExtensionality(l.m, Mat(2, 1, [-1, 0]));
    var b := Mat(2, 1, [1, 3]);
    var r := Apply(Subtract, ScalarArg(-2), TensorArg(b));
    assert At(r.m, 0, 0) == -3 && At(r.m, 1, 0) == -5;
    MatExtensionality(r.m, Mat(2, 1, [-3, -5]));
  }

  /** The two-tensor overload read in linear order: element `q` of the result combines element
      `q` of each operand. */
  lemma {:induction false} ApplyTensorsLinear(op: Operation, a: Mat, b: Mat)
    requires Admissible(op, TensorArg(a), TensorArg(b))
    ensures Apply(op, TensorArg(a), TensorArg(b)).m.rows == a.rows
    ensures Apply(op, TensorArg(a), TensorArg(b)).m.cols == a.cols
    ensures forall q :: 0 <= q < |a.elems| ==> ((op == Divide ==> b.elems[q] != 0) &&
      Apply(op, TensorArg(a), TensorArg(b)).m.elems[q] == Combine(op, a.elems[q], b.elems[q]))
  {
    var r := Apply(op, TensorArg(a), TensorArg(b)).m;
    forall q | 0 <= q < |a.elems|
      ensures (op == Divide ==> b.elems[q] != 0) && r.elems[q] == Combine(op, a.elems[q], b.elems[q])
    {
      LinearInBounds(q, a.rows, a.cols);
      var i, j := q / a.cols, q % a.cols;
      assert At(b, i, j) == b.elems[q] && At(a, i, j) == a.elems[q] && At(r, i, j) == r.elems[q];
    }
  }

  /** The tensor-and-scalar overloads read in linear order. */
  lemma {:induction false} ApplyScalarLinear(op: Operation, a: Mat, t: int, left: bool)
    requires WellFormed(a)
    requires op == Divide ==> (if left then forall i: nat, j: nat :: i < a.rows && j < a.cols ==> At(a, i, j) != 0 else t != 0)
    ensures var r := if left then Apply(op, ScalarArg(t), TensorArg(a)).m else Apply(op, TensorArg(a), ScalarArg(t)).m;
            r.rows == a.rows && r.cols == a.cols &&
            forall q :: 0 <= q < |a.elems| ==> ((op == Divide && left ==> a.elems[q] != 0) &&
              r.elems[q] == if left then Combine(op, t, a.elems[q]) else Combine(op, a.elems[q], t))
  {
    var r := if left then Apply(op, ScalarArg(t), TensorArg(a)).m else Apply(op, TensorArg(a), ScalarArg(t)).m;
    forall q | 0 <= q < |a.elems|
      ensures (op == Divide && left ==> a.elems[q] != 0) &&
        r.elems[q] == if left then Combine(op, t, a.elems[q]) else Combine(op, a.elems[q], t)
    {
      LinearInBounds(q, a.rows, a.cols);
      var i, j := q / a.cols, q % a.cols;
      assert At(a, i, j) == a.elems[q] && At(r, i, j) == r.elems[q];
    }
  }
}
