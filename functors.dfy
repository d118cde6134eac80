// The arithmetic functors of include/lin/core/operations/functors.hpp. A functor is a value: the
// plain binary operators, their "scalar-tensor" (`_st`) and "tensor-scalar" (`_ts`) forms that
// bind one operand, `negate` and `sign`. Elements are integers, so `/` is C++ integer division,
// which truncates toward zero (Dafny's own `/` is Euclidean).

module Functors {
  import opened RowMajor

  /** A functor object. `add_ts` and `multiply_ts` are aliases of `add_st` and `multiply_st` in
      the source, so they have no constructor of their own. */
  datatype Functor =
    | AddOp | DivideOp | MultiplyOp | SubtractOp
    | AddSt(t: int) | DivideSt(t: int) | DivideTs(t: int)
    | MultiplySt(t: int) | SubtractSt(t: int) | SubtractTs(t: int)
    | NegateOp | SignOp

  /** `add_ts<T>`: the same functor as `add_st<T>`. */
  function AddTs(t: int): (f: Functor)
    ensures f == AddSt(t)
  {
    AddSt(t)
  }

  /** `multiply_ts<T>`: the same functor as `multiply_st<T>`. */
  function MultiplyTs(t: int): (f: Functor)
    ensures f == MultiplySt(t)
  {
    MultiplySt(t)
  }

  /** How many element operands the functor's call operator takes. */
  function Arity(f: Functor): (n: nat)
    ensures 1 <= n <= 2
  {
    match f
    case AddOp | DivideOp | MultiplyOp | SubtractOp => 2
    case _ => 1
  }

  /** Integer division as C++ performs it: the quotient truncated toward zero. */
  function CDiv(a: int, b: int): int
    requires b != 0
  {
    var q := Abs(a) / Abs(b);
    if (a < 0) == (b < 0) then q else -q
  }

  function Abs(a: int): nat { if a < 0 then -a else a }

  /** The call is defined: no integer division by zero. */
  predicate Defined(f: Functor, args: seq<int>)
    requires |args| == Arity(f)
  {
    match f
    case DivideOp => args[1] != 0
    case DivideSt(t) => args[0] != 0
    case DivideTs(t) => t != 0
    case _ => true
  }

  /** `sign` on a signed type: `(0 < t) - (t < 0)`. */
  function Sign(t: int): int
  {
    (if 0 < t then 1 else 0) - (if t < 0 then 1 else 0)
  }

  /** `sign` on an unsigned type: `(0 < t)`. */
  function SignUnsigned(t: nat): int
  {
    if 0 < t then 1 else 0
  }

  /** The functor's `operator()`. */
  function Apply(f: Functor, args: seq<int>): int
    requires |args| == Arity(f) && Defined(f, args)
  {
    match f
    case AddOp => args[0] + args[1]
    case DivideOp => CDiv(args[0], args[1])
    case MultiplyOp => args[0] * args[1]
    case SubtractOp => args[0] - args[1]
    case AddSt(t) => t + args[0]
    case DivideSt(t) => CDiv(t, args[0])
    case DivideTs(t) => CDiv(args[0], t)
    case MultiplySt(t) => t * args[0]
    case SubtractSt(t) => t - args[0]
    case SubtractTs(t) => args[0] - t
    case NegateOp => -args[0]
    case SignOp => Sign(args[0])
  }

  // ----- Lemmas -----

  /** C++ division agrees with Euclidean division on non-negative operands and is odd in each
      operand. */
  lemma CDivSigns(a: int, b: int)
    requires b != 0
    ensures a >= 0 && b > 0 ==> CDiv(a, b) == a / b
    ensures CDiv(-a, b) == -CDiv(a, b) && CDiv(a, -b) == -CDiv(a, b)
  {
    var q := Abs(a) / Abs(b);
    assert Abs(-a) / Abs(b) == q && Abs(a) / Abs(-b) == q;
    if a == 0 {
      assert q == 0;
    }
  }

  /** C++ division rounds toward zero: the quotient times the divisor never exceeds the dividend
      in magnitude and misses it by less than the divisor. */
  lemma CDivTruncates(a: int, b: int)
    requires b != 0
    ensures Abs(CDiv(a, b)) * Abs(b) <= Abs(a) < (Abs(CDiv(a, b)) + 1) * Abs(b)
  {
    var x, y := Abs(a), Abs(b);
    var q := x / y;
    assert Abs(CDiv(a, b)) == q;
    assert q * y + x % y == x;
    assert (q + 1) * y == q * y + y;
  }

  /** Dividing a multiple by its factor gives the other factor back, as C++ division does. */
  lemma {:induction false} CDivOfMultiple(t: int, x: int)
    requires t != 0
    ensures CDiv(t * x, t) == x
  {
    assert Abs(t * x) == Abs(t) * Abs(x) by {
      if t < 0 && x < 0 { assert t * x == (-t) * (-x); }
      else if t < 0 { assert -(t * x) == (-t) * x; }
      else if x < 0 { assert -(t * x) == t * (-x); }
    }
    DivModUnique(Abs(t) * Abs(x), Abs(t), Abs(x), 0);
  }

  /** `subtract_st(t)(u) == t - u` and `subtract_ts(t)(u) == u - t`: the bound scalar stays on
      its own side, so the two forms give opposite results. */
  lemma SubtractKeepsOperandOrder(t: int, u: int)
    ensures Apply(SubtractSt(t), [u]) == Apply(SubtractOp, [t, u])
    ensures Apply(SubtractTs(t), [u]) == Apply(SubtractOp, [u, t])
    ensures Apply(SubtractSt(t), [u]) == -Apply(SubtractTs(t), [u])
  {
  }

  /** `divide_st(t)(u) == t / u` and `divide_ts(t)(u) == u / t`, so binding the scalar on the
      other side swaps the operands. */
  lemma DivideKeepsOperandOrder(t: int, u: int)
    requires t != 0 && u != 0
    ensures Apply(DivideSt(t), [u]) == Apply(DivideOp, [t, u])
    ensures Apply(DivideTs(t), [u]) == Apply(DivideOp, [u, t])
    ensures Apply(DivideSt(t), [u]) == Apply(DivideTs(u), [t])
  {
  }

  /** The symmetric operators do not care which side the scalar is bound on. */
  lemma SymmetricAliases(t: int, u: int)
    ensures Apply(AddTs(t), [u]) == Apply(AddOp, [u, t]) == Apply(AddOp, [t, u])
    ensures Apply(MultiplyTs(t), [u]) == Apply(MultiplyOp, [u, t]) == Apply(MultiplyOp, [t, u])
  {
  }

  /** Negating twice is the identity. */
  lemma NegateInvolution(t: int)
    ensures Apply(NegateOp, [Apply(NegateOp, [t])]) == t
  {
  }

  /** The signed `sign` is -1, 0 or 1 according to the sign of its argument and recovers the
      magnitude; the unsigned one is 0 or 1 and agrees with it on natural numbers. */
  lemma SignFacts(t: int, n: nat)
    ensures Apply(SignOp, [t]) in {-1, 0, 1}
    ensures (Sign(t) == 1 <==> t > 0) && (Sign(t) == 0 <==> t == 0) && (Sign(t) == -1 <==> t < 0)
    ensures Sign(t) * t == Abs(t)
    ensures SignUnsigned(n) in {0, 1} && SignUnsigned(n) == Sign(n)
  {
  }

  /** The values the source's own functor checks expect, on integer arguments. */
  lemma FunctorExamples()
    ensures Apply(SubtractOp, [5, 3]) == 2 && Apply(SubtractOp, [3, 5]) == -2
    ensures Apply(SubtractSt(4), [4]) == 0 && Apply(SubtractSt(4), [2]) == 2
    ensures Apply(SubtractTs(4), [4]) == 0 && Apply(SubtractTs(4), [2]) == -2
    ensures Apply(MultiplySt(1), [-2]) == -2 && Apply(MultiplyTs(5), [1]) == 5
    ensures Sign(20) == 1 && Sign(0) == 0 && Sign(-2) == -1 && SignUnsigned(20) == 1
  {
  }
}
