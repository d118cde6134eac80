// The older trait headers include/core/tensor/traits.hpp, include/core/vector/traits.hpp and
// include/core/matrix/traits.hpp. Their row/column vector, fixed and tall/short predicates are
// the same formulas as in the newer headers and are reused from TensorTraits and VectorTraits;
// `has_static_rows/cols` is the same formula as `HasStrictlyBoundedRows/Cols`, and
// `traits<A>::max_size` is `MaxSize`.

module LegacyTraits {
  import opened TensorTraits
  import opened VectorTraits

  /** A legacy tensor type: its traits and an identifier for its evaluation type `eval<A>::type`. */
  datatype LegacyType = LegacyType(t: Traits, eval: nat)

  /** `is_elem_valid<A>`: only `float` and `double` elements. */
  predicate IsElemValid(a: LegacyType) { a.t.elem == Float || a.t.elem == Double }

  predicate HasFixedSize(t: Traits) { HasFixedRows(t) && HasFixedCols(t) }

  /** `has_static_size<A>`: at least one axis static and the other static or fixed. */
  predicate HasStaticSize(t: Traits)
  {
    (HasStrictlyBoundedRows(t) && HasStrictlyBoundedCols(t)) ||
    (HasStrictlyBoundedRows(t) && HasFixedCols(t)) ||
    (HasFixedRows(t) && HasStrictlyBoundedCols(t))
  }

  /** `is_dims_valid<A>`. */
  predicate IsDimsValid(t: Traits) { HasFixedSize(t) || HasStaticSize(t) }

  /** `are_dims_equal<A, B>`: all four dimension numbers agree. */
  predicate AreDimsEqual(a: Traits, b: Traits)
  {
    a.rows == b.rows && a.cols == b.cols && a.maxRows == b.maxRows && a.maxCols == b.maxCols
  }

  /** `is_traits_valid<A>`: `is_eval_valid` is always true. */
  predicate IsTraitsValid(a: LegacyType) { IsElemValid(a) && IsDimsValid(a.t) }

  /** `are_traits_equal<A, B>`. */
  predicate AreTraitsEqual(a: LegacyType, b: LegacyType)
  {
    a.t.elem == b.t.elem && a.eval == b.eval && AreDimsEqual(a.t, b.t)
  }

  /** `is_square<A>` of include/core/matrix/traits.hpp: equal exact sizes and equal maxima. */
  predicate LegacyIsSquare(t: Traits) { t.rows == t.cols && t.maxCols == t.maxRows }

  /** `are_vector_traits_equal<A, B>`: false unless both are vectors; otherwise equal length,
      equal maximum length and equal element type. */
  predicate AreVectorTraitsEqual(a: Traits, b: Traits)
  {
    if IsVector(a) && IsVector(b) then
      VectorDimsOf(a) == VectorDimsOf(b) && a.elem == b.elem
    else false
  }

  // ----- Lemmas -----

  /** The legacy validity test and the newer one accept exactly the same dimension numbers. */
  lemma DimsValidIsValidTraits(t: Traits)
    ensures IsDimsValid(t) <==> HasValidTraits(t)
    ensures HasFixedSize(t) <==> HasFixedDimensions(t)
  {
    DimensionPredicatesIff(t);
  }

  /** A static size is never a fixed size. */
  lemma StaticExcludesFixed(t: Traits)
    ensures !(HasStaticSize(t) && HasFixedSize(t))
  {
  }

  /** `are_dims_equal` is an equivalence, and on two types agrees with `have_same_dimensions`. */
  lemma AreDimsEqualIsSameDimensions(a: Traits, b: Traits, c: Traits)
    ensures AreDimsEqual(a, a)
    ensures AreDimsEqual(a, b) ==> AreDimsEqual(b, a)
    ensures AreDimsEqual(a, b) && AreDimsEqual(b, c) ==> AreDimsEqual(a, c)
    ensures AreDimsEqual(a, b) <==> HaveSameDimensions([a, b])
  {
    HaveSameDimensionsSymmetric(a, b);
  }

  /** The legacy square test also compares exact sizes: a runtime-sized 0x3 of maximum 3x3 is
      square for the newer header but not for the legacy one. Legacy square implies square. */
  lemma LegacySquareIsStricter(t: Traits)
    ensures LegacyIsSquare(t) ==> IsSquare(t)
    ensures IsSquare(Traits(Double, 0, 3, 3, 3)) && !LegacyIsSquare(Traits(Double, 0, 3, 3, 3))
  {
    SquareIffEqualMaxima(t);
    SquareIffEqualMaxima(Traits(Double, 0, 3, 3, 3));
  }

  /** Vector traits equality ignores orientation, is false for a matrix argument, and agrees
      with the newer `have_same_vector_traits` on two vectors. */
  lemma AreVectorTraitsEqualFacts(a: Traits, b: Traits, n: nat)
    requires n > 1
    ensures IsMatrix(a) ==> !AreVectorTraitsEqual(a, b) && !AreVectorTraitsEqual(b, a)
    ensures AreVectorTraitsEqual(Traits(Float, 1, n, 1, n), Traits(Float, n, 1, n, 1))
    ensures IsVector(a) && IsVector(b) ==> (AreVectorTraitsEqual(a, b) <==> HaveSameVectorTraits([a, b]))
  {
    Classified(a);
    Classified(b);
    RowAndColumnOfSameLengthMatch(Float, n);
    if IsVector(a) && IsVector(b) {
      HaveSameVectorTraitsIff([a, b]);
      HaveSameVectorDimensionsIff([a, b]);
      var es := seq(1, k requires 0 <= k < 1 => [a, b][0].elem == [a, b][k + 1].elem);
      assert es[0] == (a.elem == b.elem);
    }
  }
}
