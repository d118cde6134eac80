// Vector and matrix classification of tensor traits: lin/core/traits/vector.hpp,
// include/lin/core/traits/inl/vector.inl and lin/core/traits/matrix.hpp.

module VectorTraits {
  import opened TraitUtilities
  import opened TensorTraits

  /** `is_row_vector<C>`: exactly one fixed row and room for at least two columns. */
  predicate IsRowVector(t: Traits) { HasFixedRows(t) && t.rows == 1 && t.maxCols > 1 }

  /** `is_col_vector<C>`: exactly one fixed column and room for at least two rows. */
  predicate IsColVector(t: Traits) { HasFixedCols(t) && t.cols == 1 && t.maxRows > 1 }

  /** `is_vector<C>`: a row or a column vector. */
  predicate IsVector(t: Traits) { Disjunction([IsRowVector(t), IsColVector(t)]) }

  /** `is_matrix<C>` (lin/core/traits/matrix.hpp): the negation of `is_vector<C>`. */
  predicate IsMatrix(t: Traits) { Negation(IsVector(t)) }

  /** Length and maximum length of a vector type (`_vector_dims` / `_vector_traits`). */
  datatype VectorDims = VectorDims(length: nat, maxLength: nat)

  /** The columns of a row vector, the rows of a column vector. Defined only for vectors: for
      any other type the specialization does not exist. */
  function VectorDimsOf(t: Traits): (v: VectorDims)
    requires IsVector(t)
    ensures IsRowVector(t) ==> v == VectorDims(t.cols, t.maxCols)
    ensures IsColVector(t) ==> v == VectorDims(t.rows, t.maxRows)
    ensures v.maxLength > 1
  {
    Classified(t);
    if IsRowVector(t) then VectorDims(t.cols, t.maxCols) else VectorDims(t.rows, t.maxRows)
  }

  predicate SameVectorDimsPair(c: Traits, d: Traits)
    requires IsVector(c) && IsVector(d)
  {
    VectorDimsOf(c) == VectorDimsOf(d)
  }

  /** `have_same_vector_dimensions<Cs...>` of lin/core/traits/vector.hpp: every argument must be
      a vector (otherwise the program does not compile); fewer than two arguments give true, and
      otherwise the first is compared with each later one. */
  predicate HaveSameVectorDimensions(ts: seq<Traits>)
    requires forall k :: 0 <= k < |ts| ==> IsVector(ts[k])
  {
    |ts| <= 1 || Conjunction(seq(|ts| - 1, k requires 0 <= k < |ts| - 1 => SameVectorDimsPair(ts[0], ts[k + 1])))
  }

  /** `have_same_vector_traits<Cs...>` of lin/core/traits/vector.hpp. */
  predicate HaveSameVectorTraits(ts: seq<Traits>)
    requires forall k :: 0 <= k < |ts| ==> IsVector(ts[k])
  {
    Conjunction([HaveSameElements(ts), HaveSameVectorDimensions(ts)])
  }

  /** `_have_same_vector_dimensions_impl<C, D>` of include/lin/core/traits/inl/vector.inl: a
      non-vector argument makes the specialization's condition ill-formed, which selects the
      false primary template. */
  predicate SameVectorDimsImpl(c: Traits, d: Traits)
  {
    IsVector(c) && IsVector(d) && VectorDimsOf(c) == VectorDimsOf(d)
  }

  /** `have_same_vector_dimensions<Cs...>` of include/lin/core/traits/inl/vector.inl: the
      one-argument case is `is_vector<C>` rather than true. */
  predicate HaveSameVectorDimensionsInl(ts: seq<Traits>)
  {
    if |ts| == 0 then true
    else if |ts| == 1 then IsVector(ts[0])
    else Conjunction(seq(|ts| - 1, k requires 0 <= k < |ts| - 1 => SameVectorDimsImpl(ts[0], ts[k + 1])))
  }

  /** `have_same_vector_traits<C, Cs...>` of include/lin/core/traits/inl/vector.inl: the
      recursive case tests only `Cs...`. */
  predicate HaveSameVectorTraitsInl(ts: seq<Traits>)
  {
    |ts| <= 1 || Conjunction([HaveSameElements(ts[1..]), HaveSameVectorDimensionsInl(ts[1..])])
  }

  // ----- Lemmas -----

  /** Row vector, column vector and matrix partition all trait tuples. */
  lemma Classified(t: Traits)
    ensures !(IsRowVector(t) && IsColVector(t))
    ensures IsVector(t) <==> IsRowVector(t) || IsColVector(t)
    ensures IsMatrix(t) <==> !IsRowVector(t) && !IsColVector(t)
  {
    var v := [IsRowVector(t), IsColVector(t)];
    assert v[0] == IsRowVector(t) && v[1] == IsColVector(t);
  }

  /** A fixed 1x1 type is neither kind of vector, hence a matrix. */
  lemma OneByOneIsMatrix(e: Elem)
    ensures !IsRowVector(Traits(e, 1, 1, 1, 1)) && !IsColVector(Traits(e, 1, 1, 1, 1))
    ensures IsMatrix(Traits(e, 1, 1, 1, 1))
  {
    Classified(Traits(e, 1, 1, 1, 1));
  }

  /** The classifications the library's tests expect: (5,1,5,1) is a column vector, not a
      matrix; (0,4,3,4) is a matrix. */
  lemma ClassificationExamples()
    ensures IsColVector(Traits(Double, 5, 1, 5, 1)) && !IsMatrix(Traits(Double, 5, 1, 5, 1))
    ensures IsMatrix(Traits(Double, 0, 4, 3, 4))
    ensures IsRowVector(Traits(Float, 1, 0, 1, 4)) && VectorDimsOf(Traits(Float, 1, 0, 1, 4)) == VectorDims(0, 4)
  {
    Classified(Traits(Double, 5, 1, 5, 1));
    Classified(Traits(Double, 0, 4, 3, 4));
    Classified(Traits(Float, 1, 0, 1, 4));
  }

  /** Transposing the dimension numbers exchanges row and column vectors. */
  lemma RowColMirror(e: Elem, r: nat, c: nat, mr: nat, mc: nat)
    ensures IsRowVector(Traits(e, r, c, mr, mc)) <==> IsColVector(Traits(e, c, r, mc, mr))
  {
  }

  /** The lin/core/traits/vector.hpp relation compares lengths only, so a row and a column
      vector of equal length match; with fewer than two arguments it holds. */
  lemma {:induction false} HaveSameVectorDimensionsIff(ts: seq<Traits>)
    requires forall k :: 0 <= k < |ts| ==> IsVector(ts[k])
    ensures HaveSameVectorDimensions(ts) <==>
      forall k :: 0 < k < |ts| ==> VectorDimsOf(ts[0]) == VectorDimsOf(ts[k])
  {
    if |ts| > 1 {
      var s := seq(|ts| - 1, k requires 0 <= k < |ts| - 1 => SameVectorDimsPair(ts[0], ts[k + 1]));
      assert forall k :: 0 < k < |ts| ==> s[k - 1] == (VectorDimsOf(ts[0]) == VectorDimsOf(ts[k]));
    }
  }

  lemma RowAndColumnOfSameLengthMatch(e: Elem, n: nat)
    requires n > 1
    ensures IsVector(Traits(e, 1, n, 1, n)) && IsVector(Traits(e, n, 1, n, 1))
    ensures HaveSameVectorDimensions([Traits(e, 1, n, 1, n), Traits(e, n, 1, n, 1)])
    ensures HaveSameVectorTraits([Traits(e, 1, n, 1, n), Traits(e, n, 1, n, 1)])
  {
    var ts := [Traits(e, 1, n, 1, n), Traits(e, n, 1, n, 1)];
    Classified(ts[0]);
    Classified(ts[1]);
    HaveSameVectorDimensionsIff(ts);
    HaveSameRowsColsIff(ts);
    var es := seq(|ts| - 1, k requires 0 <= k < |ts| - 1 => ts[0].elem == ts[k + 1].elem);
    assert es[0];
    var p := [HaveSameElements(ts), HaveSameVectorDimensions(ts)];
    assert p[0] && p[1];
  }

  /** Same vector traits are same element types and same vector dimensions. */
  lemma HaveSameVectorTraitsIff(ts: seq<Traits>)
    requires forall k :: 0 <= k < |ts| ==> IsVector(ts[k])
    ensures HaveSameVectorTraits(ts) <==> HaveSameElements(ts) && HaveSameVectorDimensions(ts)
  {
    var p := [HaveSameElements(ts), HaveSameVectorDimensions(ts)];
    assert p[0] == HaveSameElements(ts) && p[1] == HaveSameVectorDimensions(ts);
  }

  /** In include/lin/core/traits/inl/vector.inl the one-argument dimension check is `is_vector`,
      and the two-argument traits check reduces to `is_vector` of the SECOND argument. */
  lemma InlQuirks(c: Traits, d: Traits)
    ensures HaveSameVectorDimensionsInl([c]) == IsVector(c)
    ensures HaveSameVectorTraitsInl([c, d]) == IsVector(d)
  {
    assert [c, d][1..] == [d];
    assert HaveSameElements([d]);
    var p := [HaveSameElements([d]), HaveSameVectorDimensionsInl([d])];
    assert p[0] && p[1] == IsVector(d);
  }

  /** A matrix paired with a vector of any length passes the two-argument inl traits check. */
  lemma InlTraitsIgnoreFirst()
    ensures HaveSameVectorTraitsInl([Traits(Double, 3, 3, 3, 3), Traits(Int, 4, 1, 4, 1)])
  {
    InlQuirks(Traits(Double, 3, 3, 3, 3), Traits(Int, 4, 1, 4, 1));
    Classified(Traits(Int, 4, 1, 4, 1));
  }
}
