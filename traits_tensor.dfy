// Compile-time tensor traits (include/lin/core/traits/tensor.hpp and
// include/lin/core/traits/inl/tensor.inl). Every tensor type carries an element type and the
// four dimension numbers (Rows, Cols, MaxRows, MaxCols); a dimension of 0 means "runtime sized,
// bounded by the maximum". Template parameter packs are sequences of traits.

module TensorTraits {
  import opened TraitUtilities

  /** The element types the library instantiates. */
  datatype Elem = Float | Double | Int | Bool

  /** `traits<C>`: the element type and the four dimension numbers of a tensor type. */
  datatype Traits = Traits(elem: Elem, rows: nat, cols: nat, maxRows: nat, maxCols: nat)

  /** `traits<C>::Size` and `traits<C>::MaxSize`. */
  function Size(t: Traits): nat { t.rows * t.cols }
  function MaxSize(t: Traits): nat { t.maxRows * t.maxCols }

  predicate HasFixedRows(t: Traits) { t.rows > 0 && t.rows == t.maxRows }
  predicate HasFixedCols(t: Traits) { t.cols > 0 && t.cols == t.maxCols }

  /** `has_fixed_dimensions<C>`: the conjunction of fixed rows and fixed columns. */
  predicate HasFixedDimensions(t: Traits) { Conjunction([HasFixedRows(t), HasFixedCols(t)]) }

  predicate HasBoundedRows(t: Traits) { HasFixedRows(t) || (t.rows == 0 && t.maxRows > 0) }
  predicate HasBoundedCols(t: Traits) { HasFixedCols(t) || (t.cols == 0 && t.maxCols > 0) }

  /** `has_bounded_dimensions<C>`: the conjunction of bounded rows and bounded columns. */
  predicate HasBoundedDimensions(t: Traits) { Conjunction([HasBoundedRows(t), HasBoundedCols(t)]) }

  /** `has_valid_traits<C>`. */
  predicate HasValidTraits(t: Traits) { HasBoundedDimensions(t) }

  predicate IsTall(t: Traits) { t.maxRows >= t.maxCols }
  predicate IsShort(t: Traits) { t.maxRows <= t.maxCols }

  /** `is_square<C>` as declared in include/lin/core/traits/tensor.hpp: tall and short. */
  predicate IsSquare(t: Traits) { Conjunction([IsTall(t), IsShort(t)]) }

  /** The runtime-sized-only axes used by lin/core/types/dimensions.hpp ("strictly bounded"):
      a zero exact size under a positive maximum. */
  predicate HasStrictlyBoundedRows(t: Traits) { t.rows == 0 && t.maxRows > 0 }
  predicate HasStrictlyBoundedCols(t: Traits) { t.cols == 0 && t.maxCols > 0 }

  // ----- Relations over parameter packs -----

  predicate SameRowsPair(c: Traits, d: Traits) { c.rows == d.rows && c.maxRows == d.maxRows }
  predicate SameColsPair(c: Traits, d: Traits) { c.cols == d.cols && c.maxCols == d.maxCols }

  /** `have_same_elements<C, Cs...>`: the first element type is shared by every later one. */
  predicate HaveSameElements(ts: seq<Traits>)
  {
    |ts| <= 1 || Conjunction(seq(|ts| - 1, k requires 0 <= k < |ts| - 1 => ts[0].elem == ts[k + 1].elem))
  }

  /** `have_same_rows<C, Cs...>`: the first argument is compared with each later one. */
  predicate HaveSameRows(ts: seq<Traits>)
  {
    |ts| <= 1 || Conjunction(seq(|ts| - 1, k requires 0 <= k < |ts| - 1 => SameRowsPair(ts[0], ts[k + 1])))
  }

  /** `have_same_cols<C, Cs...>`. */
  predicate HaveSameCols(ts: seq<Traits>)
  {
    |ts| <= 1 || Conjunction(seq(|ts| - 1, k requires 0 <= k < |ts| - 1 => SameColsPair(ts[0], ts[k + 1])))
  }

  /** `have_same_dimensions<C, Cs...>` AS WRITTEN: the recursive case tests only `Cs...`, so the
      first argument is never looked at. */
  predicate HaveSameDimensionsAsWritten(ts: seq<Traits>)
  {
    |ts| <= 1 || Conjunction([HaveSameRows(ts[1..]), HaveSameCols(ts[1..])])
  }

  /** `have_same_traits<C, Cs...>` AS WRITTEN: again only `Cs...` is checked, through the
      as-written dimension check that itself drops its own head. */
  predicate HaveSameTraitsAsWritten(ts: seq<Traits>)
  {
    |ts| <= 1 || Conjunction([HaveSameElements(ts[1..]), HaveSameDimensionsAsWritten(ts[1..])])
  }

  /** `have_same_dimensions` as evidently intended: rows and columns of every argument agree
      with those of the first. This is the definition the rest of the model uses. */
  predicate HaveSameDimensions(ts: seq<Traits>)
  {
    Conjunction([HaveSameRows(ts), HaveSameCols(ts)])
  }

  /** `have_same_traits` as evidently intended. */
  predicate HaveSameTraits(ts: seq<Traits>)
  {
    Conjunction([HaveSameElements(ts), HaveSameDimensions(ts)])
  }

  // ----- Lemmas -----

  /** Size and MaxSize of a shape whose exact sizes are fixed agree. */
  lemma FixedSizeIsMaxSize(t: Traits)
    requires HasFixedDimensions(t)
    ensures Size(t) == MaxSize(t) && Size(t) > 0
  {
    assert [HasFixedRows(t), HasFixedCols(t)][0] && [HasFixedRows(t), HasFixedCols(t)][1];
  }

  /** Fixed dimensions are exactly fixed rows and fixed columns; bounded dimensions exactly
      bounded rows and bounded columns; valid traits are exactly bounded dimensions. */
  lemma DimensionPredicatesIff(t: Traits)
    ensures HasFixedDimensions(t) <==> HasFixedRows(t) && HasFixedCols(t)
    ensures HasBoundedDimensions(t) <==> HasBoundedRows(t) && HasBoundedCols(t)
    ensures HasValidTraits(t) <==> HasBoundedRows(t) && HasBoundedCols(t)
  {
    var f := [HasFixedRows(t), HasFixedCols(t)];
    var b := [HasBoundedRows(t), HasBoundedCols(t)];
    assert f[0] == HasFixedRows(t) && f[1] == HasFixedCols(t);
    assert b[0] == HasBoundedRows(t) && b[1] == HasBoundedCols(t);
  }

  /** Every fixed axis is bounded, so fixed dimensions imply valid traits; a bounded axis is
      either fixed or strictly bounded, never both. */
  lemma FixedImpliesBounded(t: Traits)
    ensures HasFixedRows(t) ==> HasBoundedRows(t)
    ensures HasFixedCols(t) ==> HasBoundedCols(t)
    ensures HasFixedDimensions(t) ==> HasValidTraits(t)
    ensures HasBoundedRows(t) <==> (HasFixedRows(t) != HasStrictlyBoundedRows(t))
    ensures HasBoundedCols(t) <==> (HasFixedCols(t) != HasStrictlyBoundedCols(t))
  {
    DimensionPredicatesIff(t);
  }

  /** Square depends only on the maximum dimensions: tall and short exactly when they agree. */
  lemma SquareIffEqualMaxima(t: Traits)
    ensures IsSquare(t) <==> IsTall(t) && IsShort(t)
    ensures IsSquare(t) <==> t.maxRows == t.maxCols
  {
    var s := [IsTall(t), IsShort(t)];
    assert s[0] == IsTall(t) && s[1] == IsShort(t);
  }

  /** `have_same_rows`/`have_same_cols` compare the first argument with every later one, on both
      the exact and the maximum value; with fewer than two arguments they hold. */
  lemma {:induction false} HaveSameRowsColsIff(ts: seq<Traits>)
    ensures HaveSameRows(ts) <==> forall k :: 0 < k < |ts| ==> SameRowsPair(ts[0], ts[k])
    ensures HaveSameCols(ts) <==> forall k :: 0 < k < |ts| ==> SameColsPair(ts[0], ts[k])
  {
    if |ts| > 1 {
      var rs := seq(|ts| - 1, k requires 0 <= k < |ts| - 1 => SameRowsPair(ts[0], ts[k + 1]));
      var cs := seq(|ts| - 1, k requires 0 <= k < |ts| - 1 => SameColsPair(ts[0], ts[k + 1]));
      assert forall k :: 0 < k < |ts| ==> rs[k - 1] == SameRowsPair(ts[0], ts[k]);
      assert forall k :: 0 < k < |ts| ==> cs[k - 1] == SameColsPair(ts[0], ts[k]);
    }
  }

  /** The intended `have_same_dimensions` holds exactly when every argument agrees with the
      first on all four dimension numbers. */
  lemma HaveSameDimensionsIff(ts: seq<Traits>)
    ensures HaveSameDimensions(ts) <==>
      forall k :: 0 < k < |ts| ==> SameRowsPair(ts[0], ts[k]) && SameColsPair(ts[0], ts[k])
  {
    HaveSameRowsColsIff(ts);
    var p := [HaveSameRows(ts), HaveSameCols(ts)];
    assert p[0] == HaveSameRows(ts) && p[1] == HaveSameCols(ts);
  }

  /** For two arguments the intended relation is symmetric. */
  lemma HaveSameDimensionsSymmetric(c: Traits, d: Traits)
    ensures HaveSameDimensions([c, d]) <==> HaveSameDimensions([d, c])
    ensures HaveSameDimensions([c, d]) <==>
      c.rows == d.rows && c.cols == d.cols && c.maxRows == d.maxRows && c.maxCols == d.maxCols
  {
    HaveSameDimensionsIff([c, d]);
    HaveSameDimensionsIff([d, c]);
  }

  /** As written, `have_same_dimensions<C, D>` and `have_same_traits<C, D>` hold for ANY two
      types: the recursive case drops `C` and the one-element case is true. */
  lemma TwoArgumentSameDimensionsAlwaysHolds(c: Traits, d: Traits)
    ensures HaveSameDimensionsAsWritten([c, d])
    ensures HaveSameTraitsAsWritten([c, d])
  {
    assert [c, d][1..] == [d];
    var p := [HaveSameRows([d]), HaveSameCols([d])];
    assert p[0] && p[1];
    var q := [HaveSameElements([d]), HaveSameDimensionsAsWritten([d])];
    assert q[0] && q[1];
  }

  /** The as-written check lets a 2x2 and a 3x3 type through, which the intended one rejects. */
  lemma AsWrittenAcceptsMismatchedShapes()
    ensures HaveSameDimensionsAsWritten([Traits(Double, 2, 2, 2, 2), Traits(Double, 3, 3, 3, 3)])
    ensures !HaveSameDimensions([Traits(Double, 2, 2, 2, 2), Traits(Double, 3, 3, 3, 3)])
  {
    TwoArgumentSameDimensionsAlwaysHolds(Traits(Double, 2, 2, 2, 2), Traits(Double, 3, 3, 3, 3));
    HaveSameDimensionsSymmetric(Traits(Double, 2, 2, 2, 2), Traits(Double, 3, 3, 3, 3));
  }

  /** With three or more arguments the as-written relation is the intended one on the tail. */
  lemma AsWrittenIsIntendedOnTail(ts: seq<Traits>)
    requires |ts| >= 2
    ensures HaveSameDimensionsAsWritten(ts) == HaveSameDimensions(ts[1..])
  {
  }
}
