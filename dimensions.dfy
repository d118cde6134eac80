// Runtime tensor dimensions: the four `Dimensions<D>` specializations of
// lin/core/types/dimensions.hpp and the per-axis `Dimension<N, MN>` of
// include/lin/core/tensor/inl/dimensions.inl. A `LIN_ASSERT` becomes a precondition.

module Dims {
  import opened TraitUtilities
  import opened TensorTraits

  /** The dimension numbers for which one of the four specializations exists: each axis is
      fixed or strictly bounded. */
  predicate HasDimensionsSpecialization(t: Traits)
  {
    (HasFixedRows(t) || HasStrictlyBoundedRows(t)) && (HasFixedCols(t) || HasStrictlyBoundedCols(t))
  }

  /** What the `LIN_ASSERT`s of `resize(r, c)` demand: a fixed axis keeps its size, a strictly
      bounded axis takes a size in 1..max. */
  predicate ResizeAllowed(t: Traits, r: nat, c: nat)
  {
    (if HasFixedRows(t) then r == t.rows else 0 < r <= t.maxRows) &&
    (if HasFixedCols(t) then c == t.cols else 0 < c <= t.maxCols)
  }

  /** `Dimensions<D>`: a fixed axis answers its compile-time size, a strictly bounded axis a
      stored size that starts at its maximum. */
  class Dimensions {
    const t: Traits
    var storedRows: nat
    var storedCols: nat

    ghost predicate Valid()
      reads this
    {
      HasDimensionsSpecialization(t) && ResizeAllowed(t, storedRows, storedCols)
    }

    function Rows(): (r: nat)
      reads this
      requires Valid()
      ensures 0 < r <= t.maxRows
      ensures HasFixedRows(t) ==> r == t.rows
    {
      if HasFixedRows(t) then t.rows else storedRows
    }

    function Cols(): (c: nat)
      reads this
      requires Valid()
      ensures 0 < c <= t.maxCols
      ensures HasFixedCols(t) ==> c == t.cols
    {
      if HasFixedCols(t) then t.cols else storedCols
    }

    /** The default constructor: runtime-sized axes start at their maximum. */
    constructor (t: Traits)
      requires HasDimensionsSpecialization(t)
      ensures this.t == t && Valid()
      ensures Rows() == t.maxRows && Cols() == t.maxCols
    {
      this.t := t;
      storedRows := t.maxRows;
      storedCols := t.maxCols;
    }

    /** `resize(r, c)`. */
    method Resize(r: nat, c: nat)
      requires Valid() && ResizeAllowed(t, r, c)
      modifies this
      ensures Valid()
      ensures Rows() == r && Cols() == c
    {
      if !HasFixedRows(t) { storedRows := r; }
      if !HasFixedCols(t) { storedCols := c; }
    }
  }

  /** `resize` accepts exactly sizes in 1..max that keep every fixed axis, and the initial
      (maximum) size is one of them. */
  lemma ResizeAllowedExactly(t: Traits, r: nat, c: nat)
    requires HasDimensionsSpecialization(t)
    ensures ResizeAllowed(t, r, c) <==>
      (0 < r <= t.maxRows && 0 < c <= t.maxCols &&
       (HasFixedRows(t) ==> r == t.rows) && (HasFixedCols(t) ==> c == t.cols))
    ensures ResizeAllowed(t, t.maxRows, t.maxCols)
  {
  }

  /** The specializations cover exactly the valid traits. */
  lemma SpecializationIffValid(t: Traits)
    ensures HasDimensionsSpecialization(t) <==> HasValidTraits(t)
  {
    DimensionPredicatesIff(t);
  }

  // ----- Per-axis dimension, include/lin/core/tensor/inl/dimensions.inl -----

  /** `Dimension<N, MN>`: `N == MN > 0` is a fixed axis; `N == 0 < MN` a runtime axis. */
  predicate IsAxisShape(n: nat, maxN: nat) { (n > 0 && n == maxN) || (n == 0 && maxN > 0) }

  /** The `LIN_ASSERT` of `Dimension::resize(k)`: the fixed size, or at most the maximum. Unlike
      lin/core/types/dimensions.hpp, a runtime axis accepts 0. */
  predicate AxisResizeAllowed(n: nat, maxN: nat, k: nat)
  {
    if n > 0 then k == n else k <= maxN
  }

  class Dimension {
    const n: nat
    const maxN: nat
    var stored: nat

    ghost predicate Valid()
      reads this
    {
      IsAxisShape(n, maxN) && AxisResizeAllowed(n, maxN, stored)
    }

    /** `get()`. */
    function Get(): (k: nat)
      reads this
      requires Valid()
      ensures k <= maxN && (n > 0 ==> k == n)
    {
      if n > 0 then n else stored
    }

    constructor (n: nat, maxN: nat)
      requires IsAxisShape(n, maxN)
      ensures this.n == n && this.maxN == maxN && Valid() && Get() == maxN
    {
      this.n := n;
      this.maxN := maxN;
      stored := maxN;
    }

    method Resize(k: nat)
      requires Valid() && AxisResizeAllowed(n, maxN, k)
      modifies this
      ensures Valid() && Get() == k
    {
      if n == 0 { stored := k; }
    }
  }

  /** `Dimensions<D>` of include/lin/core/tensor/inl/dimensions.inl: a row and a column axis. */
  class AxisDimensions {
    const row: Dimension
    const col: Dimension

    ghost predicate Valid()
      reads this, row, col
    {
      row != col && row.Valid() && col.Valid()
    }

    constructor (t: Traits)
      requires IsAxisShape(t.rows, t.maxRows) && IsAxisShape(t.cols, t.maxCols)
      ensures Valid() && fresh(row) && fresh(col)
      ensures row.Get() == t.maxRows && col.Get() == t.maxCols
    {
      row := new Dimension(t.rows, t.maxRows);
      col := new Dimension(t.cols, t.maxCols);
    }

    /** `resize(r, c)`: the row axis, then the column axis. */
    method Resize(r: nat, c: nat)
      requires Valid()
      requires AxisResizeAllowed(row.n, row.maxN, r) && AxisResizeAllowed(col.n, col.maxN, c)
      modifies row, col
      ensures Valid() && row.Get() == r && col.Get() == c
    {
      row.Resize(r);
      col.Resize(c);
    }
  }

  /** The two models of `resize` agree except that a per-axis runtime dimension may be resized
      to 0, which the specializations of lin/core/types/dimensions.hpp reject. */
  lemma AxisResizeAdmitsZero(t: Traits, r: nat, c: nat)
    requires HasDimensionsSpecialization(t)
    ensures ResizeAllowed(t, r, c) <==>
      (AxisResizeAllowed(t.rows, t.maxRows, r) && AxisResizeAllowed(t.cols, t.maxCols, c) && r > 0 && c > 0)
    ensures HasStrictlyBoundedRows(t) ==> AxisResizeAllowed(t.rows, t.maxRows, 0) && !ResizeAllowed(t, 0, c)
  {
  }
}
