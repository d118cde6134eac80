# lin: a verified model of the tensor core and its Python bindings

`lin` is a header-only C++ library of small vectors and matrices. Their dimensions are fixed
at compile time or bounded by a compile-time maximum. A Python generator, `setup.py`, writes
the pybind11 bindings that expose a fixed registry of those types to Python. This project
models that core in Dafny and proves what it promises.

- **Traits lattice.** Each type's traits are the tuple `(elem, Rows, Cols, MaxRows, MaxCols)`.
  The predicates over it say which tuples are fixed, bounded, valid, tall, short, square, a
  row vector, a column vector or a matrix, and whether several types share dimensions. The
  newer headers (`include/lin/...`, `lin/...`) and the older ones (`include/core/...`) are
  modelled separately, because they disagree.
- **Runtime storage.** The `Dimensions` state machine and its `resize` are a class. So is
  `Tensor`, with a `max_size` backing `array<int>` addressed in row-major order. The
  `Mapping` assignment loops and `Stream::eval` are methods on it. Printing a stream is a
  method proved against a layout function.
- **Lazy expressions.** The add, subtract, scale, divide, negate, multiply, transpose and
  element-wise streams are modelled as the values they read as (`RowMajor.Mat`). Their
  compile-time gates and result traits are modelled alongside.
- **References and generators.** The anchored window references, the diagonal reference and
  the writable transpose are classes that alias a `Tensor`. The `col`, `row` and `diag`
  type selection is modelled, and so are the constant, identity and diagonal generators.
- **Operations.** The tensor/scalar overload dispatch and the functors, including the
  scalar-on-left and scalar-on-right argument order, are modelled. So are `sum`, `fro`,
  `trace`, `dot` and `cross`, the query functors, the element-wise comparisons, and
  `all`/`any`.
- **Bindings.** The registry that `autocode()` enumerates is modelled, and so are the
  `__mul__`, `trace`, `dot` and `cross` overload tables it emits. The generated
  per-type code is modelled too:
  - the buffer checks and fill of `__init__`;
  - `def_buffer`;
  - negative-index normalisation in `__getitem__` and `__setitem__`;
  - the pickle round trip;
  - the arithmetic and in-place dunder methods.

Element values are modelled as `int`, and division as C++ integer division, which truncates
toward zero (`Functors.CDiv`).

## Model

| member | source | states |
|---|---|---|
| TraitUtilities.Conjunction | include/lin/core/traits/inl/utilities.inl:19-27 | the fold holds iff every element of the pack holds (true for the empty pack) |
| TraitUtilities.Disjunction | include/lin/core/traits/inl/utilities.inl:29-37 | the fold holds iff some element of the pack holds (false for the empty pack) |
| TraitUtilities.NegationFlips | include/lin/core/traits/inl/utilities.inl:39-41 | `negation` flips its value, and negating twice is the identity |
| TraitUtilities.FoldsShortCircuit | include/lin/core/traits/inl/utilities.inl:25-37 | a false head makes the conjunction false and a true head makes the disjunction true; otherwise each is the fold of the rest |
| TraitUtilities.DeMorgan | include/lin/core/traits/inl/utilities.inl:19-41 | the disjunction of a pack is the negated conjunction of the negated pack |
| TensorTraits.FixedSizeIsMaxSize | include/lin/core/traits/tensor.hpp:49-55 | for fixed dimensions, Size == Rows*Cols equals MaxSize == MaxRows*MaxCols and is positive |
| TensorTraits.DimensionPredicatesIff | include/lin/core/traits/tensor.hpp:81-96 | fixed (bounded) dimensions iff fixed (bounded) rows and cols; valid traits iff bounded rows and cols |
| TensorTraits.FixedImpliesBounded | include/lin/core/traits/inl/tensor.inl:16-46 | a fixed axis is bounded, fixed dimensions are valid, and a bounded axis is either fixed or runtime-sized, never both |
| TensorTraits.SquareIffEqualMaxima | include/lin/core/traits/tensor.hpp:131-132 | square iff tall and short, iff MaxRows == MaxCols |
| TensorTraits.HaveSameRowsColsIff | include/lin/core/traits/inl/tensor.inl:58-90 | `have_same_rows`/`have_same_cols` hold iff every later argument matches the first on both the exact and the max value |
| TensorTraits.HaveSameDimensionsIff | include/lin/core/traits/inl/tensor.inl:92-100 | the intended relation holds iff every argument matches the first in rows and cols |
| TensorTraits.HaveSameDimensionsSymmetric | include/lin/core/traits/inl/tensor.inl:92-100 | for two arguments the intended relation is symmetric and compares all four dimension numbers |
| TensorTraits.TwoArgumentSameDimensionsAlwaysHolds | include/lin/core/traits/inl/tensor.inl:92-110 | as written, `have_same_dimensions<C, D>` and `have_same_traits<C, D>` hold for any two types |
| TensorTraits.AsWrittenAcceptsMismatchedShapes | include/lin/core/traits/inl/tensor.inl:92-100 | as written, a 2x2 and a 3x3 type pass; the intended relation rejects them |
| TensorTraits.AsWrittenIsIntendedOnTail | include/lin/core/traits/inl/tensor.inl:92-100 | the as-written relation is the intended relation on all arguments but the first |
| VectorTraits.VectorDimsOf | lin/core/traits/vector.hpp:75-88 | length and max length are the cols of a row vector and the rows of a column vector; the max length exceeds 1 |
| VectorTraits.Classified | lin/core/traits/matrix.hpp:26-27 | no type is both a row and a column vector; vector iff one of them; matrix iff neither (a partition) |
| VectorTraits.OneByOneIsMatrix | lin/core/traits/vector.hpp:32-73 | a fixed 1x1 type is neither kind of vector, hence a matrix |
| VectorTraits.ClassificationExamples | lin/core/traits/vector.hpp:32-58 | (5,1,5,1) is a column vector and not a matrix; (0,4,3,4) is a matrix; (1,0,1,4) is a row vector of max length 4 |
| VectorTraits.RowColMirror | lin/core/traits/vector.hpp:32-58 | a tuple is a row vector iff its transposed tuple is a column vector |
| VectorTraits.HaveSameVectorDimensionsIff | lin/core/traits/vector.hpp:149-163 | holds iff every later argument matches the first in length and max length |
| VectorTraits.RowAndColumnOfSameLengthMatch | lin/core/traits/vector.hpp:149-183 | a row and a column vector of the same length have the same vector dimensions and traits |
| VectorTraits.HaveSameVectorTraitsIff | lin/core/traits/vector.hpp:180-183 | same vector traits iff same element types and same vector dimensions |
| VectorTraits.InlQuirks | include/lin/core/traits/inl/vector.inl:49-76 | in the newer header, the one-argument dimension check is `is_vector`, and the two-argument traits check tests only the second argument |
| VectorTraits.InlTraitsIgnoreFirst | include/lin/core/traits/inl/vector.inl:74-76 | a 3x3 matrix paired with an int column vector passes the two-argument traits check |
| LegacyTraits.DimsValidIsValidTraits | include/core/tensor/traits.hpp:49-83 | the legacy `is_dims_valid` accepts exactly the tuples `has_valid_traits` accepts; a legacy fixed size is fixed dimensions |
| LegacyTraits.StaticExcludesFixed | include/core/tensor/traits.hpp:73-79 | a static size is never a fixed size |
| LegacyTraits.AreDimsEqualIsSameDimensions | include/core/tensor/traits.hpp:85-101 | `are_dims_equal` is an equivalence and agrees with the intended two-argument `have_same_dimensions` |
| LegacyTraits.LegacySquareIsStricter | include/core/matrix/traits.hpp:16-29 | legacy square implies square, and a runtime 0x3 of max 3x3 is square only under the newer definition |
| LegacyTraits.AreVectorTraitsEqualFacts | include/core/vector/traits.hpp:54-64 | false when either argument is a matrix; a row and a column vector of one length are equal; for vectors it is same vector traits |
| Dims.Dimensions.Rows | lin/core/types/dimensions.hpp:80-171 | the stored rows lie in 1..MaxRows and equal Rows for a fixed axis |
| Dims.Dimensions.Cols | lin/core/types/dimensions.hpp:80-171 | the stored cols lie in 1..MaxCols and equal Cols for a fixed axis |
| Dims.Dimensions.constructor | lin/core/types/dimensions.hpp:99-171 | a new object holds the maximum dimensions |
| Dims.Dimensions.Resize | lin/core/types/dimensions.hpp:117-170 | under the asserted bounds, afterwards rows() == r and cols() == c |
| Dims.ResizeAllowedExactly | lin/core/types/dimensions.hpp:80-171 | `resize(r, c)` is allowed iff each size is in 1..max and a fixed axis keeps its size; the maximum dimensions are always allowed |
| Dims.SpecializationIffValid | lin/core/types/dimensions.hpp:80-171 | one of the four specializations exists iff the traits are valid |
| Dims.Dimension.Get | include/lin/core/tensor/inl/dimensions.inl:10-43 | `get()` is at most the maximum and is N for a fixed axis |
| Dims.Dimension.constructor | include/lin/core/tensor/inl/dimensions.inl:26-43 | a runtime axis starts at its maximum MN |
| Dims.Dimension.Resize | include/lin/core/tensor/inl/dimensions.inl:39-42 | after an asserted resize, `get()` returns the new size |
| Dims.AxisDimensions.constructor | include/lin/core/tensor/inl/dimensions.inl:45-59 | both axes start at their maxima |
| Dims.AxisDimensions.Resize | include/lin/core/tensor/inl/dimensions.inl:45-59 | the row axis is resized, then the column axis; each reads back its new size |
| Dims.AxisResizeAdmitsZero | include/lin/core/tensor/inl/dimensions.inl:39-42 | the per-axis resize agrees with the `Dimensions` one except that it admits size 0 |
| Storage.SizeWithinMax | lin/core/types/tensor.hpp:50 | a runtime size within the maxima fits in the `max_size` backing array |
| Storage.Tensor.Rows | lin/core/types/tensor.hpp:75-77 | rows() lies in 1..MaxRows |
| Storage.Tensor.Cols | lin/core/types/tensor.hpp:75-77 | cols() lies in 1..MaxCols |
| Storage.Tensor.Size | include/lin/core/types/inl/stream.inl:20-23 | size() is positive and never exceeds the backing array |
| Storage.Tensor.Value | lin/core/types/base.hpp:102-107 | the stream value has the tensor's runtime dimensions |
| Storage.Tensor.constructor | lin/core/types/tensor.hpp:75-77 | the default tensor has the maximum dimensions and every backing element is 0 |
| Storage.Tensor.Sized | lin/core/types/tensor.hpp:87-89 | `Tensor(r, c)` is resized to (r, c) with every backing element 0 |
| Storage.Tensor.Resize | include/lin/core/types/inl/tensor.inl:10-33 | afterwards rows() == r and cols() == c |
| Storage.Tensor.Get | include/lin/core/types/inl/tensor.inl:35-40 | `(i, j)` reads element (i, j) of the value, i.e. `elems[i*cols+j]` |
| Storage.Tensor.GetLinear | include/lin/core/types/inl/tensor.inl:42-46 | `(i)` reads linear element i of the value |
| Storage.Tensor.Set | lin/core/types/base.hpp:102-107 | writing through `(i, j)` changes exactly element (i, j) of the value |
| Storage.Tensor.SetLinear | include/lin/core/types/inl/tensor.inl:43-46 | writing through `(i)` changes only `elems[i]`; the dimensions stay |
| Storage.Tensor.AssignList | include/lin/core/types/mapping.hpp:133-141 | the list length must be size(); afterwards the value holds the list in linear order, and storage past size() is untouched |
| Storage.Tensor.AssignStream | include/lin/core/types/mapping.hpp:158-168 | runtime dimensions must agree; afterwards `this(i) == source(i)` for every i < size and the value is the stream |
| Storage.Tensor.FromList | lin/core/types/tensor.hpp:104-107 | `Tensor(list)` has the maximum dimensions and holds the list |
| Storage.Tensor.SizedFromList | lin/core/types/tensor.hpp:123-127 | `Tensor(r, c, list)` resizes first and then holds the list |
| Storage.Tensor.FromStream | lin/core/types/tensor.hpp:142-146 | `Tensor(stream)` takes the stream's dimensions and then its elements |
| Storage.Eval | include/lin/core/types/inl/stream.inl:35-38 | `eval()` gives a fresh tensor of the same type holding the same value |
| Storage.InlGuardAdmitsOnePastEnd | include/lin/core/types/inl/tensor.inl:37-44 | for a fixed type, the `<=` guards admit linear index max_size and the pair (rows, 0), one past the backing array, where the strict guards reject both |
| Storage.InlGuardReachesPastStorage | include/lin/core/types/inl/tensor.inl:37-44 | on a live tensor of a fixed type, the `<=` guards admit the linear index `elems.Length` and the pair (rows(), 0), whose offset is `elems.Length` |
| Storage.BaseGuardInBounds | lin/core/types/base.hpp:102-125 | whatever the strict guards admit lies inside the backing array |
| RowMajor.OffsetInBounds | lin/core/types/base.hpp:102-107 | `i*cols+j` of an in-bounds pair is below rows*cols, and division and remainder recover (i, j) |
| RowMajor.OffsetBound | lin/core/types/base.hpp:102-107 | `i*cols+j` of an in-bounds pair is below rows*cols |
| RowMajor.LinearInBounds | lin/core/types/base.hpp:121-125 | a linear index below rows*cols splits into an in-bounds row `k/cols` and column `k%cols` |
| RowMajor.AtLinear | lin/core/types/base.hpp:121-125 | linear element k, read at (k/cols, k%cols), is `data()[k]` |
| RowMajor.Tabulate | include/lin/core/types/inl/stream.inl:20-23 | the value built from f has the given dimensions and element (i, j) equal to f(i, j) |
| RowMajor.RowMajorAddressing | lin/core/types/base.hpp:102-125 | `(i, j)` and linear `i*cols+j` read the same element, and distinct pairs have distinct offsets |
| RowMajor.Update | lin/core/types/base.hpp:102-107 | after a write to (i, j), that element reads v and every other element is unchanged |
| RowMajor.UpdateElsewhere | lin/core/types/base.hpp:102-107 | a write to another flat offset leaves element (a, b) unchanged |
| RowMajor.DistinctOffsets | lin/core/types/base.hpp:102-107 | distinct in-bounds pairs have distinct row-major offsets |
| RowMajor.MatExtensionality | include/lin/core/types/inl/stream.inl:20-23 | two values with the same dimensions and the same (i, j) elements are equal |
| StreamPrint.Layout | include/lin/core/types/inl/stream.inl:51-62 | the printed output holds two tokens per element |
| StreamPrint.LayoutAt | include/lin/core/types/inl/stream.inl:51-62 | token 2k is element (i, j), and token 2k+1 is a newline when j ends the row and a space otherwise |
| StreamPrint.PutEntry | include/lin/core/types/inl/stream.inl:54-60 | appending entry k and its separator extends the output to the first 2k+2 tokens of the layout |
| StreamPrint.Print | include/lin/core/types/inl/stream.inl:51-62 | `operator<<` prints exactly the layout |
| StreamPrint.PrintRow | include/lin/core/types/inl/stream.inl:53-60 | after row i the output is the layout up to the end of that row |
| StreamPrint.LineStructure | include/lin/core/types/inl/stream.inl:51-62 | line i holds the cols entries of row i, separated by single spaces and ending in the only newline of the line |
| StreamPrint.PrintExample | include/lin/core/types/inl/stream.inl:51-62 | a 2x2 stream [1,2;3,4] prints as "1 2\n3 4\n" |
| Functors.AddTs | include/lin/core/operations/functors.hpp:41-42 | `add_ts` is the `add_st` functor |
| Functors.MultiplyTs | include/lin/core/operations/functors.hpp:104-105 | `multiply_ts` is the `multiply_st` functor |
| Functors.Arity | include/lin/core/operations/functors.hpp:18-167 | every functor takes one or two element operands |
| Functors.CDivSigns | include/lin/core/operations/functors.hpp:45-52 | C++ division agrees with Euclidean division on non-negative operands and is odd in each operand |
| Functors.CDivTruncates | include/lin/core/operations/functors.hpp:45-52 | the quotient rounds toward zero: `abs(q)*abs(b) <= abs(a) < (abs(q)+1)*abs(b)` |
| Functors.CDivOfMultiple | include/lin/core/operations/functors.hpp:45-52 | dividing t*x by t gives x |
| Functors.SubtractKeepsOperandOrder | include/lin/core/operations/functors.hpp:143-167 | `subtract_st(t)(u) == t - u` and `subtract_ts(t)(u) == u - t`, which are opposites |
| Functors.DivideKeepsOperandOrder | include/lin/core/operations/functors.hpp:54-78 | `divide_st(t)(u) == t / u` and `divide_ts(t)(u) == u / t` |
| Functors.SymmetricAliases | include/lin/core/operations/functors.hpp:40-42 | the `_ts` aliases of add and multiply agree with both operand orders |
| Functors.NegateInvolution | include/lin/core/operations/functors.hpp:107-115 | negating twice is the identity |
| Functors.SignFacts | include/lin/core/operations/functors.hpp:117-131 | signed `sign` is 1, 0 or -1 exactly as t is positive, zero or negative, and sign(t)*t == abs(t); unsigned `sign` is 0 or 1 and agrees with it |
| Functors.FunctorExamples | include/lin/core/operations/functors.hpp:134-167 | the subtract, multiply and sign values the functor checks expect, on integers |
| Expressions.CanAddGate | include/lin/core/tensor/inl/operators.inl:10-17 | the written `+`/`-` gate admits every pair of types; the intended one admits exactly equal dimension numbers |
| Expressions.MultiplyTraitsFacts | lin/core/operations/stream_multiply.hpp:133-139 | the product of valid multipliable types is valid (square if both are); column times row is a matrix; row times column is 1x1 |
| Expressions.TransposeTraitsFacts | include/lin/core/operations/stream_transpose.hpp:99-105 | the dimensions are swapped: an involution that keeps validity, squareness and both sizes, exchanges row and column vectors, and makes 2x4 into 4x2 |
| Expressions.ArgsAt | include/lin/core/operations/stream_element_wise_operator.hpp:59-67 | the functor arguments at (i, j) are the operands' elements at (i, j), in argument order |
| Expressions.LinearArgs | include/lin/core/operations/stream_element_wise_operator.hpp:116-136 | the functor arguments at linear k are the operands' linear elements k, in order |
| Expressions.ElementWise | include/lin/core/operations/stream_element_wise_operator.hpp:94-102 | the result has the first operand's dimensions and element (i, j) is f of the operands' elements |
| Expressions.ElementWiseLinear | include/lin/core/operations/stream_element_wise_operator.hpp:116-136 | the linear accessor applies f to linear elements k, which equals reading (k/cols, k%cols) |
| Expressions.Add | include/lin/core/tensor/inl/operators.inl:54-87 | `StreamAdd` has c's dimensions and element c(i,j) + d(i,j) |
| Expressions.Subtract | include/lin/core/tensor/inl/operators.inl:94-176 | `StreamSubtract` has c's dimensions and element c(i,j) - d(i,j) |
| Expressions.Scale | include/lin/core/tensor/inl/operators.inl:178-263 | `StreamScale` has c's dimensions and element t*c(i,j), for `t*c` and `c*t` alike |
| Expressions.Divide | include/lin/core/tensor/inl/operators.inl:345-416 | `StreamDivide` has c's dimensions and element c(i,j)/t, truncating |
| Expressions.Negate | include/lin/core/tensor/inl/operators.inl:265-343 | `StreamNegate` has c's dimensions and element -c(i,j) |
| Expressions.AddCommutes | include/lin/core/tensor/inl/operators.inl:54-87 | c + d == d + c |
| Expressions.SubtractUndoesAdd | include/lin/core/tensor/inl/operators.inl:94-176 | (c + d) - d == c |
| Expressions.SubtractIsAddNegated | include/lin/core/tensor/inl/operators.inl:94-343 | c - d == c + (-d), and -(-c) == c |
| Expressions.ScaleDistributes | include/lin/core/tensor/inl/operators.inl:178-263 | t*(c + d) == t*c + t*d |
| Expressions.DivideUndoesScale | include/lin/core/tensor/inl/operators.inl:345-416 | (t*c)/t == c for t != 0, despite truncating division |
| Expressions.Multiply | lin/core/operations/stream_multiply.hpp:101-105 | the product has c's rows and d's cols, and element (i, j) is the sum over k < c.cols of c(i,k)*d(k,j) |
| Expressions.MultiplyAt | include/lin/core/tensor/inl/operators.inl:482-487 | the accumulation loop starting from c(i,0)*d(0,j) computes element (i, j) of the product |
| Expressions.MultiplyAtLinear | include/lin/core/tensor/inl/operators.inl:489-492 | linear product element k is read at (k/cols, k%cols) and is element k of the product |
| Expressions.MultiplyExample | lin/core/operations/stream_multiply.hpp:101-105 | [[1,2],[3,4]] * [[5,6],[7,8]] == [[19,22],[43,50]] |
| Expressions.Transpose | include/lin/core/operations/stream_transpose.hpp:57-78 | rows and cols are swapped and element (i, j) is c(j, i) |
| Expressions.TransposeInvolution | include/lin/core/tensor/inl/operations.inl:45-75 | transposing twice gives back the stream |
| Expressions.TransposeLinear | include/lin/core/operations/stream_transpose.hpp:91-93 | the transpose's linear element k is c(k % c.rows, k / c.rows) |
| Expressions.RowColSumTransposed | lin/core/operations/stream_multiply.hpp:101-105 | the inner sum for (i, j) of c*d equals the inner sum for (j, i) of d^T * c^T |
| Expressions.MultiplyTransposes | lin/core/operations/stream_multiply.hpp:101-105 | (c*d)^T == d^T * c^T |
| Reductions.Sum | lin/core/operations/tensor_operations.hpp:310-315 | `sum(c)` starting from c(0) is the sum of all linear elements |
| Reductions.Fro | lin/core/operations/tensor_operations.hpp:206-212 | `fro(c)` starting from c(0)*c(0) is the sum of the squared linear elements |
| Reductions.FroScalar | lin/core/operations/tensor_operations.hpp:214-218 | `fro(t)` is non-negative and is the sum of squares of [t] |
| Reductions.Trace | lin/core/operations/matrix_operations.hpp:22-28 | on a square runtime shape, `trace(c)` is the sum of the diagonal elements |
| Reductions.Dot | include/lin/core/operations/inl/vector_operations.inl:22-29 | for equal sizes, `dot(u, v)` is the sum of the products of corresponding elements |
| Reductions.SumToAdditive | lin/core/operations/tensor_operations.hpp:310-315 | the sum of an element-wise sum is the sum of the sums |
| Reductions.DotFacts | include/lin/core/operations/inl/vector_operations.inl:22-29 | `dot` is symmetric, `fro(c) == dot(c, c)`, and the sum of squares is non-negative |
| Reductions.ReductionExamples | lin/core/operations/matrix_operations.hpp:26-28 | fro of [0,1,2,3,-1,0] is 15; the traces of [[2,5,6],[1,4,3],[0,-7,-1]] and [[0..8]] are 5 and 12 |
| Reductions.CrossElems | include/lin/core/operations/inl/vector_operations.inl:16-18 | the cross product has three components |
| Reductions.CrossTraits | include/lin/core/operations/inl/vector_operations.inl:9-15 | the result type is a vector of the left operand's lengths, a column vector iff the left operand is one |
| Reductions.Cross | include/lin/core/operations/inl/vector_operations.inl:9-20 | `cross(u, v)` is 3x1 for a column-vector left operand and 1x3 otherwise, and holds the three components |
| Reductions.CanCrossIff | include/lin/core/operations/vector_operations.hpp:24-36 | `cross` accepts exactly pairs of vectors of length 3 and max length 3, either orientation |
| Reductions.CrossAnticommutes | include/lin/core/operations/inl/vector_operations.inl:16-18 | cross(u, v) == -cross(v, u), and cross(u, u) == 0 |
| Reductions.DotThree | include/lin/core/operations/inl/vector_operations.inl:26-27 | a three-term dot product written out |
| Reductions.CrossOrthogonal | include/lin/core/operations/inl/vector_operations.inl:16-27 | dot(cross(u, v), u) == 0 == dot(cross(u, v), v) |
| Reductions.TripleProductZero | include/lin/core/operations/inl/vector_operations.inl:16-18 | a triple product with a repeated row vanishes |
| Queries.FromBool | include/lin/queries/functors.hpp:16-23 | a bool element is 0 or 1 and is non-zero iff true |
| Queries.Ts | include/lin/queries/functors.hpp:39-76 | `r_ts` is the alias `r_st` for the symmetric relations and binds the scalar on the right otherwise |
| Queries.Arity | include/lin/queries/functors.hpp:16-275 | every query functor takes one or two operands |
| Queries.OperandOrder | include/lin/queries/functors.hpp:52-76 | `r_st(t)(u)` is r(t, u) and `r_ts(t)(u)` is r(u, t), for every relation |
| Queries.SymmetricRelations | include/lin/queries/functors.hpp:38-40 | the four aliased relations are symmetric and the order relations are not |
| Queries.ConverseRelations | include/lin/queries/functors.hpp:79-184 | greater/less and greater_equal/less_equal are converses; less_equal is not greater; not_equal_to is not equal_to |
| Queries.FunctorExamples | include/lin/queries/functors.hpp:43-76 | `greater_st(0)` holds for -1 only and `greater_ts(0)` for 1 only; `logical_not` flips truth |
| Queries.Map | include/lin/queries/operations.hpp:210-218 | the mapped stream keeps the dimensions and holds the query of every element |
| Queries.Map2 | include/lin/queries/operations.hpp:48-70 | the element-wise relation keeps c's dimensions and holds r(c(i,j), d(i,j)) |
| Queries.CompareTensors | include/lin/queries/operations.hpp:75-97 | r(c, d) holds at (i, j) iff r holds on the two elements |
| Queries.CompareScalarTensor | include/lin/queries/operations.hpp:75-97 | r(t, c) keeps the scalar on the left of every comparison |
| Queries.CompareTensorScalar | include/lin/queries/operations.hpp:75-97 | r(c, t) keeps the scalar on the right of every comparison |
| Queries.NotTensor | include/lin/queries/operations.hpp:210-218 | `logical_not(c)` is truthy exactly where c is not |
| Queries.ScalarSideConverse | include/lin/queries/operations.hpp:75-151 | greater(t, c) == less(c, t) and greater_equal(t, c) == less_equal(c, t) |
| Queries.All | include/lin/queries/operations.hpp:17-22 | the early-exit scan returns true iff every linear element is truthy |
| Queries.Any | include/lin/queries/operations.hpp:33-37 | the early-exit scan returns true iff some linear element is truthy |
| Queries.AllScalar | include/lin/queries/operations.hpp:24-43 | `all(t)` and `any(t)` are bool(t), as for a one-element stream |
| Queries.AllWith | include/lin/core/tensor/inl/operations.inl:154-159 | `all(c, f)` holds iff f holds for every linear element |
| Queries.AnyWith | include/lin/core/tensor/inl/operations.inl:182-187 | `any(c, f)` holds iff f holds for some linear element |
| Queries.AllIsNotAnyNot | include/lin/queries/operations.hpp:17-37 | all(c) iff not any(logical_not(c)) |
| Queries.QueryExamples | include/lin/queries/operations.hpp:17-37 | all({T,T,F}) is false, all({T,T,T}) is true, any(not({T,T,T})) is false |
| Generators.Constants | lin/generators/stream_constants.hpp:72-102 | resized to (r, c), and every (i, j) and linear element is the constant |
| Generators.Identity | include/lin/generators/stream_identity.hpp:50-65 | square r x r, with element (i, j) equal to 1 on the diagonal and 0 elsewhere |
| Generators.Diagonal | lin/generators/stream_diagonal.hpp:80-110 | n x n for a vector of size n, with v(i) at (i, i) and 0 elsewhere |
| Generators.DiagonalTraits | lin/generators/stream_diagonal.hpp:139-145 | square traits, length by length, of the vector's element type, valid when the vector's are |
| Generators.ConstantsExample | lin/generators/stream_constants.hpp:84-102 | `consts<Vector3>(2)` holds [2, 2, 2] |
| Generators.ConstantsSum | lin/generators/stream_constants.hpp:84-102 | the sum of the first n elements of a constant stream is n*v |
| Generators.IdentityTrace | include/lin/generators/stream_identity.hpp:60-65 | the trace of the n x n identity is n |
| Generators.IdentityTracePrefix | include/lin/generators/stream_identity.hpp:60-65 | the partial trace of an identity up to p is p |
| Generators.IdentityIsUnit | include/lin/generators/stream_identity.hpp:60-65 | the identity is a left and right unit of `StreamMultiply` |
| Generators.IdentityLeftSum | include/lin/generators/stream_identity.hpp:60-65 | summing e(i,k)*d(k,j) over k < p picks out d(i, j) once p passes i |
| Generators.IdentityRightSum | include/lin/generators/stream_identity.hpp:60-65 | summing d(i,k)*e(k,j) over k < p picks out d(i, j) once p passes j |
| Generators.DiagonalTrace | lin/generators/stream_diagonal.hpp:105-110 | the trace of a diagonal stream is the sum of its vector |
| Generators.DiagonalOfOnes | lin/generators/stream_diagonal.hpp:105-110 | the diagonal stream of a vector of ones is the identity |
| References.Window | lin/references/tensor_mapping_reference.hpp:139-144 | window element (a, b) is m(i+a, j+b) |
| References.WindowWriteThrough | lin/references/tensor_mapping_reference.hpp:139-144 | a write inside the window changes exactly the aliased element of it; a write outside leaves the window unchanged |
| References.WholeWindow | lin/references/tensor_mapping_reference.hpp:89-95 | the window anchored at (0, 0) covering everything is the value itself |
| References.ColOf | lin/references.hpp:477-485 | the stream `col(m, j)` is rows by 1 and element a is m(a, j) |
| References.RowOf | lin/references.hpp:508-516 | the stream `row(m, i)` is 1 by cols and element b is m(i, b) |
| References.ColIsTransposedRow | lin/references.hpp:477-516 | column j, transposed, is row j of the transpose |
| References.ReferenceFor | lin/references.hpp:129-145 | a reference type exists iff the element types agree; it carries C's dimensions and is a matrix reference iff C is a matrix |
| References.ColTraits | lin/references.hpp:298-306 | the `col` reference type has one column and the mapping's element type |
| References.RowTraits | lin/references.hpp:329-337 | the `row` reference type has one row and the mapping's element type |
| References.ColRowTraitsFit | include/lin/references/inl/mapping_reference.inl:99-107 | `col`/`row` types admit their sizes, agree with `ref_col`/`ref_row`, give a column vector on a tall matrix, and give 1x1 on a row vector |
| References.MappingReference.Value | include/lin/references/inl/mapping_reference.inl:64-70 | the reference reads as its window, with its runtime dimensions |
| References.MappingReference.constructor | include/lin/references/inl/mapping_reference.inl:78-84 | under `i+r <= rows` and `j+c <= cols`, the reference is anchored at (i, j) and resized to (r, c) |
| References.MappingReference.Anchored | lin/references/tensor_mapping_reference.hpp:89-95 | under the fit requirement, the reference is anchored at (i, j) with the maximum dimensions |
| References.MappingReference.Get | include/lin/references/inl/mapping_reference.inl:64-70 | `(a, b)` reads d(i+a, j+b) |
| References.MappingReference.Set | lin/references/tensor_mapping_reference.hpp:139-144 | a write through (a, b) changes exactly d(i+a, j+b), which is element (a, b) of the reference |
| References.MappingReference.GetLinear | include/lin/references/inl/mapping_reference.inl:72-76 | linear k reads element (k/cols, k%cols) |
| References.MappingReference.SetLinear | lin/references/tensor_mapping_reference.hpp:158-162 | a write through linear k changes exactly flat element k of the reference's value |
| References.LinearUpdate | lin/references/tensor_mapping_reference.hpp:158-162 | updating at (k/cols, k%cols) updates flat position k |
| References.Row | lin/references.hpp:329-337 | `row(m, i)` references the window at (i, 0), 1 by cols, of type `RowTraits` |
| References.Col | lin/references.hpp:298-306 | `col(m, j)` references the window at (0, j), rows by 1, of type `ColTraits` |
| References.DiagonalGuardAdmitsColumnOne | lin/references/diagonal_mapping_reference.hpp:112-117 | on two or more rows the written guard `j < rows()` admits column 1 of a one-column reference; the intended guard is stricter |
| References.DiagonalReference.Rows | lin/references/diagonal_mapping_reference.hpp:88-98 | rows() is the underlying rows |
| References.DiagonalReference.Cols | lin/references/diagonal_mapping_reference.hpp:88-98 | cols() is 1 |
| References.DiagonalReference.Value | lin/references/diagonal_mapping_reference.hpp:112-135 | element (a, 0) is d(a, a) |
| References.DiagonalReference.constructor | lin/references/diagonal_mapping_reference.hpp:77-80 | the reference attaches to a mapping whose runtime shape is square |
| References.DiagonalReference.Get | lin/references/diagonal_mapping_reference.hpp:112-117 | `(a, b)` reads d(a, a), with the column guard corrected to b < cols() |
| References.DiagonalReference.GetLinear | lin/references/diagonal_mapping_reference.hpp:131-135 | `(a)` reads d(a, a) |
| References.DiagonalReference.SetLinear | lin/references/diagonal_mapping_reference.hpp:131-135 | writing `(a)` changes exactly d(a, a) |
| References.TransposeReference.Rows | lin/core/operations/mapping_transpose.hpp:59-67 | rows() is the underlying cols |
| References.TransposeReference.Cols | lin/core/operations/mapping_transpose.hpp:59-67 | cols() is the underlying rows |
| References.TransposeReference.constructor | lin/core/operations/mapping_transpose.hpp:54-55 | the writable transpose attaches to its mapping |
| References.TransposeReference.Get | lin/core/operations/mapping_transpose.hpp:76-78 | `(a, b)` reads c(b, a) |
| References.TransposeReference.Set | lin/core/operations/mapping_transpose.hpp:76-78 | a write through (a, b) changes exactly c(b, a), which is element (a, b) of the transpose |
| References.TransposeReference.GetLinear | lin/core/operations/mapping_transpose.hpp:89-91 | linear k reads element (k/cols, k%cols) of the transposed shape |
| Dispatch.ExactlyOneOverload | lin/core/operations/tensor_operations.hpp:35-132 | every argument pair matches exactly one of tensor-tensor, tensor-scalar, scalar-tensor, scalar-scalar |
| Dispatch.BinaryFunctor | lin/core/operations/tensor_operations.hpp:140-308 | the two-operand functor computes the operation on two elements |
| Dispatch.StFunctor | lin/core/operations/tensor_operations.hpp:140-308 | the `_st` functor keeps the scalar on the left |
| Dispatch.TsFunctor | lin/core/operations/tensor_operations.hpp:140-308 | the `_ts` functor keeps the scalar on the right |
| Dispatch.Apply | lin/core/operations/tensor_operations.hpp:140-165 | the result is a tensor iff an argument is, has the tensor's dimensions, and each element combines the arguments' elements with operand order kept |
| Dispatch.UnaryFunctor | lin/core/operations/tensor_operations.hpp:247-269 | `negate` and `sign` functors compute the unary operation |
| Dispatch.ApplyUnary | lin/core/operations/tensor_operations.hpp:247-269 | the result has the argument's kind and dimensions and negates (or takes the sign of) every element |
| Dispatch.SubtractOperandOrder | lin/core/operations/tensor_operations.hpp:283-308 | subtract(t, c) and subtract(c, t) give opposite elements |
| Dispatch.AddNegateCancels | lin/core/operations/tensor_operations.hpp:140-257 | add(c, negate(c)) is zero |
| Dispatch.SignIdempotent | lin/core/operations/tensor_operations.hpp:259-269 | sign(sign(x)) == sign(x) for tensors and scalars |
| Dispatch.SubtractExamples | lin/core/operations/tensor_operations.hpp:283-308 | subtract([1,2], 2) == [-1,0], subtract(-2, [1,3]) == [-3,-5], subtract(2, 3) == -1 |
| Dispatch.ApplyTensorsLinear | lin/core/operations/tensor_operations.hpp:140-165 | the two-tensor overload, read in linear order, combines element q of each operand |
| Dispatch.ApplyScalarLinear | lin/core/operations/tensor_operations.hpp:140-165 | the tensor-scalar overloads, read in linear order, combine element q with the scalar on its own side; a scalar-left divide needs only non-zero elements, a scalar-right one only a non-zero scalar |
| Registry.TraitsOf | setup.py:320-352 | a registered class's C++ type has fixed dimensions and double elements |
| Registry.PyTypeOf | setup.py:365-375 | an evaluated type is a vector, row vector or matrix class according to the traits classification |
| Registry.RegistryTypesRoundTrip | setup.py:320-352 | every registered class is the class its own traits evaluate to, with valid traits, classified consistently |
| Registry.NoOneByOne | setup.py:320-352 | no registered class is 1x1, and each has at least two elements |
| Registry.EmitClasses | setup.py:320-352 | the class loops emit exactly the registered shapes, each once |
| Registry.EmitMulOperators | setup.py:365-410 | the `__mul__` loops emit exactly the pairs `MulEmitted` describes, each once |
| Registry.MulEmittedIff | setup.py:365-410 | `__mul__` is emitted iff both classes are registered, `can_multiply` holds and the product's class is registered |
| Registry.MulResultShape | setup.py:365-410 | every emitted product has shape (left.rows, right.cols) |
| Registry.MulPairsOfVectors | setup.py:365-375 | the only vector-by-vector product is column times row, giving a matrix; beyond `_ALL` only the square outer product occurs |
| Registry.EmitOperators | setup.py:419-440 | the operator loops emit `trace` exactly for `TraceEmitted` and `dot` exactly for `DotEmitted`, each overload once |
| Registry.TraceEmittedIff | setup.py:431-439 | `trace` exists exactly for the registered classes that `trace` accepts |
| Registry.DotEmittedIff | setup.py:419-428 | `dot` exists exactly for the pairs of registered vectors that `dot` accepts |
| Registry.CrossBindings | setup.py:441-446 | four `cross` overloads |
| Registry.CrossBindingsFollowLeft | setup.py:441-446 | each `cross` overload takes two registered length-3 vectors that `cross` accepts, and returns the left operand's orientation |
| Registry.TransposeClosed | setup.py:272 | `transpose` of a registered class is a registered class |
| Bindings.LinearIndex | setup.py:172-176 | the index is valid iff -size <= i < size, normalised to i mod size; otherwise an index error |
| Bindings.PairIndex | setup.py:177-183 | row and column are normalised independently; a bad row is reported before a bad column |
| Bindings.Item | setup.py:172-176 | `__getitem__(long)` returns the normalised linear element or the index error |
| Bindings.Item2 | setup.py:177-183 | `__getitem__((long, long))` returns the normalised element or the row/column error |
| Bindings.GetItem | setup.py:172-176 | reading the tensor gives `Item` of its value |
| Bindings.GetItem2 | setup.py:177-183 | reading the tensor gives `Item2` of its value |
| Bindings.SetItem | setup.py:184-188 | on success only the normalised element changes; on error nothing does |
| Bindings.SetItem2 | setup.py:189-195 | on success the value is updated at the normalised pair; on error nothing changes |
| Bindings.SetThenGet | setup.py:177-195 | a successful pair write reads back through the same index and through every index normalising to it |
| Bindings.LinearAgreesWithPair | setup.py:172-183 | a linear index and the pair it addresses in row-major order read the same element |
| Bindings.IndexExamples | test_lin.py:59-83 | the indexing cases of the Python tests on a 3x2 matrix holding 0..5 |
| Bindings.Construct | setup.py:122-136 | `__init__` checks the format, then the 2-D rows and cols or the 1-D size, then ndim, and fills row-major through the strides |
| Bindings.ConstructErrors | setup.py:122-136 | a non-double buffer, a wrong row count, a wrong column count (rows correct), a wrong 1-D size and any other number of dimensions each raise their own message, checked in that order; the 2-D and 1-D buffers succeed exactly at the right shape |
| Bindings.Init | setup.py:122-136 | the fill loops leave the value `Construct` describes; on error the tensor is unchanged |
| Bindings.StorageBytes | setup.py:140-145 | the storage is the tensor's elements at byte offset 8k |
| Bindings.Export | setup.py:140-145 | a column vector exports 1-D with stride 8, and any other class exports 2-D with strides (8*cols, 8); the buffer is readable |
| Bindings.LayoutsReadable | setup.py:140-145 | both exported layouts address only the tensor's own elements |
| Bindings.ByteOffset | setup.py:140-145 | the byte offset of (i, j) under the exported strides is 8 times the row-major offset |
| Bindings.ExportRoundTrip | setup.py:122-145 | constructing a registered class from its own exported buffer gives back its value |
| Bindings.ConstructThenExport | setup.py:122-145 | a class built from a 2-D buffer exports, element for element, what the buffer held |
| Bindings.ConstructExamples | test_lin.py:13-38 | a 3x3 matrix from a nested list and a vector from a flat list |
| Bindings.GetState | setup.py:157-161 | the saved state is `max_size` doubles whose first size() are the tensor's value |
| Bindings.SetState | setup.py:162-167 | the loader builds a fresh default object and copies the state into it |
| Bindings.PickleRoundTrip | setup.py:156-167 | saving and loading a registered class's object gives a fresh object with the same value |
| Bindings.ScalarOperator | setup.py:208-255 | each scalar dunder method computes the overload with the object and the double on the documented sides |
| Bindings.ReflectedOperators | setup.py:208-255 | `__radd__`/`__rmul__` agree with `__add__`/`__mul__`, and `__rsub__` is the negation of `__sub__` |
| Bindings.InPlace | setup.py:202-247 | `self = self op other` leaves the two-tensor result even when `other` is `self` |
| Bindings.InPlaceScalar | setup.py:202-249 | `self = self op t` (and `self = t * self` for `__imul__`) leaves the tensor-scalar result |
| Bindings.OperatorExamples | test_lin.py:166-218 | the addition cases of the Python tests on a 2x2 matrix holding 0..3 |

## Left out

- Element types are modelled as `int`, and `float`, `double` and `int` are modelled as
  labels only. Floating-point rounding, NaN and infinity are not captured. So `nans`,
  `isfinite`, `all_isnan`, `all_isinf`, `all_isfinite`, `norm` (a square root) and the math
  module are left out.
- Expressions.Divide, Dispatch.Combine, Functors.Apply, Dispatch.Apply (through
  `Admissible`), Dispatch.ApplyScalarLinear, Bindings.ScalarOperator, Bindings.InPlace and
  Bindings.InPlaceScalar require a non-zero divisor. The generated `__truediv__`,
  `__rtruediv__` and `__itruediv____` (setup.py:217-231) accept `0.0` and give an infinity
  or NaN, which the integer model cannot represent. C++ integer division by zero is
  undefined behaviour.
- Element-type promotion (float with double gives double) and the `static_assert` and SFINAE
  machinery are left out. They have no runtime behaviour.
- Expressions.ElementWise does not model the compile-time gate of
  `StreamElementWiseOperator` (at least one argument, identical dimensions). The model takes
  the operands' runtime shapes as a precondition instead.
- StreamPrint models the layout of `operator<<` as tokens. Number formatting is not modelled,
  and neither is the Python `__repr__`, which prints through `std::stringstream`.
- The generator guards in lin/generators/stream_constants.hpp, stream_identity.hpp and
  stream_diagonal.hpp use `<=`, like include/lin/core/types/inl/tensor.inl. Their values are
  modelled on in-bounds indices only. The one-past-the-end admission is stated once, by
  Storage.InlGuardAdmitsOnePastEnd.
- `square`, `cast` and the Python `__pos__` and `__neg__` are left out.
  - `square` is an element-wise operator with a multiply functor, already covered by
    Expressions.ElementWise.
  - `cast` converts between element types, which the model does not distinguish.
  - `__pos__` copies its object.
  - `__neg__` is Dispatch.ApplyUnary with `Negate`.
- Every registered class also gets the module functions that `__gen_uops` and `__gen_bops`
  emit (setup.py:265-279, called at 423-440): `fro`, `negate`, `sign`, `square`, `sum`,
  `transpose` and `isfinite` on one operand, and `add`, `divide`, `multiply` and `subtract`
  on two tensors, a tensor and a double, or a double and a tensor. Their enumeration is not
  modelled. Each is a thin wrapper whose meaning is modelled elsewhere: `fro` and `sum` are
  Reductions.Fro and Reductions.Sum, `negate` and `sign` are Dispatch.ApplyUnary,
  `transpose` is Expressions.Transpose (its result class is registered by
  Registry.TransposeClosed), and the four binary functions are Dispatch.Apply with the
  scalar on the side it is given. `square` and `isfinite` are left out as stated above.
- `ones` and `zeros` are Generators.Constants with the constant 1 and 0.
- The `ref` overload at include/lin/references/inl/mapping_reference.inl:93-97 forwards
  arguments that do not match any constructor, so it cannot be instantiated. It is not
  modelled.
- Stream references (read-only windows over a stream) are modelled as the values they read
  as (References.Window, ColOf, RowOf), not as objects.
- Build and packaging in setup.py is left out: `get_pybind_include`, `has_flag`, `cpp_flag`,
  `BuildExt` and `setup()`. So is the file output of `autocode()`. Classes are modelled as
  Registry.PyType values, not as generated C++ text.
- Numpy buffer aliasing, the buffer returned by `def_buffer` sharing memory with the object,
  is not modelled. The exported buffer is a value.
- The in-place division is registered under the misspelled name `__itruediv____`, so Python
  never calls it. Bindings.InPlace models the in-place operation the lambda performs.
- Python `int` values beyond the range of `long` raise before the binding runs. Indices are
  modelled as unbounded integers.
- pybind11's conversion of Python lists to `py::array_t<double>` is not modelled.
  Bindings.Construct starts from the buffer description.
- Registry.TraitsOf, References.MappingReference and the stream values carry no element type
  for `double` versus `float` beyond the trait label. Class names are not modelled as strings.
- `has_strictly_bounded_rows/cols`, which lin/core/types/dimensions.hpp uses, is not among the
  modelled files. It is modelled as "runtime-sized with a positive maximum", the non-fixed
  branch of `has_bounded_rows`.

## Findings

| source | as written | input that shows it | evidently intended | confidence | as-written member | corrected member |
|---|---|---|---|---|---|---|
| include/lin/core/traits/inl/tensor.inl:92-110 | `have_same_dimensions<C, Cs...>` and `have_same_traits<C, Cs...>` recurse on `Cs...` only, so the first argument is never compared | `have_same_dimensions<Matrix2x2, Matrix3x3>` holds | every argument has the first argument's dimensions | high, not executed | TensorTraits.TwoArgumentSameDimensionsAlwaysHolds | TensorTraits.HaveSameDimensionsIff |
| include/lin/core/types/inl/tensor.inl:37-44 | the accessor guards are `i <= rows()`, `j <= cols()` and `i <= size()` | a fixed 2x2 tensor with linear index 4, or with pair (2, 0): both reach `elems[4]`, one past the array | strict `<`, as in lin/core/types/base.hpp:102-125 | high, not executed | Storage.InlGuardAdmitsOnePastEnd | Storage.BaseGuardInBounds |
| lin/references/diagonal_mapping_reference.hpp:114 | the column guard of `(i, j)` is `j < rows()` | a diagonal reference of a 2x2 mapping, read at (0, 1) | `j < cols()`, i.e. column 0 only | medium, not executed | References.DiagonalGuardAdmitsColumnOne | References.DiagonalReference.Get |
