// The per-class code `autocode()` in setup.py generates for every registered class: Python-style
// index normalisation in `__getitem__`/`__setitem__`, construction from a buffer (`__init__`),
// buffer export (`def_buffer`), the pickle pair, and the in-place and reflected arithmetic
// operators. The Python object is the C++ tensor it wraps (`Storage.Tensor`).

module Bindings {
  import opened RowMajor
  import TensorTraits
  import VectorTraits
  import Dims
  import Storage
  import Dispatch
  import Registry

  /** The messages of `py::index_error`. */
  datatype IndexMessage = IndexOutOfBounds | RowIndexOutOfBounds | ColumnIndexOutOfBounds

  /** The messages of `std::runtime_error` in `__init__`. */
  datatype RuntimeMessage =
    | IncompatibleFormat | WrongRowCount | WrongColumnCount | WrongSizeCount | IncompatibleDimensions

  /** The Python exception a binding raises. */
  datatype PyError = IndexError(index: IndexMessage) | RuntimeError(runtime: RuntimeMessage)

  datatype Result<T> = Ok(value: T) | Err(error: PyError)

  // ----- Index normalisation -----

  /** The linear index of `__getitem__(long)`/`__setitem__(long, double)`: a negative `i` counts
      from the end; the access succeeds exactly for `-size <= i < size` and then addresses
      `i` modulo `size`, as a Python sequence does. */
  function LinearIndex(i: int, size: nat): (r: Result<nat>)
    ensures r.Ok? <==> -(size as int) <= i < size
    ensures r.Ok? ==> r.value < size && r.value == i % size
    ensures r.Err? ==> r.error == IndexError(IndexOutOfBounds)
  {
    var k := if i < 0 then size + i else i;
    if k < 0 || k >= size then Err(IndexError(IndexOutOfBounds))
    else
      if i < 0 then DivModUnique(i, size, -1, k); Ok(k)
      else DivModUnique(i, size, 0, k); Ok(k)
  }

  /** The pair index of the tuple overloads: row and column are normalised independently, the
      row is checked first, so a pair with both out of bounds reports the row. */
  function PairIndex(i: int, j: int, rows: nat, cols: nat): (r: Result<(nat, nat)>)
    ensures r.Ok? <==> LinearIndex(i, rows).Ok? && LinearIndex(j, cols).Ok?
    ensures r.Ok? ==> r.value == (LinearIndex(i, rows).value, LinearIndex(j, cols).value)
    ensures r.Err? ==> r.error == IndexError(if LinearIndex(i, rows).Ok? then ColumnIndexOutOfBounds else RowIndexOutOfBounds)
  {
    var a := if i < 0 then rows + i else i;
    var b := if j < 0 then cols + j else j;
    if a < 0 || a >= rows then Err(IndexError(RowIndexOutOfBounds))
    else if b < 0 || b >= cols then Err(IndexError(ColumnIndexOutOfBounds))
    else Ok((a, b))
  }

  /** What `__getitem__(long)` returns for a tensor of value `m`. */
  function Item(m: Mat, i: int): (r: Result<int>)
    requires WellFormed(m)
    ensures r.Ok? <==> -(Size(m) as int) <= i < Size(m)
    ensures r.Ok? ==> r.value == m.elems[i % Size(m)]
    ensures r.Err? ==> r.error == IndexError(IndexOutOfBounds)
  {
    match LinearIndex(i, Size(m))
    case Ok(k) => Ok(AtLinear(m, k))
    case Err(e) => Err(e)
  }

  /** What `__getitem__((long, long))` returns for a tensor of value `m`. */
  function Item2(m: Mat, i: int, j: int): (r: Result<int>)
    requires WellFormed(m)
    ensures r.Ok? <==> -(m.rows as int) <= i < m.rows && -(m.cols as int) <= j < m.cols
    ensures r.Ok? ==> r.value == At(m, i % m.rows, j % m.cols)
    ensures r.Err? ==> r.error == IndexError(if -(m.rows as int) <= i < m.rows then ColumnIndexOutOfBounds else RowIndexOutOfBounds)
  {
    match PairIndex(i, j, m.rows, m.cols)
    case Ok((a, b)) => Ok(At(m, a, b))
    case Err(e) => Err(e)
  }

  /** `__getitem__(long)`. */
  method GetItem(self: Storage.Tensor, i: int) returns (r: Result<int>)
    requires self.Valid()
    ensures r == Item(self.Value(), i)
  {
    var n := self.Size();
    var k := if i < 0 then n + i else i;
    if k < 0 || k >= n {
      return Err(IndexError(IndexOutOfBounds));
    }
    var v := self.GetLinear(k);
    return Ok(v);
  }

  /** `__getitem__((long, long))`. */
  method GetItem2(self: Storage.Tensor, i: int, j: int) returns (r: Result<int>)
    requires self.Valid()
    ensures r == Item2(self.Value(), i, j)
  {
    var a := if i < 0 then self.Rows() + i else i;
    var b := if j < 0 then self.Cols() + j else j;
    if a < 0 || a >= self.Rows() {
      return Err(IndexError(RowIndexOutOfBounds));
    }
    if b < 0 || b >= self.Cols() {
      return Err(IndexError(ColumnIndexOutOfBounds));
    }
    var v := self.Get(a, b);
    return Ok(v);
  }

  /** `__setitem__(long, double)`: on success only the addressed element changes; on an
      `IndexError` nothing is written. */
  method SetItem(self: Storage.Tensor, i: int, x: int) returns (r: Result<()>)
    requires self.Valid()
    modifies self.elems
    ensures self.Valid() && self.Rows() == old(self.Rows()) && self.Cols() == old(self.Cols())
    ensures r.Ok? <==> LinearIndex(i, self.Size()).Ok?
    ensures r.Err? ==> r.error == IndexError(IndexOutOfBounds) && self.elems[..] == old(self.elems[..])
    ensures r.Ok? ==> self.Value().elems == old(self.Value()).elems[i % self.Size() := x]
  {
    var n := self.Size();
    var k := if i < 0 then n + i else i;
    if k < 0 || k >= n {
      return Err(IndexError(IndexOutOfBounds));
    }
    self.SetLinear(k, x);
    return Ok(());
  }

  /** `__setitem__((long, long), double)`: on success the value is the old value with element
      `(i, j)`, normalised, replaced; on an `IndexError` nothing is written. */
  method SetItem2(self: Storage.Tensor, i: int, j: int, x: int) returns (r: Result<()>)
    requires self.Valid()
    modifies self.elems
    ensures self.Valid() && self.Rows() == old(self.Rows()) && self.Cols() == old(self.Cols())
    ensures r.Ok? <==> PairIndex(i, j, self.Rows(), self.Cols()).Ok?
    ensures r.Err? ==> r.error == PairIndex(i, j, self.Rows(), self.Cols()).error && self.elems[..] == old(self.elems[..])
    ensures r.Ok? ==> self.Value() == Update(old(self.Value()), i % self.Rows(), j % self.Cols(), x)
  {
    var a := if i < 0 then self.Rows() + i else i;
    var b := if j < 0 then self.Cols() + j else j;
    if a < 0 || a >= self.Rows() {
      return Err(IndexError(RowIndexOutOfBounds));
    }
    if b < 0 || b >= self.Cols() {
      return Err(IndexError(ColumnIndexOutOfBounds));
    }
    self.Set(a, b, x);
    return Ok(());
  }

  /** A successful pair write reads back through the same index, and through every index that
      normalises to the same element; other elements read as before. */
  lemma SetThenGet(m: Mat, i: int, j: int, x: int, i': int, j': int)
    requires WellFormed(m) && PairIndex(i, j, m.rows, m.cols).Ok?
    ensures var u := Update(m, i % m.rows, j % m.cols, x);
            (Item2(u, i', j').Ok? <==> Item2(m, i', j').Ok?) &&
            (Item2(u, i', j').Ok? ==>
              Item2(u, i', j').value == if (i' % m.rows, j' % m.cols) == (i % m.rows, j % m.cols) then x else Item2(m, i', j').value)
  {
  }

  /** A linear index and the pair it addresses in row-major order read the same element. */
  lemma LinearAgreesWithPair(m: Mat, i: nat, j: nat)
    requires WellFormed(m) && i < m.rows && j < m.cols
    ensures Item(m, i * m.cols + j) == Item2(m, i, j)
  {
    RowMajorAddressing(m, i, j, i, j);
    DivModUnique(i * m.cols + j, Size(m), 0, i * m.cols + j);
    DivModUnique(i, m.rows, 0, i);
    DivModUnique(j, m.cols, 0, j);
  }

  /** The indexing cases of the Python tests on `Matrix3x2` holding 0 to 5. */
  lemma IndexExamples()
    ensures var n := Mat(3, 2, [0, 1, 2, 3, 4, 5]);
            Item(n, 0) == Ok(0) && Item(n, 1) == Ok(1) && Item(n, -1) == Ok(5) && Item(n, -2) == Ok(4) &&
            Item2(n, 0, 1) == Ok(1) && Item2(n, 1, 1) == Ok(3) && Item2(n, -1, 0) == Ok(4) &&
            Item2(n, -2, -1) == Ok(3) && Item2(n, -3, 1) == Ok(1) &&
            Item2(n, 3, 0) == Err(IndexError(RowIndexOutOfBounds)) &&
            Item2(n, -4, 0) == Err(IndexError(RowIndexOutOfBounds)) &&
            Item2(n, 0, 2) == Err(IndexError(ColumnIndexOutOfBounds)) &&
            Item2(n, 0, -3) == Err(IndexError(ColumnIndexOutOfBounds)) &&
            Item(n, 6) == Err(IndexError(IndexOutOfBounds)) && Item(n, -7) == Err(IndexError(IndexOutOfBounds))
  {
    var n := Mat(3, 2, [0, 1, 2, 3, 4, 5]);
    assert At(n, 0, 1) == 1 && At(n, 1, 1) == 3 && At(n, 2, 0) == 4 && At(n, 1, 1) == 3;
  }

  // ----- Buffers -----

  /** `sizeof(double)`: buffer strides are in bytes. */
  const ItemSize: nat := 8

  /** A buffer as `py::buffer_info` describes it: whether the format is double, the shape, the
      byte strides, and the doubles readable at byte offsets from the data pointer. */
  datatype Buffer = Buffer(isDouble: bool, shape: seq<int>, strides: seq<int>, memory: map<int, int>)

  /** The byte offset of element `i` of a one-dimensional buffer. */
  function Offset1(b: Buffer, i: nat): int
    requires |b.strides| >= 1
  {
    i * b.strides[0]
  }

  /** The byte offset of element `(i, j)` of a two-dimensional buffer. */
  function Offset2(b: Buffer, i: nat, j: nat): int
    requires |b.strides| >= 2
  {
    i * b.strides[0] + j * b.strides[1]
  }

  /** What the buffer protocol guarantees: one stride per dimension, and every element inside
      the shape readable. */
  predicate Readable(b: Buffer)
  {
    |b.strides| == |b.shape| &&
    (|b.shape| == 1 ==> forall i: nat :: i < b.shape[0] ==> Offset1(b, i) in b.memory) &&
    (|b.shape| == 2 ==> forall i: nat, j: nat :: i < b.shape[0] && j < b.shape[1] ==> Offset2(b, i, j) in b.memory)
  }

  /** What `__init__(py::array_t<double>)` makes of a buffer for a `rows` by `cols` class: a
      non-double format fails first; a two-dimensional buffer must have `rows` rows, then `cols`
      columns, and is read element by element; a one-dimensional one must hold `rows * cols`
      elements, read in row-major order; any other dimension count fails. */
  function Construct(rows: nat, cols: nat, b: Buffer): (r: Result<Mat>)
    requires Readable(b)
    ensures r.Ok? ==> WellFormed(r.value) && r.value.rows == rows && r.value.cols == cols
    ensures r.Ok? ==> b.isDouble && (|b.shape| == 1 || |b.shape| == 2)
    ensures r.Ok? && |b.shape| == 2 ==> b.shape[0] == rows && b.shape[1] == cols
    ensures r.Ok? && |b.shape| == 1 ==> b.shape[0] == rows * cols
    ensures r.Ok? && |b.shape| == 2 ==> forall i: nat, j: nat :: i < rows && j < cols ==>
      At(r.value, i, j) == b.memory[Offset2(b, i, j)]
    ensures r.Ok? && |b.shape| == 1 ==> forall k :: 0 <= k < rows * cols ==>
      r.value.elems[k] == b.memory[Offset1(b, k)]
  {
    if !b.isDouble then Err(RuntimeError(IncompatibleFormat))
    else if |b.shape| == 2 then
      if b.shape[0] != rows then Err(RuntimeError(WrongRowCount))
      else if b.shape[1] != cols then Err(RuntimeError(WrongColumnCount))
      else Ok(Tabulate(rows, cols, (i: nat, j: nat) requires Offset2(b, i, j) in b.memory => b.memory[Offset2(b, i, j)]))
    else if |b.shape| == 1 then
      if b.shape[0] != rows * cols then Err(RuntimeError(WrongSizeCount))
      else Ok(Mat(rows, cols, seq(rows * cols, k requires 0 <= k < rows * cols && Offset1(b, k) in b.memory => b.memory[Offset1(b, k)])))
    else Err(RuntimeError(IncompatibleDimensions))
  }

  /** The failure cases of `__init__`, in the order they are checked. */
  lemma ConstructErrors(rows: nat, cols: nat, b: Buffer)
    requires Readable(b)
    ensures !b.isDouble ==> Construct(rows, cols, b) == Err(RuntimeError(IncompatibleFormat))
    ensures b.isDouble && |b.shape| == 2 ==>
      (Construct(rows, cols, b).Ok? <==> b.shape == [rows as int, cols as int])
    ensures b.isDouble && |b.shape| == 2 && b.shape[0] != rows ==> Construct(rows, cols, b) == Err(RuntimeError(WrongRowCount))
    ensures b.isDouble && |b.shape| == 2 && b.shape[0] == rows && b.shape[1] != cols ==>
      Construct(rows, cols, b) == Err(RuntimeError(WrongColumnCount))
    ensures b.isDouble && |b.shape| == 1 ==> (Construct(rows, cols, b).Ok? <==> b.shape[0] == rows * cols)
    ensures b.isDouble && |b.shape| == 1 && b.shape[0] != rows * cols ==>
      Construct(rows, cols, b) == Err(RuntimeError(WrongSizeCount))
    ensures b.isDouble && |b.shape| != 1 && |b.shape| != 2 ==> Construct(rows, cols, b) == Err(RuntimeError(IncompatibleDimensions))
  {
    if b.isDouble && |b.shape| == 2 && b.shape[0] == rows && b.shape[1] == cols {
      assert b.shape == [rows as int, cols as int];
    }
  }

  /** `__init__(py::array_t<double>)` on an existing object: every check precedes the fill, so
      a failed check leaves the object untouched; otherwise its value is what `Construct` reads. */
  method Init(self: Storage.Tensor, b: Buffer) returns (r: Result<()>)
    requires self.Valid() && Readable(b)
    modifies self.elems
    ensures self.Valid() && self.Rows() == old(self.Rows()) && self.Cols() == old(self.Cols())
    ensures r.Ok? <==> Construct(self.Rows(), self.Cols(), b).Ok?
    ensures r.Err? ==> r.error == Construct(self.Rows(), self.Cols(), b).error && self.elems[..] == old(self.elems[..])
    ensures r.Ok? ==> self.Value() == Construct(self.Rows(), self.Cols(), b).value
  {
    var rows, cols := self.Rows(), self.Cols();
    if !b.isDouble {
      return Err(RuntimeError(IncompatibleFormat));
    }
    if |b.shape| == 2 {
      if b.shape[0] != rows {
        return Err(RuntimeError(WrongRowCount));
      }
      if b.shape[1] != cols {
        return Err(RuntimeError(WrongColumnCount));
      }
      var i := 0;
      while i < rows
        invariant 0 <= i <= rows
        invariant self.Valid() && self.Rows() == rows && self.Cols() == cols
        invariant forall a: nat, c: nat :: a < i && c < cols ==> At(self.Value(), a, c) == b.memory[Offset2(b, a, c)]
      {
        var j := 0;
        while j < cols
          invariant 0 <= j <= cols
          invariant self.Valid() && self.Rows() == rows && self.Cols() == cols
          invariant forall a: nat, c: nat :: (a < i || (a == i && c < j)) && c < cols ==>
            At(self.Value(), a, c) == b.memory[Offset2(b, a, c)]
        {
          self.Set(i, j, b.memory[Offset2(b, i, j)]);
          j := j + 1;
        }
        i := i + 1;
      }
      MatExtensionality(self.Value(), Construct(rows, cols, b).value);
      return Ok(());
    } else if |b.shape| == 1 {
      if b.shape[0] != self.Size() {
        return Err(RuntimeError(WrongSizeCount));
      }
      var n := self.Size();
      var k := 0;
      while k < n
        invariant 0 <= k <= n
        invariant self.Valid() && self.Rows() == rows && self.Cols() == cols
        invariant forall q :: 0 <= q < k ==> self.elems[q] == b.memory[Offset1(b, q)]
      {
        self.SetLinear(k, b.memory[Offset1(b, k)]);
        k := k + 1;
      }
      assert self.Value().elems == Construct(rows, cols, b).value.elems;
      return Ok(());
    } else {
      return Err(RuntimeError(IncompatibleDimensions));
    }
  }

  /** The tensor's storage seen through the data pointer: double `k` at byte offset
      `k * sizeof(double)`. */
  function StorageBytes(m: Mat): (memory: map<int, int>)
    ensures forall k :: 0 <= k < |m.elems| ==> k * ItemSize in memory && memory[k * ItemSize] == m.elems[k]
  {
    map k | 0 <= k < |m.elems| :: k * ItemSize := m.elems[k]
  }

  /** `def_buffer`: a column vector class exports a one-dimensional buffer of `rows` doubles with
      stride `sizeof(double)`; every other class a two-dimensional `rows` by `cols` buffer with
      strides `(cols * sizeof(double), sizeof(double))`, over the tensor's own storage. Either
      buffer is readable. */
  function Export(t: TensorTraits.Traits, m: Mat): (b: Buffer)
    requires WellFormed(m) && (VectorTraits.IsColVector(t) ==> m.cols == 1)
    ensures b.isDouble && b.memory == StorageBytes(m) && Readable(b)
    ensures |b.shape| == 1 <==> VectorTraits.IsColVector(t)
    ensures |b.shape| == 1 ==> b.shape == [m.rows] && b.strides == [ItemSize]
    ensures |b.shape| != 1 ==> b.shape == [m.rows, m.cols] && b.strides == [m.cols * ItemSize, ItemSize]
  {
    LayoutsReadable(m);
    if VectorTraits.IsColVector(t) then Buffer(true, [m.rows], [ItemSize], StorageBytes(m))
    else Buffer(true, [m.rows, m.cols], [m.cols * ItemSize, ItemSize], StorageBytes(m))
  }

  /** Both export layouts address only the tensor's own elements. */
  lemma LayoutsReadable(m: Mat)
    requires WellFormed(m)
    ensures m.cols == 1 ==> Readable(Buffer(true, [m.rows], [ItemSize], StorageBytes(m)))
    ensures Readable(Buffer(true, [m.rows, m.cols], [m.cols * ItemSize, ItemSize], StorageBytes(m)))
  {
    var b1 := Buffer(true, [m.rows], [ItemSize], StorageBytes(m));
    if m.cols == 1 {
      forall i: nat | i < b1.shape[0] ensures Offset1(b1, i) in b1.memory {
        assert Offset1(b1, i) == i * ItemSize;
      }
    }
    var b2 := Buffer(true, [m.rows, m.cols], [m.cols * ItemSize, ItemSize], StorageBytes(m));
    forall i: nat, j: nat | i < b2.shape[0] && j < b2.shape[1] ensures Offset2(b2, i, j) in b2.memory {
      OffsetBound(i, j, m.rows, m.cols);
      ByteOffset(i, j, m.cols);
    }
  }

  /** The byte offset of `(i, j)` under the exported strides is the row-major offset in doubles. */
  lemma ByteOffset(i: nat, j: nat, cols: nat)
    ensures i * (cols * ItemSize) + j * ItemSize == (i * cols + j) * ItemSize
  {
  }

  /** Exporting a registered class's buffer and constructing the same class from it (what
      `np.array(x)` followed by the class constructor does) gives back the same value. */
  lemma ExportRoundTrip(ty: Registry.PyType, m: Mat)
    requires Registry.InRegistry(ty) && WellFormed(m) && m.rows == Registry.Rows(ty) && m.cols == Registry.Cols(ty)
    ensures Construct(m.rows, m.cols, Export(Registry.TraitsOf(ty), m)) == Ok(m)
  {
    var t := Registry.TraitsOf(ty);
    Registry.RegistryTypesRoundTrip(ty);
    var b := Export(t, m);
    var r := Construct(m.rows, m.cols, b);
    if VectorTraits.IsColVector(t) {
      assert r.Ok?;
      forall k | 0 <= k < |m.elems| ensures r.value.elems[k] == m.elems[k] {
        assert Offset1(b, k) == k * ItemSize;
      }
      assert r.value.elems == m.elems;
    } else {
      assert r.Ok?;
      forall i: nat, j: nat | i < m.rows && j < m.cols ensures At(r.value, i, j) == At(m, i, j) {
        OffsetBound(i, j, m.rows, m.cols);
        ByteOffset(i, j, m.cols);
      }
      MatExtensionality(r.value, m);
    }
  }

  /** A class built from a two-dimensional buffer exports, element for element, what the buffer
      held (`np.array(Matrix2x4(a)) == a`). */
  lemma ConstructThenExport(rows: nat, cols: nat, b: Buffer, t: TensorTraits.Traits, i: nat, j: nat)
    requires Readable(b) && |b.shape| == 2 && Construct(rows, cols, b).Ok? && i < rows && j < cols
    requires VectorTraits.IsColVector(t) ==> cols == 1
    ensures var e := Export(t, Construct(rows, cols, b).value);
            (i * cols + j) * ItemSize in e.memory &&
            e.memory[(i * cols + j) * ItemSize] == b.memory[Offset2(b, i, j)]
  {
    var m := Construct(rows, cols, b).value;
    RowMajorAddressing(m, i, j, i, j);
  }

  /** The construction cases of the Python tests: `Matrix3x3` from a nested 3 by 3 list and
      `Matrix2x2` from a flat list of four, both holding `k` at linear index `k`. */
  lemma ConstructExamples(nested: Buffer, flat: Buffer)
    requires nested == Buffer(true, [3, 3], [24, 8], map k | 0 <= k < 9 :: 8 * k := k)
    requires flat == Buffer(true, [4], [8], map k | 0 <= k < 4 :: 8 * k := k)
    ensures Readable(nested) && Construct(3, 3, nested) == Ok(Mat(3, 3, [0, 1, 2, 3, 4, 5, 6, 7, 8]))
    ensures Readable(flat) && Construct(2, 2, flat) == Ok(Mat(2, 2, [0, 1, 2, 3]))
    ensures Readable(flat) && Construct(3, 3, flat) == Err(RuntimeError(WrongSizeCount))
  {
    assert Readable(nested) by {
      forall i: nat, j: nat | i < 3 && j < 3 ensures Offset2(nested, i, j) in nested.memory {
        assert Offset2(nested, i, j) == 8 * (3 * i + j);
      }
    }
    var r := Construct(3, 3, nested).value;
    forall i: nat, j: nat | i < 3 && j < 3 ensures At(r, i, j) == At(Mat(3, 3, [0, 1, 2, 3, 4, 5, 6, 7, 8]), i, j) {
      assert Offset2(nested, i, j) == 8 * (3 * i + j);
    }
    MatExtensionality(r, Mat(3, 3, [0, 1, 2, 3, 4, 5, 6, 7, 8]));
    assert Readable(flat) by {
      forall i: nat | i < 4 ensures Offset1(flat, i) in flat.memory {
        assert Offset1(flat, i) == 8 * i;
      }
    }
    var s := Construct(2, 2, flat).value;
    assert s.elems == [0, 1, 2, 3] by {
      forall k | 0 <= k < 4 ensures s.elems[k] == k {
        assert Offset1(flat, k) == 8 * k;
      }
    }
  }

  // ----- Pickle -----

  /** The pickle saver: copies `max_size` doubles from the tensor's storage. */
  method GetState(self: Storage.Tensor) returns (s: seq<int>)
    requires self.Valid()
    ensures |s| == TensorTraits.MaxSize(self.t)
    ensures s[..self.Size()] == self.Value().elems
  {
    s := self.elems[..];
  }

  /** The pickle loader: a default-constructed object of the class, then `max_size` doubles
      copied in. */
  method SetState(t: TensorTraits.Traits, s: seq<int>) returns (o: Storage.Tensor)
    requires Dims.HasDimensionsSpecialization(t) && |s| == TensorTraits.MaxSize(t)
    ensures fresh(o) && fresh(o.elems) && o.Valid() && o.t == t
    ensures o.Rows() == t.maxRows && o.Cols() == t.maxCols && o.elems[..] == s
  {
    o := new Storage.Tensor(t);
    var k := 0;
    while k < |s|
      invariant 0 <= k <= |s| && o.Valid() && o.Rows() == t.maxRows && o.Cols() == t.maxCols
      invariant o.elems[..k] == s[..k]
    {
      o.elems[k] := s[k];
      k := k + 1;
    }
  }

  /** Saving and loading a registered class's object gives a new object with the same value. */
  method PickleRoundTrip(ty: Registry.PyType, x: Storage.Tensor) returns (y: Storage.Tensor)
    requires Registry.InRegistry(ty) && x.Valid() && x.t == Registry.TraitsOf(ty)
    ensures fresh(y) && y.Valid() && y.t == x.t && y.Value() == x.Value()
  {
    Registry.RegistryTypesRoundTrip(ty);
    Dims.SpecializationIffValid(x.t);
    var s := GetState(x);
    y := SetState(x.t, s);
    assert y.Size() == x.Size();
  }

  // ----- Arithmetic operators -----

  /** The arithmetic dunder methods of a class: the plain ones put the object on the left, the
      reflected ones put the double on the left (`other - self`, `other / self`), and `__rmul__`
      computes `other * self`. */
  datatype PyOperator = AddOp | RAddOp | SubOp | RSubOp | TrueDivOp | RTrueDivOp | MulOp | RMulOp

  /** The element-wise operation a dunder method performs. */
  function OperationOf(o: PyOperator): Dispatch.Operation
  {
    match o
    case AddOp => Dispatch.Add
    case RAddOp => Dispatch.Add
    case SubOp => Dispatch.Subtract
    case RSubOp => Dispatch.Subtract
    case TrueDivOp => Dispatch.Divide
    case RTrueDivOp => Dispatch.Divide
    case MulOp => Dispatch.Multiply
    case RMulOp => Dispatch.Multiply
  }

  predicate Reflected(o: PyOperator) { o in {RAddOp, RSubOp, RTrueDivOp, RMulOp} }

  /** The overload a dunder method calls with the object `self` and the double `t`. */
  function ScalarOperator(o: PyOperator, self: Mat, t: int): (r: Mat)
    requires WellFormed(self)
    requires OperationOf(o) == Dispatch.Divide ==>
      Dispatch.NonzeroDivisor(if Reflected(o) then Dispatch.TensorArg(self) else Dispatch.ScalarArg(t))
    ensures WellFormed(r) && r.rows == self.rows && r.cols == self.cols
    ensures forall i: nat, j: nat :: i < r.rows && j < r.cols ==>
      At(r, i, j) == if Reflected(o) then Dispatch.Combine(OperationOf(o), t, At(self, i, j))
                     else Dispatch.Combine(OperationOf(o), At(self, i, j), t)
  {
    if Reflected(o) then Dispatch.Apply(OperationOf(o), Dispatch.ScalarArg(t), Dispatch.TensorArg(self)).m
    else Dispatch.Apply(OperationOf(o), Dispatch.TensorArg(self), Dispatch.ScalarArg(t)).m
  }

  /** `__radd__` and `__add__` agree, as do `__rmul__` and `__mul__`; `__rsub__` is the negation
      of `__sub__`. */
  lemma ReflectedOperators(self: Mat, t: int)
    requires WellFormed(self)
    ensures ScalarOperator(RAddOp, self, t) == ScalarOperator(AddOp, self, t)
    ensures ScalarOperator(RMulOp, self, t) == ScalarOperator(MulOp, self, t)
    ensures forall i: nat, j: nat :: i < self.rows && j < self.cols ==>
      At(ScalarOperator(RSubOp, self, t), i, j) == -At(ScalarOperator(SubOp, self, t), i, j)
  {
    MatExtensionality(ScalarOperator(RAddOp, self, t), ScalarOperator(AddOp, self, t));
    MatExtensionality(ScalarOperator(RMulOp, self, t), ScalarOperator(MulOp, self, t));
  }

  /** `__iadd__`/`__isub__`/`__itruediv__` with another object, `self = self op other`: the
      expression is evaluated lazily into `self`'s own storage, element by element, reading both
      operands at each step. Because element `k` depends only on element `k` of each operand, the
      result is the operation on the old values even when `other` is `self`. */
  method InPlace(self: Storage.Tensor, op: Dispatch.Operation, other: Storage.Tensor)
    requires self.Valid() && other.Valid()
    requires Dispatch.Admissible(op, Dispatch.TensorArg(self.Value()), Dispatch.TensorArg(other.Value()))
    modifies self.elems
    ensures self.Valid() && self.Rows() == old(self.Rows()) && self.Cols() == old(self.Cols())
    ensures self.Value() == Dispatch.Apply(op, Dispatch.TensorArg(old(self.Value())), Dispatch.TensorArg(old(other.Value()))).m
  {
    ghost var a, b := self.Value(), other.Value();
    ghost var r := Dispatch.Apply(op, Dispatch.TensorArg(a), Dispatch.TensorArg(b)).m;
    Dispatch.ApplyTensorsLinear(op, a, b);
    var n := self.Size();
    var k := 0;
    while k < n
      invariant 0 <= k <= n == |r.elems| == |a.elems| == |b.elems|
      invariant self.elems[..k] == r.elems[..k]
      invariant forall q :: k <= q < n ==> self.elems[q] == a.elems[q] && other.elems[q] == b.elems[q]
    {
      var x, y := self.elems[k], other.elems[k];
      self.elems[k] := Dispatch.Combine(op, x, y);
      k := k + 1;
    }
    assert self.elems[..n] == r.elems;
  }

  /** `__iadd__`/`__isub__`/`__itruediv__` with a double (`self = self op other`) and
      `__imul__` (`self = other * self`): every element is combined with the double, which keeps
      its side. */
  method InPlaceScalar(self: Storage.Tensor, op: Dispatch.Operation, t: int)
    requires self.Valid() && (op == Dispatch.Divide ==> t != 0)
    modifies self.elems
    ensures self.Valid() && self.Rows() == old(self.Rows()) && self.Cols() == old(self.Cols())
    ensures op == Dispatch.Multiply ==>
      self.Value() == Dispatch.Apply(op, Dispatch.ScalarArg(t), Dispatch.TensorArg(old(self.Value()))).m
    ensures op != Dispatch.Multiply ==>
      self.Value() == Dispatch.Apply(op, Dispatch.TensorArg(old(self.Value())), Dispatch.ScalarArg(t)).m
  {
    ghost var a := self.Value();
    var left := op == Dispatch.Multiply;
    ghost var r := if left then Dispatch.Apply(op, Dispatch.ScalarArg(t), Dispatch.TensorArg(a)).m
                   else Dispatch.Apply(op, Dispatch.TensorArg(a), Dispatch.ScalarArg(t)).m;
    Dispatch.ApplyScalarLinear(op, a, t, left);
    var n := self.Size();
    var k := 0;
    while k < n
      invariant 0 <= k <= n == |r.elems| == |a.elems|
      invariant self.elems[..k] == r.elems[..k]
      invariant forall q :: k <= q < n ==> self.elems[q] == a.elems[q]
    {
      var x := self.elems[k];
      self.elems[k] := if left then Dispatch.Combine(op, t, x) else Dispatch.Combine(op, x, t);
      k := k + 1;
    }
    assert self.elems[..n] == r.elems;
  }

  /** The addition cases of the Python tests on `Matrix2x2` holding 0 to 3: `a + 2`, `1 + a`. */
  lemma OperatorExamples()
    ensures ScalarOperator(AddOp, Mat(2, 2, [0, 1, 2, 3]), 2) == Mat(2, 2, [2, 3, 4, 5])
    ensures ScalarOperator(RAddOp, Mat(2, 2, [0, 1, 2, 3]), 1) == Mat(2, 2, [1, 2, 3, 4])
    ensures At(ScalarOperator(RSubOp, Mat(2, 2, [0, 1, 2, 3]), 1), 1, 1) == -2
  {
    var a := Mat(2, 2, [0, 1, 2, 3]);
    MatExtensionality(ScalarOperator(AddOp, a, 2), Mat(2, 2, [2, 3, 4, 5]));
    MatExtensionality(ScalarOperator(RAddOp, a, 1), Mat(2, 2, [1, 2, 3, 4]));
    assert At(a, 1, 1) == 3;
  }
}
