// `operator<<` for tensor streams (include/lin/core/types/inl/stream.inl): every row is
// printed on its own line, its entries separated by single spaces, each line ending in "\n".
// Number formatting belongs to the output stream and is not modelled: an entry is one token.

module StreamPrint {
  import opened RowMajor

  datatype Token = Entry(v: int) | Space | Newline

  /** The printed layout, stated position by position: token `2k` is linear element `k`; token
      `2k + 1` is a newline when `k` ends a row and a space otherwise. */
  function Layout(m: Mat): (out: seq<Token>)
    requires WellFormed(m)
    ensures |out| == 2 * Size(m)
  {
    seq(2 * Size(m), p requires 0 <= p < 2 * Size(m) =>
      if p % 2 == 0 then Entry(AtLinear(m, p / 2))
      else if (p / 2) % m.cols == m.cols - 1 then Newline
      else Space)
  }

  /** The two tokens printed for element `(i, j)`, at offset `k = i * cols + j`. */
  lemma {:induction false} LayoutAt(m: Mat, i: nat, j: nat, k: nat)
    requires WellFormed(m) && i < m.rows && j < m.cols && k == i * m.cols + j
    ensures 2 * k + 1 < |Layout(m)|
    ensures Layout(m)[2 * k] == Entry(At(m, i, j))
    ensures Layout(m)[2 * k + 1] == if j == m.cols - 1 then Newline else Space
  {
    OffsetInBounds(i, j, m.rows, m.cols);
    assert k < Size(m);
    assert (2 * k) / 2 == k && (2 * k) % 2 == 0;
    assert (2 * k + 1) / 2 == k && (2 * k + 1) % 2 == 1;
    assert AtLinear(m, k) == At(m, i, j);
  }

  /** Appends the tokens of element `(i, j)`, at offset `k`, followed by `sep`. */
  method PutEntry(m: Mat, i: nat, j: nat, k: nat, sep: Token, out: seq<Token>) returns (out': seq<Token>)
    requires WellFormed(m) && i < m.rows && j < m.cols && k == i * m.cols + j
    requires sep == if j == m.cols - 1 then Newline else Space
    requires 2 * k <= |Layout(m)| && out == Layout(m)[..2 * k]
    ensures 2 * k + 2 <= |Layout(m)| && out' == Layout(m)[..2 * k + 2]
  {
    LayoutAt(m, i, j, k);
    ghost var l := Layout(m);
    out' := out + [Entry(At(m, i, j)), sep];
    assert l[..2 * k + 2] == l[..2 * k] + [l[2 * k], l[2 * k + 1]];
  }

  /** The printing loops as written: all rows but the last, then the last row; within a row all
      columns but the last followed by a space, then the last column followed by a newline. A
      stream with no rows or no columns would make `rows() - 1` wrap around, so the source
      relies on both being positive. */
  method Print(m: Mat) returns (out: seq<Token>)
    requires WellFormed(m) && m.rows > 0 && m.cols > 0
    ensures out == Layout(m)
  {
    out := [];
    var i, k := 0, 0;
    while i < m.rows - 1
      invariant 0 <= i <= m.rows - 1 && k == i * m.cols
      invariant 2 * k <= |Layout(m)| && out == Layout(m)[..2 * k]
    {
      out, k := PrintRow(m, i, k, out);
      i := i + 1;
    }
    out, k := PrintRow(m, m.rows - 1, k, out);
    assert k == Size(m);
  }

  /** One row: `cols - 1` entries each followed by a space, then the last entry and "\n". */
  method PrintRow(m: Mat, i: nat, k0: nat, out: seq<Token>) returns (out': seq<Token>, k: nat)
    requires WellFormed(m) && i < m.rows && m.cols > 0 && k0 == i * m.cols
    requires 2 * k0 <= |Layout(m)| && out == Layout(m)[..2 * k0]
    ensures k == (i + 1) * m.cols
    ensures 2 * k <= |Layout(m)| && out' == Layout(m)[..2 * k]
  {
    out', k := out, k0;
    var j := 0;
    while j < m.cols - 1
      invariant 0 <= j <= m.cols - 1 && k == k0 + j
      invariant 2 * k <= |Layout(m)| && out' == Layout(m)[..2 * k]
    {
      out' := PutEntry(m, i, j, k, Space, out');
      j, k := j + 1, k + 1;
    }
    out' := PutEntry(m, i, m.cols - 1, k, Newline, out');
    k := k + 1;
    assert (i + 1) * m.cols == i * m.cols + m.cols;
  }

  /** Line `i` of the output is `2 * cols` tokens: the entries of row `i` in order, separated by
      spaces, ending in the only newline of the line. */
  lemma {:induction false} LineStructure(m: Mat, i: nat)
    requires WellFormed(m) && i < m.rows && m.cols > 0
    ensures 2 * (i * m.cols + m.cols) <= |Layout(m)|
    ensures forall j :: 0 <= j < m.cols ==>
      Layout(m)[2 * (i * m.cols + j)] == Entry(At(m, i, j)) &&
      Layout(m)[2 * (i * m.cols + j) + 1] == (if j == m.cols - 1 then Newline else Space)
  {
    OffsetBound(i, m.cols - 1, m.rows, m.cols);
    forall j | 0 <= j < m.cols
      ensures Layout(m)[2 * (i * m.cols + j)] == Entry(At(m, i, j))
      ensures Layout(m)[2 * (i * m.cols + j) + 1] == (if j == m.cols - 1 then Newline else Space)
    {
      LayoutAt(m, i, j, i * m.cols + j);
    }
  }

  /** A 2x2 stream prints as "1 2\n3 4\n". */
  lemma PrintExample()
    ensures Layout(Mat(2, 2, [1, 2, 3, 4])) ==
      [Entry(1), Space, Entry(2), Newline, Entry(3), Space, Entry(4), Newline]
  {
    var m := Mat(2, 2, [1, 2, 3, 4]);
    LayoutAt(m, 0, 0, 0);
    LayoutAt(m, 0, 1, 1);
    LayoutAt(m, 1, 0, 2);
    LayoutAt(m, 1, 1, 3);
  }
}
