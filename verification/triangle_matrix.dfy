/** TriangleMatrix (libs/lib_triangle_matrix/triangle_matrix.h): an upper
    triangular n×n matrix stored packed, row i holding the n - i entries from
    the diagonal rightwards. The element type is modelled as int. */
module TriangleMatrices {
  import opened Wrappers

  /** The size and the packed rows. */
  datatype Matrix = Matrix(size: nat, data: seq<seq<int>>)

  /** The two exception types the class throws, with their messages. */
  datatype MatrixError = OutOfRange(message: string) | InvalidArgument(message: string)

  const IndicesOutOfRange: string := "TriangleMatrix indices out of range"
  const LowerTriangle: string := "Cannot modify lower triangle"
  const IncompatibleSizes: string := "TriangleMatrix: Incompatible sizes"
  const RowLengths: string := "TriangleMatrix: All rows must have a decreasing length from size to 1."

  /** The packed shape: size rows, row i of length size - i. */
  predicate Valid(m: Matrix) {
    |m.data| == m.size && forall i :: 0 <= i < m.size ==> |m.data[i]| == m.size - i
  }

  /** The dense view: entry (r, c), zero below the diagonal. */
  function Cell(m: Matrix, r: nat, c: nat): int
    requires Valid(m) && r < m.size && c < m.size
  {
    if c < r then 0 else m.data[r][c - r]
  }

  /** The default constructor (triangle_matrix.h:46-47). */
  function Default(): (m: Matrix)
    ensures Valid(m) && Dim(m) == 0
  {
    Matrix(0, [])
  }

  /** TriangleMatrix(n) (triangle_matrix.h:49-56): n rows, row i of length
      n - i; the entries are modelled as zero. */
  function New(n: nat): (m: Matrix)
    ensures Valid(m) && Dim(m) == n
    ensures forall i :: 0 <= i < n ==> |m.data[i]| == n - i
    ensures forall r, c :: 0 <= r < n && 0 <= c < n ==> Cell(m, r, c) == 0
  {
    Matrix(n, seq(n, i requires 0 <= i < n => seq(n - i, _ => 0)))
  }

  /** The initializer-list constructor (triangle_matrix.h:58-80): the rows
      are taken as given when their lengths run n, n - 1, ..., 1, and
      invalid_argument is thrown otherwise. */
  method FromRows(rows: seq<seq<int>>) returns (r: Result<Matrix, MatrixError>)
    ensures r.Success? <==> Valid(Matrix(|rows|, rows))
    ensures r.Success? ==> r.value == Matrix(|rows|, rows)
    ensures r.Failure? ==> r.error == InvalidArgument(RowLengths)
  {
    var size := |rows|;
    var expected := size;
    var i := 0;
    while i < |rows|
      invariant 0 <= i <= |rows| && expected == size - i
      invariant forall k :: 0 <= k < i ==> |rows[k]| == size - k
    {
      if |rows[i]| != expected {
        return Failure(InvalidArgument(RowLengths));
      }
      expected := expected - 1;
      i := i + 1;
    }
    return Success(Matrix(size, rows));
  }

  /** dim (triangle_matrix.h:87-90). */
  function Dim(m: Matrix): nat {
    m.size
  }

  /** at (triangle_matrix.h:263-274): out_of_range outside the matrix, zero
      below the diagonal, the stored entry otherwise. */
  function At(m: Matrix, r: nat, c: nat): (res: Result<int, MatrixError>)
    requires Valid(m)
    ensures res.Failure? <==> r >= m.size || c >= m.size
    ensures res.Failure? ==> res.error == OutOfRange(IndicesOutOfRange)
    ensures res.Success? ==> res.value == Cell(m, r, c)
    ensures res.Success? && c < r ==> res.value == 0
  {
    if r >= m.size || c >= m.size then Failure(OutOfRange(IndicesOutOfRange))
    else if c < r then Success(0)
    else Success(m.data[r][c - r])
  }

  /** set (triangle_matrix.h:276-287): out_of_range outside the matrix,
      invalid_argument below the diagonal, otherwise the stored entry is
      replaced. */
  function Set(m: Matrix, r: nat, c: nat, v: int): (res: Result<Matrix, MatrixError>)
    requires Valid(m)
    ensures res.Failure? <==> r >= m.size || c >= m.size || c < r
    ensures res.Failure? ==> res.error == (if r >= m.size || c >= m.size then OutOfRange(IndicesOutOfRange)
                                           else InvalidArgument(LowerTriangle))
    ensures res.Success? ==> Valid(res.value) && Dim(res.value) == Dim(m)
  {
    if r >= m.size || c >= m.size then Failure(OutOfRange(IndicesOutOfRange))
    else if c < r then Failure(InvalidArgument(LowerTriangle))
    else Success(m.(data := m.data[r := m.data[r][c - r := v]]))
  }

  /** operator== (triangle_matrix.h:92-105): the sizes, then row by row. */
  method Equal(a: Matrix, b: Matrix) returns (eq: bool)
    requires Valid(a) && Valid(b)
    ensures eq <==> a == b
  {
    if a.size != b.size {
      return false;
    }
    var i := 0;
    while i < a.size
      invariant 0 <= i <= a.size
      invariant forall k :: 0 <= k < i ==> a.data[k] == b.data[k]
    {
      if a.data[i] != b.data[i] {
        return false;
      }
      i := i + 1;
    }
    assert a.data == b.data;
    return true;
  }

  /** operator!= (triangle_matrix.h:107-110). */
  method NotEqual(a: Matrix, b: Matrix) returns (ne: bool)
    requires Valid(a) && Valid(b)
    ensures ne <==> a != b
  {
    var eq := Equal(a, b);
    ne := !eq;
  }

  // ----- the dense products the loops are held to -----

  /** Σ_{lo <= j < hi} m(i, j) · v[j]. */
  function RowFrom(m: Matrix, v: seq<int>, i: nat, lo: nat, hi: nat): int
    requires Valid(m) && |v| == m.size && i < m.size && lo <= hi <= m.size
    decreases hi
  {
    if hi == lo then 0 else RowFrom(m, v, i, lo, hi - 1) + Cell(m, i, hi - 1) * v[hi - 1]
  }

  /** Entry i of the dense product m · v. */
  function Apply(m: Matrix, v: seq<int>, i: nat): int
    requires Valid(m) && |v| == m.size && i < m.size
  {
    RowFrom(m, v, i, 0, m.size)
  }

  /** Σ_{lo <= k < hi} a(r, k) · b(k, c). */
  function ProdFrom(a: Matrix, b: Matrix, r: nat, c: nat, lo: nat, hi: nat): int
    requires Valid(a) && Valid(b) && a.size == b.size && r < a.size && c < a.size && lo <= hi <= a.size
    decreases hi
  {
    if hi == lo then 0 else ProdFrom(a, b, r, c, lo, hi - 1) + Cell(a, r, hi - 1) * Cell(b, hi - 1, c)
  }

  /** Entry (r, c) of the dense product a · b. */
  function Product(a: Matrix, b: Matrix, r: nat, c: nat): int
    requires Valid(a) && Valid(b) && a.size == b.size && r < a.size && c < a.size
  {
    ProdFrom(a, b, r, c, 0, a.size)
  }

  // ----- matrix × vector -----

  /** operator* with a column (triangle_matrix.h:242-261): a size mismatch
      is an error; otherwise every entry is the dense product's, summed from
      the diagonal. */
  method MulVec(m: Matrix, v: seq<int>) returns (r: Result<seq<int>, MatrixError>)
    requires Valid(m)
    ensures r.Success? <==> |v| == m.size
    ensures r.Failure? ==> r.error == InvalidArgument(IncompatibleSizes)
    ensures r.Success? ==> |r.value| == m.size && forall i :: 0 <= i < m.size ==> r.value[i] == Apply(m, v, i)
  {
    if m.size != |v| {
      return Failure(InvalidArgument(IncompatibleSizes));
    }
    var result: seq<int> := [];
    var i := 0;
    while i < m.size
      invariant 0 <= i <= m.size && |result| == i
      invariant forall k :: 0 <= k < i ==> result[k] == Apply(m, v, k)
    {
      var sum := RowSum(m, v, i);
      result := result + [sum];
      i := i + 1;
    }
    return Success(result);
  }

  /** The inner loop of the matrix × vector product, over j = i .. n - 1. */
  method RowSum(m: Matrix, v: seq<int>, i: nat) returns (sum: int)
    requires Valid(m) && |v| == m.size && i < m.size
    ensures sum == Apply(m, v, i)
  {
    sum := 0;
    var j := i;
    while j < m.size
      invariant i <= j <= m.size
      invariant sum == RowFrom(m, v, i, i, j)
    {
      sum := sum + m.data[i][j - i] * v[j];
      j := j + 1;
    }
    RowSplit(m, v, i, 0, i, m.size);
    RowBelow(m, v, i, 0, i);
  }

  lemma {:induction false} RowSplit(m: Matrix, v: seq<int>, i: nat, lo: nat, mid: nat, hi: nat)
    requires Valid(m) && |v| == m.size && i < m.size && lo <= mid <= hi <= m.size
    ensures RowFrom(m, v, i, lo, hi) == RowFrom(m, v, i, lo, mid) + RowFrom(m, v, i, mid, hi)
    decreases hi
  {
    if hi > mid {
      RowSplit(m, v, i, lo, mid, hi - 1);
    }
  }

  /** Columns left of the diagonal add nothing. */
  lemma {:induction false} RowBelow(m: Matrix, v: seq<int>, i: nat, lo: nat, hi: nat)
    requires Valid(m) && |v| == m.size && i < m.size && lo <= hi <= i
    ensures RowFrom(m, v, i, lo, hi) == 0
    decreases hi
  {
    if hi > lo {
      RowBelow(m, v, i, lo, hi - 1);
    }
  }

  // ----- matrix × matrix -----

  /** operator* with a matrix (triangle_matrix.h:156-185): a size mismatch
      is an error; otherwise the loops fill diagonal after diagonal, and
      every entry, the zero ones below the diagonal included, is the dense
      product's. */
  method MulMat(a: Matrix, b: Matrix) returns (r: Result<Matrix, MatrixError>)
    requires Valid(a) && Valid(b)
    ensures r.Success? <==> a.size == b.size
    ensures r.Failure? ==> r.error == InvalidArgument(IncompatibleSizes)
    ensures r.Success? ==> Valid(r.value) && Dim(r.value) == a.size
    ensures r.Success? ==> forall i, j :: 0 <= i < a.size && 0 <= j < a.size ==> Cell(r.value, i, j) == Product(a, b, i, j)
  {
    if a.size != b.size {
      return Failure(InvalidArgument(IncompatibleSizes));
    }
    var n := a.size;
    var data := New(n).data;
    var terms := 1;
    var i := 0;
    while i < n
      invariant 0 <= i <= n && terms == i + 1
      invariant Valid(Matrix(n, data))
      invariant forall row, off :: 0 <= row < n && 0 <= off < i && row + off < n ==>
        data[row][off] == Product(a, b, row, row + off)
    {
      data := FillDiagonal(a, b, data, i, terms);
      terms := terms + 1;
      i := i + 1;
    }
    var c := Matrix(n, data);
    forall row, col | 0 <= row < n && 0 <= col < n
      ensures Cell(c, row, col) == Product(a, b, row, col)
    {
      if col < row {
        ProductLower(a, b, row, col);
      } else {
        assert data[row][col - row] == Product(a, b, row, row + (col - row));
      }
    }
    return Success(c);
  }

  /** One pass of the middle loop: entry (j, j + i) for every row j it
      exists in; the other entries are left alone. */
  method FillDiagonal(a: Matrix, b: Matrix, data: seq<seq<int>>, i: nat, terms: int) returns (out: seq<seq<int>>)
    requires Valid(a) && Valid(b) && a.size == b.size && Valid(Matrix(a.size, data))
    requires i < a.size && terms == i + 1
    ensures Valid(Matrix(a.size, out))
    ensures forall row, off :: 0 <= row < a.size && 0 <= off < |out[row]| && off != i ==> out[row][off] == data[row][off]
    ensures forall row :: 0 <= row < a.size - i ==> out[row][i] == Product(a, b, row, row + i)
  {
    var n := a.size;
    out := data;
    var j := 0;
    while j < n
      invariant 0 <= j <= n
      invariant Valid(Matrix(n, out))
      invariant forall row, off :: 0 <= row < n && 0 <= off < |out[row]| && off != i ==> out[row][off] == data[row][off]
      invariant forall row :: 0 <= row < j && row + i < n ==> out[row][i] == Product(a, b, row, row + i)
    {
      if i + j < n {
        var sum := EntrySum(a, b, j, i, terms);
        out := out[j := out[j][i := sum]];
      }
      j := j + 1;
    }
  }

  /** The innermost loop: Σ_{k=0..i} a(j, j + k) · b(j + k, j + i). */
  method EntrySum(a: Matrix, b: Matrix, j: nat, i: nat, terms: int) returns (sum: int)
    requires Valid(a) && Valid(b) && a.size == b.size && j + i < a.size && terms == i + 1
    ensures sum == Product(a, b, j, j + i)
  {
    sum := 0;
    var k := 0;
    while k < terms
      invariant 0 <= k <= terms
      invariant sum == ProdFrom(a, b, j, j + i, j, j + k)
    {
      assert a.data[j][k] == Cell(a, j, j + k);
      assert b.data[k + j][i - k] == Cell(b, j + k, j + i);
      sum := sum + a.data[j][k] * b.data[k + j][i - k];
      k := k + 1;
    }
    ProductBand(a, b, j, j + i);
  }

  lemma {:induction false} ProdSplit(a: Matrix, b: Matrix, r: nat, c: nat, lo: nat, mid: nat, hi: nat)
    requires Valid(a) && Valid(b) && a.size == b.size && r < a.size && c < a.size
    requires lo <= mid <= hi <= a.size
    ensures ProdFrom(a, b, r, c, lo, hi) == ProdFrom(a, b, r, c, lo, mid) + ProdFrom(a, b, r, c, mid, hi)
    decreases hi
  {
    if hi > mid {
      ProdSplit(a, b, r, c, lo, mid, hi - 1);
    }
  }

  /** Terms left of row r's diagonal add nothing. */
  lemma {:induction false} ProdBefore(a: Matrix, b: Matrix, r: nat, c: nat, lo: nat, hi: nat)
    requires Valid(a) && Valid(b) && a.size == b.size && r < a.size && c < a.size
    requires lo <= hi <= r
    ensures ProdFrom(a, b, r, c, lo, hi) == 0
    decreases hi
  {
    if hi > lo {
      ProdBefore(a, b, r, c, lo, hi - 1);
    }
  }

  /** Terms below column c's diagonal add nothing. */
  lemma {:induction false} ProdAfter(a: Matrix, b: Matrix, r: nat, c: nat, lo: nat, hi: nat)
    requires Valid(a) && Valid(b) && a.size == b.size && r < a.size && c < a.size
    requires c < lo <= hi <= a.size
    ensures ProdFrom(a, b, r, c, lo, hi) == 0
    decreases hi
  {
    if hi > lo {
      ProdAfter(a, b, r, c, lo, hi - 1);
    }
  }

  /** On or above the diagonal only the terms r <= k <= c count. */
  lemma {:induction false} ProductBand(a: Matrix, b: Matrix, r: nat, c: nat)
    requires Valid(a) && Valid(b) && a.size == b.size && r <= c < a.size
    ensures Product(a, b, r, c) == ProdFrom(a, b, r, c, r, c + 1)
  {
    ProdSplit(a, b, r, c, 0, r, a.size);
    ProdSplit(a, b, r, c, r, c + 1, a.size);
    ProdBefore(a, b, r, c, 0, r);
    ProdAfter(a, b, r, c, c + 1, a.size);
  }

  /** The dense product of two upper triangular matrices is zero below the
      diagonal. */
  lemma {:induction false} ProductLower(a: Matrix, b: Matrix, r: nat, c: nat)
    requires Valid(a) && Valid(b) && a.size == b.size && c < r < a.size
    ensures Product(a, b, r, c) == 0
  {
    ProdSplit(a, b, r, c, 0, r, a.size);
    ProdBefore(a, b, r, c, 0, r);
    ProdAfter(a, b, r, c, r, a.size);
  }

  // ----- properties -----

  /** set then at: the written entry reads back, and every other entry
      reads as before. */
  lemma {:induction false} SetThenAt(m: Matrix, r: nat, c: nat, v: int, r': nat, c': nat)
    requires Valid(m) && Set(m, r, c, v).Success?
    ensures At(Set(m, r, c, v).value, r, c) == Success(v)
    ensures (r', c') != (r, c) ==> At(Set(m, r, c, v).value, r', c') == At(m, r', c')
  {
  }

  /** Two matrices are equal exactly when they have the same dimension and
      the same entries everywhere. */
  lemma {:induction false} EqualCells(a: Matrix, b: Matrix)
    requires Valid(a) && Valid(b)
    ensures a == b <==> a.size == b.size && forall r, c :: 0 <= r < a.size && 0 <= c < a.size ==> Cell(a, r, c) == Cell(b, r, c)
  {
    if a.size == b.size && forall r, c :: 0 <= r < a.size && 0 <= c < a.size ==> Cell(a, r, c) == Cell(b, r, c) {
      forall r | 0 <= r < a.size
        ensures a.data[r] == b.data[r]
      {
        forall k | 0 <= k < |a.data[r]|
          ensures a.data[r][k] == b.data[r][k]
        {
          assert Cell(a, r, r + k) == Cell(b, r, r + k);
        }
      }
    }
  }

  /** A fresh matrix is the zero matrix: all its products are zero. */
  lemma {:induction false} NewProducts(n: nat, v: seq<int>, i: nat)
    requires |v| == n && i < n
    ensures Apply(New(n), v, i) == 0
  {
    NewRow(n, v, i, n);
  }

  lemma {:induction false} NewRow(n: nat, v: seq<int>, i: nat, hi: nat)
    requires |v| == n && i < n && hi <= n
    ensures RowFrom(New(n), v, i, 0, hi) == 0
    decreases hi
  {
    if hi > 0 {
      NewRow(n, v, i, hi - 1);
    }
  }
}
