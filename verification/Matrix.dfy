/** The matrix operations of matrix.go.  Matrices are values once built; the methods fill them
    cell by cell, and only the elimination works on rows in the heap. */
module Matrix {
  import opened Wrappers
  import opened Galois
  import opened GaloisTables
  import opened LinearAlgebra
  import opened Elimination

  // A and B are inverse to each other from both sides.
  ghost predicate IsInverse(A: Mat, B: Mat, n: nat) {
    IsMat(A, n, n) && IsMat(B, n, n) && MatMul(A, B, n) == Id(n) && MatMul(B, A, n) == Id(n)
  }

  predicate Rectangular(m: Mat) {
    |m| > 0 && |m[0]| > 0 && IsMat(m, |m|, |m[0]|)
  }

  method IdentityMatrix(size: int) returns (r: Result<Mat>)
    ensures r == if size <= 0 then Err(InvalidRowSize) else Ok(Id(size))
  {
    if size <= 0 {
      return Err(InvalidRowSize);
    }
    var m: Mat := [];
    for i := 0 to size
      invariant |m| == i && forall k :: 0 <= k < i ==> m[k] == Unit(size, k)
    {
      var row := new byte[size](_ => 0);
      row[i] := 1;
      assert row[..] == Unit(size, i);
      m := m + [row[..]];
    }
    assert m == Id(size);
    return Ok(m);
  }

  method Multiply(left: Mat, right: Mat) returns (r: Result<Mat>)
    requires Rectangular(left) && Rectangular(right)
    ensures |left[0]| != |right| ==> r == Err(MatrixSize)
    ensures |left[0]| == |right| ==> r == Ok(MatMul(left, right, |right[0]|))
  {
    hide Add, Mul, GalMultiply;
    if |left[0]| != |right| {
      return Err(MatrixSize);
    }
    var w := |right[0]|;
    var result: Mat := [];
    for r0 := 0 to |left|
      invariant |result| == r0 && forall k :: 0 <= k < r0 ==> result[k] == Comb(left[k], right, w)
    {
      var row := new byte[w];
      for c := 0 to w
        invariant forall k :: 0 <= k < c ==> row[k] == Comb(left[r0], right, w)[k]
      {
        var value: byte := 0;
        for i := 0 to |left[0]|
          invariant value == CombTo(left[r0], right, w, i)[c]
        {
          value := Add(value, GalMultiply(left[r0][i], right[i][c]));
        }
        row[c] := value;
      }
      assert row[..] == Comb(left[r0], right, w);
      result := result + [row[..]];
    }
    assert result == MatMul(left, right, w);
    return Ok(result);
  }

  method AugmentRow(left: Vec, right: Vec) returns (row: array<byte>)
    ensures fresh(row) && row[..] == left + right
  {
    var cols := |left|;
    row := new byte[cols + |right|];
    for c := 0 to cols
      invariant row[..c] == left[..c]
    {
      row[c] := left[c];
    }
    for c := 0 to |right|
      invariant row[..cols + c] == left + right[..c]
    {
      row[cols + c] := right[c];
    }
    assert row[..] == row[..cols + |right|];
  }

  // The rows of left followed by those of right, as fresh rows on the heap.
  method Augment(left: Mat, right: Mat) returns (ok: bool, result: array<array<byte>>)
    requires Rectangular(left) && Rectangular(right)
    ensures ok == (|left| == |right|) && fresh(result) && forall i :: 0 <= i < result.Length ==> fresh(result[i])
    ensures ok ==> Shape(result, |left[0]| + |right[0]|) && result.Length == |left|
    ensures ok ==> forall i :: 0 <= i < |left| ==> Rows(result)[i] == left[i] + right[i]
  {
    if |left| != |right| {
      return false, new array<byte>[0];
    }
    var filler := new byte[0];
    result := new array<byte>[|left|](_ => filler);
    for r := 0 to |left|
      invariant forall i :: 0 <= i < |left| ==> fresh(result[i]) && result[i] as object != result
      invariant forall i :: 0 <= i < r ==> result[i][..] == left[i] + right[i]
      invariant forall i, j :: 0 <= i < j < r ==> result[i] != result[j]
    {
      var row := AugmentRow(left[r], right[r]);
      assert forall i :: 0 <= i < r ==> result[i] != row;
      result[r] := row;
    }
    ok := true;
  }

  method SubMatrix(m: Mat, rmin: int, cmin: int, rmax: int, cmax: int) returns (r: Result<Mat>)
    requires 0 <= rmin && rmax <= |m| && 0 <= cmin
    requires forall i :: rmin <= i < rmax ==> cmax <= |m[i]|
    ensures rmax <= rmin ==> r == Err(InvalidRowSize)
    ensures rmin < rmax && cmax <= cmin ==> r == Err(InvalidColSize)
    ensures rmin < rmax && cmin < cmax ==> r == Ok(Cols(m[rmin..rmax], cmin, cmax))
  {
    if rmax - rmin <= 0 {
      return Err(InvalidRowSize);
    }
    if cmax - cmin <= 0 {
      return Err(InvalidColSize);
    }
    var result: Mat := [];
    for i := rmin to rmax
      invariant |result| == i - rmin && forall k :: 0 <= k < i - rmin ==> result[k] == m[rmin + k][cmin..cmax]
    {
      var row := new byte[cmax - cmin];
      for c := cmin to cmax
        invariant forall k :: cmin <= k < c ==> row[k - cmin] == m[i][k]
      {
        row[c - cmin] := m[i][c];
      }
      assert row[..] == m[i][cmin..cmax];
      result := result + [row[..]];
    }
    assert result == Cols(m[rmin..rmax], cmin, cmax);
    return Ok(result);
  }

  // A null vector excludes an inverse.
  lemma NullVectorNoInverse(A: Mat, B: Mat, x: Vec)
    requires IsInverse(A, B, |x|) && Kills(A, x)
    ensures !NonZero(x)
  {
    hide Comb;
    var n := |x|;
    var X := Column(x);
    MatMulAssoc(B, A, X, 1);
    MatMulId(X, n, 1);
    forall i | 0 <= i < n
      ensures x[i] == 0
    {
      var Z := MatMul(A, X, 1);
      assert forall k :: 0 <= k < n ==> Z[k] == Zeros(1);
      CombToZeroRows(B[i], Z, 1, n);
      CombIsCombTo(B[i], Z, 1);
      assert X[i] == MatMul(B, Z, 1)[i];
    }
  }

  // From [A | I] row-reduced to [I | B]: the rows of A times B are unit vectors,
  lemma ReducedRight(A: Mat, W0: Mat, W: Mat, n: nat, i: nat)
    requires IsMat(A, n, n) && IsMat(W, n, 2 * n) && |W0| == n && i < n
    requires W0[i] == A[i] + Unit(n, i) && InSpan(W0[i], W, 2 * n)
    requires Cols(W, 0, n) == Id(n)
    ensures Comb(A[i], Cols(W, n, 2 * n), n) == Unit(n, i)
  {
    hide Comb, Unit;
    var q: Vec :| |q| == n && Comb(q, W, 2 * n) == W0[i];
    CombCols(q, W, 2 * n, 0, n);
    CombCols(q, W, 2 * n, n, 2 * n);
    CombId(q);
  }

  // and so are the rows of B times A.
  lemma ReducedLeft(A: Mat, W0: Mat, W: Mat, n: nat, i: nat)
    requires IsMat(A, n, n) && IsMat(W0, n, 2 * n) && IsMat(W, n, 2 * n) && i < n
    requires Cols(W0, 0, n) == A && Cols(W0, n, 2 * n) == Id(n) && InSpan(W[i], W0, 2 * n)
    requires Cols(W, 0, n) == Id(n)
    ensures Comb(Cols(W, n, 2 * n)[i], A, n) == Unit(n, i)
  {
    hide Comb, Unit;
    var p: Vec :| |p| == n && Comb(p, W0, 2 * n) == W[i];
    CombCols(p, W0, 2 * n, 0, n);
    CombCols(p, W0, 2 * n, n, 2 * n);
    CombId(p);
    assert W[i][0..n] == Id(n)[i];
  }

  lemma ReducedGivesInverse(A: Mat, W0: Mat, W: Mat, n: nat)
    requires IsMat(A, n, n) && RowEq(W0, W, 2 * n) && |W0| == n
    requires forall i :: 0 <= i < n ==> W0[i] == A[i] + Id(n)[i]
    requires Cols(W, 0, n) == Id(n)
    ensures IsInverse(A, Cols(W, n, 2 * n), n)
  {
    hide Comb, Unit, InSpan;
    var B := Cols(W, n, 2 * n);
    assert Cols(W0, 0, n) == A;
    forall i | 0 <= i < n
      ensures W0[i][n..2 * n] == Id(n)[i]
    {
      assert W0[i] == A[i] + Id(n)[i];
    }
    assert Cols(W0, n, 2 * n) == Id(n);
    forall i | 0 <= i < n
      ensures MatMul(A, B, n)[i] == Id(n)[i] && MatMul(B, A, n)[i] == Id(n)[i]
    {
      ReducedRight(A, W0, W, n, i);
      ReducedLeft(A, W0, W, n, i);
    }
  }

  /** The inverse, or the singular error.  The error comes with a non-zero vector mapped to zero, so
      it is returned exactly for the matrices that have no inverse. */
  method Invert(m: Mat) returns (r: Result<Mat>)
    requires Rectangular(m)
    ensures |m| != |m[0]| ==> r == Err(NotSquare)
    ensures |m| == |m[0]| ==> r.Ok? || r == Err(Singular)
    ensures |m| == |m[0]| && r.Ok? ==> IsInverse(m, r.value, |m|)
    ensures |m| == |m[0]| && r.Err? ==> exists x: Vec :: |x| == |m| && NonZero(x) && Kills(m, x)
    ensures |m| == |m[0]| && r.Err? ==> forall B: Mat :: !IsInverse(m, B, |m|)
  {
    hide RowEq, Kills, NonZero, Comb, IsInverse;
    if |m| != |m[0]| {
      return Err(NotSquare);
    }
    var size := |m|;
    var id := IdentityMatrix(size);
    var ok, work := Augment(m, id.value);
    ghost var W0 := Rows(work);
    ok := GaussianElimination(work, 2 * size);
    if !ok {
      assert Cols(W0, 0, size) == m;
      ghost var x: Vec :| |x| == size && NonZero(x) && Kills(Cols(W0, 0, |x|), x);
      forall B: Mat
        ensures !IsInverse(m, B, size)
      {
        if IsInverse(m, B, size) {
          NullVectorNoInverse(m, B, x);
        }
      }
      return Err(Singular);
    }
    ReducedGivesInverse(m, W0, Rows(work), size);
    assert Rows(work)[0..size] == Rows(work);
    r := SubMatrix(Rows(work), 0, size, size, size * 2);
  }
}
