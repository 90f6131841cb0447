/** The generator matrices: Vandermonde times the inverse of its top square, and identity over
    Cauchy.  Both are shown to have the property the codec lives on: the first rows are the
    identity, and any choice of as many rows as there are data shards determines the data. */
module Generator {
  import opened Wrappers
  import opened Galois
  import opened GaloisTables
  import opened LinearAlgebra
  import opened Elimination
  import opened Matrix
  import opened Polynomials

  // n strictly increasing row indices below total
  ghost predicate Choice(idx: seq<nat>, n: nat, total: nat) {
    && |idx| == n
    && (forall i, j :: 0 <= i < j < |idx| ==> idx[i] < idx[j])
    && (forall i :: 0 <= i < |idx| ==> idx[i] < total)
  }

  function Select(M: Mat, idx: seq<nat>): (r: Mat)
    requires forall i :: 0 <= i < |idx| ==> idx[i] < |M|
    ensures |r| == |idx| && forall i :: 0 <= i < |idx| ==> r[i] == M[idx[i]]
  {
    seq(|idx|, i requires 0 <= i < |idx| => M[idx[i]])
  }

  // Identity on top, and any `data` rows have only the zero vector in their kernel.
  ghost predicate Recoverable(M: Mat, data: nat, total: nat) {
    && 0 < data <= total && IsMat(M, total, data)
    && (forall i :: 0 <= i < data ==> M[i] == Unit(data, i))
    && (forall idx: seq<nat> :: Choice(idx, data, total) ==> NoKernel(Select(M, idx), data))
  }

  // ---- Vandermonde ----

  // Row r holds the powers of byte(r).
  function VandermondeMat(rows: nat, cols: nat): (r: Mat)
    ensures IsMat(r, rows, cols)
  {
    seq(rows, r requires 0 <= r => seq(cols, c requires 0 <= c => Pow(ByteOf(r % 256), c)))
  }

  method Vandermonde(rows: int, cols: int) returns (r: Result<Mat>)
    ensures rows <= 0 ==> r == Err(InvalidRowSize)
    ensures rows > 0 && cols <= 0 ==> r == Err(InvalidColSize)
    ensures rows > 0 && cols > 0 ==> r == Ok(VandermondeMat(rows, cols)) && IsMat(r.value, rows, cols)
    ensures rows > 0 && cols > 0 ==>
      forall i, c :: 0 <= i < rows && 0 <= c < cols ==> r.value[i][c] == Pow(ByteOf(i % 256), c)
  {
    hide Pow, ByteOf;
    if rows <= 0 {
      return Err(InvalidRowSize);
    }
    if cols <= 0 {
      return Err(InvalidColSize);
    }
    var result: Mat := [];
    for i := 0 to rows
      invariant |result| == i && forall k :: 0 <= k < i ==> result[k] == VandermondeMat(rows, cols)[k]
    {
      var row := new byte[cols];
      for c := 0 to cols
        invariant forall k :: 0 <= k < c ==> row[k] == Pow(ByteOf(i % 256), k)
      {
        row[c] := GalExp(ByteOf(i % 256), c);
      }
      assert row[..] == VandermondeMat(rows, cols)[i];
      result := result + [row[..]];
    }
    assert result == VandermondeMat(rows, cols);
    return Ok(result);
  }

  // Any n rows of a Vandermonde matrix with n columns: a kernel vector is a polynomial with
  // n distinct roots.
  lemma VandermondeChoice(n: nat, total: nat, idx: seq<nat>)
    requires total <= 256 && Choice(idx, n, total)
    ensures NoKernel(Select(VandermondeMat(total, n), idx), n)
  {
    hide Pow, ByteOf, Comb, Eval, NonZero;
    var A := Select(VandermondeMat(total, n), idx);
    forall x: Vec | |x| == n && Kills(A, x)
      ensures !NonZero(x)
    {
      var ts := seq(n, i requires 0 <= i < n => ByteOf(idx[i]));
      forall i | 0 <= i < n
        ensures Eval(x, ts[i]) == 0
      {
        PowersEval(A[i], x, ts[i], n);
        CombIsCombTo(A[i], Column(x), 1);
        assert x[..n] == x;
      }
      forall i, j | 0 <= i < j < n
        ensures ts[i] != ts[j]
      {
        IntOfByteOf(idx[i]);
        IntOfByteOf(idx[j]);
      }
      ManyRoots(x, ts);
    }
  }

  // Multiplying by an invertible matrix on the right keeps the kernel trivial.
  lemma NoKernelMul(A: Mat, B: Mat, C: Mat, n: nat)
    requires IsMat(A, |A|, n) && NoKernel(A, n) && IsInverse(C, B, n)
    ensures NoKernel(MatMul(A, B, n), n)
  {
    hide Comb, IsMat;
    forall x: Vec | |x| == n && Kills(MatMul(A, B, n), x)
      ensures !NonZero(x)
    {
      NoKernelMulAt(A, B, C, n, x);
    }
  }

  lemma NoKernelMulAt(A: Mat, B: Mat, C: Mat, n: nat, x: Vec)
    requires IsMat(A, |A|, n) && NoKernel(A, n) && IsInverse(C, B, n)
    requires |x| == n && Kills(MatMul(A, B, n), x)
    ensures !NonZero(x)
  {
    hide Comb;
    var X := Column(x);
    var Y := MatMul(B, X, 1);
    var y := seq(n, i requires 0 <= i < n => Y[i][0]);
    forall i | 0 <= i < n
      ensures Y[i] == Column(y)[i]
    {
      assert Y[i] == [Y[i][0]];
    }
    assert Y == Column(y);
    forall i | 0 <= i < |A|
      ensures Comb(A[i], Column(y), 1) == [0]
    {
      CombAssoc(A[i], B, X, 1);
      assert MatMul(A, B, n)[i] == Comb(A[i], B, n);
    }
    assert Kills(A, y) && !NonZero(y);
    assert forall i :: 0 <= i < n ==> Y[i] == Zeros(1);
    MatMulAssoc(C, B, X, 1);
    MatMulId(X, n, 1);
    forall i | 0 <= i < n
      ensures x[i] == 0
    {
      CombToZeroRows(C[i], Y, 1, n);
      CombIsCombTo(C[i], Y, 1);
      assert X[i] == MatMul(C, Y, 1)[i];
    }
  }

  function FirstRows(n: nat): (idx: seq<nat>)
    ensures |idx| == n && forall i :: 0 <= i < n ==> idx[i] == i
  {
    seq(n, i requires 0 <= i => i)
  }

  // The Vandermonde matrix times the inverse of its top.
  ghost predicate IsBuilt(M: Mat, n: nat, total: nat)
    requires n <= total <= 256
  {
    exists TI: Mat ::
      IsInverse(Select(VandermondeMat(total, n), FirstRows(n)), TI, n) && M == MatMul(VandermondeMat(total, n), TI, n)
  }

  /** There is one such matrix: encoders made at different times agree. */
  lemma BuiltOnce(M: Mat, N: Mat, n: nat, total: nat)
    requires n <= total <= 256 && IsBuilt(M, n, total) && IsBuilt(N, n, total)
    ensures M == N
  {
    hide VandermondeMat, Comb, Select;
    var T := Select(VandermondeMat(total, n), FirstRows(n));
    var A: Mat :| IsInverse(T, A, n) && M == MatMul(VandermondeMat(total, n), A, n);
    var B: Mat :| IsInverse(T, B, n) && N == MatMul(VandermondeMat(total, n), B, n);
    MatMulAssoc(A, T, B, n);
    MatMulId(A, n, n);
    MatMulId(B, n, n);
  }

  /** buildMatrix: never singular for the shard counts New admits, and recoverable. */
  method BuildMatrix(dataShards: int, totalShards: int) returns (r: Result<Mat>)
    requires 0 < dataShards <= totalShards <= 256
    ensures r.Ok? && Recoverable(r.value, dataShards, totalShards) && IsBuilt(r.value, dataShards, totalShards)
  {
    hide NoKernel, Kills, NonZero, VandermondeMat, Comb;
    var vm := Vandermonde(totalShards, dataShards);
    var V := vm.value;
    var top := SubMatrix(V, 0, 0, dataShards, dataShards);
    ghost var T := Select(V, FirstRows(dataShards));
    forall i | 0 <= i < dataShards
      ensures top.value[i] == T[i]
    {
      assert V[i][0..dataShards] == V[i];
    }
    assert top.value == T;
    VandermondeChoice(dataShards, totalShards, FirstRows(dataShards));
    var topInv := Invert(top.value);
    NoKernelNoWitness(T, dataShards);
    if topInv.Err? {
      return topInv;
    }
    r := Multiply(V, topInv.value);
    BuiltIsRecoverable(V, T, topInv.value, r.value, dataShards, totalShards);
  }

  lemma NoKernelNoWitness(A: Mat, n: nat)
    requires NoKernel(A, n)
    ensures !exists x: Vec :: |x| == n && NonZero(x) && Kills(A, x)
  {}

  lemma BuiltIsRecoverable(V: Mat, T: Mat, TI: Mat, M: Mat, n: nat, total: nat)
    requires 0 < n <= total <= 256 && V == VandermondeMat(total, n)
    requires T == Select(V, FirstRows(n)) && IsInverse(T, TI, n) && M == MatMul(V, TI, n)
    ensures Recoverable(M, n, total)
  {
    hide NoKernel, VandermondeMat, Comb;
    forall i | 0 <= i < n
      ensures M[i] == Unit(n, i)
    {
      assert M[i] == MatMul(T, TI, n)[i] == Id(n)[i];
    }
    forall idx: seq<nat> | Choice(idx, n, total)
      ensures NoKernel(Select(M, idx), n)
    {
      var A := Select(V, idx);
      VandermondeChoice(n, total, idx);
      NoKernelMul(A, TI, T, n);
      assert Select(M, idx) == MatMul(A, TI, n);
    }
  }
}
