/** The matrix for a single parity shard that is the xor of the data shards. */
module Xor {
  import opened Wrappers
  import opened Galois
  import opened LinearAlgebra
  import opened Elimination
  import opened Generator
  import opened Shards

  function Ones(n: nat): (r: Vec)
    ensures |r| == n
  {
    seq(n, _ => 1)
  }

  function XorMat(data: nat): (r: Mat)
    ensures IsMat(r, data + 1, data)
  {
    Id(data) + [Ones(data)]
  }

  /** buildXorMatrix. */
  method BuildXorMatrix(dataShards: int, totalShards: int) returns (r: Result<Mat>)
    ensures dataShards + 1 != totalShards ==> r == Err(InternalError)
    ensures dataShards + 1 == totalShards && totalShards <= 0 ==> r == Err(InvalidRowSize)
    ensures dataShards == 0 && totalShards == 1 ==> r == Err(InvalidColSize)
    ensures 0 < dataShards && dataShards + 1 == totalShards ==>
      r == Ok(XorMat(dataShards)) && Recoverable(r.value, dataShards, totalShards)
  {
    hide Recoverable;
    if dataShards + 1 != totalShards {
      return Err(InternalError);
    }
    if totalShards <= 0 {
      return Err(InvalidRowSize);
    }
    if dataShards <= 0 {
      return Err(InvalidColSize);
    }
    var result: Mat := [];
    for i := 0 to dataShards + 1
      invariant |result| == i && forall k :: 0 <= k < i ==> result[k] == XorMat(dataShards)[k]
    {
      var row := new byte[dataShards](_ => 0);
      if i < dataShards {
        row[i] := 1;
        assert row[..] == Unit(dataShards, i);
      } else {
        for c := 0 to dataShards
          invariant forall k :: 0 <= k < c ==> row[k] == 1
        {
          row[c] := 1;
        }
        assert row[..] == Ones(dataShards);
      }
      result := result + [row[..]];
    }
    assert result == XorMat(dataShards);
    XorRecoverable(dataShards);
    return Ok(result);
  }

  // All rows but one are chosen.
  lemma Gap(idx: seq<nat>, n: nat) returns (m: nat)
    requires Choice(idx, n, n + 1)
    ensures m <= n && forall i :: 0 <= i < n ==> idx[i] == if i < m then i else i + 1
  {
    forall i | 0 <= i < n
      ensures i <= idx[i] <= i + 1
    {
      AtLeast(idx, i);
      AtMost(idx, n, i);
    }
    m := 0;
    while m < n && idx[m] == m
      invariant m <= n && forall i :: 0 <= i < m ==> idx[i] == i
    {
      m := m + 1;
    }
    forall i | m <= i < n
      ensures idx[i] == i + 1
    {
      assert idx[m] == m + 1;
      Further(idx, m, i);
    }
  }

  lemma {:induction false} AtLeast(idx: seq<nat>, i: nat)
    requires i < |idx| && forall j, k :: 0 <= j < k < |idx| ==> idx[j] < idx[k]
    ensures i <= idx[i]
  {
    if i > 0 {
      AtLeast(idx, i - 1);
    }
  }

  lemma {:induction false} AtMost(idx: seq<nat>, n: nat, i: nat)
    requires i < n == |idx| && (forall j, k :: 0 <= j < k < |idx| ==> idx[j] < idx[k]) &&
      forall j :: 0 <= j < n ==> idx[j] <= n
    ensures idx[i] <= i + 1
    decreases n - i
  {
    if i + 1 < n {
      AtMost(idx, n, i + 1);
    }
  }

  lemma {:induction false} Further(idx: seq<nat>, m: nat, i: nat)
    requires m <= i < |idx| && forall j, k :: 0 <= j < k < |idx| ==> idx[j] < idx[k]
    ensures idx[i] >= idx[m] + (i - m)
    decreases i
  {
    if m < i {
      Further(idx, m, i - 1);
    }
  }

  // The sum of a vector that is zero except at m.
  lemma {:induction false} SumOfOne(x: Vec, m: nat, n: nat)
    requires n <= |x| && m < |x| && forall k :: 0 <= k < |x| && k != m ==> x[k] == 0
    ensures CombTo(Ones(|x|), Column(x), 1, n) == [if m < n then x[m] else 0]
  {
    hide Add, Mul;
    if n > 0 {
      SumOfOne(x, m, n - 1);
      MulOne(x[n - 1]);
      AddZero(x[m]);
      AddComm(x[m], 0);
      AddZero(0);
      assert VScale(1, [x[n - 1]]) == [x[n - 1]];
      assert VAdd([if m < n - 1 then x[m] else 0], [x[n - 1]]) == [Add(if m < n - 1 then x[m] else 0, x[n - 1])];
    }
  }

  /** Any choice of as many rows as data shards kills only zero. */
  lemma XorChoice(data: nat, idx: seq<nat>, x: Vec)
    requires 0 < data && Choice(idx, data, data + 1) && |x| == data && Kills(Select(XorMat(data), idx), x)
    ensures !NonZero(x)
  {
    hide Comb;
    var m := Gap(idx, data);
    forall c | 0 <= c < data && c != m
      ensures x[c] == 0
    {
      var i := if c < m then c else c - 1;
      assert idx[i] == c && Select(XorMat(data), idx)[i] == XorMat(data)[c] == Unit(data, c);
      CombUnit(data, c, Column(x), 1);
    }
    if m < data {
      assert idx[data - 1] == data && Select(XorMat(data), idx)[data - 1] == Ones(data);
      SumOfOne(x, m, data);
      CombIsCombTo(Ones(data), Column(x), 1);
    }
  }

  lemma XorRecoverable(data: nat)
    requires 0 < data
    ensures Recoverable(XorMat(data), data, data + 1)
  {
    hide Kills, NonZero;
    forall idx: seq<nat> | Choice(idx, data, data + 1)
      ensures NoKernel(Select(XorMat(data), idx), data)
    {
      forall x: Vec | |x| == data && Kills(Select(XorMat(data), idx), x)
        ensures !NonZero(x)
      {
        XorChoice(data, idx, x);
      }
    }
  }

  // The xor of byte j of the first n rows.
  function XorOf(V: Mat, n: nat, j: nat): byte
    requires n <= |V| && forall i :: 0 <= i < n ==> j < |V[i]|
  {
    if n == 0 then 0 else XorOf(V, n - 1, j) ^ V[n - 1][j]
  }

  lemma {:induction false} OnesAreXor(V: Mat, w: nat, data: nat, n: nat, j: nat)
    requires n <= data <= |V| && j < w && forall i :: 0 <= i < data ==> |V[i]| == w
    ensures CombTo(Ones(data), V[..data], w, n)[j] == XorOf(V, n, j)
  {
    hide Mul;
    if n > 0 {
      OnesAreXor(V, w, data, n - 1, j);
      MulOne(V[n - 1][j]);
      assert V[..data][n - 1] == V[n - 1];
    }
  }

  /** The encodings are exactly those whose last row is the xor of the others. */
  ghost predicate CodesXor(m: Mat, data: nat) {
    forall V: Mat, w: nat :: IsMat(V, data + 1, w) ==>
      (Codeword(m, data, V, w) <==> forall j :: 0 <= j < w ==> V[data][j] == XorOf(V, data, j))
  }

  lemma XorCodesXor(data: nat)
    requires data > 0
    ensures CodesXor(XorMat(data), data)
  {
    hide Comb, XorMat;
    forall V: Mat, w: nat | IsMat(V, data + 1, w)
      ensures Codeword(XorMat(data), data, V, w) <==> forall j :: 0 <= j < w ==> V[data][j] == XorOf(V, data, j)
    {
      XorRows(V, data, w);
    }
  }

  lemma XorRows(V: Mat, data: nat, w: nat)
    requires data > 0 && IsMat(V, data + 1, w)
    ensures Codeword(XorMat(data), data, V, w) <==> forall j :: 0 <= j < w ==> V[data][j] == XorOf(V, data, j)
  {
    hide CombTo, XorOf, Ones;
    var m := XorMat(data);
    forall i | 0 <= i < data
      ensures V[i] == Comb(m[i], V[..data], w)
    {
      assert m[i] == Unit(data, i);
      CombUnit(data, i, V[..data], w);
    }
    assert m[data] == Ones(data);
    forall j | 0 <= j < w
      ensures Comb(m[data], V[..data], w)[j] == XorOf(V, data, j)
    {
      OnesAreXor(V, w, data, data, j);
    }
    if forall j :: 0 <= j < w ==> V[data][j] == XorOf(V, data, j) {
      assert V[data] == Comb(m[data], V[..data], w);
    }
  }
}
