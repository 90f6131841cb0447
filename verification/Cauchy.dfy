/** The Cauchy option: identity on top, and 1/(r - c) below.  A kernel vector gives a sum of simple
    fractions with too many zeros; eliminating one pole and one zero at a time shows it is zero. */
module Cauchy {
  import opened Wrappers
  import opened Galois
  import opened GaloisTables
  import opened LinearAlgebra
  import opened Elimination
  import opened Generator

  // sum over the first n columns of y[j] / (t - us[j])
  function Fractions(us: seq<byte>, y: Vec, t: byte, n: nat): byte
    requires n <= |us| == |y|
    decreases n
  {
    if n == 0 then 0 else Add(Fractions(us, y, t, n - 1), Mul(Inv(Add(t, us[n - 1])), y[n - 1]))
  }

  function Sum(us: seq<byte>, y: Vec, t: byte): byte
    requires |us| == |y|
  {
    Fractions(us, y, t, |us|)
  }

  // The coefficient of one pole after removing the pole c0 and the zero r0.
  function Reweight(c: byte, c0: byte, r0: byte, y: byte): byte {
    Mul(y, Mul(Add(c, c0), Inv(Add(r0, c))))
  }

  // (t + c0)/(t + r0) and (r0 + c0)/(t + r0)
  function Alpha(t: byte, c0: byte, r0: byte): byte { Mul(Add(t, c0), Inv(Add(t, r0))) }
  function Beta(t: byte, c0: byte, r0: byte): byte { Mul(Add(r0, c0), Inv(Add(t, r0))) }

  lemma Telescope(a: byte, b: byte, c: byte)
    ensures Add(Add(a, b), Add(c, b)) == Add(a, c)
  {
    hide *;
    AddSwap(a, b, c, b);
    AddSelf(b);
    AddZero(Add(a, c));
  }

  // (t + c0) u == 1 + (c + c0) u when u = 1/(t + c)
  lemma ShiftNumerator(t: byte, c: byte, c0: byte)
    requires t != c
    ensures var u := Inv(Add(t, c)); Mul(Add(t, c0), u) == Add(1, Mul(Add(c, c0), u))
  {
    hide *;
    var u := Inv(Add(t, c));
    AddCancel(t, c);
    MulInv(Add(t, c));
    AddComm(c, c0);
    Telescope(t, c, c0);
    MulAdd(Add(t, c), Add(c0, c), u);
  }

  // The partial fraction identity, cleared of y:
  // (c + c0) u v (t + r0) == (t + c0) u + (r0 + c0) v
  lemma PartialFraction(t: byte, c: byte, c0: byte, r0: byte)
    requires t != c && r0 != c
    ensures var u, v := Inv(Add(t, c)), Inv(Add(r0, c));
            Mul(Mul(Mul(Add(c, c0), v), u), Add(t, r0)) == Add(Mul(Add(t, c0), u), Mul(Add(r0, c0), v))
  {
    hide *;
    var u, v, d := Inv(Add(t, c)), Inv(Add(r0, c)), Add(c, c0);
    ShiftNumerator(t, c, c0);
    ShiftNumerator(r0, c, c0);
    AddSwap(1, Mul(d, u), 1, Mul(d, v));
    AddSelf(1);
    AddZero(Add(Mul(d, u), Mul(d, v)));
    assert Add(Mul(Add(t, c0), u), Mul(Add(r0, c0), v)) == Add(Mul(d, u), Mul(d, v));
    AddCancel(t, c);
    AddCancel(r0, c);
    MulInv(Add(t, c));
    MulInv(Add(r0, c));
    Telescope(t, c, r0);
    var du, dv := Mul(d, u), Mul(d, v);
    MulAdd(Mul(dv, u), Add(t, c), Add(r0, c));
    MulAssoc(dv, u, Add(t, c));
    MulOne(dv);
    MulAssoc(dv, u, Add(r0, c));
    MulComm(u, Add(r0, c));
    MulAssoc(dv, Add(r0, c), u);
    MulAssoc(d, v, Add(r0, c));
    MulOne(d);
    AddComm(du, dv);
  }

  lemma TermSplit(t: byte, c: byte, c0: byte, r0: byte, y: byte)
    requires t != c && r0 != c && t != r0
    ensures Mul(Inv(Add(t, c)), Reweight(c, c0, r0, y))
         == Add(Mul(Alpha(t, c0, r0), Mul(Inv(Add(t, c)), y)), Mul(Beta(t, c0, r0), Mul(Inv(Add(r0, c)), y)))
  {
    hide Add, Mul, Inv;
    var u, v, w := Inv(Add(t, c)), Inv(Add(r0, c)), Inv(Add(t, r0));
    var p, q := Add(t, c0), Add(r0, c0);
    var k := Mul(Add(c, c0), v);
    PartialFraction(t, c, c0, r0);
    AddCancel(t, r0);
    MulInv(Add(t, r0));
    // k u == (p u + q v) w
    MulAssoc(Mul(k, u), Add(t, r0), w);
    MulOne(Mul(k, u));
    assert Mul(k, u) == Mul(Add(Mul(p, u), Mul(q, v)), w);
    MulAdd(Mul(p, u), Mul(q, v), w);
    // move y and w into place
    Regroup(p, u, w, y);
    Regroup(q, v, w, y);
    MulComm(y, k);
    MulAssoc(u, k, y);
    MulComm(u, k);
    MulAdd(Mul(Mul(p, u), w), Mul(Mul(q, v), w), y);
  }

  lemma Regroup(p: byte, u: byte, w: byte, y: byte)
    ensures Mul(Mul(Mul(p, u), w), y) == Mul(Mul(p, w), Mul(u, y))
  {
    hide *;
    MulAssoc(p, u, w);
    MulComm(u, w);
    MulAssoc(p, w, u);
    MulAssoc(Mul(p, w), u, y);
  }

  lemma {:induction false} SumSplit(us: seq<byte>, y: Vec, z: Vec, t: byte, c0: byte, r0: byte, n: nat)
    requires n <= |us| == |y| == |z| && t != r0
    requires forall j :: 0 <= j < |us| ==> us[j] != t && us[j] != r0 && z[j] == Reweight(us[j], c0, r0, y[j])
    ensures Fractions(us, z, t, n)
         == Add(Mul(Alpha(t, c0, r0), Fractions(us, y, t, n)), Mul(Beta(t, c0, r0), Fractions(us, y, r0, n)))
    decreases n
  {
    hide Add, Mul, Inv, Alpha, Beta, Reweight;
    var a, b := Alpha(t, c0, r0), Beta(t, c0, r0);
    if n == 0 {
      MulZero(a);
      MulZero(b);
      AddZero(0);
    } else {
      SumSplit(us, y, z, t, c0, r0, n - 1);
      TermSplit(t, us[n - 1], c0, r0, y[n - 1]);
      var f, g := Fractions(us, y, t, n - 1), Fractions(us, y, r0, n - 1);
      var m, k := Mul(Inv(Add(t, us[n - 1])), y[n - 1]), Mul(Inv(Add(r0, us[n - 1])), y[n - 1]);
      MulAdd(a, f, m);
      MulAdd(b, g, k);
      AddSwap(Mul(a, f), Mul(b, g), Mul(a, m), Mul(b, k));
    }
  }

  lemma {:induction false} SumSingle(us: seq<byte>, y: Vec, t: byte, j: nat, n: nat)
    requires n <= |us| == |y| && j < |us|
    requires forall k :: 0 <= k < |us| && k != j ==> y[k] == 0
    ensures Fractions(us, y, t, n) == if j < n then Mul(Inv(Add(t, us[j])), y[j]) else 0
    decreases n
  {
    hide Add, Mul, Inv;
    if n > 0 {
      SumSingle(us, y, t, j, n - 1);
      MulZero(Inv(Add(t, us[n - 1])));
      AddZero(Fractions(us, y, t, n - 1));
      AddZero(Mul(Inv(Add(t, us[n - 1])), y[n - 1]));
    }
  }

  // Poles us, known zero coefficients, zeros rs of the sum: enough of them force y to be zero.
  lemma {:induction false} EnoughZeros(us: seq<byte>, y: Vec, known: set<nat>, rs: seq<byte>)
    requires |us| == |y|
    requires forall i, j :: 0 <= i < j < |us| ==> us[i] != us[j]
    requires forall i, j :: 0 <= i < j < |rs| ==> rs[i] != rs[j]
    requires forall i, j :: 0 <= i < |us| && 0 <= j < |rs| ==> us[i] != rs[j]
    requires forall k :: k in known ==> k < |us| && y[k] == 0
    requires |known| + |rs| >= |us|
    requires forall i :: 0 <= i < |rs| ==> Sum(us, y, rs[i]) == 0
    ensures !NonZero(y)
    decreases |rs|
  {
    hide Add, Mul, Inv, Fractions, Alpha, Beta;
    var all := Below(|us|);
    if known == all {
      return;
    }
    assert known < all;
    SubsetSmaller(known, all);
    var j0: nat :| j0 in all && j0 !in known;
    var r0, c0 := rs[0], us[j0];
    var z := seq(|us|, j requires 0 <= j < |us| => Reweight(us[j], c0, r0, y[j]));
    ReweightZero(us, y, z, j0, r0);
    forall i | 0 <= i < |rs[1..]|
      ensures Sum(us, z, rs[1..][i]) == 0
    {
      var t := rs[i + 1];
      SumSplit(us, y, z, t, c0, r0, |us|);
      MulZero(Alpha(t, c0, r0));
      MulZero(Beta(t, c0, r0));
      AddZero(0);
    }
    EnoughZeros(us, z, known + {j0}, rs[1..]);
    forall k | 0 <= k < |us| && k != j0
      ensures y[k] == 0
    {
      assert z[k] == 0;
      ReweightNonZero(us[k], c0, r0, y[k]);
    }
    SumSingle(us, y, r0, j0, |us|);
    AddCancel(r0, c0);
    MulInv(Add(r0, c0));
    NoZeroDivisors(Inv(Add(r0, c0)), y[j0]);
  }

  lemma SubsetSmaller(a: set<nat>, b: set<nat>)
    requires a < b
    ensures |a| < |b|
  {
    assert b == a + (b - a);
    assert |b| == |a| + |b - a|;
  }

  lemma ReweightZero(us: seq<byte>, y: Vec, z: Vec, j0: nat, r0: byte)
    requires |us| == |y| == |z| && j0 < |us|
    requires forall j :: 0 <= j < |us| ==> z[j] == Reweight(us[j], us[j0], r0, y[j])
    ensures z[j0] == 0 && forall k :: 0 <= k < |us| && y[k] == 0 ==> z[k] == 0
  {
    hide Add, Mul, Inv;
    var c := us[j0];
    AddSelf(c);
    MulZero(Inv(Add(r0, c)));
    MulZero(y[j0]);
    forall k | 0 <= k < |us| && y[k] == 0
      ensures z[k] == 0
    {
      MulZero(Mul(Add(us[k], us[j0]), Inv(Add(r0, us[k]))));
    }
  }

  lemma ReweightNonZero(c: byte, c0: byte, r0: byte, y: byte)
    requires c != c0 && c != r0 && Reweight(c, c0, r0, y) == 0
    ensures y == 0
  {
    hide Add, Mul, Inv;
    AddCancel(c, c0);
    AddCancel(r0, c);
    MulInv(Add(r0, c));
    NoZeroDivisors(Add(c, c0), Inv(Add(r0, c)));
    NoZeroDivisors(y, Mul(Add(c, c0), Inv(Add(r0, c))));
  }

  // ---- the matrix ----

  function CauchyMat(data: nat, total: nat): (r: Mat)
    requires data <= total <= 256
    ensures IsMat(r, total, data)
  {
    seq(total, r requires 0 <= r < total => CauchyRow(data, r))
  }

  function CauchyRow(data: nat, r: nat): (row: Vec)
    requires data <= 256 && r < 256
    ensures |row| == data
  {
    if r < data then Unit(data, r)
    else seq(data, c requires 0 <= c < data => Inv(Add(ByteOf(r), ByteOf(c))))
  }

  // The table of inverses is never read at 0: no coefficient is the placeholder.
  lemma CauchyEntryNonZero(data: nat, total: nat, r: nat, c: nat)
    requires c < data <= r < total <= 256
    ensures Add(ByteOf(r), ByteOf(c)) != 0
    ensures Mul(Add(ByteOf(r), ByteOf(c)), CauchyMat(data, total)[r][c]) == 1
  {
    hide Add, Mul, Inv, ByteOf;
    IntOfByteOf(r);
    IntOfByteOf(c);
    AddCancel(ByteOf(r), ByteOf(c));
    MulInv(Add(ByteOf(r), ByteOf(c)));
  }

  // Every parity coefficient is the inverse of the sum of its row and its column.
  ghost predicate InvertsSums(m: Mat, data: nat, total: nat)
    requires IsMat(m, total, data) && total <= 256
  {
    forall i, c :: 0 <= c < data <= i < total ==> Mul(m[i][c], Add(ByteOf(i), ByteOf(c))) == 1
  }

  lemma CauchyInvertsSums(data: nat, total: nat)
    requires data <= total <= 256
    ensures InvertsSums(CauchyMat(data, total), data, total)
  {
    hide Add, Mul, Inv, ByteOf, CauchyMat;
    forall i, c | 0 <= c < data <= i < total
      ensures Mul(CauchyMat(data, total)[i][c], Add(ByteOf(i), ByteOf(c))) == 1
    {
      CauchyEntryNonZero(data, total, i, c);
      MulComm(CauchyMat(data, total)[i][c], Add(ByteOf(i), ByteOf(c)));
    }
  }

  method BuildMatrixCauchy(dataShards: int, totalShards: int) returns (r: Result<Mat>)
    requires totalShards <= 256 && (0 < dataShards && 0 < totalShards ==> dataShards <= totalShards)
    ensures totalShards <= 0 ==> r == Err(InvalidRowSize)
    ensures totalShards > 0 && dataShards <= 0 ==> r == Err(InvalidColSize)
    ensures totalShards > 0 && dataShards > 0 ==>
      r == Ok(CauchyMat(dataShards, totalShards)) && Recoverable(r.value, dataShards, totalShards)
  {
    hide Inv, Add, ByteOf, Recoverable;
    if totalShards <= 0 {
      return Err(InvalidRowSize);
    }
    if dataShards <= 0 {
      return Err(InvalidColSize);
    }
    var result: Mat := [];
    for i := 0 to totalShards
      invariant |result| == i && forall k :: 0 <= k < i ==> result[k] == CauchyMat(dataShards, totalShards)[k]
    {
      var row := new byte[dataShards](_ => 0);
      if i < dataShards {
        row[i] := 1;
      } else {
        for c := 0 to dataShards
          invariant forall k :: 0 <= k < c ==> row[k] == Inv(Add(ByteOf(i), ByteOf(k)))
        {
          row[c] := Inv(Add(ByteOf(i), ByteOf(c)));
        }
      }
      assert row[..] == CauchyRow(dataShards, i);
      result := result + [row[..]];
    }
    assert result == CauchyMat(dataShards, totalShards);
    CauchyRecoverable(dataShards, totalShards);
    return Ok(result);
  }

  lemma {:induction false} RowIsFractions(row: Vec, us: seq<byte>, x: Vec, t: byte, n: nat)
    requires n <= |row| == |us| == |x|
    requires forall c :: 0 <= c < |us| ==> row[c] == Inv(Add(t, us[c]))
    ensures CombTo(row, Column(x), 1, n) == [Fractions(us, x, t, n)]
    decreases n
  {
    hide Add, Mul, Inv;
    if n > 0 {
      RowIsFractions(row, us, x, t, n - 1);
    }
  }

  // Where the increasing indices leave the identity rows.
  lemma {:induction false} Boundary(idx: seq<nat>, data: nat, i: nat) returns (k: nat)
    requires i <= |idx| && forall j :: 0 <= j < i ==> idx[j] < data
    requires forall j, l :: 0 <= j < l < |idx| ==> idx[j] < idx[l]
    ensures k <= |idx| && (forall j :: 0 <= j < k ==> idx[j] < data) && forall j :: k <= j < |idx| ==> idx[j] >= data
    decreases |idx| - i
  {
    if i < |idx| && idx[i] < data {
      k := Boundary(idx, data, i + 1);
    } else {
      k := i;
    }
  }

  function Members(idx: seq<nat>): (r: set<nat>)
    ensures forall k :: k in r <==> k in idx
  {
    set k | k in idx
  }

  lemma {:induction false} MembersSize(idx: seq<nat>)
    requires forall j, l :: 0 <= j < l < |idx| ==> idx[j] < idx[l]
    ensures |Members(idx)| == |idx|
  {
    if |idx| > 0 {
      var init := idx[..|idx| - 1];
      MembersSize(init);
      assert Members(idx) == Members(init) + {idx[|idx| - 1]};
    }
  }

  lemma CauchyChoice(data: nat, total: nat, idx: seq<nat>, x: Vec)
    requires 0 < data <= total <= 256 && Choice(idx, data, total) && |x| == data
    requires Kills(Select(CauchyMat(data, total), idx), x)
    ensures !NonZero(x)
  {
    hide Add, Mul, Inv, ByteOf, Comb, Fractions, NonZero, CauchyRow, Kills, Select, CauchyMat, Members;
    var k := Boundary(idx, data, 0);
    var us := seq(data, c requires 0 <= c < data => ByteOf(c));
    var rs := seq(data - k, i requires 0 <= i < data - k => ByteOf(idx[k + i]));
    var known := Members(idx[..k]);
    RowsKill(data, total, idx, x);
    MembersSize(idx[..k]);
    KnownZeros(data, total, idx[..k], x);
    ParityZeros(data, total, idx, k, x, us, rs);
    BytesDiffer(idx[k..], data, us, rs);
    hide Choice;
    EnoughZeros(us, x, known, rs);
  }

  lemma RowsKill(data: nat, total: nat, idx: seq<nat>, x: Vec)
    requires 0 < data <= total <= 256 && Choice(idx, data, total) && |x| == data &&
      Kills(Select(CauchyMat(data, total), idx), x)
    ensures forall i :: 0 <= i < |idx| ==> Comb(CauchyMat(data, total)[idx[i]], Column(x), 1) == [0]
  {
    hide Comb, CauchyRow;
    forall i | 0 <= i < |idx|
      ensures Comb(CauchyMat(data, total)[idx[i]], Column(x), 1) == [0]
    {
      assert Select(CauchyMat(data, total), idx)[i] == CauchyMat(data, total)[idx[i]];
    }
  }

  // The chosen parity rows say that the sum of fractions is zero there.
  lemma ParityZeros(data: nat, total: nat, idx: seq<nat>, k: nat, x: Vec, us: seq<byte>, rs: seq<byte>)
    requires 0 < data <= total <= 256 && |x| == data == |us| && (forall c :: 0 <= c < data ==> us[c] == ByteOf(c))
    requires k <= |idx| && |rs| == |idx| - k &&
      forall i :: k <= i < |idx| ==> data <= idx[i] < total && rs[i - k] == ByteOf(idx[i])
    requires forall i :: 0 <= i < |idx| ==> idx[i] < total && Comb(CauchyMat(data, total)[idx[i]], Column(x), 1) == [0]
    ensures forall i :: 0 <= i < |rs| ==> Sum(us, x, rs[i]) == 0
  {
    hide Comb, CauchyRow, ByteOf, Sum;
    forall i | 0 <= i < |rs|
      ensures Sum(us, x, rs[i]) == 0
    {
      ParityRowSum(data, idx[k + i], us, x);
    }
  }

  // The chosen identity rows say that their coordinate is zero.
  lemma KnownZeros(data: nat, total: nat, idx: seq<nat>, x: Vec)
    requires 0 < data <= total <= 256 && |x| == data && forall i :: 0 <= i < |idx| ==> idx[i] < data
    requires forall i :: 0 <= i < |idx| ==> Comb(CauchyMat(data, total)[idx[i]], Column(x), 1) == [0]
    ensures forall c :: c in Members(idx) ==> c < data && x[c] == 0
  {
    hide Comb;
    forall i | 0 <= i < |idx|
      ensures x[idx[i]] == 0
    {
      CombUnit(data, idx[i], Column(x), 1);
    }
  }

  lemma ParityRowSum(data: nat, r: nat, us: seq<byte>, x: Vec)
    requires data <= r < 256 && |x| == data == |us| && (forall c :: 0 <= c < data ==> us[c] == ByteOf(c))
    requires Comb(CauchyRow(data, r), Column(x), 1) == [0]
    ensures Sum(us, x, ByteOf(r)) == 0
  {
    hide Comb, Fractions, ByteOf, Inv, Add;
    RowIsFractions(CauchyRow(data, r), us, x, ByteOf(r), data);
    CombIsCombTo(CauchyRow(data, r), Column(x), 1);
  }

  lemma BytesDiffer(rows: seq<nat>, data: nat, us: seq<byte>, rs: seq<byte>)
    requires |us| == data <= 256 && |rs| == |rows|
    requires forall c :: 0 <= c < data ==> us[c] == ByteOf(c)
    requires forall i :: 0 <= i < |rows| ==> data <= rows[i] < 256 && rs[i] == ByteOf(rows[i])
    requires forall i, j :: 0 <= i < j < |rows| ==> rows[i] < rows[j]
    ensures forall i, j :: 0 <= i < j < |us| ==> us[i] != us[j]
    ensures forall i, j :: 0 <= i < j < |rs| ==> rs[i] != rs[j]
    ensures forall i, j :: 0 <= i < |us| && 0 <= j < |rs| ==> us[i] != rs[j]
  {
    hide ByteOf;
    forall c | 0 <= c < data
      ensures IntOf(us[c]) == c
    {
      IntOfByteOf(c);
    }
    forall i | 0 <= i < |rows|
      ensures IntOf(rs[i]) == rows[i]
    {
      IntOfByteOf(rows[i]);
    }
  }

  lemma CauchyRecoverable(data: nat, total: nat)
    requires 0 < data <= total <= 256
    ensures Recoverable(CauchyMat(data, total), data, total)
  {
    hide Kills, NonZero, Inv, Add;
    var M := CauchyMat(data, total);
    forall idx: seq<nat> | Choice(idx, data, total)
      ensures NoKernel(Select(M, idx), data)
    {
      forall x: Vec | |x| == data && Kills(Select(M, idx), x)
        ensures !NonZero(x)
      {
        CauchyChoice(data, total, idx, x);
      }
    }
  }
}
