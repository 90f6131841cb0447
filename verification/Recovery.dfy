/** Which rows survive, and why the survivors determine everything: the value-level core of
    Reconstruct and of its matrix cache. */
module Recovery {
  import opened Wrappers
  import opened Galois
  import opened LinearAlgebra
  import opened Elimination
  import opened Matrix
  import opened Generator
  import opened InversionTree
  import opened Shards

  // The rows 0..|valid|+|invalid| are divided into valid and invalid ones, both in order.
  ghost predicate Divided(valid: seq<nat>, invalid: seq<nat>, total: nat) {
    && KeyOk(valid, 0, total) && KeyOk(invalid, 0, total)
    && (forall r: nat :: r in valid || r in invalid <==> r < |valid| + |invalid|)
    && (forall r: nat :: r in valid ==> r !in invalid)
  }

  lemma NothingDivided(total: nat)
    ensures Divided([], [], total)
  {}

  lemma ValidOrNot(valid: seq<nat>, invalid: seq<nat>, total: nat, r: nat)
    requires Divided(valid, invalid, total) && r < |valid| + |invalid|
    ensures r in valid || r in invalid
  {}

  lemma DivideNext(valid: seq<nat>, invalid: seq<nat>, r: nat, total: nat)
    requires Divided(valid, invalid, total) && r == |valid| + |invalid| < total
    ensures Divided(valid + [r], invalid, total) && Divided(valid, invalid + [r], total)
  {
    forall i | 0 <= i < |valid|
      ensures valid[i] < r
    {
      assert valid[i] in valid;
    }
    forall i | 0 <= i < |invalid|
      ensures invalid[i] < r
    {
      assert invalid[i] in invalid;
    }
  }

  // Increasing lists with the same members are equal.
  lemma {:induction false} SameMembers(a: seq<nat>, b: seq<nat>, total: nat)
    requires KeyOk(a, 0, total) && KeyOk(b, 0, total) && forall r: nat :: r in a <==> r in b
    ensures a == b
    decreases |a|
  {
    HasMember(b);
    if |a| > 0 {
      assert a[0] in b;
      assert b[0] in a;
      assert a[0] == b[0];
      var a', b' := a[1..], b[1..];
      forall r: nat
        ensures r in a' <==> r in b'
      {
        TailMembers(a, r);
        TailMembers(b, r);
      }
      SameMembers(a', b', total);
      assert a == [a[0]] + a' && b == [b[0]] + b';
    }
  }

  lemma HasMember(a: seq<nat>)
    ensures |a| > 0 ==> exists r: nat :: r in a
  {
    if |a| > 0 {
      assert a[0] in a;
    }
  }

  lemma TailMembers(a: seq<nat>, r: nat)
    requires |a| > 0 && forall i, j :: 0 <= i < j < |a| ==> a[i] < a[j]
    ensures r in a[1..] <==> r in a && r != a[0]
  {}

  // The invalid rows decide which rows are used: the cache key is sufficient.
  lemma KeyDecides(valid: seq<nat>, valid': seq<nat>, invalid: seq<nat>, total: nat)
    requires Divided(valid, invalid, total) && Divided(valid', invalid, total) && |valid| == |valid'|
    ensures valid == valid'
  {
    forall r: nat
      ensures r in valid <==> r in valid'
    {}
    SameMembers(valid, valid', total);
  }

  // A cached matrix inverts the rows its key stands for.
  ghost predicate CacheOk(cached: map<seq<nat>, Mat>, m: Mat, data: nat, total: nat) {
    forall key, valid :: key in cached && Divided(valid, key, total) && |valid| == data ==>
      (forall i :: 0 <= i < |valid| ==> valid[i] < |m|) && IsInverse(Select(m, valid), cached[key], data)
  }

  lemma CacheStart(m: Mat, data: nat, total: nat)
    requires Recoverable(m, data, total)
    ensures CacheOk(map[[] := Id(data)], m, data, total)
  {
    hide Comb, NoKernel;
    forall valid | Divided(valid, [], total) && |valid| == data
      ensures (forall i :: 0 <= i < |valid| ==> valid[i] < |m|) && IsInverse(Select(m, valid), Id(data), data)
    {
      var first := FirstRows(data);
      forall r: nat
        ensures r in valid <==> r in first
      {
        assert r < data ==> first[r] == r;
      }
      SameMembers(valid, first, total);
      assert Select(m, valid) == Id(data);
      MatMulId(Id(data), data, data);
    }
  }

  lemma CacheInsert(cached: map<seq<nat>, Mat>, m: Mat, data: nat, total: nat, valid: seq<nat>, key: seq<nat>, inv: Mat)
    requires |m| == total && CacheOk(cached, m, data, total) && Divided(valid, key, total) && |valid| == data
    requires IsInverse(Select(m, valid), inv, data)
    ensures CacheOk(cached[key := inv], m, data, total)
  {
    hide IsInverse;
    forall k, v | k in cached[key := inv] && Divided(v, k, total) && |v| == data
      ensures (forall i :: 0 <= i < |v| ==> v[i] < |m|) && IsInverse(Select(m, v), cached[key := inv][k], data)
    {
      if k == key {
        KeyDecides(v, valid, key, total);
      }
    }
  }

  /** Decoding: the inverse of the chosen rows applied to the chosen shards is the only data
      that produces those shards. */
  lemma DecodeUnique(m: Mat, valid: seq<nat>, inv: Mat, data: nat, D: Mat, chosen: Mat, w: nat)
    requires (forall i :: 0 <= i < |valid| ==> valid[i] < |m|) && |valid| == data
    requires IsInverse(Select(m, valid), inv, data) && IsMat(D, data, w) && IsMat(chosen, data, w)
    ensures MatMul(Select(m, valid), D, w) == chosen <==> D == MatMul(inv, chosen, w)
  {
    hide Comb;
    var A := Select(m, valid);
    if MatMul(A, D, w) == chosen {
      MatMulAssoc(inv, A, D, w);
      MatMulId(D, data, w);
    }
    if D == MatMul(inv, chosen, w) {
      MatMulAssoc(A, inv, chosen, w);
      MatMulId(chosen, data, w);
    }
  }

  lemma {:induction false} CombColumnAdd(a: Vec, u: Vec, v: Vec, n: nat)
    requires n <= |a| == |u| == |v|
    ensures CombTo(a, Column(VAdd(u, v)), 1, n) == VAdd(CombTo(a, Column(u), 1, n), CombTo(a, Column(v), 1, n))
    decreases n
  {
    hide Add, Mul;
    if n == 0 {
      AddZero(0);
    } else {
      CombColumnAdd(a, u, v, n - 1);
      VScaleAdd(a[n - 1], 0, [u[n - 1]], [v[n - 1]]);
      assert VAdd([u[n - 1]], [v[n - 1]]) == [VAdd(u, v)[n - 1]];
      VAddSwap(CombTo(a, Column(u), 1, n - 1), CombTo(a, Column(v), 1, n - 1),
               VScale(a[n - 1], [u[n - 1]]), VScale(a[n - 1], [v[n - 1]]));
    }
  }

  function ColumnOf(D: Mat, w: nat, j: nat): (r: Vec)
    requires IsMat(D, |D|, w) && j < w
    ensures |r| == |D|
  {
    seq(|D|, i requires 0 <= i < |D| => D[i][j])
  }

  // Column j of a product is the product with column j.
  lemma CombColumn(a: Vec, D: Mat, w: nat, j: nat)
    requires IsMat(D, |a|, w) && j < w
    ensures Comb(a, Column(ColumnOf(D, w, j)), 1) == [Comb(a, D, w)[j]]
  {
    hide Comb;
    CombCols(a, D, w, j, j + 1);
    forall i | 0 <= i < |a|
      ensures Cols(D, j, j + 1)[i] == Column(ColumnOf(D, w, j))[i]
    {
      assert D[i][j..j + 1] == [D[i][j]];
    }
    assert Cols(D, j, j + 1) == Column(ColumnOf(D, w, j));
  }

  /** Two codewords that agree on as many rows as there are data shards are the same: no pattern
      of at most `parity` erasures confuses two files. */
  lemma AgreeingCodewords(m: Mat, data: nat, total: nat, valid: seq<nat>, u: Mat, v: Mat, w: nat)
    requires Recoverable(m, data, total) && Choice(valid, data, total)
    requires Codeword(m, data, u, w) && Codeword(m, data, v, w)
    requires forall i :: 0 <= i < data ==> u[valid[i]] == v[valid[i]]
    ensures u == v
  {
    hide Comb;
    var A, D, E := Select(m, valid), u[..data], v[..data];
    forall i, j | 0 <= i < data && 0 <= j < w
      ensures D[i][j] == E[i][j]
    {
      SameColumn(A, D, E, data, w, j);
      assert ColumnOf(D, w, j)[i] == ColumnOf(E, w, j)[i];
    }
    forall i | 0 <= i < data
      ensures D[i] == E[i]
    {}
    assert D == E;
    forall i | 0 <= i < total
      ensures u[i] == v[i]
    {}
  }

  lemma SameColumn(A: Mat, D: Mat, E: Mat, n: nat, w: nat, j: nat)
    requires IsMat(A, n, n) && IsMat(D, n, w) && IsMat(E, n, w) && NoKernel(A, n) && j < w
    requires forall i :: 0 <= i < n ==> Comb(A[i], D, w) == Comb(A[i], E, w)
    ensures ColumnOf(D, w, j) == ColumnOf(E, w, j)
  {
    hide Comb, Add;
    var d, e := ColumnOf(D, w, j), ColumnOf(E, w, j);
    var x := VAdd(d, e);
    forall i | 0 <= i < n
      ensures Comb(A[i], Column(x), 1) == [0]
    {
      CombColumn(A[i], D, w, j);
      CombColumn(A[i], E, w, j);
      CombColumnAdd(A[i], d, e, n);
      CombIsCombTo(A[i], Column(x), 1);
      CombIsCombTo(A[i], Column(d), 1);
      CombIsCombTo(A[i], Column(e), 1);
      AddSelf(Comb(A[i], D, w)[j]);
    }
    assert Kills(A, x);
    forall i | 0 <= i < n
      ensures d[i] == e[i]
    {
      AddCancel(d[i], e[i]);
      assert x[i] == 0;
    }
  }

  /** Any choice of as many rows as there are data shards has an inverse, and elimination finds it: the
      alternative is a kernel vector. */
  method InvertChoice(sub: Mat, ghost m: Mat, data: nat, ghost total: nat, ghost valid: seq<nat>)
    returns (r: Result<Mat>)
    requires Recoverable(m, data, total) && Choice(valid, data, total) && sub == Select(m, valid)
    ensures r.Ok? && IsInverse(sub, r.value, data)
  {
    hide Kills, NonZero, IsInverse, Comb;
    assert NoKernel(sub, data);
    r := Invert(sub);
  }
}
