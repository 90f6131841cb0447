/** Vectors and matrices over the field, as immutable sequences.

    The one notion everything rests on is `Comb(a, B, w)`, the linear combination of the rows of
    B (each of width w) with the coefficients a.  A product matrix has the combinations as its
    rows, a parity shard is a combination of the data shards, and row operations of the
    elimination are combinations of two rows. */
module LinearAlgebra {
  import opened Galois

  type Vec = seq<byte>
  type Mat = seq<seq<byte>>

  predicate IsMat(A: Mat, rows: nat, cols: nat) {
    |A| == rows && forall i :: 0 <= i < rows ==> |A[i]| == cols
  }

  function Zeros(n: nat): (r: Vec)
    ensures |r| == n
  {
    seq(n, i => 0)
  }

  function VAdd(u: Vec, v: Vec): (r: Vec)
    requires |u| == |v|
    ensures |r| == |u|
  {
    seq(|u|, i requires 0 <= i < |u| => Add(u[i], v[i]))
  }

  function VScale(s: byte, v: Vec): (r: Vec)
    ensures |r| == |v|
  {
    seq(|v|, i requires 0 <= i < |v| => Mul(s, v[i]))
  }

  // Combination of the first n rows.
  function CombTo(a: Vec, B: Mat, w: nat, n: nat): (r: Vec)
    requires n <= |a| && n <= |B|
    requires forall i :: 0 <= i < n ==> |B[i]| == w
    ensures |r| == w
    decreases n
  {
    if n == 0 then Zeros(w) else VAdd(CombTo(a, B, w, n - 1), VScale(a[n - 1], B[n - 1]))
  }

  function Comb(a: Vec, B: Mat, w: nat): (r: Vec)
    requires IsMat(B, |a|, w)
    ensures |r| == w
  {
    CombTo(a, B, w, |a|)
  }

  function MatMul(A: Mat, B: Mat, w: nat): (r: Mat)
    requires IsMat(A, |A|, |B|) && IsMat(B, |B|, w)
    ensures IsMat(r, |A|, w)
  {
    seq(|A|, i requires 0 <= i < |A| => Comb(A[i], B, w))
  }

  function Unit(n: nat, i: nat): (r: Vec)
    ensures |r| == n
  {
    seq(n, j => if j == i then 1 else 0)
  }

  function Id(n: nat): (r: Mat)
    ensures IsMat(r, n, n)
  {
    seq(n, i requires 0 <= i => Unit(n, i))
  }

  // ---- vectors ----

  lemma VAddSwap(a: Vec, b: Vec, c: Vec, d: Vec)
    requires |a| == |b| == |c| == |d|
    ensures VAdd(VAdd(a, b), VAdd(c, d)) == VAdd(VAdd(a, c), VAdd(b, d))
  {
    hide Add;
    forall i | 0 <= i < |a| {
      AddSwap(a[i], b[i], c[i], d[i]);
    }
  }

  lemma VAddComm(u: Vec, v: Vec)
    requires |u| == |v|
    ensures VAdd(u, v) == VAdd(v, u)
  {
    hide Add;
    forall i | 0 <= i < |u| {
      AddComm(u[i], v[i]);
    }
  }

  lemma VAddAssoc(u: Vec, v: Vec, x: Vec)
    requires |u| == |v| == |x|
    ensures VAdd(VAdd(u, v), x) == VAdd(u, VAdd(v, x))
  {
    hide Add;
    forall i | 0 <= i < |u| {
      AddAssoc(u[i], v[i], x[i]);
    }
  }

  lemma VAddZero(u: Vec)
    ensures VAdd(u, Zeros(|u|)) == u && VAdd(Zeros(|u|), u) == u
  {
    hide Add;
    forall i | 0 <= i < |u| {
      AddZero(u[i]);
    }
  }

  lemma VAddCancel(u: Vec, v: Vec)
    requires |u| == |v|
    ensures VAdd(VAdd(u, v), v) == u
    ensures VAdd(u, u) == Zeros(|u|)
  {
    hide Add;
    forall i | 0 <= i < |u|
      ensures Add(Add(u[i], v[i]), v[i]) == u[i] && Add(u[i], u[i]) == 0
    {
      AddCancel(u[i], v[i]);
      AddSelf(u[i]);
    }
  }

  lemma VScaleAdd(s: byte, t: byte, u: Vec, v: Vec)
    requires |u| == |v|
    ensures VScale(s, VAdd(u, v)) == VAdd(VScale(s, u), VScale(s, v))
    ensures VScale(Add(s, t), u) == VAdd(VScale(s, u), VScale(t, u))
  {
    hide Add, Mul;
    forall i | 0 <= i < |u|
      ensures Mul(s, Add(u[i], v[i])) == Add(Mul(s, u[i]), Mul(s, v[i]))
      ensures Mul(Add(s, t), u[i]) == Add(Mul(s, u[i]), Mul(t, u[i]))
    {
      MulAdd(s, u[i], v[i]);
      MulAdd(s, t, u[i]);
    }
  }

  lemma VScaleMul(s: byte, t: byte, u: Vec)
    ensures VScale(Mul(s, t), u) == VScale(s, VScale(t, u))
  {
    hide Mul;
    forall i | 0 <= i < |u| {
      MulAssoc(s, t, u[i]);
    }
  }

  lemma VScaleUnit(s: byte, u: Vec)
    ensures VScale(1, u) == u
    ensures VScale(0, u) == Zeros(|u|)
    ensures VScale(s, Zeros(|u|)) == Zeros(|u|)
  {
    hide Mul;
    MulZero(s);
    forall i | 0 <= i < |u|
      ensures Mul(1, u[i]) == u[i] && Mul(0, u[i]) == 0
    {
      MulOne(u[i]);
      MulZero(u[i]);
    }
  }

  // ---- combinations are linear in the coefficients ----

  lemma {:induction false} CombToAdd(u: Vec, v: Vec, B: Mat, w: nat, n: nat)
    requires |u| == |v| && n <= |u| && IsMat(B, |u|, w)
    ensures CombTo(VAdd(u, v), B, w, n) == VAdd(CombTo(u, B, w, n), CombTo(v, B, w, n))
    decreases n
  {
    hide Add, Mul;
    if n == 0 {
      VAddZero(Zeros(w));
    } else {
      CombToAdd(u, v, B, w, n - 1);
      var b := B[n - 1];
      VScaleAdd(u[n - 1], v[n - 1], b, b);
      VAddSwap(CombTo(u, B, w, n - 1), CombTo(v, B, w, n - 1), VScale(u[n - 1], b), VScale(v[n - 1], b));
    }
  }

  lemma {:induction false} CombToScale(s: byte, u: Vec, B: Mat, w: nat, n: nat)
    requires n <= |u| && IsMat(B, |u|, w)
    ensures CombTo(VScale(s, u), B, w, n) == VScale(s, CombTo(u, B, w, n))
    decreases n
  {
    hide Add, Mul;
    if n == 0 {
      VScaleUnit(s, Zeros(w));
    } else {
      CombToScale(s, u, B, w, n - 1);
      VScaleMul(s, u[n - 1], B[n - 1]);
      VScaleAdd(s, 0, CombTo(u, B, w, n - 1), VScale(u[n - 1], B[n - 1]));
    }
  }

  lemma {:induction false} CombToZero(B: Mat, k: nat, w: nat, n: nat)
    requires n <= k && IsMat(B, k, w)
    ensures CombTo(Zeros(k), B, w, n) == Zeros(w)
    decreases n
  {
    hide Add, Mul;
    if n > 0 {
      CombToZero(B, k, w, n - 1);
      VScaleUnit(0, B[n - 1]);
      VAddZero(Zeros(w));
    }
  }

  // A combination of zero rows is zero.
  lemma {:induction false} CombToZeroRows(a: Vec, B: Mat, w: nat, n: nat)
    requires n <= |a| && IsMat(B, |a|, w)
    requires forall i :: 0 <= i < n ==> B[i] == Zeros(w)
    ensures CombTo(a, B, w, n) == Zeros(w)
    decreases n
  {
    hide Add, Mul;
    if n > 0 {
      CombToZeroRows(a, B, w, n - 1);
      VScaleUnit(a[n - 1], Zeros(w));
      VAddZero(Zeros(w));
    }
  }

  // ---- associativity ----

  lemma {:induction false} CombToAssoc(a: Vec, B: Mat, C: Mat, w: nat, n: nat)
    requires n <= |a| == |B| && IsMat(B, |B|, |C|) && IsMat(C, |C|, w)
    ensures CombTo(CombTo(a, B, |C|, n), C, w, |C|) == CombTo(a, MatMul(B, C, w), w, n)
    decreases n
  {
    hide Add, Mul, VAdd, VScale;
    if n == 0 {
      CombToZero(C, |C|, w, |C|);
    } else {
      CombToAssoc(a, B, C, w, n - 1);
      CombToAdd(CombTo(a, B, |C|, n - 1), VScale(a[n - 1], B[n - 1]), C, w, |C|);
      CombToScale(a[n - 1], B[n - 1], C, w, |C|);
      assert MatMul(B, C, w)[n - 1] == Comb(B[n - 1], C, w);
    }
  }

  lemma CombAssoc(a: Vec, B: Mat, C: Mat, w: nat)
    requires |a| == |B| && IsMat(B, |B|, |C|) && IsMat(C, |C|, w)
    ensures Comb(Comb(a, B, |C|), C, w) == Comb(a, MatMul(B, C, w), w)
  {
    hide Add, Mul, VAdd, VScale, CombTo;
    CombToAssoc(a, B, C, w, |a|);
  }

  lemma MatMulAssoc(A: Mat, B: Mat, C: Mat, w: nat)
    requires IsMat(A, |A|, |B|) && IsMat(B, |B|, |C|) && IsMat(C, |C|, w)
    ensures MatMul(MatMul(A, B, |C|), C, w) == MatMul(A, MatMul(B, C, w), w)
  {
    hide Comb;
    forall i | 0 <= i < |A| {
      CombAssoc(A[i], B, C, w);
    }
  }

  // ---- the identity ----

  lemma {:induction false} CombToUnit(m: nat, i: nat, B: Mat, w: nat, n: nat)
    requires i < m && n <= m && IsMat(B, m, w)
    ensures CombTo(Unit(m, i), B, w, n) == if i < n then B[i] else Zeros(w)
    decreases n
  {
    hide Add, Mul;
    if n > 0 {
      CombToUnit(m, i, B, w, n - 1);
      VScaleUnit(0, B[n - 1]);
      VAddZero(CombTo(Unit(m, i), B, w, n - 1));
      VAddZero(B[n - 1]);
    }
  }

  lemma CombUnit(m: nat, i: nat, B: Mat, w: nat)
    requires i < m && IsMat(B, m, w)
    ensures Comb(Unit(m, i), B, w) == B[i]
  {
    CombToUnit(m, i, B, w, m);
  }

  lemma {:induction false} CombToId(a: Vec, n: nat)
    requires n <= |a|
    ensures CombTo(a, Id(|a|), |a|, n) == seq(|a|, j requires 0 <= j < |a| => if j < n then a[j] else 0)
    decreases n
  {
    hide Add, Mul;
    if n > 0 {
      CombToId(a, n - 1);
      var r := CombTo(a, Id(|a|), |a|, n);
      forall j | 0 <= j < |a|
        ensures r[j] == if j < n then a[j] else 0
      {
        MulOne(a[n - 1]);
        MulZero(a[n - 1]);
        AddZero(a[j]);
        AddZero(a[n - 1]);
        AddZero(0);
      }
    }
  }

  lemma CombId(a: Vec)
    ensures Comb(a, Id(|a|), |a|) == a
  {
    CombToId(a, |a|);
  }

  lemma MatMulId(A: Mat, n: nat, w: nat)
    requires IsMat(A, n, w)
    ensures MatMul(Id(n), A, w) == A
    ensures MatMul(A, Id(w), w) == A
  {
    hide Comb, Unit;
    forall i | 0 <= i < n
      ensures Comb(Id(n)[i], A, w) == A[i] && Comb(A[i], Id(w), w) == A[i]
    {
      CombUnit(n, i, A, w);
      CombId(A[i]);
    }
  }

  // ---- changing one coefficient or one row ----

  lemma {:induction false} CombToCong(a: Vec, B: Mat, a': Vec, B': Mat, w: nat, n: nat)
    requires n <= |a| && n <= |a'| && n <= |B| && n <= |B'|
    requires forall i :: 0 <= i < n ==> a[i] == a'[i] && B[i] == B'[i] && |B[i]| == w
    ensures CombTo(a, B, w, n) == CombTo(a', B', w, n)
    decreases n
  {
    hide VAdd, VScale;
    if n > 0 {
      CombToCong(a, B, a', B', w, n - 1);
    }
  }

  // Replacing row i by r adds a[i] times the difference.
  lemma {:induction false} CombToUpdateRow(a: Vec, B: Mat, i: nat, r: Vec, w: nat, n: nat)
    requires i < n <= |a| && IsMat(B, |a|, w) && |r| == w
    ensures CombTo(a, B[i := r], w, n) == VAdd(CombTo(a, B, w, n), VScale(a[i], VAdd(B[i], r)))
    decreases n
  {
    hide Add, Mul, VAdd, VScale;
    var B' := B[i := r];
    var p := CombTo(a, B, w, n - 1);
    if i == n - 1 {
      CombToCong(a, B', a, B, w, n - 1);
      var s := VScale(a[i], B[i]);
      var t := VScale(a[i], r);
      VScaleAdd(a[i], 0, B[i], r);
      VAddAssoc(p, s, VAdd(s, t));
      VAddAssoc(s, s, t);
      VAddCancel(s, s);
      VAddZero(t);
    } else {
      CombToUpdateRow(a, B, i, r, w, n - 1);
      var d := VScale(a[i], VAdd(B[i], r));
      var l := VScale(a[n - 1], B[n - 1]);
      VAddAssoc(p, d, l);
      VAddComm(d, l);
      VAddAssoc(p, l, d);
    }
  }

  lemma CombUpdateRow(a: Vec, B: Mat, i: nat, r: Vec, w: nat)
    requires i < |a| && IsMat(B, |a|, w) && |r| == w
    ensures Comb(a, B[i := r], w) == VAdd(Comb(a, B, w), VScale(a[i], VAdd(B[i], r)))
  {
    hide VAdd, VScale, CombTo;
    CombToUpdateRow(a, B, i, r, w, |a|);
  }

  // ---- column ranges ----

  // The columns lo..hi of every row.
  function Cols(A: Mat, lo: nat, hi: nat): (r: Mat)
    requires lo <= hi && forall i :: 0 <= i < |A| ==> hi <= |A[i]|
    ensures IsMat(r, |A|, hi - lo)
  {
    seq(|A|, i requires 0 <= i < |A| => A[i][lo..hi])
  }

  lemma {:induction false} CombToCols(a: Vec, B: Mat, w: nat, lo: nat, hi: nat, n: nat)
    requires lo <= hi <= w && n <= |a| && IsMat(B, |a|, w)
    ensures CombTo(a, Cols(B, lo, hi), hi - lo, n) == CombTo(a, B, w, n)[lo..hi]
    decreases n
  {
    hide Add, Mul, VAdd, VScale;
    if n > 0 {
      CombToCols(a, B, w, lo, hi, n - 1);
      ColsOfSum(CombTo(a, B, w, n - 1), a[n - 1], B[n - 1], lo, hi);
    }
  }

  lemma ColsOfSum(u: Vec, s: byte, v: Vec, lo: nat, hi: nat)
    requires |u| == |v| && lo <= hi <= |u|
    ensures VAdd(u, VScale(s, v))[lo..hi] == VAdd(u[lo..hi], VScale(s, v[lo..hi]))
  {
    hide Add, Mul;
  }

  // Combining commutes with cutting out a range of columns.
  lemma CombCols(a: Vec, B: Mat, w: nat, lo: nat, hi: nat)
    requires lo <= hi <= w && IsMat(B, |a|, w)
    ensures Comb(a, Cols(B, lo, hi), hi - lo) == Comb(a, B, w)[lo..hi]
  {
    CombToCols(a, B, w, lo, hi, |a|);
  }

  // ---- spans ----

  // v is a combination of the rows of W.
  ghost predicate InSpan(v: Vec, W: Mat, w: nat)
    requires IsMat(W, |W|, w)
  {
    exists q: Vec :: |q| == |W| && Comb(q, W, w) == v
  }

  lemma SpanRow(W: Mat, w: nat, i: nat)
    requires IsMat(W, |W|, w) && i < |W|
    ensures InSpan(W[i], W, w)
  {
    CombUnit(|W|, i, W, w);
  }

  lemma SpanAdd(u: Vec, v: Vec, W: Mat, w: nat)
    requires IsMat(W, |W|, w) && InSpan(u, W, w) && InSpan(v, W, w)
    ensures |u| == |v| && InSpan(VAdd(u, v), W, w)
  {
    hide Add, Mul, VAdd, VScale, CombTo;
    var p: Vec :| |p| == |W| && Comb(p, W, w) == u;
    var q: Vec :| |q| == |W| && Comb(q, W, w) == v;
    CombToAdd(p, q, W, w, |W|);
    assert Comb(VAdd(p, q), W, w) == VAdd(u, v);
  }

  lemma SpanScale(s: byte, u: Vec, W: Mat, w: nat)
    requires IsMat(W, |W|, w) && InSpan(u, W, w)
    ensures InSpan(VScale(s, u), W, w)
  {
    hide Add, Mul, VAdd, VScale, CombTo;
    var p: Vec :| |p| == |W| && Comb(p, W, w) == u;
    CombToScale(s, p, W, w, |W|);
    assert Comb(VScale(s, p), W, w) == VScale(s, u);
  }

  // If every row of W is in the span of W', so is everything in the span of W.
  lemma SpanTrans(v: Vec, W: Mat, W': Mat, w: nat)
    requires IsMat(W, |W|, w) && IsMat(W', |W'|, w) && InSpan(v, W, w)
    requires forall i :: 0 <= i < |W| ==> InSpan(W[i], W', w)
    ensures InSpan(v, W', w)
  {
    hide Add, Mul, VAdd, VScale, CombTo, Comb;
    var q: Vec :| |q| == |W| && Comb(q, W, w) == v;
    SpanTransTo(q, W, W', w, |W|);
    CombIsCombTo(q, W, w);
  }

  lemma CombIsCombTo(q: Vec, W: Mat, w: nat)
    requires IsMat(W, |q|, w)
    ensures Comb(q, W, w) == CombTo(q, W, w, |q|)
  {}

  lemma {:induction false} SpanTransTo(q: Vec, W: Mat, W': Mat, w: nat, n: nat)
    requires n <= |q| == |W| && IsMat(W, |W|, w) && IsMat(W', |W'|, w)
    requires forall i :: 0 <= i < |W| ==> InSpan(W[i], W', w)
    ensures InSpan(CombTo(q, W, w, n), W', w)
    decreases n
  {
    hide Add, Mul, VAdd, VScale, Comb;
    if n == 0 {
      CombToZero(W', |W'|, w, |W'|);
      CombIsCombTo(Zeros(|W'|), W', w);
    } else {
      SpanTransTo(q, W, W', w, n - 1);
      SpanScale(q[n - 1], W[n - 1], W', w);
      SpanAdd(CombTo(q, W, w, n - 1), VScale(q[n - 1], W[n - 1]), W', w);
    }
  }
}
