/** What the default encoding is, without its matrix: every column of an encoding consists of the values of one
    polynomial, with as many coefficients as there are data shards, at the bytes 0, 1, 2 and so on. */
module Interpolation {
  import opened Galois
  import opened GaloisTables
  import opened LinearAlgebra
  import opened Elimination
  import opened Matrix
  import opened Polynomials
  import opened Generator
  import opened Shards

  // Column j of V consists of the values of a polynomial with n coefficients.
  ghost predicate OnePolynomial(V: Mat, n: nat, j: nat)
    requires |V| <= 256 && forall i :: 0 <= i < |V| ==> j < |V[i]|
  {
    exists p: Vec :: |p| == n && forall i :: 0 <= i < |V| ==> V[i][j] == Eval(p, ByteOf(i))
  }

  // Column j of P as a vector.
  function ColumnOf(P: Mat, j: nat): (p: Vec)
    requires forall c :: 0 <= c < |P| ==> j < |P[c]|
    ensures |p| == |P| && forall c :: 0 <= c < |P| ==> p[c] == P[c][j]
  {
    seq(|P|, c requires 0 <= c < |P| => P[c][j])
  }

  // A row of powers combines the rows of P to the values of its columns.
  lemma PowersCombine(row: Vec, t: byte, P: Mat, w: nat, j: nat)
    requires IsMat(P, |row|, w) && j < w && forall c :: 0 <= c < |row| ==> row[c] == Pow(t, c)
    ensures Comb(row, P, w)[j] == Eval(ColumnOf(P, j), t)
  {
    hide Comb, Eval, Pow;
    var p := ColumnOf(P, j);
    CombCols(row, P, w, j, j + 1);
    forall c | 0 <= c < |P|
      ensures Cols(P, j, j + 1)[c] == Column(p)[c]
    {
      assert P[c][j..j + 1] == [P[c][j]];
    }
    assert Cols(P, j, j + 1) == Column(p);
    PowersEval(row, p, t, |row|);
    CombIsCombTo(row, Column(p), 1);
    assert p[..|row|] == p;
    assert Comb(row, P, w)[j..j + 1] == [Eval(p, t)];
    assert Comb(row, P, w)[j..j + 1][0] == Comb(row, P, w)[j];
  }

  // A Vandermonde matrix times P holds the values of P's columns.
  lemma ValuesOf(P: Mat, n: nat, total: nat, w: nat)
    requires IsMat(P, n, w) && total <= 256
    ensures forall i, j :: 0 <= i < total && 0 <= j < w ==>
      MatMul(VandermondeMat(total, n), P, w)[i][j] == Eval(ColumnOf(P, j), ByteOf(i))
  {
    hide Comb, Eval, Pow, ByteOf;
    forall i, j | 0 <= i < total && 0 <= j < w
      ensures MatMul(VandermondeMat(total, n), P, w)[i][j] == Eval(ColumnOf(P, j), ByteOf(i))
    {
      PowersCombine(VandermondeMat(total, n)[i], ByteOf(i), P, w, j);
    }
  }

  // The top of a product is the product with the top.
  lemma TopOf(V: Mat, P: Mat, n: nat, w: nat)
    requires IsMat(V, |V|, |P|) && IsMat(P, |P|, w) && n <= |V|
    ensures MatMul(V, P, w)[..n] == MatMul(Select(V, FirstRows(n)), P, w)
  {
    hide Comb;
  }

  /** The default encodings are exactly the values of polynomials at the bytes 0 to total - 1. */
  lemma EncodingsAreValues(m: Mat, V: Mat, n: nat, total: nat, w: nat)
    requires 0 < n <= total <= 256 && IsBuilt(m, n, total) && IsMat(V, total, w)
    ensures Codeword(m, n, V, w) <==> forall j :: 0 <= j < w ==> OnePolynomial(V, n, j)
  {
    hide Comb, VandermondeMat, Eval, ByteOf, Select, OnePolynomial;
    var A := VandermondeMat(total, n);
    var T := Select(A, FirstRows(n));
    var TI: Mat :| IsInverse(T, TI, n) && m == MatMul(A, TI, n);
    if Codeword(m, n, V, w) {
      AreValues(A, TI, m, V, n, total, w);
    }
    if forall j :: 0 <= j < w ==> OnePolynomial(V, n, j) {
      AreEncoding(A, T, TI, m, V, n, total, w);
    }
  }

  lemma AreValues(A: Mat, TI: Mat, m: Mat, V: Mat, n: nat, total: nat, w: nat)
    requires 0 < n <= total <= 256 && A == VandermondeMat(total, n) && IsMat(TI, n, n) && m == MatMul(A, TI, n)
    requires Codeword(m, n, V, w) && |V| == total
    ensures forall j :: 0 <= j < w ==> OnePolynomial(V, n, j)
  {
    hide Comb, VandermondeMat, Eval, ByteOf;
    var D := V[..n];
    var P := MatMul(TI, D, w);
    MatMulAssoc(A, TI, D, w);
    assert V == MatMul(m, D, w);
    ValuesOf(P, n, total, w);
    forall j | 0 <= j < w
      ensures OnePolynomial(V, n, j)
    {
      assert |ColumnOf(P, j)| == n;
    }
  }

  // The coefficients of the columns' polynomials, as rows.
  lemma {:induction false} Coefficients(V: Mat, n: nat, w: nat, k: nat) returns (P: Mat)
    requires |V| <= 256 && IsMat(V, |V|, w) && k <= w
    requires forall j :: 0 <= j < w ==> OnePolynomial(V, n, j)
    ensures IsMat(P, n, k)
    ensures forall i, j :: 0 <= i < |V| && 0 <= j < k ==> V[i][j] == Eval(ColumnOf(P, j), ByteOf(i))
    decreases k
  {
    hide Eval, ByteOf;
    if k == 0 {
      P := seq(n, _ => []);
    } else {
      var Q := Coefficients(V, n, w, k - 1);
      assert OnePolynomial(V, n, k - 1);
      var p: Vec :| |p| == n && forall i :: 0 <= i < |V| ==> V[i][k - 1] == Eval(p, ByteOf(i));
      P := seq(n, c requires 0 <= c < n => Q[c] + [p[c]]);
      assert ColumnOf(P, k - 1) == p;
      assert forall j :: 0 <= j < k - 1 ==> ColumnOf(P, j) == ColumnOf(Q, j);
    }
  }

  lemma AreEncoding(A: Mat, T: Mat, TI: Mat, m: Mat, V: Mat, n: nat, total: nat, w: nat)
    requires 0 < n <= total <= 256 && A == VandermondeMat(total, n) && T == Select(A, FirstRows(n))
    requires IsInverse(T, TI, n) && m == MatMul(A, TI, n) && IsMat(V, total, w)
    requires forall j :: 0 <= j < w ==> OnePolynomial(V, n, j)
    ensures Codeword(m, n, V, w)
  {
    hide Comb, VandermondeMat, Eval, ByteOf, Select, OnePolynomial;
    var P := Coefficients(V, n, w, w);
    ValuesOf(P, n, total, w);
    forall i | 0 <= i < total
      ensures V[i] == MatMul(A, P, w)[i]
    {
      forall j | 0 <= j < w
        ensures V[i][j] == MatMul(A, P, w)[i][j]
      {
        assert V[i][j] == Eval(ColumnOf(P, j), ByteOf(i));
      }
    }
    assert V == MatMul(A, P, w);
    var D := V[..n];
    TopOf(A, P, n, w);
    assert D == MatMul(T, P, w);
    MatMulAssoc(TI, T, P, w);
    MatMulId(P, n, w);
    assert P == MatMul(TI, D, w);
    MatMulAssoc(A, TI, D, w);
    assert V == MatMul(m, D, w);
  }

  /** What the encodings of a matrix are, if it is the default one. */
  ghost predicate CodesValues(m: Mat, n: nat, total: nat)
    requires total <= 256
  {
    forall V: Mat, w: nat :: IsMat(V, total, w) ==>
      (Codeword(m, n, V, w) <==> forall j :: 0 <= j < w ==> OnePolynomial(V, n, j))
  }

  lemma BuiltCodesValues(m: Mat, n: nat, total: nat)
    requires 0 < n <= total <= 256 && IsBuilt(m, n, total)
    ensures CodesValues(m, n, total)
  {
    hide IsBuilt, OnePolynomial, Codeword;
    forall V: Mat, w: nat | IsMat(V, total, w)
      ensures Codeword(m, n, V, w) <==> forall j :: 0 <= j < w ==> OnePolynomial(V, n, j)
    {
      EncodingsAreValues(m, V, n, total, w);
    }
  }
}
