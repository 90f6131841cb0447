/** Polynomials over the field, as coefficient sequences with the constant term first: a non-zero
    polynomial has fewer distinct roots than coefficients. */
module Polynomials {
  import opened Galois
  import opened GaloisTables
  import opened LinearAlgebra
  import opened Elimination

  function Eval(p: Vec, t: byte): byte {
    if |p| == 0 then 0 else Add(p[0], Mul(t, Eval(p[1..], t)))
  }

  // The quotient of p by (x - a); p has at least one coefficient.
  function Quotient(p: Vec, a: byte): (q: Vec)
    requires |p| > 0
    ensures |q| == |p| - 1
  {
    if |p| == 1 then [] else [Eval(p[1..], a)] + Quotient(p[1..], a)
  }

  // p(t) - p(a) == (t - a) q(t); subtraction is addition
  lemma {:induction false} Division(p: Vec, a: byte, t: byte)
    requires |p| > 0
    ensures Add(Eval(p, t), Eval(p, a)) == Mul(Add(t, a), Eval(Quotient(p, a), t))
    decreases |p|
  {
    hide Add, Mul;
    var p' := p[1..];
    if |p| == 1 {
      MulZero(t);
      MulZero(a);
      MulZero(Add(t, a));
      AddSelf(Eval(p, t));
    } else {
      Division(p', a, t);
      var q' := Quotient(p', a);
      assert Quotient(p, a)[1..] == q';
      var et, ea, eq := Eval(p', t), Eval(p', a), Eval(q', t);
      calc {
        Add(Eval(p, t), Eval(p, a));
        Add(Add(p[0], Mul(t, et)), Add(p[0], Mul(a, ea)));
        { AddSwap(p[0], Mul(t, et), p[0], Mul(a, ea)); AddSelf(p[0]); AddZero(Add(Mul(t, et), Mul(a, ea))); }
        Add(Mul(t, et), Mul(a, ea));
        { DivisionStep(t, a, et, ea, eq); }
        Mul(Add(t, a), Add(ea, Mul(t, eq)));
      }
    }
  }

  // t*et + a*ea == (t + a) * (ea + t*eq), given et + ea == (t + a) * eq
  lemma DivisionStep(t: byte, a: byte, et: byte, ea: byte, eq: byte)
    requires Add(et, ea) == Mul(Add(t, a), eq)
    ensures Add(Mul(t, et), Mul(a, ea)) == Mul(Add(t, a), Add(ea, Mul(t, eq)))
  {
    hide *;
    var s := Add(t, a);
    calc {
      Mul(s, Add(ea, Mul(t, eq)));
      { MulAdd(s, ea, Mul(t, eq)); }
      Add(Mul(s, ea), Mul(s, Mul(t, eq)));
      { MulAssoc(s, t, eq); MulComm(s, t); MulAssoc(t, s, eq); }
      Add(Mul(s, ea), Mul(t, Add(et, ea)));
      { MulAdd(t, et, ea); MulAdd(t, a, ea); }
      Add(Add(Mul(t, ea), Mul(a, ea)), Add(Mul(t, et), Mul(t, ea)));
      { AddComm(Mul(t, ea), Mul(a, ea)); AddComm(Mul(t, et), Mul(t, ea)); }
      Add(Add(Mul(a, ea), Mul(t, ea)), Add(Mul(t, ea), Mul(t, et)));
      { AddAssoc(Mul(a, ea), Mul(t, ea), Add(Mul(t, ea), Mul(t, et)));
        AddAssoc(Mul(t, ea), Mul(t, ea), Mul(t, et)); AddSelf(Mul(t, ea)); AddZero(Mul(t, et)); }
      Add(Mul(a, ea), Mul(t, et));
      { AddComm(Mul(a, ea), Mul(t, et)); }
      Add(Mul(t, et), Mul(a, ea));
    }
  }

  // A polynomial with a zero quotient and a root is zero.
  lemma {:induction false} ZeroQuotient(p: Vec, a: byte)
    requires |p| > 0 && Eval(p, a) == 0 && !NonZero(Quotient(p, a))
    ensures !NonZero(p)
    decreases |p|
  {
    hide Add, Mul;
    MulZero(a);
    AddZero(p[0]);
    if |p| > 1 {
      var q := Quotient(p, a);
      assert q[0] == 0;
      assert q[1..] == Quotient(p[1..], a);
      ZeroQuotient(p[1..], a);
      assert forall i :: 1 <= i < |p| ==> p[i] == p[1..][i - 1];
    }
  }

  ghost predicate AllDistinct<T(!new)>(s: seq<T>) {
    forall i, j :: 0 <= i < j < |s| ==> s[i] != s[j]
  }

  // At least as many distinct roots as coefficients: the polynomial is zero.
  lemma {:induction false} ManyRoots(p: Vec, ts: seq<byte>)
    requires |ts| >= |p| && AllDistinct(ts)
    requires forall i :: 0 <= i < |ts| ==> Eval(p, ts[i]) == 0
    ensures !NonZero(p)
    decreases |p|
  {
    hide Add, Mul, Eval, Quotient;
    if |p| > 0 {
      var a, rest := ts[0], ts[1..];
      var q := Quotient(p, a);
      forall i | 0 <= i < |rest|
        ensures Eval(q, rest[i]) == 0
      {
        var t := ts[i + 1];
        Division(p, a, t);
        AddZero(0);
        AddCancel(t, a);
        NoZeroDivisors(Add(t, a), Eval(q, t));
      }
      ManyRoots(q, rest);
      ZeroQuotient(p, a);
    }
  }

  // ---- evaluation as a product with a row of powers ----

  lemma {:induction false} EvalSnoc(p: Vec, t: byte)
    requires |p| > 0
    ensures Eval(p, t) == Add(Eval(p[..|p| - 1], t), Mul(Pow(t, |p| - 1), p[|p| - 1]))
    decreases |p|
  {
    hide Add, Mul;
    var n := |p| - 1;
    if n == 0 {
      MulZero(t);
      MulOne(p[0]);
      AddComm(p[0], 0);
    } else {
      var p' := p[1..];
      EvalSnoc(p', t);
      assert p'[..n - 1] == p[..n][1..];
      var e, m := Eval(p[..n][1..], t), Mul(Pow(t, n - 1), p[n]);
      MulAdd(t, e, m);
      MulAssoc(t, Pow(t, n - 1), p[n]);
      AddAssoc(p[0], Mul(t, e), Mul(t, m));
    }
  }

  lemma {:induction false} PowersEval(row: Vec, x: Vec, t: byte, n: nat)
    requires n <= |row| == |x|
    requires forall c :: 0 <= c < |row| ==> row[c] == Pow(t, c)
    ensures CombTo(row, Column(x), 1, n) == [Eval(x[..n], t)]
    decreases n
  {
    hide Add, Mul, Eval, Pow;
    if n == 0 {
      assert Eval([], t) == 0 by { EmptyEval(t); }
    } else {
      PowersEval(row, x, t, n - 1);
      EvalSnoc(x[..n], t);
      assert x[..n][..n - 1] == x[..n - 1];
    }
  }

  lemma EmptyEval(t: byte)
    ensures Eval([], t) == 0
  {}
}
