/** Gaussian elimination in place (matrix.go), proved against row equivalence. */
module Elimination {
  import opened Galois
  import opened GaloisTables
  import opened LinearAlgebra

  // ---- row operations on values ----

  function AddRow(W: Mat, dst: nat, src: nat, s: byte): (r: Mat)
    requires dst < |W| && src < |W| && |W[dst]| == |W[src]|
  {
    W[dst := VAdd(W[dst], VScale(s, W[src]))]
  }

  function ScaleRow(W: Mat, r: nat, s: byte): Mat
    requires r < |W|
  {
    W[r := VScale(s, W[r])]
  }

  function SwapRow(W: Mat, r1: nat, r2: nat): Mat
    requires r1 < |W| && r2 < |W|
  {
    W[r1 := W[r2]][r2 := W[r1]]
  }

  // The two matrices have the same row space.
  ghost predicate RowEq(W: Mat, W': Mat, w: nat) {
    && IsMat(W, |W|, w) && IsMat(W', |W|, w)
    && (forall i :: 0 <= i < |W| ==> InSpan(W[i], W', w))
    && (forall i :: 0 <= i < |W| ==> InSpan(W'[i], W, w))
  }

  lemma RowEqRefl(W: Mat, w: nat)
    requires IsMat(W, |W|, w)
    ensures RowEq(W, W, w)
  {
    hide InSpan;
    forall i | 0 <= i < |W| {
      SpanRow(W, w, i);
    }
  }

  lemma RowEqTrans(U: Mat, V: Mat, W: Mat, w: nat)
    requires RowEq(U, V, w) && RowEq(V, W, w)
    ensures RowEq(U, W, w)
  {
    hide InSpan;
    forall i | 0 <= i < |U|
      ensures InSpan(U[i], W, w) && InSpan(W[i], U, w)
    {
      SpanTrans(U[i], V, W, w);
      SpanTrans(W[i], V, U, w);
    }
  }

  lemma RowEqAdd(W: Mat, w: nat, dst: nat, src: nat, s: byte)
    requires IsMat(W, |W|, w) && dst < |W| && src < |W| && dst != src
    ensures RowEq(W, AddRow(W, dst, src, s), w)
  {
    hide InSpan, VAdd, VScale;
    var W' := AddRow(W, dst, src, s);
    forall i | 0 <= i < |W|
      ensures InSpan(W[i], W', w) && InSpan(W'[i], W, w)
    {
      SpanRow(W, w, i);
      SpanRow(W', w, i);
      if i == dst {
        SpanRow(W, w, src);
        SpanScale(s, W[src], W, w);
        SpanAdd(W[dst], VScale(s, W[src]), W, w);
        SpanRow(W', w, src);
        SpanScale(s, W'[src], W', w);
        SpanAdd(W'[dst], VScale(s, W'[src]), W', w);
        VAddCancel(W[dst], VScale(s, W[src]));
      }
    }
  }

  lemma RowEqScale(W: Mat, w: nat, r: nat, s: byte)
    requires IsMat(W, |W|, w) && r < |W| && s != 0
    ensures RowEq(W, ScaleRow(W, r, s), w)
  {
    hide InSpan, VAdd, VScale, Mul, Inv;
    var W' := ScaleRow(W, r, s);
    forall i | 0 <= i < |W|
      ensures InSpan(W[i], W', w) && InSpan(W'[i], W, w)
    {
      SpanRow(W, w, i);
      SpanRow(W', w, i);
      if i == r {
        SpanScale(s, W[r], W, w);
        MulInv(s);
        SpanScale(Inv(s), W'[r], W', w);
        VScaleMul(Inv(s), s, W[r]);
        VScaleUnit(1, W[r]);
      }
    }
  }

  lemma RowEqSwap(W: Mat, w: nat, r1: nat, r2: nat)
    requires IsMat(W, |W|, w) && r1 < |W| && r2 < |W|
    ensures RowEq(W, SwapRow(W, r1, r2), w)
  {
    hide InSpan;
    var W' := SwapRow(W, r1, r2);
    forall i | 0 <= i < |W|
      ensures InSpan(W[i], W', w) && InSpan(W'[i], W, w)
    {
      SpanRow(W, w, if i == r1 then r2 else if i == r2 then r1 else i);
      SpanRow(W', w, if i == r1 then r2 else if i == r2 then r1 else i);
    }
  }

  // ---- shape of the matrix during the two phases ----

  // Columns before r have a unit diagonal and zeros below it.
  ghost predicate Lower(W: Mat, r: nat, w: nat) {
    && IsMat(W, |W|, w) && r <= |W| <= w
    && (forall c :: 0 <= c < r ==> W[c][c] == 1)
    && (forall c, i {:trigger W[i][c]} :: 0 <= c < r && c < i < |W| ==> W[i][c] == 0)
  }

  // Columns before d are zero above the diagonal.
  ghost predicate Upper(W: Mat, d: nat, w: nat) {
    && IsMat(W, |W|, w) && d <= |W| <= w
    && (forall c, i {:trigger W[i][c]} :: 0 <= i < c < d ==> W[i][c] == 0)
  }

  lemma AddRowAt(W: Mat, dst: nat, src: nat, s: byte, w: nat, c: nat)
    requires IsMat(W, |W|, w) && dst < |W| && src < |W| && c < w
    ensures IsMat(AddRow(W, dst, src, s), |W|, w)
    ensures W[src][c] == 0 ==> AddRow(W, dst, src, s)[dst][c] == W[dst][c]
    ensures W[src][c] == 1 && s == W[dst][c] ==> AddRow(W, dst, src, s)[dst][c] == 0
  {
    hide Add, Mul;
    MulZero(s);
    MulOne(s);
    AddZero(W[dst][c]);
    AddSelf(s);
  }

  // Clearing W[i][r] below the diagonal keeps the cleared columns.
  lemma ClearBelow(W: Mat, r: nat, i: nat, w: nat)
    requires Lower(W, r, w) && r < i < |W| && W[r][r] == 1
    ensures var W' := AddRow(W, i, r, W[i][r]); Lower(W', r, w) && W'[r] == W[r] && W'[i][r] == 0
  {
    hide AddRow;
    var W' := AddRow(W, i, r, W[i][r]);
    AddRowAt(W, i, r, W[i][r], w, r);
    AddRowFrame(W, i, r, W[i][r]);
    forall c | 0 <= c < r
      ensures W'[i][c] == W[i][c]
    {
      AddRowAt(W, i, r, W[i][r], w, c);
    }
  }

  lemma AddRowFrame(W: Mat, dst: nat, src: nat, s: byte)
    requires dst < |W| && src < |W| && |W[dst]| == |W[src]|
    ensures |AddRow(W, dst, src, s)| == |W|
    ensures forall k :: 0 <= k < |W| && k != dst ==> AddRow(W, dst, src, s)[k] == W[k]
  {}

  // Clearing W[i][d] above the diagonal keeps both cleared regions.
  lemma ClearAbove(W: Mat, d: nat, i: nat, w: nat)
    requires Lower(W, |W|, w) && Upper(W, d, w) && i < d < |W|
    ensures var W' := AddRow(W, i, d, W[i][d]); Lower(W', |W|, w) && Upper(W', d, w) && W'[i][d] == 0
  {
    hide AddRow;
    var W' := AddRow(W, i, d, W[i][d]);
    AddRowAt(W, i, d, W[i][d], w, d);
    AddRowFrame(W, i, d, W[i][d]);
    forall c | 0 <= c < d
      ensures W'[i][c] == W[i][c]
    {
      AddRowAt(W, i, d, W[i][d], w, c);
    }
  }

  // Both phases done: the left block is the identity.
  lemma ReducedIsId(W: Mat, w: nat)
    requires Lower(W, |W|, w) && Upper(W, |W|, w)
    ensures Cols(W, 0, |W|) == Id(|W|)
  {
    forall i | 0 <= i < |W|
      ensures W[i][0..|W|] == Unit(|W|, i)
    {
      assert forall c :: 0 <= c < |W| ==> W[i][c] == if c == i then 1 else 0;
    }
  }

  // ---- null vectors ----

  // x as a matrix with one column
  function Column(x: Vec): (r: Mat)
    ensures IsMat(r, |x|, 1)
  {
    seq(|x|, i requires 0 <= i < |x| => [x[i]])
  }

  // A times x is zero.
  ghost predicate Kills(A: Mat, x: Vec) {
    IsMat(A, |A|, |x|) && forall i :: 0 <= i < |A| ==> Comb(A[i], Column(x), 1) == [0]
  }

  ghost predicate NonZero(x: Vec) { exists i :: 0 <= i < |x| && x[i] != 0 }

  // Only the zero vector is mapped to zero.
  ghost predicate NoKernel(A: Mat, n: nat) {
    forall x: Vec :: |x| == n && Kills(A, x) ==> !NonZero(x)
  }

  lemma KillsSpan(v: Vec, A: Mat, x: Vec)
    requires Kills(A, x) && |v| == |x| && InSpan(v, A, |x|)
    ensures Comb(v, Column(x), 1) == [0]
  {
    hide Comb;
    var q: Vec :| |q| == |A| && Comb(q, A, |x|) == v;
    CombAssoc(q, A, Column(x), 1);
    var Z := MatMul(A, Column(x), 1);
    assert forall i :: 0 <= i < |A| ==> Z[i] == Zeros(1);
    CombToZeroRows(q, Z, 1, |q|);
    CombIsCombTo(q, Z, 1);
  }

  lemma SpanCols(v: Vec, W: Mat, w: nat, lo: nat, hi: nat)
    requires IsMat(W, |W|, w) && InSpan(v, W, w) && lo <= hi <= w
    ensures InSpan(v[lo..hi], Cols(W, lo, hi), hi - lo)
  {
    hide Comb;
    var q: Vec :| |q| == |W| && Comb(q, W, w) == v;
    CombCols(q, W, w, lo, hi);
  }

  // Row equivalence preserves the vectors mapped to zero by the left block.
  lemma KillsRowEq(W: Mat, W': Mat, w: nat, x: Vec)
    requires RowEq(W, W', w) && |x| <= w && Kills(Cols(W', 0, |x|), x)
    ensures Kills(Cols(W, 0, |x|), x)
  {
    hide Comb, InSpan;
    forall i | 0 <= i < |W|
      ensures Comb(Cols(W, 0, |x|)[i], Column(x), 1) == [0]
    {
      SpanCols(W[i], W', w, 0, |x|);
      KillsSpan(W[i][0..|x|], Cols(W', 0, |x|), x);
    }
  }

  // Changing x[i] to c changes the product with a row by row[i] times the difference.
  lemma ColumnUpdate(row: Vec, x: Vec, i: nat, c: byte)
    requires |row| == |x| && i < |x|
    ensures Comb(row, Column(x[i := c]), 1) == VAdd(Comb(row, Column(x), 1), VScale(row[i], [Add(x[i], c)]))
  {
    hide Comb, Add, Mul;
    assert Column(x[i := c]) == Column(x)[i := [c]];
    CombUpdateRow(row, Column(x), i, [c], 1);
    assert VAdd([x[i]], [c]) == [Add(x[i], c)];
  }

  // Rows i.. of L are mapped to zero by a vector that is 1 at r and 0 beyond.
  ghost predicate KillsFrom(L: Mat, i: nat, x: Vec) {
    IsMat(L, |L|, |x|) && forall k :: i <= k < |L| ==> Comb(L[k], Column(x), 1) == [0]
  }

  lemma {:induction false} TailKilled(row: Vec, x: Vec, r: nat, n: nat)
    requires n <= |row| == |x| && r < |x| && row[r] == 0
    requires forall k :: 0 <= k < |x| && k != r ==> x[k] == 0
    ensures CombTo(row, Column(x), 1, n) == [0]
    decreases n
  {
    hide Add, Mul;
    if n > 0 {
      TailKilled(row, x, r, n - 1);
      MulZero(row[n - 1]);
      MulZero(x[n - 1]);
      AddZero(0);
    }
  }

  // Back substitution: a triangular L whose rows r.. vanish in column r has a null vector.
  lemma {:induction false} BackSubstitute(L: Mat, n: nat, r: nat, i: nat) returns (x: Vec)
    requires Lower(L, r, n) && |L| == n && i <= r < n
    requires forall k :: r <= k < n ==> L[k][r] == 0
    ensures |x| == n && x[r] == 1 && KillsFrom(L, i, x)
    decreases r - i
  {
    hide Add, Mul, Comb;
    if i == r {
      x := Unit(n, r);
      forall k | r <= k < n
        ensures Comb(L[k], Column(x), 1) == [0]
      {
        TailKilled(L[k], x, r, n);
        CombIsCombTo(L[k], Column(x), 1);
      }
    } else {
      var y := BackSubstitute(L, n, r, i + 1);
      var s := Comb(L[i], Column(y), 1);
      var c := Add(y[i], s[0]);
      x := y[i := c];
      AddComm(y[i], s[0]);
      AddAssoc(y[i], y[i], s[0]);
      AddSelf(y[i]);
      AddZero(s[0]);
      MulOne(s[0]);
      AddSelf(s[0]);
      ColumnUpdate(L[i], y, i, c);
      assert VScale(L[i][i], [Add(y[i], c)]) == [s[0]];
      assert Comb(L[i], Column(x), 1) == VAdd(s, [s[0]]) == [0];
      forall k | i < k < n
        ensures Comb(L[k], Column(x), 1) == [0]
      {
        ColumnUpdate(L[k], y, i, c);
        assert L[k][i] == 0;
        MulZero(Add(y[i], c));
        AddZero(0);
        assert VScale(L[k][i], [Add(y[i], c)]) == [0];
      }
    }
  }

  // ---- the working matrix: rows on the heap ----

  // The rows are separate arrays of equal length.
  ghost predicate Shape(m: array<array<byte>>, cols: nat)
    reads m
  {
    && (forall i :: 0 <= i < m.Length ==> m[i].Length == cols && m[i] as object != m)
    && (forall i, j :: 0 <= i < j < m.Length ==> m[i] != m[j])
  }

  function Rows(m: array<array<byte>>): (r: Mat)
    reads m, m[..]
    ensures |r| == m.Length
  {
    seq(m.Length, i requires 0 <= i < m.Length reads m, m[..] => m[i][..])
  }

  // m[dst][c] ^= galMultiply(scale, m[src][c]) for every column c
  method AddScaledRow(m: array<array<byte>>, dst: nat, src: nat, scale: byte, ghost cols: nat)
    requires Shape(m, cols) && dst < m.Length && src < m.Length && dst != src
    modifies m[dst]
    ensures Rows(m) == AddRow(old(Rows(m)), dst, src, scale)
  {
    hide Add, Mul, GalMultiply;
    var row, from := m[dst], m[src];
    ghost var W := Rows(m);
    for c := 0 to row.Length
      invariant m[..] == old(m[..])
      invariant forall k :: 0 <= k < c ==> row[k] == Add(W[dst][k], Mul(scale, from[k]))
      invariant forall k :: c <= k < cols ==> row[k] == W[dst][k]
    {
      row[c] := Add(row[c], GalMultiply(scale, from[c]));
    }
    assert row[..] == AddRow(W, dst, src, scale)[dst];
    assert forall i :: 0 <= i < m.Length && i != dst ==> m[i][..] == W[i];
  }

  // m[r][c] = galMultiply(m[r][c], scale) for every column c
  method ScaleRowBy(m: array<array<byte>>, r: nat, scale: byte, ghost cols: nat)
    requires Shape(m, cols) && r < m.Length
    modifies m[r]
    ensures Rows(m) == ScaleRow(old(Rows(m)), r, scale)
  {
    hide Add, Mul, GalMultiply;
    var row := m[r];
    ghost var W := Rows(m);
    for c := 0 to row.Length
      invariant m[..] == old(m[..])
      invariant forall k :: 0 <= k < c ==> row[k] == Mul(scale, W[r][k])
      invariant forall k :: c <= k < cols ==> row[k] == W[r][k]
    {
      row[c] := GalMultiply(row[c], scale);
      MulComm(W[r][c], scale);
    }
    assert row[..] == ScaleRow(W, r, scale)[r];
    assert forall i :: 0 <= i < m.Length && i != r ==> m[i][..] == W[i];
  }

  // Exchanges two rows by exchanging the row references.
  method SwapRows(m: array<array<byte>>, r1: int, r2: int, ghost cols: nat) returns (ok: bool)
    requires Shape(m, cols)
    modifies m
    ensures ok == (0 <= r1 < m.Length && 0 <= r2 < m.Length)
    ensures Shape(m, cols) && Rows(m) == if ok then SwapRow(old(Rows(m)), r1, r2) else old(Rows(m))
    ensures forall i :: 0 <= i < m.Length ==> m[i] in old(m[..])
  {
    if r1 < 0 || m.Length <= r1 || r2 < 0 || m.Length <= r2 {
      return false;
    }
    ghost var W := Rows(m);
    m[r2], m[r1] := m[r1], m[r2];
    assert forall i :: 0 <= i < m.Length ==> m[i][..] == SwapRow(W, r1, r2)[i];
    forall i | 0 <= i < m.Length
      ensures m[i] in old(m[..])
    {
      assert m[i] == old(m[..])[if i == r1 then r2 else if i == r2 then r1 else i];
    }
    return true;
  }

  lemma SwapKeepsLower(W: Mat, r: nat, i: nat, w: nat)
    requires Lower(W, r, w) && r <= i < |W|
    ensures Lower(SwapRow(W, r, i), r, w)
  {}

  lemma ScaleKeepsLower(W: Mat, r: nat, s: byte, w: nat)
    requires Lower(W, r, w) && r < |W| && r < w && Mul(s, W[r][r]) == 1
    ensures Lower(ScaleRow(W, r, s), r, w) && ScaleRow(W, r, s)[r][r] == 1
  {
    hide Mul;
    MulZero(s);
  }

  // Bring a non-zero entry to the diagonal of column r if there is one at or below it.
  method Pivot(m: array<array<byte>>, r: nat, ghost w: nat) returns (ok: bool)
    requires Shape(m, w) && Lower(Rows(m), r, w) && r < m.Length <= w
    modifies m
    ensures Shape(m, w) && RowEq(old(Rows(m)), Rows(m), w) && Lower(Rows(m), r, w)
    ensures forall i :: 0 <= i < m.Length ==> m[i] in old(m[..])
    ensures ok <==> Rows(m)[r][r] != 0
    ensures !ok ==> forall i :: r <= i < m.Length ==> Rows(m)[i][r] == 0
  {
    hide InSpan, RowEq;
    RowEqRefl(Rows(m), w);
    if m[r][r] == 0 {
      var rowBelow := r + 1;
      while rowBelow < m.Length
        invariant r < rowBelow <= m.Length
        invariant forall i :: r <= i < rowBelow ==> Rows(m)[i][r] == 0
        invariant m[..] == old(m[..]) && Rows(m) == old(Rows(m))
      {
        if m[rowBelow][r] != 0 {
          SwapKeepsLower(Rows(m), r, rowBelow, w);
          RowEqSwap(Rows(m), w, r, rowBelow);
          var _ := SwapRows(m, r, rowBelow, w);
          break;
        }
        assert Rows(m)[rowBelow][r] == 0;
        rowBelow := rowBelow + 1;
      }
    }
    ok := m[r][r] != 0;
  }

  // Make everything below the leading 1 of row r zero in column r.
  method ClearColumnBelow(m: array<array<byte>>, r: nat, ghost w: nat)
    requires Shape(m, w) && Lower(Rows(m), r, w) && r < m.Length <= w && Rows(m)[r][r] == 1
    modifies m[..]
    ensures m[..] == old(m[..]) && Shape(m, w) && RowEq(old(Rows(m)), Rows(m), w) && Lower(Rows(m), r + 1, w)
  {
    hide InSpan, RowEq, AddRow;
    RowEqRefl(Rows(m), w);
    for rowBelow := r + 1 to m.Length
      invariant m[..] == old(m[..]) && Shape(m, w)
      invariant RowEq(old(Rows(m)), Rows(m), w) && Lower(Rows(m), r, w) && Rows(m)[r][r] == 1
      invariant forall i {:trigger Rows(m)[i]} :: r < i < rowBelow ==> Rows(m)[i][r] == 0
    {
      ghost var W := Rows(m);
      assert W[rowBelow][r] == m[rowBelow][r];
      if m[rowBelow][r] != 0 {
        var scale := m[rowBelow][r];
        ClearBelow(W, r, rowBelow, w);
        RowEqAdd(W, w, rowBelow, r, scale);
        RowEqTrans(old(Rows(m)), W, AddRow(W, rowBelow, r, scale), w);
        AddRowFrame(W, rowBelow, r, scale);
        AddScaledRow(m, rowBelow, r, scale, w);
      }
    }
  }

  // Make everything above the leading 1 of row d zero in column d.
  method ClearColumnAbove(m: array<array<byte>>, d: nat, ghost w: nat)
    requires Shape(m, w) && Lower(Rows(m), m.Length, w) && d < m.Length <= w && Upper(Rows(m), d, w)
    modifies m[..]
    ensures m[..] == old(m[..]) && Shape(m, w) && RowEq(old(Rows(m)), Rows(m), w)
    ensures Lower(Rows(m), m.Length, w) && Upper(Rows(m), d + 1, w)
  {
    hide InSpan, RowEq, AddRow;
    RowEqRefl(Rows(m), w);
    for rowAbove := 0 to d
      invariant m[..] == old(m[..]) && Shape(m, w)
      invariant RowEq(old(Rows(m)), Rows(m), w) && Lower(Rows(m), m.Length, w) && Upper(Rows(m), d, w)
      invariant forall i {:trigger Rows(m)[i]} :: 0 <= i < rowAbove ==> Rows(m)[i][d] == 0
    {
      ghost var W := Rows(m);
      assert W[rowAbove][d] == m[rowAbove][d];
      if m[rowAbove][d] != 0 {
        var scale := m[rowAbove][d];
        ClearAbove(W, d, rowAbove, w);
        RowEqAdd(W, w, rowAbove, d, scale);
        RowEqTrans(old(Rows(m)), W, AddRow(W, rowAbove, d, scale), w);
        AddRowFrame(W, rowAbove, d, scale);
        AddScaledRow(m, rowAbove, d, scale, w);
      }
    }
  }

  /** Reduces the rows in place.  The row space never changes.  On success the left square is the
      identity; on failure the left square maps some non-zero vector to zero. */
  method GaussianElimination(m: array<array<byte>>, ghost w: nat) returns (ok: bool)
    requires 0 < m.Length <= w && Shape(m, w)
    modifies m, m[..]
    ensures Shape(m, w) && RowEq(old(Rows(m)), Rows(m), w)
    ensures ok ==> Cols(Rows(m), 0, m.Length) == Id(m.Length)
    ensures !ok ==> exists x: Vec :: |x| == m.Length && NonZero(x) && Kills(Cols(old(Rows(m)), 0, |x|), x)
  {
    hide InSpan, RowEq, AddRow, ScaleRow, Mul, Inv, Comb;
    ghost var W0 := Rows(m);
    RowEqRefl(W0, w);
    for r := 0 to m.Length
      invariant Shape(m, w) && forall i :: 0 <= i < m.Length ==> m[i] in old(m[..])
      invariant RowEq(W0, Rows(m), w) && Lower(Rows(m), r, w)
    {
      ghost var W := Rows(m);
      ok := Pivot(m, r, w);
      RowEqTrans(W0, W, Rows(m), w);
      if !ok {
        ghost var x := SingularWitness(Rows(m), r, w);
        KillsRowEq(W0, Rows(m), w, x);
        return;
      }
      W := Rows(m);
      if m[r][r] != 1 {
        var scale := GalDivide(1, m[r][r]);
        ScaleStep(W, r, scale, w);
        ScaleRowBy(m, r, scale, w);
        RowEqTrans(W0, W, Rows(m), w);
      }
      W := Rows(m);
      ClearColumnBelow(m, r, w);
      RowEqTrans(W0, W, Rows(m), w);
    }
    for d := 0 to m.Length
      invariant Shape(m, w) && forall i :: 0 <= i < m.Length ==> m[i] in old(m[..])
      invariant RowEq(W0, Rows(m), w) && Lower(Rows(m), m.Length, w) && Upper(Rows(m), d, w)
    {
      ghost var W := Rows(m);
      ClearColumnAbove(m, d, w);
      RowEqTrans(W0, W, Rows(m), w);
    }
    ReducedIsId(Rows(m), w);
    ok := true;
  }

  lemma ScaleStep(W: Mat, r: nat, scale: byte, w: nat)
    requires Lower(W, r, w) && r < |W| && r < w && W[r][r] != 0 && scale == Mul(1, Inv(W[r][r]))
    ensures Lower(ScaleRow(W, r, scale), r, w) && ScaleRow(W, r, scale)[r][r] == 1
    ensures RowEq(W, ScaleRow(W, r, scale), w)
  {
    hide RowEq, Mul, Inv, ScaleRow;
    MulOne(Inv(W[r][r]));
    MulInv(W[r][r]);
    ScaleKeepsLower(W, r, scale, w);
    RowEqScale(W, w, r, scale);
  }

  lemma SingularWitness(W: Mat, r: nat, w: nat) returns (x: Vec)
    requires Lower(W, r, w) && r < |W|
    requires forall i :: r <= i < |W| ==> W[i][r] == 0
    ensures |x| == |W| && NonZero(x) && Kills(Cols(W, 0, |x|), x)
  {
    hide Comb;
    x := BackSubstitute(Cols(W, 0, |W|), |W|, r, 0);
  }
}
