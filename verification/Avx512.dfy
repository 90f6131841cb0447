/** The AVX512 path: coefficient tables placed by a moving offset, kernels for eight inputs by
    four, two or one outputs, and the batching of the output rows. */
module Avx512 {
  import opened Galois
  import opened GaloisTables
  import opened LinearAlgebra
  import opened Kernels
  import opened Coding
  import opened Avx2

  const DIM_IN := 8

  // The 32 bytes for one coefficient.
  function NibbleTables(c: byte): (r: seq<byte>)
    ensures |r| == 32
  {
    LowTable(c) + HighTable(c)
  }

  // The coefficient the kernel must use for input c of row, 0 past its end.
  function CoefficientAt(row: Vec, c: nat): byte { if c < |row| then row[c] else 0 }

  lemma ZeroTables()
    ensures NibbleTables(0) == seq(32, k => 0)
  {
    hide ByteOf, Mul;
    forall n | 0 <= n < 16
      ensures Low(0, ByteOf(n)) == 0 && High(0, ByteOf(n)) == 0
    {
      MulZero(ByteOf(n));
      MulZero(ByteOf(n) << 4);
    }
  }

  // Position p of the buffer holds the tables of coefficient c.
  ghost predicate Placed(m: seq<byte>, p: nat, c: byte) {
    32 * p + 32 <= |m| && m[32 * p..32 * p + 32] == NibbleTables(c)
  }

  // Input c of output i of the batch is at position 8 i + c.
  ghost predicate Entry(m: seq<byte>, rows: seq<Vec>, inputOffset: nat, outputOffset: nat, i: nat, c: nat)
    requires outputOffset + i < |rows|
  {
    Placed(m, DIM_IN * i + c, CoefficientAt(rows[outputOffset + i], inputOffset + c))
  }

  ghost predicate Batch(m: seq<byte>, rows: seq<Vec>, inputOffset: nat, outputOffset: nat, dimOut: nat)
    requires outputOffset + dimOut <= |rows|
  {
    |m| == 32 * DIM_IN * dimOut &&
    forall i, c :: 0 <= i < dimOut && 0 <= c < DIM_IN ==> Entry(m, rows, inputOffset, outputOffset, i, c)
  }

  // Writes the tables of one coefficient, or zeros.
  method PutNibbleTables(m: array<byte>, p: nat, row: Vec, c: nat)
    requires 32 * p + 32 <= m.Length
    modifies m
    ensures Placed(m[..], p, CoefficientAt(row, c))
    ensures forall q, d :: q != p && Placed(old(m[..]), q, d) ==> Placed(m[..], q, d)
  {
    hide NibbleTables;
    ghost var before := m[..];
    if c < |row| {
      CopyAt(m, p * 32, LowTable(row[c]));
      CopyAt(m, p * 32 + 16, HighTable(row[c]));
      TablesSplit(row[c]);
      assert m[32 * p..32 * p + 32] == m[32 * p..32 * p + 16] + m[32 * p + 16..32 * p + 32];
    } else {
      CopyAt(m, p * 32, seq(32, k => 0));
      ZeroTables();
    }
    assert m[..][32 * p..32 * p + 32] == m[32 * p..32 * p + 32];
    forall q, d | q != p && Placed(before, q, d)
      ensures Placed(m[..], q, d)
    {
      OtherPlaced(before, m[..], p, q, d);
    }
  }

  lemma OtherPlaced(before: seq<byte>, after: seq<byte>, p: nat, q: nat, d: byte)
    requires q != p && Placed(before, q, d) && |before| == |after|
    requires forall k :: 0 <= k < |after| && !(32 * p <= k < 32 * p + 32) ==> after[k] == before[k]
    ensures Placed(after, q, d)
  {
    hide NibbleTables;
    assert after[32 * q..32 * q + 32] == before[32 * q..32 * q + 32];
  }

  lemma TablesSplit(c: byte)
    ensures NibbleTables(c) == LowTable(c) + HighTable(c)
  {}

  // setupMatrix81, 82 and 84, with dimOut 1, 2 and 4.
  method SetupMatrix(rows: seq<Vec>, inputOffset: nat, outputOffset: nat, dimOut: nat, m: array<byte>)
    requires outputOffset + dimOut <= |rows| && dimOut > 0 && m.Length == 32 * DIM_IN * dimOut
    modifies m
    ensures Batch(m[..], rows, inputOffset, outputOffset, dimOut)
  {
    hide Placed;
    var offset := 0;
    for c := inputOffset to inputOffset + DIM_IN
      invariant offset == c - inputOffset
      invariant forall i, k :: 0 <= i < dimOut && 0 <= k < c - inputOffset ==>
        Entry(m[..], rows, inputOffset, outputOffset, i, k)
    {
      ghost var col := c - inputOffset;
      for iRow := outputOffset to outputOffset + dimOut
        invariant offset == if iRow < outputOffset + dimOut then DIM_IN * (iRow - outputOffset) + col else col + 1
        invariant forall i, k :: 0 <= i < dimOut && 0 <= k < col ==> Entry(m[..], rows, inputOffset, outputOffset, i, k)
        invariant forall i :: 0 <= i < iRow - outputOffset ==> Entry(m[..], rows, inputOffset, outputOffset, i, col)
      {
        ghost var before := m[..];
        PutNibbleTables(m, offset, rows[iRow], c);
        forall i, k | 0 <= i < dimOut && 0 <= k <= col && (k < col || i < iRow - outputOffset)
          ensures Entry(before, rows, inputOffset, outputOffset, i, k) ==>
            Entry(m[..], rows, inputOffset, outputOffset, i, k)
        {
          assert DIM_IN * i + k != offset;
        }
        assert Entry(m[..], rows, inputOffset, outputOffset, iRow - outputOffset, col);
        offset := offset + DIM_IN;
        if offset >= DIM_IN * dimOut {
          offset := offset - (DIM_IN * dimOut - 1);
        }
      }
    }
  }

  // What the kernel reads for input byte x at table position p.
  function Product512(m: seq<byte>, p: nat, x: byte): byte
    requires 32 * p + 32 <= |m|
  {
    NibbleRange(x);
    Add(m[32 * p + IntOf(x & 0x0f)], m[32 * p + 16 + IntOf(x >> 4)])
  }

  lemma Product512Is(m: seq<byte>, p: nat, c: byte, x: byte)
    requires Placed(m, p, c)
    ensures 32 * p + 32 <= |m| && Product512(m, p, x) == Mul(c, x)
  {
    hide Add, Mul, LowTable, HighTable;
    NibbleRange(x);
    TablesLookup(c, x);
    var l, h := IntOf(x & 0x0f), IntOf(x >> 4);
    assert m[32 * p..32 * p + 32][l] == m[32 * p + l];
    assert m[32 * p..32 * p + 32][16 + h] == m[32 * p + 16 + h];
    assert Tables(c)[l] == LowTable(c)[l] && Tables(c)[32 + h] == HighTable(c)[h];
  }

  // One output byte of a kernel.
  method KernelByte512(m: seq<byte>, inputs: seq<array<byte>>, inputOffset: nat, inputEnd: nat, i: nat, b: nat,
                       acc0: byte,
                       ghost rows: seq<Vec>, ghost outputOffset: nat, ghost dimOut: nat,
                         ghost w: nat) returns (acc: byte)
    requires inputOffset <= inputEnd <= |inputs| && inputEnd - inputOffset <= DIM_IN && b < w && i < dimOut
    requires forall c :: 0 <= c < |inputs| ==> inputs[c].Length == w
    requires outputOffset + dimOut <= |rows| && |rows[outputOffset + i]| == |inputs|
    requires Batch(m, rows, inputOffset, outputOffset, dimOut)
    requires acc0 == Partial(rows[outputOffset + i], Contents(inputs), w, inputOffset, b)
    ensures acc == Partial(rows[outputOffset + i], Contents(inputs), w, inputEnd, b)
  {
    hide Partial, Add, Mul, Placed;
    ghost var row, data := rows[outputOffset + i], Contents(inputs);
    acc := acc0;
    for c := inputOffset to inputEnd
      invariant acc == Partial(row, data, w, c, b)
    {
      var p := DIM_IN * i + (c - inputOffset);
      assert Entry(m, rows, inputOffset, outputOffset, i, c - inputOffset);
      Product512Is(m, p, row[c], inputs[c][b]);
      PartialStep(row, data, w, c, b);
      acc := Add(acc, Product512(m, p, inputs[c][b]));
    }
  }

  // One output row: the whole 64-byte part by the kernel contract.
  method KernelRow512(m: seq<byte>, inputs: seq<array<byte>>, inputOffset: nat, inputEnd: nat, i: nat, out: array<byte>,
                      start: nat, n: nat, ghost rows: seq<Vec>, ghost outputOffset: nat, ghost dimOut: nat)
    requires inputOffset <= inputEnd <= |inputs| && inputEnd - inputOffset <= DIM_IN && start + n <= out.Length &&
      i < dimOut
    requires forall c :: 0 <= c < |inputs| ==> inputs[c].Length == out.Length && inputs[c] != out
    requires outputOffset + dimOut <= |rows| && |rows[outputOffset + i]| == |inputs|
    requires Batch(m, rows, inputOffset, outputOffset, dimOut)
    requires inputOffset > 0 ==> Holds(rows[outputOffset + i], Contents(inputs), out, start, start + n, inputOffset)
    modifies out
    ensures Contents(inputs) == old(Contents(inputs))
    ensures Holds(rows[outputOffset + i], Contents(inputs), out, start, start + n, inputEnd)
    ensures forall k :: 0 <= k < out.Length && !(start <= k < start + n) ==> out[k] == old(out[k])
  {
    hide Partial, Batch;
    ghost var row, data := rows[outputOffset + i], Contents(inputs);
    for b := start to start + n
      invariant Contents(inputs) == data
      invariant Holds(row, data, out, start, b, inputEnd)
      invariant forall k :: 0 <= k < out.Length && !(start <= k < b) ==> out[k] == old(out[k])
    {
      PartialZero(row, data, out.Length, b);
      // addTo: except for the first inputs, add to previous results
      out[b] := KernelByte512(m, inputs, inputOffset, inputEnd, i, b, if inputOffset > 0 then out[b]
        else 0, rows, outputOffset, dimOut, out.Length);
    }
  }

  // The kernel on all rows of a batch.
  method Kernel512(m: seq<byte>, rows: seq<Vec>, inputs: seq<array<byte>>, outputs: seq<array<byte>>,
                   inputOffset: nat, inputEnd: nat, outputOffset: nat, dimOut: nat, start: nat, n: nat, ghost w: nat)
    requires Buffers(inputs, outputs, w) && Rowed(rows, |outputs|, |inputs|) && start + n <= w
    requires inputOffset <= inputEnd <= |inputs| && inputEnd - inputOffset <= DIM_IN &&
      outputOffset + dimOut <= |outputs|
    requires Batch(m, rows, inputOffset, outputOffset, dimOut)
    requires inputOffset > 0 ==> forall i :: outputOffset <= i < outputOffset + dimOut ==>
      Holds(rows[i], Contents(inputs), outputs[i], start, start + n, inputOffset)
    modifies outputs
    ensures Contents(inputs) == old(Contents(inputs))
    ensures forall i :: outputOffset <= i < outputOffset + dimOut ==>
      Holds(rows[i], Contents(inputs), outputs[i], start, start + n, inputEnd)
    ensures forall i :: 0 <= i < |outputs| && !(outputOffset <= i < outputOffset + dimOut) ==>
      outputs[i][..] == old(outputs[i][..])
    ensures forall i, k :: 0 <= i < |outputs| && 0 <= k < w && !(start <= k < start + n) ==>
      outputs[i][k] == old(outputs[i][k])
  {
    hide Partial, Batch;
    ghost var data := Contents(inputs);
    for r := outputOffset to outputOffset + dimOut
      invariant Contents(inputs) == data
      invariant forall i :: outputOffset <= i < r ==> Holds(rows[i], data, outputs[i], start, start + n, inputEnd)
      invariant inputOffset > 0 ==> forall i :: r <= i < outputOffset + dimOut ==>
        Holds(rows[i], data, outputs[i], start, start + n, inputOffset)
      invariant forall i :: 0 <= i < |outputs| && !(outputOffset <= i < r) ==> outputs[i][..] == old(outputs[i][..])
      invariant forall i, k :: 0 <= i < |outputs| && 0 <= k < w && !(start <= k < start + n) ==>
        outputs[i][k] == old(outputs[i][k])
    {
      KernelRow512(m, inputs, inputOffset, inputEnd, r - outputOffset, outputs[r], start, n, rows, outputOffset,
        dimOut);
    }
  }

  // The innermost loop of the tail: one input into one output row, by table.
  method TableInto(row: Vec, c: nat, in_: array<byte>, out: array<byte>, lo: nat, hi: nat, ghost data: Mat)
    requires lo <= hi <= out.Length == in_.Length && in_ != out
    requires IsMat(data, |row|, out.Length) && c < |row| && data[c] == in_[..]
    requires c > 0 ==> Holds(row, data, out, lo, hi, c)
    modifies out
    ensures Holds(row, data, out, lo, hi, c + 1)
    ensures forall j :: 0 <= j < out.Length && !(lo <= j < hi) ==> out[j] == old(out[j])
  {
    hide Partial, Add, Mul, GalMultiply;
    for i := lo to hi
      invariant Holds(row, data, out, lo, i, c + 1)
      invariant c > 0 ==> Holds(row, data, out, i, hi, c)
      invariant forall j :: 0 <= j < out.Length && !(lo <= j < hi) ==> out[j] == old(out[j])
    {
      PartialStep(row, data, out.Length, c, i);
      if c == 0 { // only set value for first input column
        out[i] := GalMultiply(row[c], in_[i]);
      } else { // and add for all others
        out[i] := Add(out[i], GalMultiply(row[c], in_[i]));
      }
    }
  }

  // galMulAVX512LastInput: the bytes after the last whole block.
  method LastInput(inputOffset: nat, inputEnd: nat, outputOffset: nat, outputEnd: nat, rows: seq<Vec>, done: nat,
                   stop: nat,
                   outputs: seq<array<byte>>, inputs: seq<array<byte>>, ghost w: nat)
    requires Buffers(inputs, outputs, w) && Rowed(rows, |outputs|, |inputs|) && done <= stop <= w
    requires inputOffset < inputEnd <= |inputs| && outputOffset <= outputEnd <= |outputs|
    requires inputOffset > 0 ==> forall i :: outputOffset <= i < outputEnd ==>
      Holds(rows[i], Contents(inputs), outputs[i], done, stop, inputOffset)
    modifies outputs
    ensures Contents(inputs) == old(Contents(inputs))
    ensures forall i :: outputOffset <= i < outputEnd ==>
      Holds(rows[i], Contents(inputs), outputs[i], done, stop, inputEnd)
    ensures forall i :: 0 <= i < |outputs| && !(outputOffset <= i < outputEnd) ==> outputs[i][..] == old(outputs[i][..])
    ensures forall i, k :: 0 <= i < |outputs| && 0 <= k < w && !(done <= k < stop) ==>
      outputs[i][k] == old(outputs[i][k])
  {
    hide Partial;
    ghost var data := Contents(inputs);
    for c := inputOffset to inputEnd
      invariant Contents(inputs) == data
      invariant c > 0 ==> forall i :: outputOffset <= i < outputEnd ==> Holds(rows[i], data, outputs[i], done, stop, c)
      invariant forall i :: 0 <= i < |outputs| && !(outputOffset <= i < outputEnd) ==>
        outputs[i][..] == old(outputs[i][..])
      invariant forall i, k :: 0 <= i < |outputs| && 0 <= k < w && !(done <= k < stop) ==>
        outputs[i][k] == old(outputs[i][k])
    {
      IntoRows(c, outputOffset, outputEnd, rows, done, stop, outputs, inputs, w);
    }
  }

  // One input into the output rows.
  method IntoRows(c: nat, outputOffset: nat, outputEnd: nat, rows: seq<Vec>, done: nat, stop: nat,
                  outputs: seq<array<byte>>, inputs: seq<array<byte>>, ghost w: nat)
    requires Buffers(inputs, outputs, w) && Rowed(rows, |outputs|, |inputs|) && done <= stop <= w
    requires c < |inputs| && outputOffset <= outputEnd <= |outputs|
    requires c > 0 ==> forall i :: outputOffset <= i < outputEnd ==>
      Holds(rows[i], Contents(inputs), outputs[i], done, stop, c)
    modifies outputs
    ensures Contents(inputs) == old(Contents(inputs))
    ensures forall i :: outputOffset <= i < outputEnd ==>
      Holds(rows[i], Contents(inputs), outputs[i], done, stop, c + 1)
    ensures forall i :: 0 <= i < |outputs| && !(outputOffset <= i < outputEnd) ==> outputs[i][..] == old(outputs[i][..])
    ensures forall i, k :: 0 <= i < |outputs| && 0 <= k < w && !(done <= k < stop) ==>
      outputs[i][k] == old(outputs[i][k])
  {
    hide Partial;
    ghost var data := Contents(inputs);
    for iRow := outputOffset to outputEnd
      invariant Contents(inputs) == data
      invariant forall i :: outputOffset <= i < iRow ==> Holds(rows[i], data, outputs[i], done, stop, c + 1)
      invariant c > 0 ==> forall i :: iRow <= i < outputEnd ==> Holds(rows[i], data, outputs[i], done, stop, c)
      invariant forall i :: 0 <= i < |outputs| && !(outputOffset <= i < outputEnd) ==>
        outputs[i][..] == old(outputs[i][..])
      invariant forall i, k :: 0 <= i < |outputs| && 0 <= k < w && !(done <= k < stop) ==>
        outputs[i][k] == old(outputs[i][k])
    {
      TableInto(rows[iRow], c, inputs[c], outputs[iRow], done, stop, data);
    }
  }

  /** galMulAVX512Parallel81/82/84: a batch of dimOut output rows takes eight more inputs on
      start..stop. */
  method Parallel512(m: seq<byte>, rows: seq<Vec>, inputs: seq<array<byte>>, outputs: seq<array<byte>>,
                     inputOffset: nat, outputOffset: nat, dimOut: nat, start: nat, stop: nat, ghost w: nat)
    requires Buffers(inputs, outputs, w) && Rowed(rows, |outputs|, |inputs|) && start <= stop <= w
    requires inputOffset < |inputs| && outputOffset + dimOut <= |outputs|
    requires Batch(m, rows, inputOffset, outputOffset, dimOut)
    requires inputOffset > 0 ==> forall i :: outputOffset <= i < outputOffset + dimOut ==>
      Holds(rows[i], Contents(inputs), outputs[i], start, stop, inputOffset)
    modifies outputs
    ensures Contents(inputs) == old(Contents(inputs))
    ensures forall i :: outputOffset <= i < outputOffset + dimOut ==>
      Holds(rows[i], Contents(inputs), outputs[i], start, stop, Min(inputOffset + DIM_IN, |inputs|))
    ensures forall i :: 0 <= i < |outputs| && !(outputOffset <= i < outputOffset + dimOut) ==>
      outputs[i][..] == old(outputs[i][..])
    ensures forall i, k :: 0 <= i < |outputs| && 0 <= k < w && !(start <= k < stop) ==>
      outputs[i][k] == old(outputs[i][k])
  {
    hide Partial, Batch;
    if stop - start <= 0 {
      return;
    }
    var inputEnd := Min(inputOffset + DIM_IN, |inputs|);
    var n := Whole(stop - start);
    ghost var data, before := Contents(inputs), Contents(outputs);
    Kernel512(m, rows, inputs, outputs, inputOffset, inputEnd, outputOffset, dimOut, start, n, w);
    var done := start + n;
    if done < stop {
      ghost var mid := Contents(outputs);
      LastInput(inputOffset, inputEnd, outputOffset, outputOffset + dimOut, rows, done, stop, outputs, inputs, w);
      forall i | outputOffset <= i < outputOffset + dimOut
        ensures Holds(rows[i], data, outputs[i], start, stop, inputEnd)
      {
        assert HoldsIn(rows[i], data, mid[i], start, done, inputEnd);
        assert forall k :: start <= k < done ==> outputs[i][k] == mid[i][k];
      }
    }
  }

  function Min(a: nat, b: nat): nat { if a < b then a else b }

  // The inner loop over the inputs, eight at a time, for one batch of output rows.
  method AllInputs512(rows: seq<Vec>, inputs: seq<array<byte>>, outputs: seq<array<byte>>, m: array<byte>,
                      outputRow: nat, dimOut: nat, start: nat, stop: nat, ghost w: nat)
    requires Buffers(inputs, outputs, w) && Rowed(rows, |outputs|, |inputs|) && start <= stop <= w
    requires dimOut > 0 && outputRow + dimOut <= |outputs| && m.Length == 32 * DIM_IN * dimOut
    requires m !in inputs && m !in outputs
    modifies outputs, m
    ensures Contents(inputs) == old(Contents(inputs))
    ensures forall i :: outputRow <= i < outputRow + dimOut ==>
      Holds(rows[i], Contents(inputs), outputs[i], start, stop, |inputs|)
    ensures forall i :: 0 <= i < |outputs| && !(outputRow <= i < outputRow + dimOut) ==>
      outputs[i][..] == old(outputs[i][..])
    ensures forall i, k :: 0 <= i < |outputs| && 0 <= k < w && !(start <= k < stop) ==>
      outputs[i][k] == old(outputs[i][k])
  {
    hide HoldsIn, Batch;
    ghost var data := Contents(inputs);
    var inputRow := 0;
    while inputRow < |inputs|
      invariant Contents(inputs) == data
      invariant inputRow > 0 ==> forall i :: outputRow <= i < outputRow + dimOut ==>
        Holds(rows[i], data, outputs[i], start, stop, Min(inputRow, |inputs|))
      invariant forall i :: 0 <= i < |outputs| && !(outputRow <= i < outputRow + dimOut) ==>
        outputs[i][..] == old(outputs[i][..])
      invariant forall i, k :: 0 <= i < |outputs| && 0 <= k < w && !(start <= k < stop) ==>
        outputs[i][k] == old(outputs[i][k])
    {
      ghost var before := Contents(outputs);
      SetupMatrix(rows, inputRow, outputRow, dimOut, m);
      assert Contents(inputs) == data && forall i :: 0 <= i < |outputs| ==> outputs[i][..] == before[i];
      Parallel512(m[..], rows, inputs, outputs, inputRow, outputRow, dimOut, start, stop, w);
      inputRow := inputRow + DIM_IN;
    }
  }

  // One round: batches of four rows, then two, then one.
  method Round512(rows: seq<Vec>, inputs: seq<array<byte>>, outputs: seq<array<byte>>, start: nat, stop: nat,
                  ghost w: nat)
    requires Buffers(inputs, outputs, w) && Rowed(rows, |outputs|, |inputs|) && start <= stop <= w
    modifies outputs
    ensures Contents(inputs) == old(Contents(inputs))
    ensures forall i :: 0 <= i < |outputs| ==> Holds(rows[i], Contents(inputs), outputs[i], start, stop, |inputs|)
    ensures forall i, k :: 0 <= i < |outputs| && 0 <= k < w && !(start <= k < stop) ==>
      outputs[i][k] == old(outputs[i][k])
  {
    hide HoldsIn;
    ghost var data := Contents(inputs);
    var matrix84, matrix82, matrix81 := new byte[32 * DIM_IN * 4], new byte[32 * DIM_IN * 2], new byte[32 * DIM_IN];
    var outputRow := 0;
    while outputRow + 4 <= |outputs|
      invariant outputRow <= |outputs| && Contents(inputs) == data
      invariant forall i :: 0 <= i < outputRow ==> Holds(rows[i], data, outputs[i], start, stop, |inputs|)
      invariant forall i, k :: 0 <= i < |outputs| && 0 <= k < w && !(start <= k < stop) ==>
        outputs[i][k] == old(outputs[i][k])
    {
      AllInputs512(rows, inputs, outputs, matrix84, outputRow, 4, start, stop, w);
      outputRow := outputRow + 4;
    }
    if outputRow + 2 <= |outputs| {
      AllInputs512(rows, inputs, outputs, matrix82, outputRow, 2, start, stop, w);
      outputRow := outputRow + 2;
    }
    if outputRow < |outputs| {
      AllInputs512(rows, inputs, outputs, matrix81, outputRow, 1, start, stop, w);
    }
  }

  // Rounds of perRound bytes over start0..stop.
  method CodeRange512(rows: seq<Vec>, inputs: seq<array<byte>>, outputs: seq<array<byte>>, start0: nat, stop: nat,
                      o: Options, ghost w: nat)
    requires Buffers(inputs, outputs, w) && Rowed(rows, |outputs|, |inputs|) && start0 <= stop <= w && o.perRound >= 1
    modifies outputs
    ensures Contents(inputs) == old(Contents(inputs))
    ensures forall i :: 0 <= i < |outputs| ==> Holds(rows[i], Contents(inputs), outputs[i], start0, stop, |inputs|)
    ensures forall i, j :: 0 <= i < |outputs| && 0 <= j < w && !(start0 <= j < stop) ==>
      outputs[i][j] == old(outputs[i][j])
  {
    hide Partial;
    ghost var data := Contents(inputs);
    var start, end := start0, start0 + o.perRound;
    if end > stop {
      end := stop;
    }
    while start < stop
      invariant start0 <= start <= end <= stop && (start < stop ==> start < end)
      invariant Contents(inputs) == data
      invariant forall i :: 0 <= i < |outputs| ==> Holds(rows[i], data, outputs[i], start0, start, |inputs|)
      invariant forall i, j :: 0 <= i < |outputs| && 0 <= j < w && !(start0 <= j < stop) ==>
        outputs[i][j] == old(outputs[i][j])
      decreases stop - start
    {
      ghost var before := Contents(outputs);
      Round512(rows, inputs, outputs, start, end, w);
      Extend(rows, data, outputs, before, start0, start, end, w);
      start := end;
      end := end + o.perRound;
      if end > stop {
        end := stop;
      }
    }
  }
}
