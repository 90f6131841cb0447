/** The AVX2 paths: coefficient blocks laid out for the generated kernels, blocks of at most ten
    inputs by ten outputs, and the plan that covers all blocks in either loop order. */
module Avx2 {
  import opened Wrappers
  import opened Galois
  import opened GaloisTables
  import opened LinearAlgebra
  import opened Kernels
  import opened Coding
  import opened TablePool

  const MAX_INPUTS := 10
  const MAX_OUTPUTS := 10
  const CODE_GEN_MIN_SIZE := 64
  const CODE_GEN_MIN_SHARDS := 3
  const MIN_SIZE := 64

  predicate CanAvx2(o: Options, byteCount: int, inputs: int, outputs: int) {
    o.useAVX2 && byteCount >= CODE_GEN_MIN_SIZE && inputs + outputs >= CODE_GEN_MIN_SHARDS &&
    inputs <= MAX_INPUTS && outputs <= MAX_OUTPUTS
  }

  // x & avxSizeMask: the part that is whole 64-byte blocks
  function Whole(x: nat): (r: nat)
    ensures r <= x && x - r < 64 && r % 64 == 0
  {
    x / 64 * 64
  }

  // How long the tables for so many inputs and outputs are.
  function TableBytes(inputs: nat, outputs: nat): nat { inputs * outputs * 64 }

  // Where the 64 table bytes of input j and output i start.
  function Slot(j: nat, i: nat, outputs: nat): nat { (j * outputs + i) * 64 }

  lemma SlotBound(j: nat, i: nat, inputs: nat, outputs: nat)
    requires j < inputs && i < outputs
    ensures Slot(j, i, outputs) + 64 <= inputs * outputs * 64
  {
    assert (j + 1) * outputs <= inputs * outputs;
  }

  lemma SlotSeparate(j: nat, i: nat, j': nat, i': nat, outputs: nat)
    requires i < outputs && i' < outputs && (j != j' || i != i')
    ensures Slot(j, i, outputs) + 64 <= Slot(j', i', outputs) || Slot(j', i', outputs) + 64 <= Slot(j, i, outputs)
  {
    if j < j' {
      assert (j + 1) * outputs <= j' * outputs;
    } else if j' < j {
      assert (j' + 1) * outputs <= j * outputs;
    }
  }

  // The table of 16 products, as stored.
  function LowTable(c: byte): (r: seq<byte>)
    ensures |r| == 16
  {
    seq(16, n requires 0 <= n < 16 => Low(c, ByteOf(n)))
  }

  function HighTable(c: byte): (r: seq<byte>)
    ensures |r| == 16
  {
    seq(16, n requires 0 <= n < 16 => High(c, ByteOf(n)))
  }

  // The 64 bytes stored for coefficient c: both tables, each twice.
  function Tables(c: byte): (r: seq<byte>)
    ensures |r| == 64
  {
    LowTable(c) + LowTable(c) + HighTable(c) + HighTable(c)
  }

  // One table lookup per nibble gives the product.
  lemma TablesLookup(c: byte, x: byte)
    ensures Add(Tables(c)[IntOf(x & 0x0f)], Tables(c)[32 + IntOf(x >> 4)]) == Mul(c, x)
    ensures IntOf(x & 0x0f) < 16 && IntOf(x >> 4) < 16
  {
    hide Add, Mul, Low, High, ByteOf;
    NibbleRange(x);
    ByteOfIntOf(x & 0x0f);
    ByteOfIntOf(x >> 4);
    NibbleLookup(c, x);
  }

  lemma NibbleRange(x: byte)
    ensures IntOf(x & 0x0f) < 16 && IntOf(x >> 4) < 16
  {}

  ghost predicate SlotDone(m: seq<byte>, j: nat, i: nat, outputs: nat, c: byte) {
    Slot(j, i, outputs) + 64 <= |m| && m[Slot(j, i, outputs)..Slot(j, i, outputs) + 64] == Tables(c)
  }

  // coef[i][j] is the coefficient of input j in output i of the block
  ghost predicate Laid(m: seq<byte>, coef: Mat, inputs: nat, outputs: nat)
    requires IsMat(coef, outputs, inputs)
  {
    |m| == inputs * outputs * 64 &&
    forall i, j :: 0 <= i < outputs && 0 <= j < inputs ==> SlotDone(m, j, i, outputs, coef[i][j])
  }

  method CopyAt(dst: array<byte>, at: nat, src: seq<byte>)
    requires at + |src| <= dst.Length
    modifies dst
    ensures dst[at..at + |src|] == src
    ensures forall k :: 0 <= k < dst.Length && !(at <= k < at + |src|) ==> dst[k] == old(dst[k])
  {
    for k := 0 to |src|
      invariant dst[at..at + k] == src[..k]
      invariant forall i :: 0 <= i < dst.Length && !(at <= i < at + k) ==> dst[i] == old(dst[i])
    {
      dst[at + k] := src[k];
    }
  }

  // The four copies into dst[at:at+64].
  method PutTables(dst: array<byte>, at: nat, c: byte)
    requires at + 64 <= dst.Length
    modifies dst
    ensures dst[at..at + 64] == Tables(c)
    ensures forall k :: 0 <= k < dst.Length && !(at <= k < at + 64) ==> dst[k] == old(dst[k])
  {
    hide LowTable, HighTable;
    CopyAt(dst, at, LowTable(c));
    CopyAt(dst, at + 16, LowTable(c));
    assert dst[at..at + 16] == LowTable(c);
    CopyAt(dst, at + 32, HighTable(c));
    assert dst[at..at + 16] == LowTable(c) == dst[at + 16..at + 32];
    CopyAt(dst, at + 48, HighTable(c));
    assert dst[at..at + 16] == LowTable(c) == dst[at + 16..at + 32] && dst[at + 32..at + 48] == HighTable(c);
    assert dst[at..at + 64] == dst[at..at + 16] + dst[at + 16..at + 32] + dst[at + 32..at + 48] + dst[at + 48..at + 64];
  }

  // Writing one slot leaves the others as they were.
  lemma SlotFrame(before: seq<byte>, after: seq<byte>, j: nat, i: nat, j': nat, i': nat, inputs: nat, outputs: nat,
                  c: byte)
    requires |before| == |after| == inputs * outputs * 64
    requires j < inputs && j' < inputs && i < outputs && i' < outputs && (j != j' || i != i')
    requires forall k :: 0 <= k < |after| && !(Slot(j, i, outputs) <= k < Slot(j, i, outputs) + 64) ==>
      after[k] == before[k]
    requires SlotDone(before, j', i', outputs, c)
    ensures SlotDone(after, j', i', outputs, c)
  {
    SlotSeparate(j, i, j', i', outputs);
    SlotBound(j', i', inputs, outputs);
    hide Tables, Slot;
    var s := Slot(j', i', outputs);
    assert after[s..s + 64] == before[s..s + 64];
  }

  ghost predicate RowDone(m: seq<byte>, coef: Vec, i: nat, upto: nat, outputs: nat)
    requires upto <= |coef|
  {
    forall l :: 0 <= l < upto ==> SlotDone(m, l, i, outputs, coef[l])
  }

  // The bytes of the table that begins at `at`.
  ghost function Table(dst: array<byte>, at: nat, len: nat): (r: seq<byte>)
    requires at + len <= dst.Length
    reads dst
    ensures |r| == len
  {
    dst[at..at + len]
  }

  method GenAvx2Row(dst: array<byte>, at: nat, row: Vec, i: nat, outputs: nat, ghost coef: Mat)
    requires i < outputs && at + TableBytes(|row|, outputs) <= dst.Length
    requires i <= |coef| && IsMat(coef, |coef|, |row|)
    requires forall k :: 0 <= k < i ==> RowDone(Table(dst, at, TableBytes(|row|, outputs)), coef[k], k, |row|, outputs)
    modifies dst
    ensures forall k :: 0 <= k < i ==> RowDone(Table(dst, at, TableBytes(|row|, outputs)), coef[k], k, |row|, outputs)
    ensures RowDone(Table(dst, at, TableBytes(|row|, outputs)), row, i, |row|, outputs)
    ensures forall k :: 0 <= k < dst.Length && !(at <= k < at + TableBytes(|row|, outputs)) ==> dst[k] == old(dst[k])
  {
    hide Tables, Slot, SlotDone;
    ghost var want := TableBytes(|row|, outputs);
    for j := 0 to |row|
      invariant forall k :: 0 <= k < i ==> RowDone(Table(dst, at, want), coef[k], k, |row|, outputs)
      invariant RowDone(Table(dst, at, want), row, i, j, outputs)
      invariant forall k :: 0 <= k < dst.Length && !(at <= k < at + want) ==> dst[k] == old(dst[k])
    {
      ghost var before := Table(dst, at, want);
      SlotBound(j, i, |row|, outputs);
      PutTables(dst, at + Slot(j, i, outputs), row[j]);
      ghost var after := Table(dst, at, want);
      forall k, l | 0 <= k < i && 0 <= l < |row|
        ensures SlotDone(after, l, k, outputs, coef[k][l])
      {
        assert RowDone(before, coef[k], k, |row|, outputs);
        SlotFrame(before, after, j, i, l, k, |row|, outputs, coef[k][l]);
      }
      forall l | 0 <= l < j
        ensures SlotDone(after, l, i, outputs, row[l])
      {
        SlotFrame(before, after, j, i, l, i, |row|, outputs, row[l]);
      }
      JustPut(dst, at, want, j, i, outputs, row[j]);
    }
  }

  /** genAvx2Matrix: the tables go into the given slice as far as its capacity allows, whatever its length;
      the result is as long as the tables. */
  method GenAvx2Matrix(coef: Mat, inputs: nat, outputs: nat, dst: Window) returns (m: Window)
    requires IsMat(coef, outputs, inputs) && dst.Inside()
    modifies dst.base
    ensures m.Inside() && m.len == TableBytes(inputs, outputs) && Laid(m.Bytes(), coef, inputs, outputs)
    ensures m.base == dst.base || fresh(m.base)
    ensures dst.Cap() >= TableBytes(inputs, outputs) ==> m == dst.(len := TableBytes(inputs, outputs))
    ensures dst.Cap() < TableBytes(inputs, outputs) ==> m.off == 0 && m.Cap() == TableBytes(inputs, outputs)
    ensures forall k :: 0 <= k < dst.base.Length && !(dst.off <= k < dst.off + TableBytes(inputs, outputs)) ==>
      dst.base[k] == old(dst.base[k])
  {
    hide Tables, Slot, SlotDone;
    var wantBytes := TableBytes(inputs, outputs);
    if dst.Cap() < wantBytes {
      var base := new byte[wantBytes];
      m := Window(base, 0, wantBytes);
    } else {
      m := Window(dst.base, dst.off, wantBytes);
    }
    for i := 0 to outputs
      invariant forall k :: 0 <= k < i ==> RowDone(Table(m.base, m.off, wantBytes), coef[k], k, inputs, outputs)
      invariant forall k :: 0 <= k < dst.base.Length && !(dst.off <= k < dst.off + wantBytes) ==>
        dst.base[k] == old(dst.base[k])
    {
      GenAvx2Row(m.base, m.off, coef[i], i, outputs, coef);
    }
    assert forall i :: 0 <= i < outputs ==> RowDone(m.Bytes(), coef[i], i, inputs, outputs);
  }

  lemma JustPut(dst: array<byte>, at: nat, len: nat, j: nat, i: nat, outputs: nat, c: byte)
    requires at + len <= dst.Length && Slot(j, i, outputs) + 64 <= len
    requires dst[at + Slot(j, i, outputs)..at + Slot(j, i, outputs) + 64] == Tables(c)
    ensures SlotDone(Table(dst, at, len), j, i, outputs, c)
  {
    hide Tables, Slot;
    var s := Slot(j, i, outputs);
    PartOfTable(dst, at, len, s);
  }

  lemma PartOfTable(dst: array<byte>, at: nat, len: nat, s: nat)
    requires at + len <= dst.Length && s + 64 <= len
    ensures Table(dst, at, len)[s..s + 64] == dst[at + s..at + s + 64]
  {
    var all := dst[..];
    assert Table(dst, at, len) == all[at..at + len] && dst[at + s..at + s + 64] == all[at + s..at + s + 64];
    SliceOfSlice(all, at, at + len, s, s + 64);
  }

  // What the kernel reads for input byte x of input j and output i.
  function KernelProduct(m: seq<byte>, s: nat, x: byte): byte
    requires s + 64 <= |m|
  {
    NibbleRange(x);
    Add(m[s + IntOf(x & 0x0f)], m[s + 32 + IntOf(x >> 4)])
  }

  lemma KernelProductIs(m: seq<byte>, j: nat, i: nat, outputs: nat, c: byte, x: byte)
    requires SlotDone(m, j, i, outputs, c)
    ensures KernelProduct(m, Slot(j, i, outputs), x) == Mul(c, x)
  {
    hide Tables, Add, Mul, Slot;
    NibbleRange(x);
    TablesLookup(c, x);
    var s := Slot(j, i, outputs);
    assert m[s..s + 64][IntOf(x & 0x0f)] == m[s + IntOf(x & 0x0f)];
    assert m[s..s + 64][32 + IntOf(x >> 4)] == m[s + 32 + IntOf(x >> 4)];
  }

  // ---- blocks of inputs and outputs ----

  datatype Block = Block(inIdx: nat, inputs: nat, outIdx: nat, outputs: nat)

  ghost predicate Fits(b: Block, inputs: nat, outputs: nat) {
    b.inputs > 0 && b.inIdx + b.inputs <= inputs && b.outIdx + b.outputs <= outputs
  }

  // matrixRows[outIdx:][:outputs], columns inIdx:inIdx+inputs
  function Coefficients(rows: seq<Vec>, b: Block): (r: Mat)
    requires b.outIdx + b.outputs <= |rows|
    requires forall i :: b.outIdx <= i < b.outIdx + b.outputs ==> b.inIdx + b.inputs <= |rows[i]|
    ensures IsMat(r, b.outputs, b.inputs)
  {
    Cols(rows[b.outIdx..b.outIdx + b.outputs], b.inIdx, b.inIdx + b.inputs)
  }

  // One output byte of a kernel: the old value or zero, plus every input of the block.
  method KernelByte(m: seq<byte>, inputs: seq<array<byte>>, first: nat, n: nat, i: nat, outputs: nat, b: nat,
                    acc0: byte,
                    ghost row: Vec, ghost w: nat) returns (acc: byte)
    requires first + n <= |inputs| == |row| && i < outputs && b < w
    requires forall c :: 0 <= c < |inputs| ==> inputs[c].Length == w
    requires RowDone(m, row[first..first + n], i, n, outputs)
    requires acc0 == Partial(row, Contents(inputs), w, first, b)
    ensures acc == Partial(row, Contents(inputs), w, first + n, b)
  {
    hide Partial, Add, Mul, Tables, Slot, SlotDone;
    ghost var data := Contents(inputs);
    acc := acc0;
    for j := 0 to n
      invariant acc == Partial(row, data, w, first + j, b)
    {
      ghost var c := row[first..first + n][j];
      assert SlotDone(m, j, i, outputs, c);
      SlotFits(m, j, i, outputs, c);
      KernelProductIs(m, j, i, outputs, c, inputs[first + j][b]);
      PartialStep(row, data, w, first + j, b);
      acc := Add(acc, KernelProduct(m, Slot(j, i, outputs), inputs[first + j][b]));
    }
  }

  lemma SlotFits(m: seq<byte>, j: nat, i: nat, outputs: nat, c: byte)
    requires SlotDone(m, j, i, outputs, c)
    ensures Slot(j, i, outputs) + 64 <= |m|
  {}

  lemma PartialZero(row: Vec, data: Mat, w: nat, j: nat)
    requires IsMat(data, |row|, w) && j < w
    ensures Partial(row, data, w, 0, j) == 0
  {}

  method KernelRow(m: seq<byte>, inputs: seq<array<byte>>, blk: Block, i: nat, out: array<byte>, start: nat, n: nat,
                   ghost row: Vec)
    requires blk.inIdx + blk.inputs <= |inputs| == |row| && i < blk.outputs && start + n <= out.Length
    requires forall c :: 0 <= c < |inputs| ==> inputs[c].Length == out.Length && inputs[c] != out
    requires RowDone(m, row[blk.inIdx..blk.inIdx + blk.inputs], i, blk.inputs, blk.outputs)
    requires blk.inIdx > 0 ==> Holds(row, Contents(inputs), out, start, start + n, blk.inIdx)
    modifies out
    ensures Contents(inputs) == old(Contents(inputs))
    ensures Holds(row, Contents(inputs), out, start, start + n, blk.inIdx + blk.inputs)
    ensures forall k :: 0 <= k < out.Length && !(start <= k < start + n) ==> out[k] == old(out[k])
  {
    hide Partial, RowDone;
    ghost var data := Contents(inputs);
    for b := start to start + n
      invariant Contents(inputs) == data
      invariant Holds(row, data, out, start, b, blk.inIdx + blk.inputs)
      invariant forall k :: 0 <= k < out.Length && !(start <= k < b) ==> out[k] == old(out[k])
    {
      PartialZero(row, data, out.Length, b);
      out[b] := KernelByte(m, inputs, blk.inIdx, blk.inputs, i, blk.outputs, b, if blk.inIdx > 0 then out[b]
        else 0, row, out.Length);
    }
  }

  /** The contract of a generated kernel, as a reference loop: on the whole 64-byte part of
      start..stop, every output of the block is set (first inputs) or added to (later inputs). */
  method Avx2Kernel(m: seq<byte>, rows: seq<Vec>, inputs: seq<array<byte>>, outputs: seq<array<byte>>,
                    b: Block, start: nat, stop: nat, ghost w: nat) returns (n: nat)
    requires Buffers(inputs, outputs, w) && Rowed(rows, |outputs|, |inputs|) && start <= stop <= w
    requires Fits(b, |inputs|, |outputs|) && Laid(m, Coefficients(rows, b), b.inputs, b.outputs)
    requires b.inIdx > 0 ==> forall i :: b.outIdx <= i < b.outIdx + b.outputs ==>
      Holds(rows[i], Contents(inputs), outputs[i], start, start + Whole(stop - start), b.inIdx)
    modifies outputs
    ensures n == Whole(stop - start) && Contents(inputs) == old(Contents(inputs))
    ensures forall i :: b.outIdx <= i < b.outIdx + b.outputs ==>
      Holds(rows[i], Contents(inputs), outputs[i], start, start + n, b.inIdx + b.inputs)
    ensures forall i :: 0 <= i < |outputs| && !(b.outIdx <= i < b.outIdx + b.outputs) ==>
      outputs[i][..] == old(outputs[i][..])
    ensures forall i, k :: 0 <= i < |outputs| && 0 <= k < w && !(start <= k < start + n) ==>
      outputs[i][k] == old(outputs[i][k])
  {
    hide Partial, SlotDone;
    n := Whole(stop - start);
    ghost var data := Contents(inputs);
    for r := b.outIdx to b.outIdx + b.outputs
      invariant Contents(inputs) == data
      invariant forall i :: b.outIdx <= i < r ==> Holds(rows[i], data, outputs[i], start, start + n, b.inIdx + b.inputs)
      invariant b.inIdx > 0 ==> forall i :: r <= i < b.outIdx + b.outputs ==>
        Holds(rows[i], data, outputs[i], start, start + n, b.inIdx)
      invariant forall i :: 0 <= i < |outputs| && !(b.outIdx <= i < r) ==> outputs[i][..] == old(outputs[i][..])
      invariant forall i, k :: 0 <= i < |outputs| && 0 <= k < w && !(start <= k < start + n) ==>
        outputs[i][k] == old(outputs[i][k])
    {
      LaidRow(m, rows, b, r);
      KernelRow(m, inputs, b, r - b.outIdx, outputs[r], start, n, rows[r]);
    }
  }

  lemma LaidRow(m: seq<byte>, rows: seq<Vec>, b: Block, r: nat)
    requires b.outIdx <= r < b.outIdx + b.outputs <= |rows|
    requires forall i :: b.outIdx <= i < b.outIdx + b.outputs ==> b.inIdx + b.inputs <= |rows[i]|
    requires Laid(m, Coefficients(rows, b), b.inputs, b.outputs)
    ensures RowDone(m, rows[r][b.inIdx..b.inIdx + b.inputs], r - b.outIdx, b.inputs, b.outputs)
  {
    hide SlotDone;
    assert Coefficients(rows, b)[r - b.outIdx] == rows[r][b.inIdx..b.inIdx + b.inputs];
  }
}
