/** codeSomeShards: output row i becomes the combination of all inputs with matrix row i.
    Tiles of `perRound` bytes; within a tile the first input sets the output and the others are
    added to it.  A vector prefix may take whole 64-byte blocks of all rows at once. */
module Coding {
  import opened Galois
  import opened GaloisTables
  import opened LinearAlgebra
  import opened Kernels

  // Equal lengths; outputs are separate from each other and from the inputs.
  ghost predicate Buffers(inputs: seq<array<byte>>, outputs: seq<array<byte>>, w: nat) {
    && |inputs| > 0
    && (forall c :: 0 <= c < |inputs| ==> inputs[c].Length == w)
    && (forall i :: 0 <= i < |outputs| ==> outputs[i].Length == w)
    && (forall i, k :: 0 <= i < k < |outputs| ==> outputs[i] != outputs[k])
    && (forall i, c :: 0 <= i < |outputs| && 0 <= c < |inputs| ==> outputs[i] != inputs[c])
  }

  ghost function Contents(arrs: seq<array<byte>>): (r: Mat)
    reads arrs
    ensures |r| == |arrs| && forall c :: 0 <= c < |arrs| ==> r[c] == arrs[c][..]
  {
    seq(|arrs|, c requires 0 <= c < |arrs| reads arrs => arrs[c][..])
  }

  // One matrix row per output, one coefficient per input.
  ghost predicate Rowed(rows: seq<Vec>, outputs: nat, inputs: nat) {
    |rows| >= outputs && forall i :: 0 <= i < outputs ==> |rows[i]| == inputs
  }

  // Byte j of the combination of the first n inputs.
  ghost function Partial(row: Vec, data: Mat, w: nat, n: nat, j: nat): byte
    requires IsMat(data, |row|, w) && n <= |row| && j < w
  {
    CombTo(row, data, w, n)[j]
  }

  lemma PartialStep(row: Vec, data: Mat, w: nat, n: nat, j: nat)
    requires IsMat(data, |row|, w) && n < |row| && j < w
    ensures Partial(row, data, w, n + 1, j) == Add(Partial(row, data, w, n, j), Mul(row[n], data[n][j]))
    ensures n == 0 ==> Partial(row, data, w, 1, j) == Mul(row[0], data[0][j])
  {
    hide Add, Mul;
    AddZero(Mul(row[n], data[n][j]));
  }

  // Bytes lo..hi hold the combination of the first n inputs.
  ghost predicate HoldsIn(row: Vec, data: Mat, bytes: seq<byte>, lo: int, hi: int, n: nat)
    requires IsMat(data, |row|, |bytes|) && n <= |row| && 0 <= lo && hi <= |bytes|
  {
    forall j :: lo <= j < hi ==> bytes[j] == Partial(row, data, |bytes|, n, j)
  }

  ghost predicate Holds(row: Vec, data: Mat, out: array<byte>, lo: int, hi: int, n: nat)
    requires IsMat(data, |row|, out.Length) && n <= |row| && 0 <= lo && hi <= out.Length
    reads out
  {
    HoldsIn(row, data, out[..], lo, hi, n)
  }

  // One call of the innermost statement: input c into one output row, set or added.
  method MulInto(row: Vec, c: nat, in_: array<byte>, out: array<byte>, lo: nat, hi: nat, o: Options, ghost data: Mat)
    requires lo <= hi <= out.Length == in_.Length && in_ != out
    requires IsMat(data, |row|, out.Length) && c < |row| && data[c] == in_[..]
    requires c > 0 ==> Holds(row, data, out, lo, hi, c)
    modifies out
    ensures Holds(row, data, out, lo, hi, c + 1)
    ensures forall j :: 0 <= j < out.Length && !(lo <= j < hi) ==> out[j] == old(out[j])
  {
    hide Partial, Add, Mul;
    forall j | lo <= j < hi
      ensures Partial(row, data, out.Length, c + 1, j) == Add(Partial(row, data, out.Length, c, j), Mul(row[c], in_[j]))
      ensures c == 0 ==> Partial(row, data, out.Length, 1, j) == Mul(row[0], in_[j])
    {
      PartialStep(row, data, out.Length, c, j);
    }
    if c == 0 {
      GalMulSlice(row[c], in_, out, lo, hi, o);
    } else {
      GalMulSliceXor(row[c], in_, out, lo, hi, o);
    }
  }

  // The two nested loops over one tile lo..hi.
  method CodeTile(rows: seq<Vec>, inputs: seq<array<byte>>, outputs: seq<array<byte>>, lo: nat, hi: nat, o: Options,
                  ghost w: nat)
    requires Buffers(inputs, outputs, w) && Rowed(rows, |outputs|, |inputs|) && lo <= hi <= w
    modifies outputs
    ensures Contents(inputs) == old(Contents(inputs))
    ensures forall i :: 0 <= i < |outputs| ==> Holds(rows[i], Contents(inputs), outputs[i], lo, hi, |inputs|)
    ensures forall i, j :: 0 <= i < |outputs| && 0 <= j < w && !(lo <= j < hi) ==> outputs[i][j] == old(outputs[i][j])
  {
    hide Partial;
    ghost var data := Contents(inputs);
    for c := 0 to |inputs|
      invariant Contents(inputs) == data
      invariant c > 0 ==> forall i :: 0 <= i < |outputs| ==> Holds(rows[i], data, outputs[i], lo, hi, c)
      invariant forall i, j :: 0 <= i < |outputs| && 0 <= j < w && !(lo <= j < hi) ==>
        outputs[i][j] == old(outputs[i][j])
    {
      for iRow := 0 to |outputs|
        invariant Contents(inputs) == data
        invariant forall i :: 0 <= i < iRow ==> Holds(rows[i], data, outputs[i], lo, hi, c + 1)
        invariant c > 0 ==> forall i :: iRow <= i < |outputs| ==> Holds(rows[i], data, outputs[i], lo, hi, c)
        invariant forall i, j :: 0 <= i < |outputs| && 0 <= j < w && !(lo <= j < hi) ==>
          outputs[i][j] == old(outputs[i][j])
      {
        MulInto(rows[iRow], c, inputs[c], outputs[iRow], lo, hi, o, data);
      }
    }
  }

  // A range done before, unchanged since, and the next range done now make one range.
  lemma Extend(rows: seq<Vec>, data: Mat, outputs: seq<array<byte>>, before: Mat, lo: nat, mid: nat, hi: nat, w: nat)
    requires lo <= mid <= hi <= w && Rowed(rows, |outputs|, |data|) && IsMat(before, |outputs|, w) &&
      IsMat(data, |data|, w)
    requires forall i :: 0 <= i < |outputs| ==> outputs[i].Length == w
    requires forall i :: 0 <= i < |outputs| ==> HoldsIn(rows[i], data, before[i], lo, mid, |data|)
    requires forall i :: 0 <= i < |outputs| ==> Holds(rows[i], data, outputs[i], mid, hi, |data|)
    requires forall i, j :: 0 <= i < |outputs| && 0 <= j < w && !(mid <= j < hi) ==> outputs[i][j] == before[i][j]
    ensures forall i :: 0 <= i < |outputs| ==> Holds(rows[i], data, outputs[i], lo, hi, |data|)
  {
    hide Partial;
  }

  // Tiles of perRound bytes start0 `start0` to `stop`.
  method CodeRange(rows: seq<Vec>, inputs: seq<array<byte>>, outputs: seq<array<byte>>, start0: nat, stop: nat,
                   o: Options, ghost w: nat)
    requires Buffers(inputs, outputs, w) && Rowed(rows, |outputs|, |inputs|) && start0 <= stop <= w && o.perRound >= 1
    modifies outputs
    ensures Contents(inputs) == old(Contents(inputs))
    ensures forall i :: 0 <= i < |outputs| ==> Holds(rows[i], Contents(inputs), outputs[i], start0, stop, |inputs|)
    ensures forall i, j :: 0 <= i < |outputs| && 0 <= j < w && !(start0 <= j < stop) ==>
      outputs[i][j] == old(outputs[i][j])
  {
    hide Partial;
    ghost var data := Contents(inputs);
    var start, end := start0, start0 + o.perRound;
    if end > stop {
      end := stop;
    }
    while start < stop
      invariant start0 <= start <= end <= stop && (start < stop ==> start < end)
      invariant Contents(inputs) == data
      invariant forall i :: 0 <= i < |outputs| ==> Holds(rows[i], data, outputs[i], start0, start, |inputs|)
      invariant forall i, j :: 0 <= i < |outputs| && 0 <= j < w && !(start0 <= j < stop) ==>
        outputs[i][j] == old(outputs[i][j])
      decreases stop - start
    {
      ghost var before := Contents(outputs);
      CodeTile(rows, inputs, outputs, start, end, o, w);
      Extend(rows, data, outputs, before, start0, start, end, w);
      start := end;
      end := end + o.perRound;
      if end > stop {
        end := stop;
      }
    }
  }
}
