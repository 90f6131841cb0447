/** Parity kept up to date when data changes: Update.  Go bounds the upper index of a slice expression by the
    capacity, and Update does not compare new sizes with old ones, so shards come with their capacity here. */
module Updating {
  import opened Wrappers
  import opened Galois
  import opened GaloisTables
  import opened LinearAlgebra
  import opened Kernels
  import opened Coding
  import opened Parallel
  import opened CodeShards
  import opened Generator
  import opened Shards
  import opened TableUse
  import opened Recovery
  import RS = ReedSolomon

  // A slice: base is the memory that it can reach, from its first byte to its capacity.
  datatype Buffer = Nil | Buffer(base: array<byte>, len: nat) {
    ghost predicate Inside() { Buffer? ==> len <= base.Length }

    function Len(): nat { if Nil? then 0 else len }

    function Cap(): nat { if Nil? then 0 else base.Length }

    ghost function Bytes(): (r: Vec)
      requires Inside()
      reads if Nil? then {} else {base}
      ensures |r| == Len()
    {
      if Nil? then [] else base[..len]
    }
  }

  // ---- sliceXor and galMulSliceXor on slices of different lengths ----

  // The vector kernel takes whole blocks of what comes in, which must lie inside the output; the rest may lie
  // within its capacity.
  predicate Reaches(n: nat, len: int, cap: int, block: nat) { (block > 0 ==> Blocks(n, block) <= len) && n <= cap }

  function XorBlock(o: Options): nat { if o.useSSE2 then 16 else 0 }

  function MulBlock(c: byte, o: Options): nat {
    if c == 1 then XorBlock(o) else if o.useAVX2 then 32 else if o.useSSSE3 then 16 else 0
  }

  lemma WholeBlocks(n: nat, block: nat)
    requires block == 16 || block == 32 || block == 64
    ensures Blocks(Blocks(n, block), block) == Blocks(n, block) && (n < block ==> Blocks(n, block) == 0)
  {}

  // Large blocks first and small ones behind them come to the same.
  lemma BlocksInSteps(n: nat, block: nat)
    requires block == 16 || block == 32
    ensures Blocks(n, 64) + Blocks(n - Blocks(n, 64), block) == Blocks(n, block)
  {
    var q, r := n / 64, n % 64;
    assert n == q * 64 + r;
    if block == 32 {
      assert n / 32 == q * 2 + r / 32;
    } else {
      assert n / 16 == q * 4 + r / 16;
    }
  }

  lemma BlocksOf(n: nat, block: nat)
    requires block == 16 || block == 32
    ensures Blocks(Blocks(n, 64), 64) == Blocks(n, 64) && Blocks(Blocks(n, block), block) == Blocks(n, block)
    ensures Blocks(n, 64) + Blocks(n - Blocks(n, 64), block) == Blocks(n, block)
    ensures n < block ==> Blocks(n, block) == 0
  {
    WholeBlocks(n, 64);
    WholeBlocks(n, block);
    BlocksInSteps(n, block);
  }

  /** sliceXor of in[lo:n] into out[lo:len]. */
  method XorInto(in_: array<byte>, out: array<byte>, lo: nat, n: nat, len: nat, o: Options) returns (panics: bool)
    requires lo <= n <= in_.Length && lo <= len <= out.Length && in_ != out
    modifies out
    ensures panics <==> !Reaches(n - lo, len - lo, out.Length - lo, XorBlock(o))
    ensures !panics ==> n <= out.Length && forall j :: lo <= j < n ==> out[j] == Add(old(out[j]), in_[j])
    ensures !panics ==> forall j :: 0 <= j < out.Length && !(lo <= j < n) ==> out[j] == old(out[j])
  {
    hide Add, Blocks;
    var pos := lo;
    BlocksOf(n - lo, 16);
    if o.useSSE2 {
      if n - pos >= BIG_SWITCHOVER {
        var done := Blocks(n - pos, 64);
        if pos + done > len {
          return true;
        }
        done := XorKernel(in_, out, pos, pos + done, 64);
        pos := pos + done;
      }
      BlocksOf(n - pos, 16);
      if n - pos >= 16 {
        var done := Blocks(n - pos, 16);
        if pos + done > len {
          return true;
        }
        done := XorKernel(in_, out, pos, pos + done, 16);
        pos := pos + done;
      }
    }
    if n > out.Length {
      return true;
    }
    for j := pos to n
      invariant forall k :: lo <= k < j ==> out[k] == Add(old(out[k]), in_[k])
      invariant forall k :: 0 <= k < out.Length && !(lo <= k < j) ==> out[k] == old(out[k])
    {
      out[j] := Add(out[j], in_[j]);
    }
    return false;
  }

  // The vector kernels of galMulSliceXor, up to pos.
  method MulVector(c: byte, in_: array<byte>, out: array<byte>, lo: nat, n: nat, len: nat, o: Options)
    returns (panics: bool, pos: nat)
    requires lo <= n <= in_.Length && lo <= len <= out.Length && in_ != out && c != 1
    modifies out
    ensures panics <==> MulBlock(c, o) > 0 && Blocks(n - lo, MulBlock(c, o)) > len - lo
    ensures !panics ==> pos == lo + (if MulBlock(c, o) > 0 then Blocks(n - lo, MulBlock(c, o)) else 0) <= n
    ensures !panics ==> pos <= out.Length && forall j :: lo <= j < pos ==> out[j] == Add(old(out[j]), Mul(c, in_[j]))
    ensures !panics ==> forall j :: 0 <= j < out.Length && !(lo <= j < pos) ==> out[j] == old(out[j])
  {
    hide Add, Mul, Blocks;
    pos := lo;
    BlocksOf(n - lo, if o.useAVX2 then 32 else 16);
    if o.useAVX2 {
      if n - pos >= BIG_SWITCHOVER {
        var done := Blocks(n - pos, 64);
        if pos + done > len {
          return true, pos;
        }
        done := MulXorKernel(c, in_, out, pos, pos + done, 64);
        pos := pos + done;
      }
      BlocksOf(n - pos, 32);
      if n - pos >= 32 {
        var done := Blocks(n - pos, 32);
        if pos + done > len {
          return true, pos;
        }
        done := MulXorKernel(c, in_, out, pos, pos + done, 32);
        pos := pos + done;
      }
    } else if o.useSSSE3 {
      var done := Blocks(n - pos, 16);
      if pos + done > len {
        return true, pos;
      }
      done := MulXorKernel(c, in_, out, pos, pos + done, 16);
      pos := pos + done;
    }
    return false, pos;
  }

  /** galMulSliceXor of in[lo:n] into out[lo:len]. */
  method MulXorInto(c: byte, in_: array<byte>, out: array<byte>, lo: nat, n: nat, len: nat, o: Options)
    returns (panics: bool)
    requires lo <= n <= in_.Length && lo <= len <= out.Length && in_ != out
    modifies out
    ensures panics <==> !Reaches(n - lo, len - lo, out.Length - lo, MulBlock(c, o))
    ensures !panics ==> n <= out.Length && forall j :: lo <= j < n ==> out[j] == Add(old(out[j]), Mul(c, in_[j]))
    ensures !panics ==> forall j :: 0 <= j < out.Length && !(lo <= j < n) ==> out[j] == old(out[j])
  {
    hide Add, Mul, Blocks, GalMultiply;
    if c == 1 {
      forall j | lo <= j < n
        ensures Mul(c, in_[j]) == in_[j]
      {
        MulOne(in_[j]);
      }
      panics := XorInto(in_, out, lo, n, len, o);
      return;
    }
    var pos;
    panics, pos := MulVector(c, in_, out, lo, n, len, o);
    if panics {
      return;
    }
    if pos == n {
      return false;
    }
    if n > out.Length {
      return true;
    }
    for j := pos to n
      invariant forall k :: lo <= k < j ==> out[k] == Add(old(out[k]), Mul(c, in_[k]))
      invariant forall k :: 0 <= k < out.Length && !(lo <= k < j) ==> out[k] == old(out[k])
    {
      out[j] := Add(out[j], GalMultiply(c, in_[j]));
    }
    return false;
  }

  // ---- what comes in and what goes on ----

  // Bytes 0..w of a shard go on to the parity; split over goroutines, every slice is cut at positions up to w
  // whatever its length.
  datatype Form = Form(w: nat, split: bool) {
    function Reach(b: Buffer): nat { if split then w else b.Len() }

    // Where a goroutine that works up to hi stops.
    function Stop(b: Buffer, hi: nat): nat { if split then hi else b.Len() }
  }

  // sliceXor panics, for a range of bytes that ends at hi.
  predicate XorBreaks(f: Form, hi: nat, in_: Buffer, was: Buffer, o: Options) {
    if f.split then hi > in_.Cap() || hi > was.Cap() else !Reaches(in_.Len(), was.Len(), was.Cap(), XorBlock(o))
  }

  // galMulSliceXor panics.
  predicate MulBreaks(f: Form, hi: nat, c: byte, was: Buffer, out: Buffer, o: Options) {
    if f.split then hi > out.Cap() else !Reaches(was.Len(), out.Len(), out.Cap(), MulBlock(c, o))
  }

  // What data shard c brings to the range.
  ghost predicate ShardBreaks(f: Form, hi: nat, rows: seq<Vec>, c: int, olds: seq<Buffer>, news: seq<Buffer>,
                              outs: seq<Buffer>, o: Options)
    requires |olds| == |news| && Rowed(rows, |outs|, |olds|)
  {
    0 <= c < |news| && news[c].Buffer? &&
    (XorBreaks(f, hi, news[c], olds[c], o) ||
     exists i :: 0 <= i < |outs| && MulBreaks(f, hi, rows[i][c], olds[c], outs[i], o))
  }

  ghost predicate Breaks(f: Form, hi: nat, rows: seq<Vec>, olds: seq<Buffer>, news: seq<Buffer>, outs: seq<Buffer>,
                         o: Options)
    requires |olds| == |news| && Rowed(rows, |outs|, |olds|)
  {
    exists c :: ShardBreaks(f, hi, rows, c, olds, news, outs, o)
  }

  // Something of shard c goes on to the parity.
  ghost predicate Live(f: Form, olds: seq<Buffer>, news: seq<Buffer>, c: int)
    requires |olds| == |news|
  {
    0 <= c < |news| && news[c].Buffer? && f.Reach(olds[c]) > 0
  }

  // The byte of a slice's memory, as far as it is reached.
  ghost function ByteAt(b: Buffer, reach: nat, j: int): byte
    reads if b.Nil? then {} else {b.base}
  {
    if 0 <= j < reach && j < b.Cap() then b.base[j] else 0
  }

  // All slices have memory of their own; changed shards and parity are not nil, and are w long or empty.
  ghost predicate Ready(f: Form, olds: seq<Buffer>, news: seq<Buffer>, outs: seq<Buffer>) {
    && |olds| == |news| && f.w > 0
    && (forall c :: 0 <= c < |olds| ==> olds[c].Inside() && news[c].Inside() && olds[c].Len() in {0, f.w})
    && (forall c :: 0 <= c < |olds| && news[c].Buffer? ==> olds[c].Buffer?)
    && (forall i :: 0 <= i < |outs| ==> outs[i].Buffer? && outs[i].Inside() && outs[i].len in {0, f.w})
    && (forall c, k :: 0 <= c < k < |olds| && olds[c].Buffer? && olds[k].Buffer? ==> olds[c].base != olds[k].base)
    && (forall i, k :: 0 <= i < k < |outs| ==> outs[i].base != outs[k].base)
    && (forall c, i :: 0 <= c < |olds| && 0 <= i < |outs| && olds[c].Buffer? ==> olds[c].base != outs[i].base)
    && (forall c, i :: 0 <= c < |news| && 0 <= i < |outs| && news[c].Buffer? ==> news[c].base != outs[i].base)
    && (forall c, k :: 0 <= c < |news| && 0 <= k < |olds| && news[c].Buffer? && olds[k].Buffer? ==>
         news[c].base != olds[k].base)
  }

  // The memory that Update writes to.
  ghost function Touched(olds: seq<Buffer>, news: seq<Buffer>, outs: seq<Buffer>): set<array<byte>>
    requires |olds| == |news|
  {
    (set c | 0 <= c < |olds| && news[c].Buffer? && olds[c].Buffer? :: olds[c].base) +
    (set i | 0 <= i < |outs| && outs[i].Buffer? :: outs[i].base)
  }

  // The changes D, and the memory P behind the parity shards as it was.
  ghost predicate Fits(D: Mat, P: seq<Vec>, f: Form, rows: seq<Vec>, olds: seq<Buffer>, news: seq<Buffer>,
                       outs: seq<Buffer>)
  {
    && Ready(f, olds, news, outs) && IsMat(D, |olds|, f.w) && Rowed(rows, |outs|, |olds|) && |P| == |outs|
    && forall i :: 0 <= i < |outs| ==> |P[i]| == outs[i].base.Length
  }

  // Row c of D: old plus new where shard c changes, zero elsewhere.
  ghost predicate IsDelta(D: Mat, f: Form, olds: seq<Buffer>, news: seq<Buffer>, lo: nat, hi: nat)
    requires |olds| == |news| && IsMat(D, |olds|, f.w) && hi <= f.w
    reads set c | 0 <= c < |olds| && olds[c].Buffer? :: olds[c].base
    reads set c | 0 <= c < |news| && news[c].Buffer? :: news[c].base
  {
    && (forall c :: 0 <= c < |news| && !Live(f, olds, news, c) ==> D[c] == Zeros(f.w))
    && forall c, j :: Live(f, olds, news, c) && lo <= j < hi ==>
         D[c][j] == Add(ByteAt(olds[c], f.w, j), ByteAt(news[c], f.Reach(news[c]), j))
  }

  // Bytes lo..hi after the changes of the first c data shards.
  ghost predicate Applied(D: Mat, P: seq<Vec>, f: Form, rows: seq<Vec>, olds: seq<Buffer>, news: seq<Buffer>,
                          outs: seq<Buffer>, c: nat, lo: nat, hi: nat)
    requires Fits(D, P, f, rows, olds, news, outs) && hi <= f.w && c <= |olds|
    reads set c | 0 <= c < |olds| && olds[c].Buffer? :: olds[c].base
    reads set i | 0 <= i < |outs| && outs[i].Buffer? :: outs[i].base
  {
    && (forall k, j :: k < c && Live(f, olds, news, k) && lo <= j < hi && j < olds[k].Cap() ==>
         olds[k].base[j] == D[k][j])
    && (forall i, j :: 0 <= i < |outs| && lo <= j < hi && j < outs[i].Cap() ==>
         outs[i].base[j] == Add(P[i][j], Partial(rows[i], D, f.w, c, j)))
  }

  lemma NextDelta(row: Vec, D: Mat, w: nat, c: nat, p: byte, j: nat)
    requires IsMat(D, |row|, w) && c < |row| && j < w
    ensures Add(p, Partial(row, D, w, c + 1, j)) == Add(Add(p, Partial(row, D, w, c, j)), Mul(row[c], D[c][j]))
    ensures D[c][j] == 0 ==> Partial(row, D, w, c + 1, j) == Partial(row, D, w, c, j)
  {
    hide Add, Mul, Partial;
    PartialStep(row, D, w, c, j);
    AddAssoc(p, Partial(row, D, w, c, j), Mul(row[c], D[c][j]));
    MulZero(row[c]);
    AddZero(Partial(row, D, w, c, j));
  }

  // sliceXor of what comes in into the old shard, for bytes lo..hi.
  method XorIn(f: Form, in_: Buffer, was: Buffer, lo: nat, hi: nat, o: Options) returns (panics: bool)
    requires in_.Buffer? && was.Buffer? && in_.Inside() && was.Inside() && in_.base != was.base
    requires lo <= hi <= f.w && (!f.split ==> lo == 0 && hi == f.w)
    modifies was.base
    ensures panics <==> XorBreaks(f, hi, in_, was, o)
    ensures !panics ==> forall j :: lo <= j < hi && j < was.Cap() ==>
      was.base[j] == Add(old(was.base[j]), ByteAt(in_, f.Reach(in_), j))
    ensures !panics ==> forall j :: 0 <= j < f.w && j < was.Cap() && !(lo <= j < hi) ==> was.base[j] == old(was.base[j])
  {
    hide Add, Reaches;
    if f.split && (hi > in_.Cap() || hi > was.Cap()) {
      return true;
    }
    var n, len := f.Stop(in_, hi), f.Stop(was, hi);
    if f.split {
      EqualReaches(hi - lo, was.Cap() - lo, XorBlock(o));
    }
    panics := XorInto(in_.base, was.base, lo, n, len, o);
    if !panics {
      forall j | n <= j < hi && j < was.Cap()
        ensures was.base[j] == Add(old(was.base[j]), 0)
      {
        AddZero(was.base[j]);
      }
    }
  }

  lemma EqualReaches(n: nat, cap: int, block: nat)
    requires n <= cap
    ensures Reaches(n, n, cap, block)
  {}

  // Which bytes a goroutine, or the serial form, works on.
  ghost predicate Range(f: Form, lo: nat, hi: nat) { lo <= hi <= f.w && (!f.split ==> lo == 0 && hi == f.w) }

  // galMulSliceXor of the changed shard into one parity shard, for bytes lo..hi.
  method MulIn(f: Form, coef: byte, was: Buffer, out: Buffer, lo: nat, hi: nat, o: Options) returns (panics: bool)
    requires was.Buffer? && out.Buffer? && was.Inside() && out.Inside() && was.base != out.base
    requires Range(f, lo, hi) && was.len in {0, f.w} && (f.split ==> hi <= was.Cap())
    modifies out.base
    ensures panics <==> MulBreaks(f, hi, coef, was, out, o)
    ensures !panics && f.Reach(was) > 0 ==> hi <= out.Cap() && forall j :: lo <= j < hi ==>
      out.base[j] == Add(old(out.base[j]), Mul(coef, was.base[j]))
    ensures !panics && f.Reach(was) == 0 ==> out.base[..] == old(out.base[..])
    ensures !panics ==> forall j :: 0 <= j < f.w && j < out.Cap() && !(lo <= j < hi) ==> out.base[j] == old(out.base[j])
  {
    hide Add, Mul, Reaches;
    if f.split && hi > out.Cap() {
      return true;
    }
    if f.split {
      EqualReaches(hi - lo, out.Cap() - lo, MulBlock(coef, o));
    }
    panics := MulXorInto(coef, was.base, out.base, lo, f.Stop(was, hi), f.Stop(out, hi), o);
    assert !panics && f.Reach(was) == 0 ==> out.base[..] == old(out.base[..]);
  }

  // Bytes lo..hi of shard c hold its change.
  ghost predicate Changed(D: Mat, f: Form, was: Buffer, c: nat, lo: nat, hi: nat)
    requires was.Buffer? && c < |D| && |D[c]| == f.w && hi <= f.w
    reads was.base
  {
    if f.Reach(was) > 0 then forall j :: lo <= j < hi && j < was.Cap() ==> was.base[j] == D[c][j]
    else D[c] == Zeros(f.w)
  }

  // Bytes lo..hi of a parity shard after the changes of the first c data shards.
  ghost predicate Row(D: Mat, p: Vec, w: nat, row: Vec, out: Buffer, c: nat, lo: nat, hi: nat)
    requires IsMat(D, |row|, w) && c <= |row| && out.Buffer? && |p| == out.base.Length && hi <= w
    reads out.base
  {
    forall j :: lo <= j < hi && j < out.Cap() ==> out.base[j] == Add(p[j], Partial(row, D, w, c, j))
  }

  // The change of shard c goes into one parity row.
  method MulRow(f: Form, row: Vec, c: nat, was: Buffer, out: Buffer, lo: nat, hi: nat, o: Options, ghost D: Mat,
                ghost p: Vec)
    returns (panics: bool)
    requires IsMat(D, |row|, f.w) && c < |row| && out.Buffer? && |p| == out.base.Length && Range(f, lo, hi)
    requires was.Buffer? && was.Inside() && out.Inside() && was.base != out.base && was.len in {0, f.w}
    requires (f.split ==> hi <= was.Cap()) && Changed(D, f, was, c, lo, hi) && Row(D, p, f.w, row, out, c, lo, hi)
    modifies out.base
    ensures panics <==> MulBreaks(f, hi, row[c], was, out, o)
    ensures !panics ==> Row(D, p, f.w, row, out, c + 1, lo, hi)
    ensures !panics ==> forall j :: 0 <= j < f.w && j < out.Cap() && !(lo <= j < hi) ==> out.base[j] == old(out.base[j])
  {
    hide Add, Mul, Partial, Reaches;
    NextDeltas(row, D, f.w, c, p, lo, hi);
    panics := MulIn(f, row[c], was, out, lo, hi, o);
    if !panics && f.Reach(was) == 0 {
      assert forall j :: 0 <= j < out.Cap() ==> out.base[j] == out.base[..][j];
    }
  }

  // The change of shard c goes into every parity row.
  method MulRows(f: Form, rows: seq<Vec>, c: nat, was: Buffer, outs: seq<Buffer>, lo: nat, hi: nat, o: Options,
                 ghost D: Mat, ghost P: seq<Vec>)
    returns (panics: bool)
    requires IsMat(D, |D|, f.w) && c < |D| && Rowed(rows, |outs|, |D|) && |P| == |outs| && Range(f, lo, hi)
    requires was.Buffer? && was.Inside() && was.len in {0, f.w} && (f.split ==> hi <= was.Cap())
    requires forall i :: 0 <= i < |outs| ==>
      outs[i].Buffer? && outs[i].Inside() && outs[i].base != was.base && |P[i]| == outs[i].base.Length
    requires forall i, k :: 0 <= i < k < |outs| ==> outs[i].base != outs[k].base
    requires Changed(D, f, was, c, lo, hi)
    requires forall i :: 0 <= i < |outs| ==> Row(D, P[i], f.w, rows[i], outs[i], c, lo, hi)
    modifies set i | 0 <= i < |outs| && outs[i].Buffer? :: outs[i].base
    ensures panics <==> exists i :: 0 <= i < |outs| && MulBreaks(f, hi, rows[i][c], was, outs[i], o)
    ensures !panics ==> forall i :: 0 <= i < |outs| ==> Row(D, P[i], f.w, rows[i], outs[i], c + 1, lo, hi)
    ensures !panics ==> forall i, j :: 0 <= i < |outs| && 0 <= j < f.w && j < outs[i].Cap() && !(lo <= j < hi) ==>
      outs[i].base[j] == old(outs[i].base[j])
  {
    hide Row, Changed, Reaches, MulBreaks;
    for iRow := 0 to |outs|
      invariant forall i :: 0 <= i < iRow ==> !MulBreaks(f, hi, rows[i][c], was, outs[i], o)
      invariant Changed(D, f, was, c, lo, hi)
      invariant forall i :: 0 <= i < iRow ==> Row(D, P[i], f.w, rows[i], outs[i], c + 1, lo, hi)
      invariant forall i :: iRow <= i < |outs| ==> Row(D, P[i], f.w, rows[i], outs[i], c, lo, hi)
      invariant forall i, j :: 0 <= i < |outs| && 0 <= j < f.w && j < outs[i].Cap() && !(lo <= j < hi) ==>
        outs[i].base[j] == old(outs[i].base[j])
    {
      panics := MulRow(f, rows[iRow], c, was, outs[iRow], lo, hi, o, D, P[iRow]);
      if panics {
        return;
      }
    }
    return false;
  }

  // One changed data shard: its memory becomes the change, which goes into every parity row.
  method ApplyShard(f: Form, rows: seq<Vec>, c: nat, olds: seq<Buffer>, news: seq<Buffer>, outs: seq<Buffer>, lo: nat,
                    hi: nat, o: Options, ghost D: Mat, ghost P: seq<Vec>)
    returns (panics: bool)
    requires Fits(D, P, f, rows, olds, news, outs) && Range(f, lo, hi) && c < |olds| && news[c].Buffer?
    requires if Live(f, olds, news, c) then
      forall j :: lo <= j < hi ==> D[c][j] == Add(ByteAt(olds[c], f.w, j), ByteAt(news[c], f.Reach(news[c]), j))
      else D[c] == Zeros(f.w)
    requires Applied(D, P, f, rows, olds, news, outs, c, lo, hi)
    modifies olds[c].base, set i | 0 <= i < |outs| && outs[i].Buffer? :: outs[i].base
    ensures panics <==> ShardBreaks(f, hi, rows, c, olds, news, outs, o)
    ensures !panics ==> Applied(D, P, f, rows, olds, news, outs, c + 1, lo, hi)
    ensures !panics ==> forall j :: 0 <= j < f.w && j < olds[c].Cap() && !(lo <= j < hi) ==>
      olds[c].base[j] == old(olds[c].base[j])
    ensures !panics ==> forall i, j :: 0 <= i < |outs| && 0 <= j < f.w && j < outs[i].Cap() && !(lo <= j < hi) ==>
      outs[i].base[j] == old(outs[i].base[j])
  {
    hide Add, Mul, Partial, Reaches, MulBreaks;
    panics := XorIn(f, news[c], olds[c], lo, hi, o);
    if panics {
      return;
    }
    panics := MulRows(f, rows, c, olds[c], outs, lo, hi, o, D, P);
  }

  lemma NextDeltas(row: Vec, D: Mat, w: nat, c: nat, p: Vec, lo: nat, hi: nat)
    requires IsMat(D, |row|, w) && c < |row| && lo <= hi <= w
    ensures forall j :: lo <= j < hi && j < |p| ==>
      Add(p[j], Partial(row, D, w, c + 1, j)) == Add(Add(p[j], Partial(row, D, w, c, j)), Mul(row[c], D[c][j]))
    ensures D[c] == Zeros(w) ==> forall j :: lo <= j < hi ==> Partial(row, D, w, c + 1, j) == Partial(row, D, w, c, j)
  {
    hide Add, Mul, Partial;
    forall j | lo <= j < hi && j < |p|
      ensures Add(p[j], Partial(row, D, w, c + 1, j)) == Add(Add(p[j], Partial(row, D, w, c, j)), Mul(row[c], D[c][j]))
    {
      NextDelta(row, D, w, c, p[j], j);
    }
    if D[c] == Zeros(w) {
      forall j | lo <= j < hi
        ensures Partial(row, D, w, c + 1, j) == Partial(row, D, w, c, j)
      {
        NextDelta(row, D, w, c, 0, j);
      }
    }
  }

  /** The loop over the data shards for one range of bytes: a goroutine body, or all there is. */
  method UpdateRange(f: Form, rows: seq<Vec>, olds: seq<Buffer>, news: seq<Buffer>, outs: seq<Buffer>, lo: nat, hi: nat,
                     o: Options, ghost D: Mat, ghost P: seq<Vec>)
    returns (panics: bool)
    requires Fits(D, P, f, rows, olds, news, outs) && Range(f, lo, hi) && IsDelta(D, f, olds, news, lo, hi)
    requires forall i, j :: 0 <= i < |outs| && lo <= j < hi && j < outs[i].Cap() ==> outs[i].base[j] == P[i][j]
    modifies Touched(olds, news, outs)
    ensures panics <==> Breaks(f, hi, rows, olds, news, outs, o)
    ensures !panics ==> Applied(D, P, f, rows, olds, news, outs, |olds|, lo, hi)
    ensures !panics ==> forall c, j :: 0 <= c < |olds| && 0 <= j < f.w && j < olds[c].Cap() && !(lo <= j < hi) ==>
      olds[c].base[j] == old(olds[c].base[j])
    ensures !panics ==> forall i, j :: 0 <= i < |outs| && 0 <= j < f.w && j < outs[i].Cap() && !(lo <= j < hi) ==>
      outs[i].base[j] == old(outs[i].base[j])
  {
    hide Add, Mul, Partial, Reaches, ShardBreaks, Applied;
    NothingApplied(D, P, f, rows, olds, news, outs, lo, hi);
    for c := 0 to |olds|
      invariant forall k :: 0 <= k < c ==> !ShardBreaks(f, hi, rows, k, olds, news, outs, o)
      invariant Applied(D, P, f, rows, olds, news, outs, c, lo, hi)
      invariant forall k, j :: c <= k < |olds| && 0 <= j < f.w && j < olds[k].Cap() ==>
        olds[k].base[j] == old(olds[k].base[j])
      invariant forall k, j :: 0 <= k < |olds| && 0 <= j < f.w && j < olds[k].Cap() && !(lo <= j < hi) ==>
        olds[k].base[j] == old(olds[k].base[j])
      invariant forall i, j :: 0 <= i < |outs| && 0 <= j < f.w && j < outs[i].Cap() && !(lo <= j < hi) ==>
        outs[i].base[j] == old(outs[i].base[j])
    {
      if news[c].Nil? {
        NilSkips(f, hi, rows, c, olds, news, outs, o);
        NilApplied(D, P, f, rows, olds, news, outs, c, lo, hi);
        continue;
      }
      panics := ApplyShard(f, rows, c, olds, news, outs, lo, hi, o, D, P);
      if panics {
        return;
      }
    }
    NoneBreaks(f, hi, rows, olds, news, outs, o);
    return false;
  }

  lemma NilSkips(f: Form, hi: nat, rows: seq<Vec>, c: nat, olds: seq<Buffer>, news: seq<Buffer>, outs: seq<Buffer>,
                 o: Options)
    requires |olds| == |news| && Rowed(rows, |outs|, |olds|) && c < |news| && news[c].Nil?
    ensures !ShardBreaks(f, hi, rows, c, olds, news, outs, o)
  {}

  lemma NoneBreaks(f: Form, hi: nat, rows: seq<Vec>, olds: seq<Buffer>, news: seq<Buffer>, outs: seq<Buffer>,
                   o: Options)
    requires |olds| == |news| && Rowed(rows, |outs|, |olds|)
    requires forall k :: 0 <= k < |olds| ==> !ShardBreaks(f, hi, rows, k, olds, news, outs, o)
    ensures !Breaks(f, hi, rows, olds, news, outs, o)
  {}

  lemma NothingApplied(D: Mat, P: seq<Vec>, f: Form, rows: seq<Vec>, olds: seq<Buffer>, news: seq<Buffer>,
                       outs: seq<Buffer>, lo: nat, hi: nat)
    requires Fits(D, P, f, rows, olds, news, outs) && lo <= hi <= f.w
    requires forall i, j :: 0 <= i < |outs| && lo <= j < hi && j < outs[i].Cap() ==> outs[i].base[j] == P[i][j]
    ensures Applied(D, P, f, rows, olds, news, outs, 0, lo, hi)
  {
    hide Add;
    forall i, j | 0 <= i < |outs| && lo <= j < hi && j < outs[i].Cap()
      ensures P[i][j] == Add(P[i][j], Partial(rows[i], D, f.w, 0, j))
    {
      AddZero(P[i][j]);
    }
  }

  lemma NilApplied(D: Mat, P: seq<Vec>, f: Form, rows: seq<Vec>, olds: seq<Buffer>, news: seq<Buffer>,
                   outs: seq<Buffer>, c: nat, lo: nat, hi: nat)
    requires Fits(D, P, f, rows, olds, news, outs) && lo <= hi <= f.w && c < |olds|
    requires news[c].Nil? && D[c] == Zeros(f.w) && Applied(D, P, f, rows, olds, news, outs, c, lo, hi)
    ensures Applied(D, P, f, rows, olds, news, outs, c + 1, lo, hi)
  {
    hide Add, Partial;
    forall i | 0 <= i < |outs|
      ensures forall j :: lo <= j < hi ==> Partial(rows[i], D, f.w, c + 1, j) == Partial(rows[i], D, f.w, c, j)
    {
      NextDeltas(rows[i], D, f.w, c, P[i], lo, hi);
    }
  }

  // ---- the goroutines ----

  // Bytes lo..hi not yet touched.
  ghost predicate Untouched(D: Mat, P: seq<Vec>, f: Form, rows: seq<Vec>, olds: seq<Buffer>, news: seq<Buffer>,
                            outs: seq<Buffer>, lo: nat, hi: nat)
    requires Fits(D, P, f, rows, olds, news, outs) && hi <= f.w
    reads set c | 0 <= c < |olds| && olds[c].Buffer? :: olds[c].base
    reads set c | 0 <= c < |news| && news[c].Buffer? :: news[c].base
    reads set i | 0 <= i < |outs| && outs[i].Buffer? :: outs[i].base
  {
    && IsDelta(D, f, olds, news, lo, hi)
    && forall i, j :: 0 <= i < |outs| && lo <= j < hi && j < outs[i].Cap() ==> outs[i].base[j] == P[i][j]
  }

  // Jobs still to do have their bytes as they were; the others are done.
  ghost predicate JobsAt(D: Mat, P: seq<Vec>, f: Form, rows: seq<Vec>, olds: seq<Buffer>, news: seq<Buffer>,
                         outs: seq<Buffer>, jobs: seq<Job>, pending: set<nat>)
    requires Fits(D, P, f, rows, olds, news, outs) && Partition(jobs, f.w)
    reads set c | 0 <= c < |olds| && olds[c].Buffer? :: olds[c].base
    reads set c | 0 <= c < |news| && news[c].Buffer? :: news[c].base
    reads set i | 0 <= i < |outs| && outs[i].Buffer? :: outs[i].base
  {
    forall g :: 0 <= g < |jobs| ==>
      if g in pending then Untouched(D, P, f, rows, olds, news, outs, jobs[g].lo, jobs[g].hi)
      else Applied(D, P, f, rows, olds, news, outs, |olds|, jobs[g].lo, jobs[g].hi)
  }

  // One job: its bytes are done, the bytes of every other job are as they were.
  method UpdateJob(f: Form, rows: seq<Vec>, olds: seq<Buffer>, news: seq<Buffer>, outs: seq<Buffer>, jobs: seq<Job>,
                   pending: set<nat>, g: nat, o: Options, ghost D: Mat, ghost P: seq<Vec>)
    returns (panics: bool)
    requires Fits(D, P, f, rows, olds, news, outs) && f.split && Partition(jobs, f.w) && g < |jobs| && g in pending
    requires JobsAt(D, P, f, rows, olds, news, outs, jobs, pending)
    modifies Touched(olds, news, outs)
    ensures panics <==> Breaks(f, jobs[g].hi, rows, olds, news, outs, o)
    ensures !panics ==> JobsAt(D, P, f, rows, olds, news, outs, jobs, pending - {g})
  {
    hide Add, Mul, Partial, Breaks;
    panics := UpdateRange(f, rows, olds, news, outs, jobs[g].lo, jobs[g].hi, o, D, P);
    if panics {
      return;
    }
    forall h | 0 <= h < |jobs| && h != g
      ensures if h in pending then Untouched(D, P, f, rows, olds, news, outs, jobs[h].lo, jobs[h].hi)
        else Applied(D, P, f, rows, olds, news, outs, |olds|, jobs[h].lo, jobs[h].hi)
    {
      assert jobs[h].hi <= jobs[g].lo || jobs[g].hi <= jobs[h].lo;
    }
  }

  lemma JobsStart(D: Mat, P: seq<Vec>, f: Form, rows: seq<Vec>, olds: seq<Buffer>, news: seq<Buffer>,
                  outs: seq<Buffer>, jobs: seq<Job>)
    requires Fits(D, P, f, rows, olds, news, outs) && Partition(jobs, f.w)
    requires Untouched(D, P, f, rows, olds, news, outs, 0, f.w)
    ensures JobsAt(D, P, f, rows, olds, news, outs, jobs, Below(|jobs|))
  {
    hide Untouched;
    forall g | 0 <= g < |jobs|
      ensures Untouched(D, P, f, rows, olds, news, outs, jobs[g].lo, jobs[g].hi)
    {
      PartUntouched(D, P, f, rows, olds, news, outs, jobs[g].lo, jobs[g].hi);
    }
  }

  lemma PartUntouched(D: Mat, P: seq<Vec>, f: Form, rows: seq<Vec>, olds: seq<Buffer>, news: seq<Buffer>,
                      outs: seq<Buffer>, lo: nat, hi: nat)
    requires Fits(D, P, f, rows, olds, news, outs) && lo <= hi <= f.w
    requires Untouched(D, P, f, rows, olds, news, outs, 0, f.w)
    ensures Untouched(D, P, f, rows, olds, news, outs, lo, hi)
  {
    hide Add, ByteAt;
  }

  // A goroutine that stops later panics if one does that stops earlier.
  lemma BreaksLater(f: Form, lo: nat, hi: nat, rows: seq<Vec>, olds: seq<Buffer>, news: seq<Buffer>, outs: seq<Buffer>,
                    o: Options)
    requires f.split && lo <= hi && |olds| == |news| && Rowed(rows, |outs|, |olds|)
    requires Breaks(f, lo, rows, olds, news, outs, o)
    ensures Breaks(f, hi, rows, olds, news, outs, o)
  {
    var c :| ShardBreaks(f, lo, rows, c, olds, news, outs, o);
    if !XorBreaks(f, lo, news[c], olds[c], o) {
      var i :| 0 <= i < |outs| && MulBreaks(f, lo, rows[i][c], olds[c], outs[i], o);
      assert MulBreaks(f, hi, rows[i][c], olds[c], outs[i], o);
    }
    assert ShardBreaks(f, hi, rows, c, olds, news, outs, o);
  }

  /** updateParityShardsP: the jobs in any order. */
  method UpdateParityShardsP(f: Form, rows: seq<Vec>, olds: seq<Buffer>, news: seq<Buffer>, outs: seq<Buffer>,
                             jobs: seq<Job>, o: Options, ghost D: Mat, ghost P: seq<Vec>)
    returns (panics: bool)
    requires |olds| == |news| && Rowed(rows, |outs|, |olds|) && f.split
    requires Fits(D, P, f, rows, olds, news, outs) && Partition(jobs, f.w)
    requires Untouched(D, P, f, rows, olds, news, outs, 0, f.w)
    modifies Touched(olds, news, outs)
    ensures panics <==> Breaks(f, f.w, rows, olds, news, outs, o)
    ensures !panics ==> Applied(D, P, f, rows, olds, news, outs, |olds|, 0, f.w)
  {
    hide JobsAt, Breaks, Fits, Partition, Untouched;
    JobsStart(D, P, f, rows, olds, news, outs, jobs);
    var pending: set<nat> := Below(|jobs|);
    while pending != {}
      invariant forall g :: g in pending ==> 0 <= g < |jobs|
      invariant forall g :: 0 <= g < |jobs| && g !in pending ==> !Breaks(f, jobs[g].hi, rows, olds, news, outs, o)
      invariant JobsAt(D, P, f, rows, olds, news, outs, jobs, pending)
      decreases |pending|
    {
      var g: nat :| g in pending;
      panics := UpdateJob(f, rows, olds, news, outs, jobs, pending, g, o, D, P);
      if panics {
        JobStops(jobs, g, f.w);
        BreaksLater(f, jobs[g].hi, f.w, rows, olds, news, outs, o);
        return;
      }
      pending := pending - {g};
    }
    AllApplied(D, P, f, rows, olds, news, outs, jobs);
    assert !Breaks(f, jobs[|jobs| - 1].hi, rows, olds, news, outs, o);
    return false;
  }

  lemma JobStops(jobs: seq<Job>, g: nat, n: nat)
    requires Partition(jobs, n) && g < |jobs|
    ensures jobs[g].hi <= n
  {}

  lemma AllApplied(D: Mat, P: seq<Vec>, f: Form, rows: seq<Vec>, olds: seq<Buffer>, news: seq<Buffer>,
                   outs: seq<Buffer>, jobs: seq<Job>)
    requires Fits(D, P, f, rows, olds, news, outs) && Partition(jobs, f.w)
    requires JobsAt(D, P, f, rows, olds, news, outs, jobs, {})
    ensures Applied(D, P, f, rows, olds, news, outs, |olds|, 0, f.w) && |jobs| > 0 && jobs[|jobs| - 1].hi == f.w
  {
    hide Add, Partial;
    forall k, j | Live(f, olds, news, k) && 0 <= j < f.w && j < olds[k].Cap()
      ensures olds[k].base[j] == D[k][j]
    {
      var g := JobOf(jobs, f.w, j, 0);
      assert Applied(D, P, f, rows, olds, news, outs, |olds|, jobs[g].lo, jobs[g].hi);
    }
    forall i, j | 0 <= i < |outs| && 0 <= j < f.w && j < outs[i].Cap()
      ensures outs[i].base[j] == Add(P[i][j], Partial(rows[i], D, f.w, |olds|, j))
    {
      var g := JobOf(jobs, f.w, j, 0);
      assert Applied(D, P, f, rows, olds, news, outs, |olds|, jobs[g].lo, jobs[g].hi);
    }
  }

  predicate Splits(o: Options, byteCount: nat) { o.maxGoroutines > 1 && byteCount > o.minSplitSize }

  // updateParityShards: in one go, or split over goroutines that run in any order.
  method UpdateParityShards(f: Form, rows: seq<Vec>, olds: seq<Buffer>, news: seq<Buffer>, outs: seq<Buffer>,
                            o: Options, ghost D: Mat, ghost P: seq<Vec>)
    returns (panics: bool)
    requires Fits(D, P, f, rows, olds, news, outs) && Tuned(o) && f.split == Splits(o, f.w)
    requires Untouched(D, P, f, rows, olds, news, outs, 0, f.w)
    modifies Touched(olds, news, outs)
    ensures panics <==> Breaks(f, f.w, rows, olds, news, outs, o)
    ensures !panics ==> Applied(D, P, f, rows, olds, news, outs, |olds|, 0, f.w)
  {
    hide Add, Mul, Partial, Applied, Breaks;
    if f.split {
      var jobs := SplitJobs(f.w, JobSize(f.w, o));
      panics := UpdateParityShardsP(f, rows, olds, news, outs, jobs, o, D, P);
      return;
    }
    panics := UpdateRange(f, rows, olds, news, outs, 0, f.w, o, D, P);
  }

  // ---- what Update takes the new contents for ----

  // The memory of a slice up to w, whatever its length.
  ghost function Memory(b: Buffer, w: nat): (r: Vec)
    reads if b.Nil? then {} else {b.base}
    ensures |r| == w && forall j :: 0 <= j < w ==> r[j] == ByteAt(b, w, j)
  {
    seq(w, j requires 0 <= j < w reads if b.Nil? then {} else {b.base} => ByteAt(b, w, j))
  }

  // What comes in of a new shard, w bytes.
  ghost function Incoming(f: Form, b: Buffer): (r: Vec)
    reads if b.Nil? then {} else {b.base}
    ensures |r| == f.w && forall j :: 0 <= j < f.w ==> r[j] == ByteAt(b, f.Reach(b), j)
  {
    seq(f.w, j requires 0 <= j < f.w reads if b.Nil? then {} else {b.base} => ByteAt(b, f.Reach(b), j))
  }

  ghost function Bases(s: seq<Buffer>): set<array<byte>> { set b | b in s && b.Buffer? :: b.base }

  // The new contents as they were given; None where a shard does not change.
  ghost function Given(news: seq<Buffer>): (r: seq<Option<Vec>>)
    requires forall c :: 0 <= c < |news| ==> news[c].Inside()
    reads Bases(news)
    ensures |r| == |news|
    ensures forall c :: 0 <= c < |news| ==> r[c] == if news[c].Nil? then None else Some(news[c].Bytes())
  {
    seq(|news|, c requires 0 <= c < |news| && news[c].Inside() reads Bases(news) =>
      if news[c].Nil? then None else Some(news[c].Bytes()))
  }

  // What Update takes them for.
  ghost function Taken(f: Form, olds: seq<Buffer>, news: seq<Buffer>): (r: seq<Option<Vec>>)
    requires |olds| == |news|
    reads Bases(news)
    ensures |r| == |news|
    ensures forall c :: 0 <= c < |news| ==>
      r[c] == if Live(f, olds, news, c) then Some(Incoming(f, news[c])) else None
  {
    seq(|news|, c requires 0 <= c < |news| reads Bases(news) =>
      if Live(f, olds, news, c) then Some(Incoming(f, news[c])) else None)
  }

  // What Update takes the old contents for: of a changed shard, its memory.
  ghost function Held(f: Form, olds: seq<Buffer>, news: seq<Buffer>): (r: Mat)
    requires |olds| == |news| && forall c :: 0 <= c < |olds| ==> olds[c].Inside()
    reads Bases(olds)
    ensures |r| == |olds|
    ensures forall c :: 0 <= c < |olds| ==>
      r[c] == if Live(f, olds, news, c) then Memory(olds[c], f.w) else olds[c].Bytes()
  {
    seq(|olds|, c requires 0 <= c < |olds| && olds[c].Inside() reads Bases(olds) =>
      if Live(f, olds, news, c) then Memory(olds[c], f.w) else olds[c].Bytes())
  }

  ghost function BytesOf(s: seq<Buffer>): (r: Mat)
    requires forall c :: 0 <= c < |s| ==> s[c].Inside()
    reads Bases(s)
    ensures |r| == |s| && forall c :: 0 <= c < |s| ==> r[c] == s[c].Bytes()
  {
    seq(|s|, c requires 0 <= c < |s| && s[c].Inside() reads Bases(s) => s[c].Bytes())
  }

  lemma WholeMemory(b: Buffer, w: nat)
    requires b.Inside() && b.Len() == w
    ensures Memory(b, w) == b.Bytes()
  {}

  /** Update takes all contents for what they are exactly if every new shard has the common size, and the shard that
      it replaces has it, too. */
  lemma TakenAsGiven(f: Form, olds: seq<Buffer>, news: seq<Buffer>)
    requires |olds| == |news| && f.w > 0
    requires forall c :: 0 <= c < |olds| ==> olds[c].Inside() && news[c].Inside()
    ensures Taken(f, olds, news) == Given(news) && Held(f, olds, news) == BytesOf(olds) <==>
      forall c :: 0 <= c < |news| && news[c].Buffer? ==> news[c].len == f.w == olds[c].Len()
  {
    var taken, given, held, bytes := Taken(f, olds, news), Given(news), Held(f, olds, news), BytesOf(olds);
    if taken == given && held == bytes {
      forall c | 0 <= c < |news| && news[c].Buffer?
        ensures news[c].len == f.w == olds[c].Len()
      {
        assert taken[c] == given[c] == Some(news[c].Bytes());
        assert held[c] == bytes[c];
      }
    }
    if forall c :: 0 <= c < |news| && news[c].Buffer? ==> news[c].len == f.w == olds[c].Len() {
      forall c | 0 <= c < |news|
        ensures taken[c] == given[c] && held[c] == bytes[c]
      {
        if news[c].Buffer? {
          WholeMemory(olds[c], f.w);
          assert Incoming(f, news[c]) == news[c].Bytes();
        }
      }
    }
  }

  /** In the serial form a new shard is cut off, or filled up with zeros; an empty one is taken for zeros. */
  lemma SerialTakes(f: Form, b: Buffer)
    requires !f.split && b.Buffer? && b.Inside()
    ensures Incoming(f, b) == if b.len >= f.w then b.base[..f.w] else b.base[..b.len] + Zeros(f.w - b.len)
  {}

  /** Split over goroutines, it is taken for what lies in its memory, whatever its length. */
  lemma SplitTakes(f: Form, b: Buffer)
    requires f.split && b.Buffer? && b.Inside() && f.w <= b.Cap()
    ensures Incoming(f, b) == b.base[..f.w]
  {}

  // Combinations are additive in the matrix.
  lemma {:induction false} CombToSum(a: Vec, A: Mat, B: Mat, S: Mat, w: nat, n: nat)
    requires n <= |a| && IsMat(A, |a|, w) && IsMat(B, |a|, w) && IsMat(S, |a|, w)
    requires forall c :: 0 <= c < n ==> S[c] == VAdd(A[c], B[c])
    ensures CombTo(a, S, w, n) == VAdd(CombTo(a, A, w, n), CombTo(a, B, w, n))
    decreases n
  {
    hide Add, Mul, VAdd, VScale;
    if n == 0 {
      VAddZero(Zeros(w));
    } else {
      CombToSum(a, A, B, S, w, n - 1);
      VScaleAdd(a[n - 1], 0, A[n - 1], B[n - 1]);
      VAddSwap(CombTo(a, A, w, n - 1), CombTo(a, B, w, n - 1), VScale(a[n - 1], A[n - 1]), VScale(a[n - 1], B[n - 1]));
    }
  }

  /** Parity of the old data plus the combination of the changes is the parity of the new data;
      of the old data only the changed shards need to be at hand. */
  lemma UpdatedParity(row: Vec, D: Mat, delta: Mat, after: Mat, changed: seq<bool>, w: nat)
    requires |changed| == |row| && IsMat(D, |row|, w) && IsMat(delta, |row|, w) && IsMat(after, |row|, w)
    requires forall c :: 0 <= c < |row| ==> if changed[c] then delta[c] == VAdd(D[c], after[c])
      else delta[c] == Zeros(w) && after[c] == D[c]
    ensures VAdd(Comb(row, D, w), Comb(row, delta, w)) == Comb(row, after, w)
  {
    hide Add, Mul, CombTo;
    forall c | 0 <= c < |row|
      ensures after[c] == VAdd(D[c], delta[c])
    {
      if changed[c] {
        VAddCancel(after[c], D[c]);
        VAddComm(D[c], after[c]);
        VAddComm(D[c], VAdd(after[c], D[c]));
      } else {
        VAddZero(D[c]);
      }
    }
    CombToSum(row, D, delta, after, w, |row|);
  }

  // ---- Update ----

  // Old plus new where shard c changes, zero elsewhere.
  ghost function Delta(f: Form, olds: seq<Buffer>, news: seq<Buffer>): (r: Mat)
    requires |olds| == |news|
    reads Bases(olds), Bases(news)
    ensures |r| == |olds|
    ensures forall c :: 0 <= c < |news| ==>
      r[c] == if Live(f, olds, news, c) then VAdd(Memory(olds[c], f.w), Incoming(f, news[c])) else Zeros(f.w)
  {
    seq(|olds|, c requires 0 <= c < |olds| reads Bases(olds), Bases(news) =>
      if Live(f, olds, news, c) then VAdd(Memory(olds[c], f.w), Incoming(f, news[c])) else Zeros(f.w))
  }

  lemma DeltaIsDelta(f: Form, olds: seq<Buffer>, news: seq<Buffer>)
    requires |olds| == |news|
    ensures IsMat(Delta(f, olds, news), |olds|, f.w) && IsDelta(Delta(f, olds, news), f, olds, news, 0, f.w)
  {
    hide Add, ByteAt;
  }

  // The memory behind the parity shards.
  ghost function Behind(outs: seq<Buffer>): (r: seq<Vec>)
    requires forall i :: 0 <= i < |outs| ==> outs[i].Buffer?
    reads Bases(outs)
    ensures |r| == |outs| && forall i :: 0 <= i < |outs| ==> r[i] == outs[i].base[..]
  {
    seq(|outs|, i requires 0 <= i < |outs| && outs[i].Buffer? reads Bases(outs) => outs[i].base[..])
  }

  // A data shard that changes can be reached as far as it has to, if nothing breaks.
  lemma ReachedOld(f: Form, rows: seq<Vec>, olds: seq<Buffer>, news: seq<Buffer>, outs: seq<Buffer>, o: Options, c: nat)
    requires Ready(f, olds, news, outs) && Rowed(rows, |outs|, |olds|) && Live(f, olds, news, c)
    requires !Breaks(f, f.w, rows, olds, news, outs, o)
    ensures f.w <= olds[c].Cap()
  {
    assert !ShardBreaks(f, f.w, rows, c, olds, news, outs, o);
  }

  // Update after its checks, with some parity to keep up to date.
  method ApplyUpdate(f: Form, rows: seq<Vec>, olds: seq<Buffer>, news: seq<Buffer>, outs: seq<Buffer>, o: Options)
    returns (panics: bool, ghost D: Mat)
    requires Ready(f, olds, news, outs) && Rowed(rows, |outs|, |olds|) && Tuned(o) && f.split == Splits(o, f.w)
    modifies Touched(olds, news, outs)
    ensures panics <==> Breaks(f, f.w, rows, olds, news, outs, o)
    ensures IsMat(D, |olds|, f.w)
    ensures forall c :: 0 <= c < |olds| ==>
      D[c] == if Live(f, olds, news, c) then VAdd(old(Memory(olds[c], f.w)), Incoming(f, news[c])) else Zeros(f.w)
    ensures !panics ==> forall c :: Live(f, olds, news, c) ==> Memory(olds[c], f.w) == D[c]
    ensures !panics ==> forall i :: 0 <= i < |outs| && outs[i].len == f.w ==>
      outs[i].Bytes() == VAdd(old(outs[i].Bytes()), Comb(rows[i], D, f.w))
  {
    hide Add, Mul, VAdd, CombTo, Zeros, Delta, Breaks, ByteAt;
    ghost var P := Behind(outs);
    D := Delta(f, olds, news);
    DeltaIsDelta(f, olds, news);
    panics := UpdateParityShards(f, rows, olds, news, outs, o, D, P);
    if !panics {
      AppliedRows(D, P, f, rows, olds, news, outs, o);
    }
  }

  lemma AppliedRows(D: Mat, P: seq<Vec>, f: Form, rows: seq<Vec>, olds: seq<Buffer>, news: seq<Buffer>,
                    outs: seq<Buffer>, o: Options)
    requires Fits(D, P, f, rows, olds, news, outs) && !Breaks(f, f.w, rows, olds, news, outs, o)
    requires Applied(D, P, f, rows, olds, news, outs, |olds|, 0, f.w)
    ensures forall c :: Live(f, olds, news, c) ==> Memory(olds[c], f.w) == D[c]
    ensures forall i :: 0 <= i < |outs| && outs[i].len == f.w ==>
      outs[i].Bytes() == VAdd(P[i][..f.w], Comb(rows[i], D, f.w))
  {
    hide Add, Mul, CombTo, Breaks;
    forall c | Live(f, olds, news, c)
      ensures Memory(olds[c], f.w) == D[c]
    {
      ReachedOld(f, rows, olds, news, outs, o, c);
    }
    forall i | 0 <= i < |outs| && outs[i].len == f.w
      ensures outs[i].Bytes() == VAdd(P[i][..f.w], Comb(rows[i], D, f.w))
    {
      assert forall j :: 0 <= j < f.w ==> outs[i].Bytes()[j] == outs[i].base[j];
    }
  }

  function BufferLens(s: seq<Buffer>): (r: seq<nat>)
    ensures |r| == |s| && forall i :: 0 <= i < |s| ==> r[i] == s[i].Len()
  {
    seq(|s|, i requires 0 <= i < |s| => s[i].Len())
  }

  // A nil data shard that should change, or a nil parity shard.
  predicate SomeNil(shards: seq<Buffer>, news: seq<Buffer>) {
    exists i :: 0 <= i < |shards| && shards[i].Nil? && (i < |news| ==> news[i].Buffer?)
  }

  // What Update answers, from the lengths and which shards are nil.
  function UpdateVerdict(total: nat, data: nat, shards: seq<Buffer>, news: seq<Buffer>): Option<Error> {
    if |shards| != total || |news| != data then Some(TooFewShards)
    else if Check(BufferLens(shards), true) != None then Check(BufferLens(shards), true)
    else if Check(BufferLens(news), true) != None then Check(BufferLens(news), true)
    else if SomeNil(shards, news) then Some(InvalidInput)
    else None
  }

  method FindNil(shards: seq<Buffer>, news: seq<Buffer>) returns (r: bool)
    requires |news| <= |shards|
    ensures r <==> SomeNil(shards, news)
  {
    for i := 0 to |news|
      invariant forall k :: 0 <= k < i ==> !(news[k].Buffer? && shards[k].Nil?)
    {
      if news[i].Buffer? && shards[i].Nil? {
        return true;
      }
    }
    for i := |news| to |shards|
      invariant forall k :: 0 <= k < i ==> !(shards[k].Nil? && (k < |news| ==> news[k].Buffer?))
    {
      if shards[i].Nil? {
        return true;
      }
    }
    return false;
  }

  // The checks, in their order.
  method CheckUpdate(total: nat, data: nat, shards: seq<Buffer>, news: seq<Buffer>) returns (err: Option<Error>)
    requires data <= total
    ensures err == UpdateVerdict(total, data, shards, news) && err != Some(Panicked)
  {
    hide Check;
    if |shards| != total || |news| != data {
      return Some(TooFewShards);
    }
    err := CheckLens(BufferLens(shards), true);
    if err != None {
      CheckErrors(BufferLens(shards), true);
      return;
    }
    err := CheckLens(BufferLens(news), true);
    if err != None {
      CheckErrors(BufferLens(news), true);
      return;
    }
    var missing := FindNil(shards, news);
    return if missing then Some(InvalidInput) else None;
  }

  lemma VerdictPasses(total: nat, data: nat, shards: seq<Buffer>, news: seq<Buffer>)
    requires UpdateVerdict(total, data, shards, news) == None
    ensures |shards| == total && |news| == data && !SomeNil(shards, news)
  {
    hide Check;
  }

  // The caller's slices have memory of their own.
  ghost predicate OwnMemory(shards: seq<Buffer>, news: seq<Buffer>) {
    && (forall i :: 0 <= i < |shards| ==> shards[i].Inside()) && (forall i :: 0 <= i < |news| ==> news[i].Inside())
    && (forall i, k :: 0 <= i < k < |shards| && shards[i].Buffer? && shards[k].Buffer? ==>
         shards[i].base != shards[k].base)
    && forall i, k :: 0 <= i < |news| && 0 <= k < |shards| && news[i].Buffer? && shards[k].Buffer? ==>
         news[i].base != shards[k].base
  }

  function FormOf(o: Options, shards: seq<Buffer>): Form {
    var w := SizeOf(BufferLens(shards));
    Form(w, Splits(o, w))
  }

  // Update gets to the coding, and a slice expression there is out of range.
  ghost predicate UpdateBreaks(enc: RS.ReedSolomon, shards: seq<Buffer>, news: seq<Buffer>)
    requires enc.parityShards > 0 ==> IsMat(enc.m, enc.shards, enc.dataShards)
    requires enc.shards == enc.dataShards + enc.parityShards
  {
    && enc.parityShards > 0 && UpdateVerdict(enc.shards, enc.dataShards, shards, news) == None
    && Breaks(FormOf(enc.o, shards), FormOf(enc.o, shards).w, enc.Parity(), shards[..enc.dataShards], news,
         shards[enc.dataShards..], enc.o)
  }

  // What the checks let pass is ready.
  lemma PassedIsReady(data: nat, shards: seq<Buffer>, news: seq<Buffer>, o: Options)
    requires OwnMemory(shards, news) && data <= |shards| && UpdateVerdict(|shards|, data, shards, news) == None
    ensures Ready(FormOf(o, shards), shards[..data], news, shards[data..])
  {
    hide Check;
    var lens := BufferLens(shards);
    CheckPassed(lens, true);
    hide SizeOf;
    forall i | 0 <= i < |shards|
      ensures shards[i].Len() in {0, SizeOf(lens)}
    {
      assert lens[i] == shards[i].Len();
    }
  }

  /** Split over goroutines, an empty new shard with capacity is neither refused nor taken for empty: two data
      shards and one parity shard of 4096 bytes, the first to be replaced by make([]byte, 0, 4096). */
  lemma StaleTaken(o: Options, rows: seq<Vec>, shards: seq<Buffer>, news: seq<Buffer>)
    requires o.maxGoroutines > 1 && o.minSplitSize < 4096 && Rowed(rows, 1, 2) && |shards| == 3 && |news| == 2
    requires forall i :: 0 <= i < 3 ==> shards[i].Buffer? && shards[i].Inside() && shards[i].len == 4096
    requires news[0].Buffer? && news[0].len == 0 && news[0].Cap() == 4096
    requires news[1].Buffer? && news[1].Inside() && news[1].len == 4096
    ensures UpdateVerdict(3, 2, shards, news) == None && FormOf(o, shards) == Form(4096, true)
    ensures !Breaks(Form(4096, true), 4096, rows, shards[..2], news, shards[2..], o)
    ensures Taken(Form(4096, true), shards[..2], news)[0] == Some(news[0].base[..]) && Given(news)[0] == Some([])
  {
    var lens := BufferLens(shards);
    assert SizeOf(lens) == 4096;
    assert BufferLens(news)[1..][0] == 4096 && SizeOf(BufferLens(news)) == 4096;
    SplitTakes(Form(4096, true), news[0]);
    assert news[0].base[..4096] == news[0].base[..];
  }

  /** In the serial form a longer new shard fits into the capacity of the old one: 110 bytes for 100 with capacity
      200, of which the first 100 are taken. */
  lemma LongerTaken(o: Options, rows: seq<Vec>, shards: seq<Buffer>, news: seq<Buffer>)
    requires (o.maxGoroutines <= 1 || o.minSplitSize >= 100) && Rowed(rows, 1, 1) && |shards| == 2 && |news| == 1
    requires shards[0].Buffer? && shards[0].len == 100 && shards[0].Cap() == 200
    requires shards[1].Buffer? && shards[1].len == 100 && shards[1].Inside()
    requires news[0].Buffer? && news[0].len == 110 && news[0].Inside()
    ensures UpdateVerdict(2, 1, shards, news) == None && FormOf(o, shards) == Form(100, false)
    ensures !Breaks(Form(100, false), 100, rows, shards[..1], news, shards[1..], o)
    ensures Taken(Form(100, false), shards[..1], news)[0] == Some(news[0].base[..100])
  {
    assert SizeOf(BufferLens(shards)) == 100 && SizeOf(BufferLens(news)) == 110;
    SerialTakes(Form(100, false), news[0]);
  }

  // The parity that is there is that of data D, which has the changed shards as they were.
  ghost predicate CodedFrom(m: Mat, data: nat, D: Mat, held: Mat, parity: Mat, taken: seq<Option<Vec>>, w: nat) {
    && |taken| == data == |held| && |m| == data + |parity| && IsMat(m, |m|, data) && IsMat(D, data, w)
    && (forall c :: 0 <= c < data && taken[c].Some? ==> held[c] == D[c] && |taken[c].value| == w)
    && forall i :: 0 <= i < |parity| && |parity[i]| == w ==> parity[i] == Comb(m[data + i], D, w)
  }

  // The data after the changes.
  ghost function Updated(D: Mat, taken: seq<Option<Vec>>): (r: Mat)
    requires |D| == |taken|
    ensures |r| == |D| && forall c :: 0 <= c < |D| ==> r[c] == if taken[c].Some? then taken[c].value else D[c]
  {
    seq(|D|, c requires 0 <= c < |D| => if taken[c].Some? then taken[c].value else D[c])
  }

  // The parity rows that are there are those of D.
  ghost predicate ParityOf(m: Mat, data: nat, D: Mat, parity: Mat, w: nat) {
    && |m| == data + |parity| && IsMat(m, |m|, data) && IsMat(D, data, w)
    && forall i :: 0 <= i < |parity| && |parity[i]| == w ==> parity[i] == Comb(m[data + i], D, w)
  }

  lemma CodeUpdated(m: Mat, data: nat, D: Mat, held: Mat, parity: Mat, parity': Mat, taken: seq<Option<Vec>>,
                    delta: Mat, w: nat)
    requires CodedFrom(m, data, D, held, parity, taken, w) && IsMat(delta, data, w) && |parity'| == |parity|
    requires forall c :: 0 <= c < data ==>
      delta[c] == if taken[c].Some? then VAdd(held[c], taken[c].value) else Zeros(w)
    requires forall i :: 0 <= i < |parity| ==> |parity'[i]| == |parity[i]|
    requires forall i :: 0 <= i < |parity| && |parity[i]| == w ==>
      parity'[i] == VAdd(parity[i], Comb(m[data + i], delta, w))
    ensures ParityOf(m, data, Updated(D, taken), parity', w)
  {
    hide Comb, VAdd, Zeros;
    var D' := Updated(D, taken);
    var changed := seq(data, c requires 0 <= c < data => taken[c].Some?);
    forall c | 0 <= c < data
      ensures |D'[c]| == w && if changed[c] then delta[c] == VAdd(D[c], D'[c])
        else delta[c] == Zeros(w) && D'[c] == D[c]
    {}
    forall i | 0 <= i < |parity'| && |parity'[i]| == w
      ensures parity'[i] == Comb(m[data + i], D', w)
    {
      UpdatedParity(m[data + i], D, delta, D', changed, w);
    }
  }

  /** The parity of any data that has the changed shards as they were becomes the parity of the data with the
      changes, row by row as far as the rows are there. */
  ghost predicate Carries(m: Mat, data: nat, held: Mat, parity: Mat, taken: seq<Option<Vec>>, parity': Mat, w: nat) {
    forall D: Mat :: CodedFrom(m, data, D, held, parity, taken, w) ==> ParityOf(m, data, Updated(D, taken), parity', w)
  }

  // Update after its checks.
  method UpdateChecked(enc: RS.ReedSolomon, olds: seq<Buffer>, news: seq<Buffer>, outs: seq<Buffer>, f: Form)
    returns (panics: bool)
    requires IsMat(enc.m, enc.shards, enc.dataShards) && enc.shards == enc.dataShards + enc.parityShards
    requires Tuned(enc.o) && f.split == Splits(enc.o, f.w) && |olds| == enc.dataShards && |outs| == enc.parityShards
    requires Ready(f, olds, news, outs)
    modifies Touched(olds, news, outs)
    ensures panics <==> Breaks(f, f.w, enc.Parity(), olds, news, outs, enc.o)
    ensures !panics ==> forall c :: Live(f, olds, news, c) ==>
      Memory(olds[c], f.w) == VAdd(old(Memory(olds[c], f.w)), Incoming(f, news[c]))
    ensures !panics ==> Carries(enc.m, enc.dataShards, old(Held(f, olds, news)), old(BytesOf(outs)),
      Taken(f, olds, news), BytesOf(outs), f.w)
  {
    hide Comb, VAdd, CombTo, Breaks, Zeros, ByteAt, Fits, ParityOf;
    ghost var held, taken, parity := Held(f, olds, news), Taken(f, olds, news), BytesOf(outs);
    ghost var delta;
    panics, delta := ApplyUpdate(f, enc.Parity(), olds, news, outs, enc.o);
    if panics {
      return;
    }
    assert Taken(f, olds, news) == taken;
    forall D: Mat | CodedFrom(enc.m, enc.dataShards, D, held, parity, taken, f.w)
      ensures ParityOf(enc.m, enc.dataShards, Updated(D, taken), BytesOf(outs), f.w)
    {
      CodeUpdated(enc.m, enc.dataShards, D, held, parity, BytesOf(outs), taken, delta, f.w);
    }
  }

  lemma AllInside(data: nat, shards: seq<Buffer>, news: seq<Buffer>)
    requires OwnMemory(shards, news) && data <= |shards|
    ensures forall c :: 0 <= c < data ==> shards[..data][c].Inside()
    ensures forall i :: 0 <= i < |shards| - data ==> shards[data..][i].Inside()
  {}

  lemma NotTouched(data: nat, shards: seq<Buffer>, news: seq<Buffer>)
    requires OwnMemory(shards, news) && |news| == data <= |shards| && !SomeNil(shards, news)
    ensures forall c :: 0 <= c < data && shards[c].Buffer? && news[c].Nil? ==>
      shards[c].base !in Touched(shards[..data], news, shards[data..])
    ensures Touched(shards[..data], news, shards[data..]) <= Bases(shards)
  {
    forall i | 0 <= i < |shards| - data
      ensures shards[data..][i] == shards[data + i]
    {}
  }

  /** Update: each changed data shard is left holding old plus new, and parity that was the parity of some data D
      becomes the parity of D with the changes, as Update takes these. */
  method Update(enc: RS.ReedSolomon, shards: seq<Buffer>, news: seq<Buffer>) returns (err: Option<Error>)
    requires enc.Valid() && OwnMemory(shards, news)
    modifies Bases(shards)
    ensures enc.parityShards > 0 ==> IsMat(enc.m, enc.shards, enc.dataShards)
    ensures err == if UpdateBreaks(enc, shards, news) then Some(Panicked)
      else UpdateVerdict(enc.shards, enc.dataShards, shards, news)
    ensures (err != None && err != Some(Panicked)) || enc.parityShards == 0 ==>
      forall b :: b in shards && b.Buffer? ==> b.base[..] == old(b.base[..])
    ensures err == None ==> |shards| == enc.shards && |news| == enc.dataShards
    ensures err == None ==> forall c :: 0 <= c < enc.dataShards && shards[c].Buffer? && news[c].Nil? ==>
      shards[c].base[..] == old(shards[c].base[..])
    ensures err == None && enc.parityShards > 0 ==>
      var f, olds := FormOf(enc.o, shards), shards[..enc.dataShards];
      forall c :: Live(f, olds, news, c) ==>
        Memory(shards[c], f.w) == VAdd(old(Memory(shards[c], f.w)), Incoming(f, news[c]))
    ensures err == None && enc.parityShards > 0 ==>
      var f, olds, outs := FormOf(enc.o, shards), shards[..enc.dataShards], shards[enc.dataShards..];
      Carries(enc.m, enc.dataShards, old(Held(f, olds, news)), old(BytesOf(outs)), Taken(f, olds, news), BytesOf(outs),
        f.w)
  {
    hide Comb, VAdd, Zeros, Carries, SizeOf, Recoverable, Stocked, Breaks, Ready, ByteAt, OwnMemory, Touched, Fragile,
      UpdateVerdict, Taken, Held, BytesOf;
    if enc.parityShards > 0 {
      enc.RecoverableShape();
    }
    ghost var held, parity := [], [];
    if |shards| == enc.shards && |news| == enc.dataShards {
      AllInside(enc.dataShards, shards, news);
      held := Held(FormOf(enc.o, shards), shards[..enc.dataShards], news);
      parity := BytesOf(shards[enc.dataShards..]);
    }
    err := CheckUpdate(enc.shards, enc.dataShards, shards, news);
    if err != None {
      return;
    }
    VerdictPasses(enc.shards, enc.dataShards, shards, news);
    if enc.parityShards == 0 {
      return;
    }
    PassedIsReady(enc.dataShards, shards, news, enc.o);
    NotTouched(enc.dataShards, shards, news);
    var olds, outs := shards[..enc.dataShards], shards[enc.dataShards..];
    var size := SizeOfLens(BufferLens(shards));
    var f := Form(size, Splits(enc.o, size));
    assert Held(f, olds, news) == held && BytesOf(outs) == parity;
    var panics := UpdateChecked(enc, olds, news, outs, f);
    assert panics || Carries(enc.m, enc.dataShards, held, parity, Taken(f, olds, news), BytesOf(outs), f.w);
    return if panics then Some(Panicked) else None;
  }
}
