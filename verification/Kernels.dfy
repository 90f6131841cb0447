/** Multiplying one input slice into one output slice (galois_amd64.go, galois_noasm.go).
    A pair of slices in[lo:hi], out[lo:hi] is given by the two arrays and the common range. */
module Kernels {
  import opened Galois
  import opened GaloisTables

  datatype Options = Options(
    maxGoroutines: int, minSplitSize: int, perRound: int,
    useAVX512: bool, useAVX2: bool, useSSSE3: bool, useSSE2: bool)

  // What New establishes before any coding runs.
  predicate Tuned(o: Options) { o.maxGoroutines >= 1 && o.minSplitSize >= 1 && o.perRound >= 1 }

  const BIG_SWITCHOVER := 128

  // How many of n bytes are in whole blocks.
  function Blocks(n: nat, block: nat): (r: nat)
    requires block > 0
    ensures r <= n && n - r < block
  {
    n / block * block
  }

  /** The contract of the assembly multipliers, in the loop form their comment gives: whole blocks
      of the range, each byte through the two nibble tables. */
  method MulKernel(c: byte, in_: array<byte>, out: array<byte>, lo: nat, hi: nat, block: nat) returns (done: nat)
    requires lo <= hi <= in_.Length && hi <= out.Length && in_ != out && block > 0
    modifies out
    ensures done == Blocks(hi - lo, block)
    ensures forall j :: lo <= j < lo + done ==> out[j] == Mul(c, in_[j])
    ensures forall j :: 0 <= j < out.Length && !(lo <= j < lo + done) ==> out[j] == old(out[j])
  {
    hide *;
    done := Blocks(hi - lo, block);
    for n := lo to lo + done
      invariant forall j :: lo <= j < n ==> out[j] == Mul(c, in_[j])
      invariant forall j :: 0 <= j < out.Length && !(lo <= j < n) ==> out[j] == old(out[j])
    {
      var x := in_[n];
      NibbleLookup(c, x);
      out[n] := Add(Low(c, x & 0x0f), High(c, x >> 4));
    }
  }

  method MulXorKernel(c: byte, in_: array<byte>, out: array<byte>, lo: nat, hi: nat, block: nat) returns (done: nat)
    requires lo <= hi <= in_.Length && hi <= out.Length && in_ != out && block > 0
    modifies out
    ensures done == Blocks(hi - lo, block)
    ensures forall j :: lo <= j < lo + done ==> out[j] == Add(old(out[j]), Mul(c, in_[j]))
    ensures forall j :: 0 <= j < out.Length && !(lo <= j < lo + done) ==> out[j] == old(out[j])
  {
    hide *;
    done := Blocks(hi - lo, block);
    for n := lo to lo + done
      invariant forall j :: lo <= j < n ==> out[j] == Add(old(out[j]), Mul(c, in_[j]))
      invariant forall j :: 0 <= j < out.Length && !(lo <= j < n) ==> out[j] == old(out[j])
    {
      var x := in_[n];
      NibbleLookup(c, x);
      out[n] := Add(out[n], Add(Low(c, x & 0x0f), High(c, x >> 4)));
    }
  }

  method XorKernel(in_: array<byte>, out: array<byte>, lo: nat, hi: nat, block: nat) returns (done: nat)
    requires lo <= hi <= in_.Length && hi <= out.Length && in_ != out && block > 0
    modifies out
    ensures done == Blocks(hi - lo, block)
    ensures forall j :: lo <= j < lo + done ==> out[j] == Add(old(out[j]), in_[j])
    ensures forall j :: 0 <= j < out.Length && !(lo <= j < lo + done) ==> out[j] == old(out[j])
  {
    hide *;
    done := Blocks(hi - lo, block);
    for n := lo to lo + done
      invariant forall j :: lo <= j < n ==> out[j] == Add(old(out[j]), in_[j])
      invariant forall j :: 0 <= j < out.Length && !(lo <= j < n) ==> out[j] == old(out[j])
    {
      out[n] := Add(out[n], in_[n]);
    }
  }

  // out[lo:hi] = c * in[lo:hi]: vector prefixes, then the table for the tail.
  method GalMulSlice(c: byte, in_: array<byte>, out: array<byte>, lo: nat, hi: nat, o: Options)
    requires lo <= hi <= in_.Length && hi <= out.Length && in_ != out
    modifies out
    ensures forall j :: lo <= j < hi ==> out[j] == Mul(c, in_[j])
    ensures forall j :: 0 <= j < out.Length && !(lo <= j < hi) ==> out[j] == old(out[j])
  {
    hide Add, Mul, GalMultiply;
    if c == 1 {
      for n := lo to hi
        invariant forall j :: lo <= j < n ==> out[j] == Mul(c, in_[j])
        invariant forall j :: 0 <= j < out.Length && !(lo <= j < n) ==> out[j] == old(out[j])
      {
        MulOne(in_[n]);
        out[n] := in_[n];
      }
      return;
    }
    var pos := lo;
    if o.useAVX2 {
      if hi - pos >= BIG_SWITCHOVER {
        var done := MulKernel(c, in_, out, pos, hi, 64);
        pos := pos + done;
      }
      if hi - pos > 32 {
        var done := MulKernel(c, in_, out, pos, hi, 32);
        pos := pos + done;
      }
    } else if o.useSSSE3 {
      var done := MulKernel(c, in_, out, pos, hi, 16);
      pos := pos + done;
    }
    for n := pos to hi
      invariant forall j :: lo <= j < n ==> out[j] == Mul(c, in_[j])
      invariant forall j :: 0 <= j < out.Length && !(lo <= j < n) ==> out[j] == old(out[j])
    {
      out[n] := GalMultiply(c, in_[n]);
    }
  }

  // out[lo:hi] ^= in[lo:hi]
  method SliceXor(in_: array<byte>, out: array<byte>, lo: nat, hi: nat, o: Options)
    requires lo <= hi <= in_.Length && hi <= out.Length && in_ != out
    modifies out
    ensures forall j :: lo <= j < hi ==> out[j] == Add(old(out[j]), in_[j])
    ensures forall j :: 0 <= j < out.Length && !(lo <= j < hi) ==> out[j] == old(out[j])
  {
    hide Add, Mul;
    var pos := lo;
    if o.useSSE2 {
      if hi - pos >= BIG_SWITCHOVER {
        var done := XorKernel(in_, out, pos, hi, 64);
        pos := pos + done;
      }
      if hi - pos >= 16 {
        var done := XorKernel(in_, out, pos, hi, 16);
        pos := pos + done;
      }
    }
    for n := pos to hi
      invariant forall j :: lo <= j < n ==> out[j] == Add(old(out[j]), in_[j])
      invariant forall j :: 0 <= j < out.Length && !(lo <= j < n) ==> out[j] == old(out[j])
    {
      out[n] := Add(out[n], in_[n]);
    }
  }

  // out[lo:hi] ^= c * in[lo:hi]
  method GalMulSliceXor(c: byte, in_: array<byte>, out: array<byte>, lo: nat, hi: nat, o: Options)
    requires lo <= hi <= in_.Length && hi <= out.Length && in_ != out
    modifies out
    ensures forall j :: lo <= j < hi ==> out[j] == Add(old(out[j]), Mul(c, in_[j]))
    ensures forall j :: 0 <= j < out.Length && !(lo <= j < hi) ==> out[j] == old(out[j])
  {
    hide Add, Mul, GalMultiply;
    if c == 1 {
      forall j | lo <= j < hi
        ensures Mul(c, in_[j]) == in_[j]
      {
        MulOne(in_[j]);
      }
      SliceXor(in_, out, lo, hi, o);
      return;
    }
    var pos := lo;
    if o.useAVX2 {
      if hi - pos >= BIG_SWITCHOVER {
        var done := MulXorKernel(c, in_, out, pos, hi, 64);
        pos := pos + done;
      }
      if hi - pos >= 32 {
        var done := MulXorKernel(c, in_, out, pos, hi, 32);
        pos := pos + done;
      }
    } else if o.useSSSE3 {
      var done := MulXorKernel(c, in_, out, pos, hi, 16);
      pos := pos + done;
    }
    if pos == hi {
      return;
    }
    for n := pos to hi
      invariant forall j :: lo <= j < n ==> out[j] == Add(old(out[j]), Mul(c, in_[j]))
      invariant forall j :: 0 <= j < out.Length && !(lo <= j < n) ==> out[j] == old(out[j])
    {
      out[n] := Add(out[n], GalMultiply(c, in_[n]));
    }
  }

  // The pure-Go sliceXor: four 8-byte words per turn, then single bytes.  A word is its 8 bytes.
  method SliceXorUnrolled(in_: array<byte>, out: array<byte>, lo: nat, hi: nat)
    requires lo <= hi <= in_.Length && hi <= out.Length && in_ != out
    modifies out
    ensures forall j :: lo <= j < hi ==> out[j] == Add(old(out[j]), in_[j])
    ensures forall j :: 0 <= j < out.Length && !(lo <= j < hi) ==> out[j] == old(out[j])
  {
    hide Add;
    var pos := lo;
    while hi - pos >= 32
      invariant lo <= pos <= hi
      invariant forall j :: lo <= j < pos ==> out[j] == Add(old(out[j]), in_[j])
      invariant forall j :: 0 <= j < out.Length && !(lo <= j < pos) ==> out[j] == old(out[j])
    {
      XorFour(in_, out, pos);
      pos := pos + 32;
    }
    for n := pos to hi
      invariant forall j :: lo <= j < n ==> out[j] == Add(old(out[j]), in_[j])
      invariant forall j :: 0 <= j < out.Length && !(lo <= j < n) ==> out[j] == old(out[j])
    {
      out[n] := Add(out[n], in_[n]);
    }
  }

  // One turn: all four words are read before the first is written.
  method XorFour(in_: array<byte>, out: array<byte>, at: nat)
    requires at + 32 <= in_.Length && at + 32 <= out.Length && in_ != out
    modifies out
    ensures forall j :: at <= j < at + 32 ==> out[j] == Add(old(out[j]), in_[j])
    ensures forall j :: 0 <= j < out.Length && !(at <= j < at + 32) ==> out[j] == old(out[j])
  {
    hide Add;
    var v0 := XorWord(in_, out, at);
    var v1 := XorWord(in_, out, at + 8);
    var v2 := XorWord(in_, out, at + 16);
    var v3 := XorWord(in_, out, at + 24);
    PutWord(out, at, v0);
    PutWord(out, at + 8, v1);
    PutWord(out, at + 16, v2);
    PutWord(out, at + 24, v3);
  }

  // The word at a position of out, xor the word at the same position of in.
  method XorWord(in_: array<byte>, out: array<byte>, at: nat) returns (v: seq<byte>)
    requires at + 8 <= in_.Length && at + 8 <= out.Length
    ensures |v| == 8 && forall j :: at <= j < at + 8 ==> v[j - at] == Add(out[j], in_[j])
  {
    hide Add;
    v := [];
    for k := 0 to 8
      invariant |v| == k && forall j :: at <= j < at + k ==> v[j - at] == Add(out[j], in_[j])
    {
      v := v + [Add(out[at + k], in_[at + k])];
    }
  }

  method PutWord(out: array<byte>, at: nat, v: seq<byte>)
    requires |v| == 8 && at + 8 <= out.Length
    modifies out
    ensures forall j :: at <= j < at + 8 ==> out[j] == v[j - at]
    ensures forall j :: 0 <= j < out.Length && !(at <= j < at + 8) ==> out[j] == old(out[j])
  {
    for k := 0 to 8
      invariant forall j :: at <= j < at + k ==> out[j] == v[j - at]
      invariant forall j :: 0 <= j < out.Length && !(at <= j < at + k) ==> out[j] == old(out[j])
    {
      out[at + k] := v[k];
    }
  }
}
