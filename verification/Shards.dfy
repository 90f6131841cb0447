/** Lists of shards: arrays that may be missing, the size checks, and codewords. */
module Shards {
  import opened Wrappers
  import opened Galois
  import opened LinearAlgebra
  import opened Coding

  type Shard = array?<byte>

  function Len(s: Shard): nat { if s == null then 0 else s.Length }

  ghost function Bytes(s: Shard): (r: seq<byte>)
    reads s
    ensures |r| == Len(s)
  {
    if s == null then [] else s[..]
  }

  // The contents of all shards; a missing one is empty.
  ghost function Values(shards: array<Shard>): (r: Mat)
    reads shards, shards[..]
    ensures |r| == shards.Length
  {
    seq(shards.Length, i requires 0 <= i < shards.Length reads shards, shards[..] => Bytes(shards[i]))
  }

  // No two shards share memory.
  ghost predicate Apart(shards: array<Shard>)
    reads shards
  {
    && (forall i, j :: 0 <= i < j < shards.Length && shards[i] != null ==> shards[i] != shards[j])
    && (forall i :: 0 <= i < shards.Length && shards[i] != null ==> shards[i] as object != shards)
  }

  // The first non-zero length, or 0.
  function SizeOf(lens: seq<nat>): nat {
    if |lens| == 0 then 0 else if lens[0] != 0 then lens[0] else SizeOf(lens[1..])
  }

  // What checkShards answers.
  function Check(lens: seq<nat>, nilOk: bool): Option<Error> {
    if SizeOf(lens) == 0 then Some(ShardNoData)
    else if exists i :: 0 <= i < |lens| && lens[i] != SizeOf(lens) && (lens[i] != 0 || !nilOk) then Some(ShardSize)
    else None
  }

  function Lens(shards: seq<Shard>): (r: seq<nat>)
    ensures |r| == |shards|
  {
    seq(|shards|, i requires 0 <= i < |shards| => Len(shards[i]))
  }

  // shardSize
  method SizeOfLens(lens: seq<nat>) returns (size: nat)
    ensures size == SizeOf(lens)
  {
    for i := 0 to |lens|
      invariant SizeOf(lens) == SizeOf(lens[i..])
    {
      assert lens[i..][1..] == lens[i + 1..];
      if lens[i] != 0 {
        return lens[i];
      }
    }
    return 0;
  }

  // checkShards
  method CheckLens(lens: seq<nat>, nilOk: bool) returns (err: Option<Error>)
    ensures err == Check(lens, nilOk)
  {
    var size := SizeOfLens(lens);
    if size == 0 {
      return Some(ShardNoData);
    }
    for i := 0 to |lens|
      invariant forall k :: 0 <= k < i ==> !(lens[k] != size && (lens[k] != 0 || !nilOk))
    {
      if lens[i] != size {
        if lens[i] != 0 || !nilOk {
          return Some(ShardSize);
        }
      }
    }
    return None;
  }

  method ShardSizeOf(shards: seq<Shard>) returns (size: nat)
    ensures size == SizeOf(Lens(shards))
  {
    size := SizeOfLens(Lens(shards));
  }

  method CheckShards(shards: seq<Shard>, nilOk: bool) returns (err: Option<Error>)
    ensures err == Check(Lens(shards), nilOk)
  {
    err := CheckLens(Lens(shards), nilOk);
  }

  // A check that passes: every length is the common size, or 0 where that is allowed.
  lemma {:induction false} CheckPassed(lens: seq<nat>, nilOk: bool)
    requires Check(lens, nilOk) == None
    ensures SizeOf(lens) > 0 && forall i :: 0 <= i < |lens| ==> lens[i] == SizeOf(lens) || (nilOk && lens[i] == 0)
  {}

  /** What the errors mean: no data if there are only empty shards; a wrong size if two lengths differ, unless
      one of them is zero and that is allowed. */
  lemma CheckMeans(lens: seq<nat>, nilOk: bool)
    ensures Check(lens, nilOk) == Some(ShardNoData) <==> forall i :: 0 <= i < |lens| ==> lens[i] == 0
    ensures Check(lens, nilOk) == Some(ShardSize) <==>
      exists i, k ::
        0 <= i < |lens| && 0 <= k < |lens| && lens[i] != 0 && lens[i] != lens[k] && (lens[k] != 0 || !nilOk)
    ensures Check(lens, nilOk) in {None, Some(ShardNoData), Some(ShardSize)}
  {
    FirstSize(lens);
    hide SizeOf;
    var w := SizeOf(lens);
    if i, k :| 0 <= i < |lens| && 0 <= k < |lens| && lens[i] != 0 && lens[i] != lens[k] && (lens[k] != 0 || !nilOk) {
      assert lens[i] != w || lens[k] != w;
    }
  }

  // The size is the first length that is not zero.
  lemma {:induction false} FirstSize(lens: seq<nat>)
    ensures SizeOf(lens) == 0 <==> forall i :: 0 <= i < |lens| ==> lens[i] == 0
    ensures SizeOf(lens) > 0 ==>
      exists i :: 0 <= i < |lens| && lens[i] == SizeOf(lens) && forall k :: 0 <= k < i ==> lens[k] == 0
  {
    if |lens| > 0 && lens[0] == 0 {
      FirstSize(lens[1..]);
      if SizeOf(lens) > 0 {
        var i :| 0 <= i < |lens| - 1 && lens[1..][i] == SizeOf(lens) && forall k :: 0 <= k < i ==> lens[1..][k] == 0;
        forall k | 0 <= k < i + 1
          ensures lens[k] == 0
        {
          assert k > 0 ==> lens[k] == lens[1..][k - 1];
        }
        assert lens[i + 1] == SizeOf(lens);
      } else {
        forall i | 0 <= i < |lens|
          ensures lens[i] == 0
        {
          assert i > 0 ==> lens[i] == lens[1..][i - 1];
        }
      }
    }
  }

  // The first non-zero length, when the lengths are w or 0.
  lemma {:induction false} SizeOfSome(lens: seq<nat>, w: nat)
    requires w > 0 && forall i :: 0 <= i < |lens| ==> lens[i] == 0 || lens[i] == w
    ensures SizeOf(lens) == if exists i :: 0 <= i < |lens| && lens[i] != 0 then w else 0
  {
    if |lens| > 0 {
      SizeOfSome(lens[1..], w);
      if lens[0] == 0 && exists i :: 0 <= i < |lens| && lens[i] != 0 {
        var i :| 0 <= i < |lens| && lens[i] != 0;
        assert lens[1..][i - 1] != 0;
      }
    }
  }

  lemma CheckErrors(lens: seq<nat>, nilOk: bool)
    ensures Check(lens, nilOk) in {None, Some(ShardNoData), Some(ShardSize)}
  {}

  // Equal non-empty shards pass the strict check, and only those.
  lemma {:induction false} CheckStrict(lens: seq<nat>, w: nat)
    ensures Check(lens, false) == None && SizeOf(lens) == w <==>
      |lens| > 0 && w > 0 && forall i :: 0 <= i < |lens| ==> lens[i] == w
  {}

  // Rows lo..hi as plain arrays.
  lemma AllOfLength(shards: array<Shard>, w: nat)
    requires shards.Length > 0 && w > 0 && forall i :: 0 <= i < shards.Length ==> Len(shards[i]) == w
    ensures Check(Lens(shards[..]), false) == None && SizeOf(Lens(shards[..])) == w
  {
    CheckStrict(Lens(shards[..]), w);
  }

  lemma AllOfSize(shards: array<Shard>)
    requires Check(Lens(shards[..]), false) == None
    ensures SizeOf(Lens(shards[..])) > 0
    ensures forall i :: 0 <= i < shards.Length ==> shards[i] != null && shards[i].Length == SizeOf(Lens(shards[..]))
  {
    var lens, w := Lens(shards[..]), SizeOf(Lens(shards[..]));
    CheckStrict(lens, w);
    hide Check, SizeOf;
    forall i | 0 <= i < shards.Length
      ensures Len(shards[i]) == w
    {
      assert lens[i] == Len(shards[..][i]);
    }
  }

  method Collect(shards: array<Shard>, lo: nat, hi: nat) returns (r: seq<array<byte>>)
    requires lo <= hi <= shards.Length && forall i :: lo <= i < hi ==> shards[i] != null
    ensures |r| == hi - lo && forall i :: 0 <= i < hi - lo ==> r[i] == shards[lo + i]
  {
    r := [];
    for i := lo to hi
      invariant |r| == i - lo && forall k :: 0 <= k < i - lo ==> r[k] == shards[lo + k]
    {
      r := r + [shards[i]];
    }
  }

  // Every shard is the combination of the data shards given by its matrix row.
  ghost predicate Codeword(m: Mat, data: nat, values: Mat, w: nat) {
    && |m| == |values| && data <= |values| && IsMat(m, |m|, data) && IsMat(values, |values|, w)
    && forall i :: 0 <= i < |values| ==> values[i] == Comb(m[i], values[..data], w)
  }
}
