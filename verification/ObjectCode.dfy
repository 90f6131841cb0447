/** A whole object as shards: the steps New, Split and Encode, and Join over what is there again.
    The mobile node and the encoder and decoder commands are built from them. */
module ObjectCode {
  import opened Wrappers
  import opened Galois
  import opened LinearAlgebra
  import opened Kernels
  import opened Coding
  import opened Generator
  import opened Shards
  import opened Streams
  import SJ = SplitJoin
  import Interpolation
  import RS = ReedSolomon

  // V are the shards of the content: its data shards start with it, and the parity is coded from them.
  ghost predicate Encodes(m: Mat, V: Mat, content: Vec, dataShards: nat, parityShards: nat) {
    && 0 < dataShards && dataShards + parityShards <= 256 && |V| == dataShards + parityShards && 0 < |content|
    && (forall i :: 0 <= i < |V| ==> |V[i]| == SJ.PerShard(|content|, dataShards))
    && |content| <= |SJ.Flat(V[..dataShards])| && SJ.Flat(V[..dataShards])[..|content|] == content
    && (parityShards > 0 ==>
         Recoverable(m, dataShards, dataShards + parityShards) && IsBuilt(m, dataShards, dataShards + parityShards) &&
         Codeword(m, dataShards, V, SJ.PerShard(|content|, dataShards)))
  }

  // The windows that Split gives, as arrays of their own.
  method Copies(slices: seq<SJ.Slice>, per: nat, ghost outside: set<object>) returns (shards: array<Shard>)
    requires forall i :: 0 <= i < |slices| ==> slices[i].Slice? && slices[i].Inside() && slices[i].len == per
    ensures fresh(shards) && shards.Length == |slices| && Apart(shards) && shards !in outside
    ensures forall i :: 0 <= i < |slices| ==>
      shards[i] != null && fresh(shards[i]) && shards[i] !in outside && shards[i][..] == old(slices[i].Bytes())
  {
    shards := new Shard[|slices|];
    for i := 0 to |slices|
      invariant shards !in outside && forall k :: 0 <= k < i ==>
        shards[k] != null && fresh(shards[k]) && shards[k] !in outside && shards[k][..] == old(slices[k].Bytes()) &&
        shards[k] as object != shards
      invariant forall j, k :: 0 <= j < k < i ==> shards[j] != shards[k]
    {
      var s := slices[i];
      var copy := new byte[per](k requires 0 <= k < per reads s.base => s.base[s.off + k]);
      assert copy[..] == s.Bytes();
      shards[i] := copy;
    }
  }

  // All shards are at hand, apart from anything else.
  ghost predicate Separate(shards: array<Shard>, outside: set<object>)
    reads shards
  {
    && Apart(shards) && shards !in outside
    && forall i :: 0 <= i < shards.Length ==> shards[i] != null && shards[i] !in outside
  }

  // Split: the data shards are the object and some padding; or the index error.
  method SplitObject(data: array<byte>, dataLen: nat, dataShards: nat, total: nat, ghost outside: set<object>)
    returns (r: Option<array<Shard>>)
    requires 0 < dataLen <= data.Length && 0 < dataShards <= total
    modifies data
    ensures data[..dataLen] == old(data[..dataLen])
    ensures r == None <==> SJ.Panics(data.Length, dataLen, dataShards, total)
    ensures r.Some? ==> fresh(r.value) && r.value.Length == total && Separate(r.value, outside)
    ensures r.Some? ==> forall i :: 0 <= i < total ==>
      fresh(r.value[i]) && r.value[i].Length == SJ.PerShard(dataLen, dataShards)
    ensures r.Some? ==> dataLen <= |SJ.Flat(Values(r.value)[..dataShards])|
    ensures r.Some? ==> SJ.Flat(Values(r.value)[..dataShards])[..dataLen] == old(data[..dataLen])
  {
    hide SJ.Image, SJ.Chunk, SJ.At, SJ.FlatTo;
    ghost var buffer := data[..];
    var split := SJ.Split(data, dataLen, dataShards, total);
    if split == Err(Panicked) {
      return None;
    }
    ghost var per, image := SJ.PerShard(dataLen, dataShards), SJ.Image(buffer, dataLen, dataShards, total);
    var slices := split.value;
    ghost var pieces := seq(total, i requires 0 <= i < total => SJ.Chunk(image, per, i, total));
    assert forall i :: 0 <= i < total ==> slices[i].Bytes() == pieces[i];
    var shards := Copies(slices, SJ.PerShard(dataLen, dataShards), outside);
    assert Values(shards)[..dataShards] == pieces[..dataShards];
    SJ.FlatOfChunks(pieces[..dataShards], image, per, dataShards, total);
    SJ.ImageHoldsData(buffer, dataLen, dataShards, total);
    assert image[..SJ.At(dataShards, per)][..dataLen] == image[..dataLen];
    return Some(shards);
  }

  // The contents of the shards.
  method ContentsOf(shards: array<Shard>) returns (r: seq<Vec>)
    requires forall i :: 0 <= i < shards.Length ==> shards[i] != null
    ensures r == Values(shards)
  {
    r := [];
    for i := 0 to shards.Length
      invariant |r| == i && forall k :: 0 <= k < i ==> r[k] == shards[k][..]
    {
      r := r + [shards[i][..]];
    }
  }

  lemma AllFull(lens: seq<nat>, w: nat)
    requires |lens| > 0 && w > 0 && forall i :: 0 <= i < |lens| ==> lens[i] == w
    ensures Check(lens, false) == None && Check(lens, true) == None && SizeOf(lens) == w
  {
    CheckStrict(lens, w);
  }

  /** New, Split and Encode: the shards of an object, or the index error of Split.  The first call on an
      encoder finds a full buffer, so nothing else can go wrong. */
  method CodeObject(data: array<byte>, dataLen: nat, dataShards: nat, parityShards: nat, o: Options)
    returns (r: Option<seq<Vec>>, ghost m: Mat)
    requires Tuned(o) && 0 < dataLen <= data.Length && 0 < dataShards && dataShards + parityShards <= 256
    modifies data
    ensures data[..dataLen] == old(data[..dataLen])
    ensures r == None <==> SJ.Panics(data.Length, dataLen, dataShards, dataShards + parityShards)
    ensures r.Some? ==> Encodes(m, r.value, old(data[..dataLen]), dataShards, parityShards)
  {
    hide Recoverable, IsBuilt, Comb, Codeword, SJ.Flat, Check, SizeOf, Encodes, Interpolation.CodesValues;
    var made := RS.ReedSolomon.New(dataShards, parityShards, RS.VandermondeMatrix, false, o, true);
    var enc := made.value;
    m := enc.m;
    var split := SplitObject(data, dataLen, dataShards, dataShards + parityShards, enc.Repr());
    if split == None {
      return None, m;
    }
    var shards := split.value;
    ghost var before := Values(shards);
    AllFull(Lens(shards[..]), SJ.PerShard(dataLen, dataShards));
    enc.NewDoesNotPanic(Lens(shards[..]));
    var err := enc.Encode(shards);
    var V := ContentsOf(shards);
    assert V[..dataShards] == before[..dataShards];
    IsEncoding(m, V, before, old(data[..dataLen]), dataShards, parityShards);
    r := Some(V);
  }

  lemma IsEncoding(m: Mat, V: Mat, before: Mat, content: Vec, dataShards: nat, parityShards: nat)
    requires 0 < dataShards && dataShards + parityShards <= 256 && |V| == |before| == dataShards + parityShards
    requires 0 < |content| && V[..dataShards] == before[..dataShards]
    requires forall i :: 0 <= i < |V| ==> |V[i]| == SJ.PerShard(|content|, dataShards)
    requires |content| <= |SJ.Flat(before[..dataShards])|
    requires SJ.Flat(before[..dataShards])[..|content|] == content
    requires parityShards > 0 ==>
      Recoverable(m, dataShards, dataShards + parityShards) && IsBuilt(m, dataShards, dataShards + parityShards) &&
      Codeword(m, dataShards, V, SJ.PerShard(|content|, dataShards))
    ensures Encodes(m, V, content, dataShards, parityShards)
  {
    hide Recoverable, IsBuilt, Codeword, SJ.Flat;
  }

  // Whole arrays as slices; a missing shard is nil.
  method AsSlices(shards: array<Shard>) returns (slices: seq<SJ.Slice>)
    ensures |slices| == shards.Length && forall k :: 0 <= k < |slices| ==> slices[k].Inside()
    ensures forall k :: 0 <= k < |slices| ==>
      slices[k] == if shards[k] == null then SJ.Nil else SJ.Slice.Slice(shards[k], 0, shards[k].Length)
  {
    slices := [];
    for i := 0 to shards.Length
      invariant |slices| == i && forall k :: 0 <= k < i ==> slices[k].Inside()
      invariant forall k :: 0 <= k < i ==>
        slices[k] == if shards[k] == null then SJ.Nil else SJ.Slice.Slice(shards[k], 0, shards[k].Length)
    {
      slices := slices + [if shards[i] == null then SJ.Nil else SJ.Slice.Slice(shards[i], 0, shards[i].Length)];
    }
  }

  lemma WholePieces(shards: array<Shard>, slices: seq<SJ.Slice>, data: nat)
    requires |slices| == shards.Length >= data
    requires forall k :: 0 <= k < |slices| ==>
      shards[k] != null && slices[k] == SJ.Slice.Slice(shards[k], 0, shards[k].Length)
    ensures forall k :: 0 <= k < data ==> slices[..data][k].Inside()
    ensures SJ.Pieces(slices[..data]) == Values(shards)[..data]
  {
    forall i | 0 <= i < data
      ensures SJ.Pieces(slices[..data])[i] == Values(shards)[i]
    {
      assert shards[i][0..shards[i].Length] == shards[i][..];
    }
  }

  ghost predicate AllThere(shards: array<Shard>)
    reads shards
  {
    forall i :: 0 <= i < shards.Length ==> shards[i] != null
  }

  // Join over whole arrays.
  method JoinShards(shards: array<Shard>, dataShards: nat, size: nat) returns (r: Option<Vec>)
    requires 0 < dataShards <= shards.Length
    ensures AllThere(shards) && size <= |SJ.Flat(Values(shards)[..dataShards])| ==>
      r == Some(SJ.Flat(Values(shards)[..dataShards])[..size])
  {
    hide SJ.Flat, SJ.JoinVerdict, SJ.Blocks, SJ.Total;
    var slices := AsSlices(shards);
    ghost var p := Values(shards)[..dataShards];
    ghost var good := AllThere(shards) && size <= |SJ.Flat(p)|;
    if good {
      WholePieces(shards, slices, dataShards);
      SJ.EnoughToJoin(slices, dataShards, size);
    }
    var out := new Writer(size);
    assert good ==> SJ.Pieces(slices[..dataShards]) == p;
    var joined := SJ.Join(out, slices, dataShards, size);
    assert good ==> SJ.Pieces(slices[..dataShards]) == p by {
      if good {
        WholePieces(shards, slices, dataShards);
      }
    }
    if joined != None {
      return None;
    }
    assert good ==> out.written == [] + SJ.Flat(p)[..size] == SJ.Flat(p)[..size];
    assert Values(shards)[..dataShards] == p;
    return Some(out.written);
  }
}
