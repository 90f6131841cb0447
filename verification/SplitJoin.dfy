/** Split and Join (reedsolomon.go), over slices that are windows of arrays. */
module SplitJoin {
  import opened Wrappers
  import opened Galois
  import opened LinearAlgebra
  import opened Streams

  // A slice of bytes: a window of an array, or nil.
  datatype Slice = Nil | Slice(base: array<byte>, off: nat, len: nat)
  {
    ghost predicate Inside() { Slice? ==> off + len <= base.Length }

    ghost function Bytes(): (r: seq<byte>)
      requires Inside()
      reads if Slice? then {base} else {}
    {
      if Nil? then [] else base[off..off + len]
    }

    function Len(): nat { if Nil? then 0 else len }
  }

  // Where piece i begins.
  function At(i: nat, per: nat): nat { i * per }

  lemma AtNext(i: nat, per: nat)
    ensures At(0, per) == 0 && At(i + 1, per) == At(i, per) + per
  {}

  lemma AtMono(i: nat, k: nat, per: nat)
    requires i <= k
    ensures At(i, per) <= At(k, per)
  {}

  lemma AtSum(i: nat, k: nat, per: nat)
    ensures At(i + k, per) == At(i, per) + At(k, per)
  {}

  // Bytes per shard, rounded up.
  function PerShard(n: nat, dataShards: nat): (r: nat)
    requires dataShards > 0
    ensures At(dataShards, r) >= n && (n > 0 ==> r > 0 && At(dataShards, r) < n + dataShards)
  {
    var r := (n + dataShards - 1) / dataShards;
    Ceiling(n, dataShards, r);
    r
  }

  lemma Ceiling(n: nat, d: nat, r: int)
    requires d > 0 && r == (n + d - 1) / d
    ensures r >= 0 && n <= d * r < n + d && (n > 0 ==> r > 0)
  {
    assert (n + d - 1) == d * r + (n + d - 1) % d;
  }

  // Split writes dataShards zeros behind the data when the capacity holds all shards, whether or
  // not they fit.
  predicate Panics(capacity: nat, n: nat, dataShards: nat, shards: nat)
    requires dataShards > 0
  {
    n > 0 && At(shards, PerShard(n, dataShards)) <= capacity < n + dataShards
  }

  // The bytes the shards lie over: the whole capacity, padded with zeros if it is too small;
  // otherwise with zeros written right behind the data.
  ghost function Image(buffer: seq<byte>, n: nat, dataShards: nat, shards: nat): (r: seq<byte>)
    requires 0 < n <= |buffer| && 0 < dataShards <= shards
    requires !Panics(|buffer|, n, dataShards, shards)
    ensures |r| == At(shards, PerShard(n, dataShards))
  {
    var total := At(shards, PerShard(n, dataShards));
    if |buffer| < total then buffer + Zeros(total - |buffer|)
    else (buffer[..n] + Zeros(dataShards) + buffer[n + dataShards..])[..total]
  }

  function Chunk(s: seq<byte>, per: nat, i: nat, k: nat): (r: seq<byte>)
    requires i < k && |s| == At(k, per)
    ensures |r| == per
  {
    AtMono(i + 1, k, per);
    AtNext(i, per);
    s[At(i, per)..At(i + 1, per)]
  }

  // The first slices hold the first pieces of the image; as many as fit are windows of the input.
  ghost predicate Shared(slices: seq<Slice>, image: seq<byte>, data: array<byte>, per: nat, shards: nat)
    requires |image| == At(shards, per)
    reads set s | s in slices && s.Slice? :: s.base
  {
    && |slices| <= shards
    && (forall i :: 0 <= i < |slices| ==> slices[i].Slice? && slices[i].len == per && slices[i].Inside())
    && (forall i :: 0 <= i < |slices| ==> slices[i].Bytes() == Chunk(image, per, i, shards))
    && (forall i :: 0 <= i < |slices| ==> (slices[i].base == data <==> At(i + 1, per) <= data.Length))
    && (forall i :: 0 <= i < |slices| && slices[i].base == data ==> slices[i].off == At(i, per))
  }

  // A piece of a + b, where a holds the first `full` pieces.
  lemma ChunkOf(a: seq<byte>, b: seq<byte>, per: nat, i: nat, full: nat, shards: nat)
    requires i < shards && full <= shards && |a| == At(full, per) && |a + b| == At(shards, per)
    ensures i < full ==> At(i, per) + per <= |a| && Chunk(a + b, per, i, shards) == a[At(i, per)..At(i, per) + per]
    ensures i >= full ==>
      At(i - full, per) + per <= |b| && Chunk(a + b, per, i, shards) == b[At(i - full, per)..At(i - full, per) + per]
  {
    hide At;
    AtNext(i, per);
    if i < full {
      AtMono(i + 1, full, per);
    } else {
      AtMono(i + 1, shards, per);
      AtSum(full, i - full, per);
    }
  }

  lemma NoSlices(image: seq<byte>, data: array<byte>, per: nat, shards: nat)
    requires |image| == At(shards, per)
    ensures Shared([], image, data, per, shards)
  {}

  lemma Grow(slices: seq<Slice>, s: Slice, image: seq<byte>, data: array<byte>, per: nat, shards: nat)
    requires |image| == At(shards, per) && Shared(slices, image, data, per, shards) && |slices| < shards
    requires s.Slice? && s.len == per && s.Inside() && s.Bytes() == Chunk(image, per, |slices|, shards)
    requires s.base == data <==> At(|slices| + 1, per) <= data.Length
    requires s.base == data ==> s.off == At(|slices|, per)
    ensures Shared(slices + [s], image, data, per, shards)
  {
    hide At, Chunk;
  }

  lemma InputWindow(data: array<byte>, padding: array<byte>, per: nat, i: nat, full: nat, shards: nat)
    requires i < full <= shards && At(full, per) <= data.Length && At(full, per) + padding.Length == At(shards, per)
    ensures At(i + 1, per) == At(i, per) + per <= At(full, per)
    ensures Slice(data, At(i, per), per).Bytes() == Chunk(data[..At(full, per)] + padding[..], per, i, shards)
  {
    hide At, Chunk;
    AtNext(i, per);
    AtMono(i + 1, full, per);
    ChunkOf(data[..At(full, per)], padding[..], per, i, full, shards);
  }

  lemma PaddingWindow(data: array<byte>, padding: array<byte>, per: nat, i: nat, full: nat, shards: nat)
    requires full <= i < shards && At(full, per) <= data.Length && At(full, per) + padding.Length == At(shards, per)
    ensures At(i - full + 1, per) == At(i - full, per) + per <= padding.Length && At(full, per) + per <= At(i + 1, per)
    ensures Slice(padding, At(i - full, per), per).Bytes() == Chunk(data[..At(full, per)] + padding[..], per, i, shards)
  {
    hide At, Chunk;
    AtNext(full, per);
    AtNext(i - full, per);
    AtMono(full + 1, i + 1, per);
    ChunkOf(data[..At(full, per)], padding[..], per, i, full, shards);
  }

  // Split into equal windows of the input, then of the padding.
  method Windows(data: array<byte>, left: nat, padding: array<byte>, perShard: nat, shards: nat, ghost full: nat,
                 ghost image: seq<byte>)
    returns (dst: seq<Slice>)
    requires perShard > 0 && full <= shards && At(full, perShard) <= left <= data.Length && data != padding
    requires full == shards || (left == At(full, perShard) && data.Length < left + perShard)
    requires image == data[..At(full, perShard)] + padding[..] && |image| == At(shards, perShard)
    ensures |dst| == shards && Shared(dst, image, data, perShard, shards)
    ensures forall s :: s in dst ==> s.Slice? && (s.base == data || s.base == padding)
  {
    hide At, Chunk, Shared;
    assert Shared([], image, data, perShard, shards) by { NoSlices(image, data, perShard, shards); }
    dst := [];
    var pos, used := 0, 0;
    AtNext(0, perShard);
    while |dst| < shards && left - pos >= perShard
      invariant |dst| <= full && pos == At(|dst|, perShard) && Shared(dst, image, data, perShard, shards)
      invariant forall s :: s in dst ==> s.Slice? && s.base == data
    {
      InputWindow(data, padding, perShard, |dst|, full, shards);
      Grow(dst, Slice(data, pos, perShard), image, data, perShard, shards);
      dst := dst + [Slice(data, pos, perShard)];
      pos := pos + perShard;
    }
    if |dst| < full {
      AtNext(|dst|, perShard);
      AtMono(|dst| + 1, full, perShard);
    }
    while |dst| < shards
      invariant full <= |dst| <= shards && used == At(|dst| - full, perShard) &&
        Shared(dst, image, data, perShard, shards)
      invariant forall s :: s in dst ==> s.Slice? && (s.base == data || s.base == padding)
    {
      PaddingWindow(data, padding, perShard, |dst|, full, shards);
      Grow(dst, Slice(padding, used, perShard), image, data, perShard, shards);
      dst := dst + [Slice(padding, used, perShard)];
      used := used + perShard;
    }
  }

  // The spare capacity is too small: the rest behind the last full shard goes into the padding.
  method Pad(data: array<byte>, perShard: nat, shards: nat, fullShards: nat) returns (padding: array<byte>)
    requires At(fullShards, perShard) <= data.Length < At(shards, perShard)
    ensures fresh(padding)
    ensures data[..At(fullShards, perShard)] + padding[..] == data[..] + Zeros(At(shards, perShard) - data.Length)
  {
    hide At;
    var from, total := At(fullShards, perShard), At(shards, perShard);
    padding := new byte[total - from](_ => 0);
    for k := from to data.Length
      invariant padding[..k - from] == data[from..k]
      invariant forall j :: k - from <= j < padding.Length ==> padding[j] == 0
    {
      padding[k - from] := data[k];
    }
  }

  // Zeros behind the data; false if there is no room for all of them.
  method ZeroBehind(data: array<byte>, dataLen: nat, dataShards: nat) returns (ok: bool)
    requires dataLen <= data.Length
    modifies data
    ensures ok <==> dataLen + dataShards <= data.Length
    ensures data[..dataLen] == old(data[..dataLen])
    ensures ok ==> data[..] == old(data[..dataLen]) + Zeros(dataShards) + old(data[dataLen + dataShards..])
  {
    for i := dataLen to dataLen + dataShards
      invariant i <= data.Length
      invariant data[..] == old(data[..dataLen]) + Zeros(i - dataLen) + old(data[i..])
    {
      if i >= data.Length {
        return false;
      }
      data[i] := 0;
    }
    return true;
  }

  /** Split: the shards hold the pieces of the image and share memory with the input where they
      fit; it stops with an index out of range exactly when `Panics` says. */
  method Split(data: array<byte>, dataLen: nat, dataShards: nat, shards: nat) returns (r: Result<seq<Slice>>)
    requires 0 < dataShards <= shards && dataLen <= data.Length
    modifies data
    ensures dataLen == 0 ==> r == Err(ShortData) && data[..] == old(data[..])
    ensures r == Err(Panicked) <==> Panics(data.Length, dataLen, dataShards, shards)
    ensures dataLen > 0 && r != Err(Panicked) ==> r.Ok? && |r.value| == shards
    ensures dataLen > 0 && r != Err(Panicked) ==>
      Shared(r.value, Image(old(data[..]), dataLen, dataShards, shards), data, PerShard(dataLen, dataShards), shards)
    ensures dataLen > 0 && r != Err(Panicked) ==> forall s :: s in r.value && s.base != data ==> fresh(s.base)
    ensures data[..dataLen] == old(data[..dataLen])
  {
    hide At;
    if dataLen == 0 {
      return Err(ShortData);
    }
    var perShard := PerShard(dataLen, dataShards);
    var total := At(shards, perShard);
    var padding := new byte[0];
    var left := data.Length;
    ghost var full := shards;
    if data.Length < total {
      var fullShards := data.Length / perShard;
      FullShards(data.Length, perShard, fullShards, shards);
      padding := Pad(data, perShard, shards, fullShards);
      left, full := At(fullShards, perShard), fullShards;
    } else {
      var ok := ZeroBehind(data, dataLen, dataShards);
      if !ok {
        return Err(Panicked);
      }
    }
    var slices := Windows(data, left, padding, perShard, shards, full,
      Image(old(data[..]), dataLen, dataShards, shards));
    return Ok(slices);
  }

  lemma FullShards(n: nat, per: nat, full: nat, shards: nat)
    requires per > 0 && full == n / per && n < At(shards, per)
    ensures At(full, per) <= n < At(full, per) + per && full < shards
  {
    assert n == per * full + n % per;
    if full >= shards {
      AtMono(shards, full, per);
    }
  }

  // ---- what the image says about data and padding ----

  // The first k pieces, one after the other.
  function FlatTo(p: seq<seq<byte>>, k: nat): (r: seq<byte>)
    requires k <= |p|
  {
    if k == 0 then [] else FlatTo(p, k - 1) + p[k - 1]
  }

  function Flat(p: seq<seq<byte>>): seq<byte> { FlatTo(p, |p|) }

  ghost function Pieces(s: seq<Slice>): (r: seq<seq<byte>>)
    requires forall k :: 0 <= k < |s| ==> s[k].Inside()
    reads set x | x in s && x.Slice? :: x.base
    ensures |r| == |s| && forall k :: 0 <= k < |s| ==> r[k] == s[k].Bytes()
  {
    seq(|s|, k requires 0 <= k < |s| reads set x | x in s && x.Slice? :: x.base => s[k].Bytes())
  }

  lemma {:induction false} FlatOfChunks(p: seq<seq<byte>>, image: seq<byte>, per: nat, k: nat, shards: nat)
    requires k <= |p| <= shards && |image| == At(shards, per)
    requires forall i :: 0 <= i < k ==> p[i] == Chunk(image, per, i, shards)
    ensures At(k, per) <= |image| && FlatTo(p, k) == image[..At(k, per)]
  {
    hide At;
    AtMono(k, shards, per);
    AtNext(0, per);
    if k > 0 {
      AtNext(k - 1, per);
      FlatOfChunks(p, image, per, k - 1, shards);
    }
  }

  /** The data shards hold the input followed by padding. */
  lemma ImageHoldsData(buffer: seq<byte>, n: nat, dataShards: nat, shards: nat)
    requires 0 < n <= |buffer| && 0 < dataShards <= shards && !Panics(|buffer|, n, dataShards, shards)
    ensures n <= At(dataShards, PerShard(n, dataShards)) <= At(shards, PerShard(n, dataShards))
    ensures Image(buffer, n, dataShards, shards)[..n] == buffer[..n]
  {
    hide At;
    AtMono(dataShards, shards, PerShard(n, dataShards));
  }

  /** The padding of the data shards is zero exactly if the spare capacity holds all shards, or its
      part under the data shards is zero already. */
  lemma PaddingIsZero(buffer: seq<byte>, n: nat, dataShards: nat, shards: nat)
    requires 0 < n <= |buffer| && 0 < dataShards <= shards && !Panics(|buffer|, n, dataShards, shards)
    ensures var per := PerShard(n, dataShards);
      (forall j :: n <= j < At(dataShards, per) ==> Image(buffer, n, dataShards, shards)[j] == 0) <==>
      (At(shards, per) <= |buffer| || forall j :: n <= j < |buffer| && j < At(dataShards, per) ==> buffer[j] == 0)
  {
    hide At;
    var per := PerShard(n, dataShards);
    AtMono(dataShards, shards, per);
    var image := Image(buffer, n, dataShards, shards);
    if At(shards, per) > |buffer| {
      assert forall j :: n <= j < |image| ==> image[j] == if j < |buffer| then buffer[j] else 0;
      if forall j :: n <= j < At(dataShards, per) ==> image[j] == 0 {
        assert forall j :: n <= j < |buffer| && j < At(dataShards, per) ==> image[j] == buffer[j];
      }
    }
  }

  /** Without spare capacity the padding is zero, and Split stops exactly if there is no parity and
      nothing to pad. */
  lemma ExactCapacity(buffer: seq<byte>, dataShards: nat, shards: nat)
    requires 0 < |buffer| && 0 < dataShards <= shards
    ensures Panics(|buffer|, |buffer|, dataShards, shards) <==>
      shards == dataShards && At(dataShards, PerShard(|buffer|, dataShards)) == |buffer|
    ensures !Panics(|buffer|, |buffer|, dataShards, shards) ==>
      forall j :: |buffer| <= j < At(dataShards, PerShard(|buffer|, dataShards)) ==>
        j < At(shards, PerShard(|buffer|, dataShards)) && Image(buffer, |buffer|, dataShards, shards)[j] == 0
  {
    hide At;
    var per := PerShard(|buffer|, dataShards);
    AtMono(dataShards, shards, per);
    if shards > dataShards {
      AtNext(dataShards, per);
      AtMono(dataShards + 1, shards, per);
    }
    if !Panics(|buffer|, |buffer|, dataShards, shards) {
      PaddingIsZero(buffer, |buffer|, dataShards, shards);
    }
  }

  /** Four bytes over four data shards without parity, and no spare capacity: Split stops. */
  lemma SplitCanPanic()
    ensures Panics(4, 4, 4, 4)
  {}

  /** Three bytes over two data shards and one parity shard, with a spare byte 9 in the buffer: the
      padding byte is 9, not zero. */
  lemma PaddingCanBeGarbage()
    ensures PerShard(3, 2) == 2 && !Panics(4, 3, 2, 3)
    ensures Image([1, 2, 3, 9], 3, 2, 3)[3] == 9
  {
    assert PerShard(3, 2) == 2;
  }

  // ---- Join ----

  function Total(s: seq<Slice>, k: nat): nat
    requires k <= |s|
  {
    if k == 0 then 0 else Total(s, k - 1) + s[k - 1].Len()
  }

  // Slice k is missing and needed: it is looked at before there is enough data.
  predicate Blocks(s: seq<Slice>, k: nat, outSize: int)
    requires k < |s|
  {
    s[k].Nil? && (k == 0 || Total(s, k) < outSize)
  }

  // What Join answers before it writes.
  ghost function JoinVerdict(s: seq<Slice>, dataShards: nat, outSize: int): Option<Error> {
    if |s| < dataShards then Some(TooFewShards)
    else if exists k :: 0 <= k < dataShards && Blocks(s, k, outSize) then Some(ReconstructRequired)
    else if Total(s, dataShards) < outSize then Some(ShortData)
    else None
  }

  lemma {:induction false} TotalMono(s: seq<Slice>, j: nat, k: nat)
    requires j <= k <= |s|
    ensures Total(s, j) <= Total(s, k)
    decreases k
  {
    if j < k {
      TotalMono(s, j, k - 1);
    }
  }

  // The checks of Join.
  method CheckJoin(s: seq<Slice>, dataShards: nat, outSize: int) returns (err: Option<Error>)
    requires dataShards > 0
    ensures err == JoinVerdict(s, dataShards, outSize)
  {
    if |s| < dataShards {
      return Some(TooFewShards);
    }
    var size, k := 0, 0;
    while k < dataShards
      invariant k <= dataShards && size == Total(s, k) && (k > 0 ==> size < outSize)
      invariant forall j :: 0 <= j < k ==> !Blocks(s, j, outSize)
    {
      if s[k].Nil? {
        assert Blocks(s, k, outSize);
        return Some(ReconstructRequired);
      }
      size := size + s[k].len;
      k := k + 1;
      if size >= outSize {
        break;
      }
    }
    forall j | k <= j < dataShards
      ensures !Blocks(s, j, outSize)
    {
      TotalMono(s, k, j);
    }
    TotalMono(s, k, dataShards);
    if size < outSize {
      return Some(ShortData);
    }
    return None;
  }

  lemma {:induction false} FlatTotal(s: seq<Slice>, p: seq<seq<byte>>, k: nat)
    requires k <= |s| == |p| && forall i :: 0 <= i < |s| ==> |p[i]| == s[i].Len()
    ensures |FlatTo(p, k)| == Total(s, k)
  {
    if k > 0 {
      FlatTotal(s, p, k - 1);
    }
  }

  lemma {:induction false} FlatPrefix(p: seq<seq<byte>>, j: nat, k: nat)
    requires j <= k <= |p|
    ensures FlatTo(p, j) <= FlatTo(p, k)
    decreases k
  {
    if j < k {
      FlatPrefix(p, j, k - 1);
    }
  }

  // Writes the first n bytes of slice k, after the first k pieces were written whole.
  method WriteSlice(dst: Writer, s: Slice, n: nat, ghost p: seq<seq<byte>>, ghost k: nat, ghost start: seq<byte>)
    returns (ok: bool)
    requires k < |p| && s.Inside() && n <= s.Len() && s.Bytes() == p[k] && dst.written == start + FlatTo(p, k)
    modifies dst
    ensures ok <==> n <= old(dst.room)
    ensures ok ==> dst.room == old(dst.room) - n
    ensures var m := if ok then n else old(dst.room);
      |FlatTo(p, k)| + m <= |Flat(p)| && dst.written == start + Flat(p)[..|FlatTo(p, k)| + m]
    ensures ok && n == s.Len() ==> dst.written == start + FlatTo(p, k + 1)
    ensures s.Bytes() == old(s.Bytes())
  {
    FlatNext(p, k);
    hide FlatTo;
    ghost var m := if n <= dst.room then n else dst.room;
    WrittenSoFar(start, p, k, m);
    if n == s.Len() {
      assert p[k][..n] == p[k] && start + FlatTo(p, k) + p[k] == start + (FlatTo(p, k) + p[k]);
    }
    match s {
      case Nil =>
        assert p[k][..m] == [];
        ok := dst.Write([]);
      case Slice(base, off, len) =>
        SameHead(base, off, n, len, m);
        ok := dst.Write(base[off..off + n]);
    }
    assert dst.written == start + FlatTo(p, k) + p[k][..m];
  }

  lemma SameHead(base: array<byte>, off: nat, n: nat, len: nat, m: nat)
    requires m <= n <= len && off + len <= base.Length
    ensures base[off..off + n][..m] == base[off..off + len][..m]
  {}

  // What is written when k pieces went before and m bytes of the next one follow.
  lemma WrittenSoFar(start: seq<byte>, p: seq<seq<byte>>, k: nat, m: nat)
    requires k < |p| && m <= |p[k]|
    ensures |FlatTo(p, k)| + m <= |Flat(p)| && start + FlatTo(p, k) + p[k][..m] == start + Flat(p)[..|FlatTo(p, k)| + m]
  {
    FlatPrefix(p, k + 1, |p|);
    assert FlatTo(p, k + 1) == FlatTo(p, k) + p[k];
    var all, before := Flat(p), FlatTo(p, k);
    hide *;
    assert all[..|before| + m] == before + p[k][..m];
  }

  // The writing loop of Join.
  method WritePieces(dst: Writer, s: seq<Slice>, outSize: nat, ghost p: seq<seq<byte>>) returns (r: Option<Error>)
    requires |p| == |s| && (forall k :: 0 <= k < |s| ==> s[k].Inside() && s[k].Bytes() == p[k]) && outSize <= |Flat(p)|
    modifies dst
    ensures if outSize <= old(dst.room) then r == None && dst.written == old(dst.written) + Flat(p)[..outSize]
            else r == Some(IoError) && dst.written == old(dst.written) + Flat(p)[..old(dst.room)]
  {
    assert FlatTo(p, 0) == [];
    hide FlatTo;
    ghost var start, room := dst.written, dst.room;
    var write := outSize;
    for k := 0 to |s|
      invariant forall i :: 0 <= i < |s| ==> s[i].Bytes() == p[i]
      invariant 0 <= write == outSize - |FlatTo(p, k)| && dst.room + |FlatTo(p, k)| == room
      invariant dst.written == start + FlatTo(p, k)
    {
      if write < s[k].Len() {
        var ok := WriteSlice(dst, s[k], write, p, k, start);
        return if ok then None else Some(IoError);
      }
      var ok := WriteSlice(dst, s[k], s[k].Len(), p, k, start);
      if !ok {
        return Some(IoError);
      }
      write := write - s[k].Len();
      FlatNext(p, k);
    }
    return None;
  }

  lemma FlatNext(p: seq<seq<byte>>, k: nat)
    requires k < |p|
    ensures FlatTo(p, k + 1) == FlatTo(p, k) + p[k] && |FlatTo(p, k + 1)| == |FlatTo(p, k)| + |p[k]|
  {}

  lemma {:induction false} TotalOfPrefix(s: seq<Slice>, n: nat, k: nat)
    requires k <= n <= |s|
    ensures Total(s[..n], k) == Total(s, k)
  {
    if k > 0 {
      TotalOfPrefix(s, n, k - 1);
    }
  }

  /** Join: after the checks, exactly the first outSize bytes of the data shards are written, or as
      many of them as the writer takes. */
  method Join(dst: Writer, s: seq<Slice>, dataShards: nat, outSize: int) returns (r: Option<Error>)
    requires dataShards > 0 && forall k :: 0 <= k < |s| ==> s[k].Inside()
    modifies dst
    ensures JoinVerdict(s, dataShards, outSize) != None ==>
      r == JoinVerdict(s, dataShards, outSize) && dst.written == old(dst.written)
    ensures JoinVerdict(s, dataShards, outSize) == None && outSize < 0 ==>
      r == Some(Panicked) && dst.written == old(dst.written)
    ensures JoinVerdict(s, dataShards, outSize) == None && outSize >= 0 ==>
      var all := Flat(Pieces(s[..dataShards]));
      outSize <= |all| &&
      if outSize <= old(dst.room) then r == None && dst.written == old(dst.written) + all[..outSize]
      else r == Some(IoError) && dst.written == old(dst.written) + all[..old(dst.room)]
  {
    var err := CheckJoin(s, dataShards, outSize);
    if err != None {
      return err;
    }
    if outSize < 0 {
      return Some(Panicked);
    }
    ghost var data := s[..dataShards];
    FlatTotal(data, Pieces(data), dataShards);
    TotalOfPrefix(s, dataShards, dataShards);
    r := WritePieces(dst, s[..dataShards], outSize, Pieces(data));
  }
  /** Join after Split gives back the input, for every capacity Split does not stop on. */
  method SplitJoin(data: array<byte>, dataLen: nat, dataShards: nat, shards: nat, dst: Writer)
    returns (r: Option<Error>)
    requires 0 < dataShards <= shards && 0 < dataLen <= data.Length && dataLen <= dst.room
    requires !Panics(data.Length, dataLen, dataShards, shards)
    modifies data, dst
    ensures r == None && dst.written == old(dst.written) + old(data[..dataLen])
  {
    hide At, JoinVerdict, Image, Chunk, FlatTo;
    ghost var input, image := data[..dataLen], Image(data[..], dataLen, dataShards, shards);
    var split := Split(data, dataLen, dataShards, shards);
    var slices := split.value;
    ghost var p := Pieces(slices[..dataShards]);
    FlatOfChunks(p, image, PerShard(dataLen, dataShards), dataShards, shards);
    ImageHoldsData(old(data[..]), dataLen, dataShards, shards);
    EnoughToJoin(slices, dataShards, dataLen);
    r := Join(dst, slices, dataShards, dataLen);
    assert Flat(p)[..dataLen] == image[..dataLen];
  }

  lemma EnoughToJoin(s: seq<Slice>, dataShards: nat, n: nat)
    requires dataShards <= |s| && (forall i :: 0 <= i < |s| ==> s[i].Slice? && s[i].Inside())
    requires n <= |Flat(Pieces(s[..dataShards]))|
    ensures JoinVerdict(s, dataShards, n) == None
  {
    var data := s[..dataShards];
    FlatTotal(data, Pieces(data), dataShards);
    TotalOfPrefix(s, dataShards, dataShards);
  }
}
