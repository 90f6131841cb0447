/** Split and Join of the stream encoder (streaming.go), over readers and writers. */
module StreamSplit {
  import opened Wrappers
  import opened Galois
  import opened LinearAlgebra
  import opened Streams
  import opened SplitJoin

  // What a reader still has, and whether it fails behind it.
  datatype Source = Source(rest: seq<byte>, broken: bool)

  ghost function Sources(rs: seq<Reader>): (r: seq<Source>)
    reads rs
    ensures |r| == |rs| && forall i :: 0 <= i < |rs| ==> r[i] == Source(rs[i].rest, rs[i].broken)
  {
    seq(|rs|, i requires 0 <= i < |rs| reads rs => Source(rs[i].rest, rs[i].broken))
  }

  // What can be read from io.MultiReader: everything up to the first failure.
  function Avail(ss: seq<Source>): seq<byte> {
    if |ss| == 0 then [] else if ss[0].broken then ss[0].rest else ss[0].rest + Avail(ss[1..])
  }

  predicate Breaks(ss: seq<Source>) {
    |ss| > 0 && (ss[0].broken || Breaks(ss[1..]))
  }

  /** io.MultiReader: one reader over all of them.  (That the given readers advance with it is not
      modelled.) */
  method MultiReader(rs: seq<Reader>) returns (r: Reader)
    ensures fresh(r) && r.rest == Avail(Sources(rs)) && r.broken == Breaks(Sources(rs))
  {
    if |rs| == 0 {
      r := new Reader([], false);
      return;
    }
    assert Sources(rs)[1..] == Sources(rs[1..]);
    if rs[0].broken {
      r := new Reader(rs[0].rest, true);
      return;
    }
    var tail := MultiReader(rs[1..]);
    r := new Reader(rs[0].rest + tail.rest, tail.broken);
  }

  // How io.CopyN ends.
  datatype CopyEnd = Copied | Short | ReadFailed | WriteFailed

  function Min(a: nat, b: nat): nat { if a < b then a else b }

  /** io.CopyN: n bytes, or what there is of them, or what the writer takes of those. */
  method CopyN(dst: Writer, src: Reader, n: nat) returns (end: CopyEnd)
    modifies dst, src
    ensures end == WriteFailed <==> old(dst.room) < Min(n, |old(src.rest)|)
    ensures end == WriteFailed ==> dst.written == old(dst.written) + old(src.rest)[..old(dst.room)]
    ensures end != WriteFailed ==>
      var k := Min(n, |old(src.rest)|);
      end == (if k == n then Copied else if src.broken then ReadFailed else Short) && src.rest == old(src.rest)[k..] &&
      dst.written == old(dst.written) + old(src.rest)[..k] && dst.room == old(dst.room) - k
  {
    var k := Min(n, |src.rest|);
    var ok := dst.Write(src.rest[..k]);
    if !ok {
      return WriteFailed;
    }
    src.rest := src.rest[k..];
    return if k == n then Copied else if src.broken then ReadFailed else Short;
  }

  // The missing destination, if any.
  method Present(dst: seq<Writer?>) returns (all: seq<Writer>, err: Option<Error>)
    ensures err == None ==> |all| == |dst| && forall i :: 0 <= i < |dst| ==> dst[i] == all[i]
    ensures err != None ==>
      exists i :: 0 <= i < |dst| && dst[i] == null && null !in dst[..i] && err == Some(StreamWriteError(i))
  {
    all := [];
    for i := 0 to |dst|
      invariant null !in dst[..i] && |all| == i && forall k :: 0 <= k < i ==> dst[k] == all[k]
    {
      if dst[i] == null {
        return [], Some(StreamWriteError(i));
      }
      all := all + [dst[i]];
    }
    return all, None;
  }

  // perShard bytes into each writer in turn.
  method Cut(src: Reader, dst: seq<Writer>, perShard: nat) returns (err: Option<Error>)
    requires forall i, k :: 0 <= i < k < |dst| ==> dst[i] != dst[k]
    modifies dst, src
    ensures err == None ==> At(|dst|, perShard) <= |old(src.rest)|
    ensures err == None ==> forall i :: 0 <= i < |dst| ==>
      dst[i].written == old(dst[i].written) + Chunk(old(src.rest)[..At(|dst|, perShard)], perShard, i, |dst|)
    ensures (forall i :: 0 <= i < |dst| ==> old(dst[i].room) >= perShard) ==>
      err == if At(|dst|, perShard) <= |old(src.rest)| then None else if src.broken then Some(IoError)
      else Some(ShortData)
  {
    hide At, Chunk;
    ghost var a := src.rest;
    AtNext(0, perShard);
    for i := 0 to |dst|
      invariant At(i, perShard) <= |a| && src.rest == a[At(i, perShard)..]
      invariant forall k :: 0 <= k < i ==> At(k, perShard) + perShard <= |a|
      invariant forall k :: 0 <= k < i ==>
        dst[k].written == old(dst[k].written) + a[At(k, perShard)..At(k, perShard) + perShard]
      invariant forall k :: i <= k < |dst| ==> dst[k].written == old(dst[k].written) && dst[k].room == old(dst[k].room)
    {
      ghost var at := At(i, perShard);
      var end := CopyN(dst[i], src, perShard);
      AtNext(i, perShard);
      AtMono(i + 1, |dst|, perShard);
      if end == ReadFailed || end == WriteFailed {
        return Some(IoError);
      }
      if end == Short {
        return Some(ShortData);
      }
      TakenAway(a, at, perShard);
      assert At(i + 1, perShard) == at + perShard;
    }
    forall i | 0 <= i < |dst|
      ensures dst[i].written == old(dst[i].written) + Chunk(a[..At(|dst|, perShard)], perShard, i, |dst|)
    {
      PieceOf(a, perShard, i, |dst|);
    }
    return None;
  }

  // Division as Go does it.
  function Truncated(a: int, b: int): int
    requires b > 0
  {
    if a >= 0 then a / b else -((-a) / b)
  }

  // What a negative size leads to: shards of no bytes or less, and padding that may be less than nothing.
  function NegativeSize(size: int, dataShards: nat, shards: nat): Option<Error>
    requires size < 0 < dataShards
  {
    var perShard := Truncated(size + dataShards - 1, dataShards);
    if shards * perShard - size < 0 then Some(Panicked) else if perShard < 0 then Some(ShortData) else None
  }

  // Above 1 - 2 * dataShards, every shard is empty.
  lemma NegativeSizes(size: int, dataShards: nat, shards: nat)
    requires size < 0 < dataShards
    ensures NegativeSize(size, dataShards, shards) ==
      if -size < 2 * dataShards - 1 then None
      else if shards * ((1 - size - dataShards) / dataShards) > -size then Some(Panicked)
      else Some(ShortData)
  {
    var q := (1 - size - dataShards) / dataShards;
    var perShard := Truncated(size + dataShards - 1, dataShards);
    if -size < 2 * dataShards - 1 {
      assert perShard == 0;
    } else {
      assert perShard == -q && q > 0;
      assert shards * perShard == -(shards * q);
    }
  }

  /** Split: shard i gets piece i of what the reader gives, padded with zeros. */
  method Split(data: Reader, dst: seq<Writer?>, size: int, dataShards: nat, shards: nat) returns (err: Option<Error>)
    requires 0 < dataShards <= shards && forall i, k :: 0 <= i < k < |dst| && dst[i] != null ==> dst[i] != dst[k]
    modifies set i | 0 <= i < |dst| && dst[i] != null :: dst[i]
    ensures size == 0 ==> err == Some(ShortData)
    ensures size != 0 && |dst| != dataShards ==> err == Some(InvShardNum)
    ensures size != 0 && |dst| == dataShards && null in dst ==>
      exists i :: 0 <= i < |dst| && dst[i] == null && null !in dst[..i] && err == Some(StreamWriteError(i))
    ensures err == None ==> |dst| == dataShards && null !in dst
    ensures size < 0 && |dst| == dataShards && null !in dst ==>
      err == NegativeSize(size, dataShards, shards) && err ==
        (if -size < 2 * dataShards - 1 then None
         else if shards * ((1 - size - dataShards) / dataShards) > -size then Some(Panicked)
         else Some(ShortData)) &&
      forall i :: 0 <= i < |dst| ==> dst[i].written == old(dst[i].written)
    ensures err == None && size > 0 ==>
      var per, a := PerShard(size, dataShards), Supply(Source(data.rest, data.broken), size, dataShards, shards);
      At(dataShards, per) <= |a| &&
      forall i :: 0 <= i < dataShards ==>
        dst[i].written == old(dst[i].written) + Chunk(a[..At(dataShards, per)], per, i, dataShards)
    ensures size > 0 && |dst| == dataShards && null !in dst &&
            (forall i :: 0 <= i < |dst| ==> old(dst[i].room) >= PerShard(size, dataShards)) ==>
      err ==
        if At(dataShards, PerShard(size, dataShards)) <=
          |Supply(Source(data.rest, data.broken), size, dataShards, shards)| then None
        else if data.broken then Some(IoError) else Some(ShortData)
  {
    hide At, Chunk;
    if size == 0 {
      return Some(ShortData);
    }
    if |dst| != dataShards {
      return Some(InvShardNum);
    }
    var all;
    all, err := Present(dst);
    if err != None {
      return;
    }
    if size < 0 {
      NegativeSizes(size, dataShards, shards);
      return NegativeSize(size, dataShards, shards);
    }
    var perShard := PerShard(size, dataShards);
    AtMono(dataShards, shards, perShard);
    var padding := new Reader(Zeros(At(shards, perShard) - size), false);
    assert Sources([data, padding]) == [Source(data.rest, data.broken), Source(padding.rest, false)];
    TwoSources(Source(data.rest, data.broken), Source(padding.rest, false));
    var src := MultiReader([data, padding]);
    assert forall i :: 0 <= i < |all| ==> all[i] == dst[i];
    err := Cut(src, all, perShard);
  }

  // The bytes Split cuts up: what the reader gives, and zeros behind that.
  ghost function Supply(data: Source, size: nat, dataShards: nat, shards: nat): seq<byte>
    requires 0 < dataShards <= shards
  {
    AtMono(dataShards, shards, PerShard(size, dataShards));
    if data.broken then data.rest else data.rest + Zeros(At(shards, PerShard(size, dataShards)) - size)
  }

  lemma TwoSources(x: Source, y: Source)
    ensures Avail([x, y]) == (if x.broken then x.rest else x.rest + y.rest) && Breaks([x, y]) == (x.broken || y.broken)
  {
    assert [x, y][1..] == [y];
    assert [y][1..] == [];
    assert Avail([y]) == y.rest && Breaks([y]) == y.broken;
  }

  lemma TakenAway(a: seq<byte>, at: nat, n: nat)
    requires at + n <= |a|
    ensures a[at..][..n] == a[at..at + n] && a[at..][n..] == a[at + n..]
  {
    assert forall k :: 0 <= k < n ==> a[at..][..n][k] == a[at..at + n][k];
  }

  lemma PieceOf(a: seq<byte>, per: nat, i: nat, k: nat)
    requires i < k && At(k, per) <= |a|
    ensures At(i, per) + per <= |a| && Chunk(a[..At(k, per)], per, i, k) == a[At(i, per)..At(i, per) + per]
  {
    hide At;
    AtNext(i, per);
    AtMono(i + 1, k, per);
  }

  /** A reader that does not fail is found too short exactly if it lacks more bytes than the parity
      shards would hold: a smaller lack is filled with zeros and not reported. */
  lemma ShortInput(rest: seq<byte>, size: nat, dataShards: nat, shards: nat)
    requires 0 < size && 0 < dataShards <= shards
    ensures |Supply(Source(rest, false), size, dataShards, shards)| < At(dataShards, PerShard(size, dataShards)) <==>
      |rest| + At(shards - dataShards, PerShard(size, dataShards)) < size
  {
    hide At;
    AtSum(dataShards, shards - dataShards, PerShard(size, dataShards));
  }

  /** Three bytes where four were announced, over two data shards and one parity shard: accepted. */
  lemma ShortInputAccepted()
    ensures |Supply(Source([1, 2, 3], false), 4, 2, 3)| >= At(2, PerShard(4, 2))
  {
    ShortInput([1, 2, 3], 4, 2, 3);
  }

  // The data shards, if none of them is missing.
  method DataReaders(shards: seq<Reader?>, n: nat) returns (all: seq<Reader>, err: Option<Error>)
    requires n <= |shards|
    ensures err == None ==> |all| == n && forall i :: 0 <= i < n ==> shards[i] == all[i]
    ensures err != None ==>
      exists i :: 0 <= i < n && shards[i] == null && null !in shards[..i] && err == Some(StreamReadError(i))
  {
    all := [];
    for i := 0 to n
      invariant null !in shards[..i] && |all| == i && forall k :: 0 <= k < i ==> shards[k] == all[k]
    {
      if shards[i] == null {
        return [], Some(StreamReadError(i));
      }
      all := all + [shards[i]];
    }
    return all, None;
  }

  ghost function SourcesOf(rs: seq<Reader?>): (r: seq<Source>)
    requires null !in rs
    reads rs
    ensures |r| == |rs| && forall i :: 0 <= i < |rs| ==> r[i] == Source(rs[i].rest, rs[i].broken)
  {
    seq(|rs|, i requires 0 <= i < |rs| reads rs => Source(rs[i].rest, rs[i].broken))
  }

  /** Join: the first outSize bytes of the data shards, one after the other. */
  method Join(dst: Writer, shards: seq<Reader?>, dataShards: nat, outSize: int) returns (err: Option<Error>)
    modifies dst
    ensures |shards| < dataShards ==> err == Some(TooFewShards)
    ensures |shards| >= dataShards && null in shards[..dataShards] ==>
      exists i :: 0 <= i < dataShards && shards[i] == null && null !in shards[..i] && err == Some(StreamReadError(i))
    ensures |shards| >= dataShards && null !in shards[..dataShards] && outSize < 0 ==>
      err == Some(ShortData) && dst.written == old(dst.written)
    ensures |shards| >= dataShards && null !in shards[..dataShards] && 0 <= outSize ==>
      var a := Avail(SourcesOf(shards[..dataShards]));
      if old(dst.room) < Min(outSize, |a|) then
        err == Some(IoError) && dst.written == old(dst.written) + a[..old(dst.room)]
      else
        err == (if outSize <= |a| then None else if Breaks(SourcesOf(shards[..dataShards])) then Some(IoError)
          else Some(ShortData)) &&
        dst.written == old(dst.written) + a[..Min(outSize, |a|)]
  {
    if |shards| < dataShards {
      return Some(TooFewShards);
    }
    var all;
    all, err := DataReaders(shards, dataShards);
    if err != None {
      return;
    }
    assert forall i :: 0 <= i < dataShards ==> shards[..dataShards][i] == all[i];
    assert SourcesOf(shards[..dataShards]) == Sources(all);
    if outSize < 0 {
      return Some(ShortData);
    }
    var src := MultiReader(all);
    var end := CopyN(dst, src, outSize);
    match end {
      case Copied => return None;
      case Short => return Some(ShortData);
      case ReadFailed => return Some(IoError);
      case WriteFailed => return Some(IoError);
    }
  }

  lemma {:induction false} AvailSnoc(ss: seq<Source>, x: Source)
    requires forall i :: 0 <= i < |ss| ==> !ss[i].broken
    ensures Avail(ss + [x]) == Avail(ss) + x.rest
  {
    if |ss| == 0 {
      assert ss + [x] == [x] && [x][1..] == [];
    } else {
      assert (ss + [x])[1..] == ss[1..] + [x];
      AvailSnoc(ss[1..], x);
    }
  }

  lemma {:induction false} AvailChunks(ss: seq<Source>, a: seq<byte>, per: nat, k: nat)
    requires |a| == At(|ss|, per) && k <= |ss|
    requires forall i :: 0 <= i < |ss| ==> ss[i] == Source(Chunk(a, per, i, |ss|), false)
    ensures At(k, per) <= |a| && Avail(ss[..k]) == a[..At(k, per)]
  {
    hide At;
    AtMono(k, |ss|, per);
    AtNext(0, per);
    if k > 0 {
      AtNext(k - 1, per);
      AvailChunks(ss, a, per, k - 1);
      AvailSnoc(ss[..k - 1], ss[k - 1]);
      assert ss[..k] == ss[..k - 1] + [ss[k - 1]];
    }
  }

  /** What Split writes, Join reads back: the input, whatever the number of shards. */
  lemma SplitThenJoin(input: seq<byte>, dataShards: nat, shards: nat, ss: seq<Source>)
    requires 0 < |input| && 0 < dataShards <= shards && |ss| == dataShards
    requires var per, a := PerShard(|input|, dataShards), Supply(Source(input, false), |input|, dataShards, shards);
      At(dataShards, per) <= |a| && forall i :: 0 <= i < dataShards ==>
      ss[i] == Source(Chunk(a[..At(dataShards, per)], per, i, dataShards), false)
    ensures |input| <= |Avail(ss)| && Avail(ss)[..|input|] == input
  {
    hide At;
    var per, a := PerShard(|input|, dataShards), Supply(Source(input, false), |input|, dataShards, shards);
    AvailChunks(ss, a[..At(dataShards, per)], per, dataShards);
    assert ss[..dataShards] == ss;
  }

  method MakeWriters(n: nat, room: nat) returns (dst: seq<Writer>)
    ensures |dst| == n && fresh(dst) && (forall k :: 0 <= k < n ==> dst[k].written == [] && dst[k].room == room)
    ensures forall k, l :: 0 <= k < l < n ==> dst[k] != dst[l]
  {
    dst := [];
    for i := 0 to n
      invariant |dst| == i && fresh(dst) && (forall k :: 0 <= k < i ==> dst[k].written == [] && dst[k].room == room)
      invariant forall k, l :: 0 <= k < l < i ==> dst[k] != dst[l]
    {
      var w := new Writer(room);
      dst := dst + [w];
    }
  }

  // Reads what the writers hold.
  method MakeReaders(dst: seq<Writer>) returns (readers: seq<Reader?>)
    ensures |readers| == |dst| && null !in readers
    ensures forall k :: 0 <= k < |dst| ==> readers[k].rest == dst[k].written && !readers[k].broken
  {
    readers := [];
    for i := 0 to |dst|
      invariant |readers| == i && null !in readers
      invariant forall k :: 0 <= k < i ==> readers[k].rest == dst[k].written && !readers[k].broken
    {
      var r := new Reader(dst[i].written, false);
      readers := readers + [r];
    }
  }

  /** Split into fresh writers, then Join from what they hold. */
  method RoundTrip(data: Reader, dataShards: nat, shards: nat, out: Writer) returns (err: Option<Error>)
    requires 0 < dataShards <= shards && 0 < |data.rest| <= out.room && !data.broken
    modifies out
    ensures err == None && out.written == old(out.written) + data.rest
  {
    hide At, Chunk, Supply;
    var size := |data.rest|;
    var per := PerShard(size, dataShards);
    var dst := MakeWriters(dataShards, per);
    ShortInput(data.rest, size, dataShards, shards);
    ghost var a := Supply(Source(data.rest, false), size, dataShards, shards);
    err := Split(data, dst, size, dataShards, shards);
    assert forall k :: 0 <= k < dataShards ==>
      [] + Chunk(a[..At(dataShards, per)], per, k, dataShards) == Chunk(a[..At(dataShards, per)], per, k, dataShards);
    var readers := MakeReaders(dst);
    assert readers[..dataShards] == readers;
    SplitThenJoin(data.rest, dataShards, shards, SourcesOf(readers));
    err := Join(out, readers, dataShards, size);
  }
}
