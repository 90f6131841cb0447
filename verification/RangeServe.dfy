/** Byte ranges (api/main.py): served straight from the data shards they overlap, or from the
    reconstructed file.  Both ways give the same answer. */
module RangeServe {
  import opened Wrappers

  type Bytes = seq<bv8>

  // The header after `bytes=`: the numbers before and after the dash, or something unreadable.  The
  // text before the first dash cannot be negative; the text after it can.
  datatype Spec = NoRange | Range(first: Option<nat>, last: Option<int>) | Unreadable

  datatype Interval = Satisfiable(start: nat, end: nat) | Unsatisfiable

  // The bytes asked for, of a file of `size` bytes.
  function Resolve(spec: Spec, size: nat): (r: Interval)
    ensures r.Satisfiable? ==> r.start <= r.end < size
  {
    var start := if spec.Range? && spec.first.Some? then spec.first.value else 0;
    var last := if spec.Range? && spec.last.Some? then spec.last.value else size - 1;
    var end := if last < size - 1 then last else size - 1;
    if start > end then Unsatisfiable else Satisfiable(start, end)
  }

  // Status 206 with a Content-Range, 200 without one, or 416.
  datatype Response = Response(status: nat, body: Bytes, contentLength: Option<nat>, contentRange: Option<Interval>)

  const BLOCK: nat := 262144

  // Reading `want` bytes from an offset on, a block at a time, as far as the file goes.
  method ReadBlocks(content: Bytes, offset: nat, want: nat) returns (out: Bytes)
    ensures offset <= |content| ==> out == content[offset..offset + Min(want, |content| - offset)]
    ensures offset > |content| ==> out == []
  {
    out := [];
    var remaining, at := want, offset;
    while remaining > 0
      invariant at == offset + |out| && 0 <= remaining == want - |out|
      invariant offset <= |content| ==> at <= |content| && out == content[offset..at]
      invariant offset > |content| ==> out == []
    {
      var k := Min(BLOCK, remaining);
      var block := if at >= |content| then [] else content[at..at + Min(k, |content| - at)];
      if |block| == 0 {
        break;
      }
      remaining := remaining - |block|;
      at := at + |block|;
      out := out + block;
    }
  }

  function Min(a: int, b: int): int { if a < b then a else b }

  /** The range as served from the whole file. */
  method RangedFileResponse(file: Bytes, spec: Spec) returns (r: Response)
    ensures r == Expected(file, spec)
    ensures spec == NoRange ==> r == Response(200, file, Some(|file|), None)
    ensures spec != NoRange && Resolve(spec, |file|) == Unsatisfiable ==>
      r.status == 416 && r.body == [] && r.contentLength == None
    ensures spec != NoRange ==> r.contentRange == Some(Resolve(spec, |file|))
    ensures spec != NoRange && Resolve(spec, |file|).Satisfiable? ==>
      var part := Resolve(spec, |file|);
      r.status == 206 && r.body == file[part.start..part.end + 1] && r.contentLength == Some(|r.body|)
  {
    var size := |file|;
    if spec == NoRange {
      return Response(200, file, Some(size), None);
    }
    var interval := Resolve(spec, size);
    match interval {
      case Unsatisfiable => return Response(416, [], None, Some(Unsatisfiable));
      case Satisfiable(start, end) =>
        var body := ReadBlocks(file, start, end - start + 1);
        return Response(206, body, Some(end - start + 1), Some(interval));
    }
  }

  // The right answer: the bytes asked for, of the file as it was stored.
  ghost function Expected(file: Bytes, spec: Spec): Response {
    if spec == NoRange then Response(200, file, Some(|file|), None)
    else match Resolve(spec, |file|)
      case Unsatisfiable => Response(416, [], None, Some(Unsatisfiable))
      case Satisfiable(start, end) => Response(206, file[start..end + 1], Some(end - start + 1),
        Some(Satisfiable(start, end)))
  }

  // ---- what a range header means (section 14.1.2 of RFC 9110) ----

  /** A range with a first byte: from there to the last byte named, or to the end of the file. */
  lemma ExplicitRange(first: nat, last: Option<int>, size: nat)
    ensures Resolve(Range(Some(first), last), size) ==
      (if first < size && (last.Some? ==> first <= last.value)
       then Satisfiable(first, if last.Some? && last.value < size then last.value else size - 1) else Unsatisfiable)
  {}

  /** Without a first byte it starts at byte zero; an unreadable header asks for everything. */
  lemma OtherRanges(last: Option<int>, size: nat)
    ensures Resolve(Unreadable, size) == Resolve(NoRange, size) == Resolve(Range(None, None), size)
    ensures Resolve(Range(None, last), size) ==
      var upto := if last.Some? && last.value < size then last.value else size - 1;
      if upto < 0 then Unsatisfiable else Satisfiable(0, upto)
  {}

  // A suffix range asks for the last n bytes.
  function Suffix(n: nat, size: nat): Interval {
    if n == 0 || size == 0 then Unsatisfiable else Satisfiable(if n < size then size - n else 0, size - 1)
  }

  /** A suffix range is read as 0 to n, which is right exactly if n is at least the size of the file. */
  lemma SuffixMisread(n: nat, size: nat)
    requires n > 0
    ensures Resolve(Range(None, Some(n)), size) == Suffix(n, size) <==> n >= size
  {}

  // ---- from the shards ----

  function PerShard(size: nat, dataShards: nat): (per: nat)
    requires size > 0 && dataShards > 0
    ensures per > 0
  {
    Rounds(size, dataShards);
    (size + dataShards - 1) / dataShards
  }

  lemma Rounds(size: nat, dataShards: nat)
    requires size > 0 && dataShards > 0
    ensures (size + dataShards - 1) / dataShards > 0
    ensures size <= dataShards * ((size + dataShards - 1) / dataShards)
  {
    var per := (size + dataShards - 1) / dataShards;
    assert size + dataShards - 1 == dataShards * per + (size + dataShards - 1) % dataShards;
  }

  // Shard i begins with the file's bytes from i * per on; whatever pads it lies behind them.
  ghost predicate HoldsPiece(shard: Bytes, file: Bytes, per: nat, i: nat)
    requires i * per <= |file|
  {
    var n := Min(per, |file| - i * per);
    |shard| >= n && shard[..n] == file[i * per..i * per + n]
  }

  // The shard of a position: it lies in shard pos / per, at pos - base.
  lemma ShardOf(pos: nat, per: nat)
    requires per > 0
    ensures var base := (pos / per) * per; 0 <= base <= pos < base + per
  {
    assert pos == per * (pos / per) + pos % per;
  }

  // Positions in order lie in shards in order.
  lemma ShardsInOrder(a: nat, b: nat, per: nat)
    requires per > 0 && a <= b
    ensures a / per <= b / per
  {
    var i, j := a / per, b / per;
    assert a == per * i + a % per && b == per * j + b % per;
    if i > j {
      Times(j + 1, i, per);
    }
  }

  lemma Times(i: nat, j: nat, per: nat)
    requires i <= j
    ensures i * per <= j * per && per * i == i * per && (i > 0 ==> (i - 1) * per + per == i * per)
  {}

  /** No position inside the file lies beyond the data shards. */
  lemma IndexInBounds(pos: nat, size: nat, dataShards: nat)
    requires pos < size && dataShards > 0
    ensures pos / PerShard(size, dataShards) <= dataShards - 1
  {
    var per := PerShard(size, dataShards);
    Rounds(size, dataShards);
    ShardOf(pos, per);
    var i := pos / per;
    if i >= dataShards {
      Times(dataShards, i, per);
    }
  }

  // The generator: bytes start to end, shard by shard.
  method Stream(shards: map<nat, Bytes>, start: nat, end: nat, per: nat, size: nat, ghost file: Bytes)
    returns (out: Bytes)
    requires per > 0 && start <= end < size
    requires forall i :: start / per <= i <= end / per ==> i in shards
    ensures |out| <= end - start + 1
    ensures |file| == size && (forall i :: start / per <= i <= end / per ==>
      i * per <= size && HoldsPiece(shards[i], file, per, i)) ==>
      out == file[start..end + 1]
  {
    hide HoldsPiece;
    out := [];
    var pos := start;
    while pos <= end
      invariant start <= pos <= end + 1 && |out| <= pos - start
      invariant |file| == size && (forall i :: start / per <= i <= end / per ==>
        i * per <= size && HoldsPiece(shards[i], file, per, i)) ==>
        out == file[start..pos]
    {
      var i := pos / per;
      var base := i * per;
      ShardOf(pos, per);
      ShardsInOrder(start, pos, per);
      ShardsInOrder(pos, end, per);
      var stop := Min(Min(base + per - 1, end), size - 1);
      var got := ReadBlocks(shards[i], pos - base, stop - pos + 1);
      if |file| == size && HoldsPiece(shards[i], file, per, i) {
        PieceServed(shards[i], file, per, i, pos, stop);
      }
      out := out + got;
      pos := pos + |got|;
      if pos <= stop {
        pos := stop + 1;
      }
    }
  }

  lemma PieceServed(shard: Bytes, file: Bytes, per: nat, i: nat, pos: nat, stop: nat)
    requires i * per <= pos <= stop < |file| && stop < i * per + per && HoldsPiece(shard, file, per, i)
    ensures stop - i * per < |shard| && shard[pos - i * per..stop - i * per + 1] == file[pos..stop + 1]
  {
    var base := i * per;
    var n := Min(per, |file| - base);
    forall k | pos - base <= k <= stop - base
      ensures shard[k] == file[base + k]
    {
      assert shard[..n][k] == file[base..base + n][k];
    }
  }

  // An entry of the chunk list, with the shard's decrypted content if it can be had.
  datatype Entry = Entry(index: Option<int>, sidecar: bool, content: Option<Bytes>)

  // The entry of shard i.
  predicate Lists(c: Entry, i: int) { !c.sidecar && c.index.Some? && c.index.value == i }

  ghost predicate Listed(chunks: seq<Entry>, i: int) { exists c :: c in chunks && Lists(c, i) }

  // The data shards by index; a later entry replaces an earlier one.
  method DataShards(chunks: seq<Entry>, dataShards: nat) returns (dmap: map<nat, Option<Bytes>>)
    ensures forall i :: i in dmap ==> i < dataShards && exists c :: c in chunks && Lists(c, i) && c.content == dmap[i]
    ensures forall c :: c in chunks && !c.sidecar && c.index.Some? && 0 <= c.index.value < dataShards ==>
      c.index.value in dmap
  {
    dmap := map[];
    for k := 0 to |chunks|
      invariant forall i :: i in dmap ==>
        i < dataShards && exists c :: c in chunks && Lists(c, i) && c.content == dmap[i]
      invariant forall c ::
        c in chunks[..k] && !c.sidecar && c.index.Some? && 0 <= c.index.value < dataShards ==> c.index.value in dmap
    {
      var c := chunks[k];
      if !c.sidecar && c.index.Some? && 0 <= c.index.value < dataShards {
        dmap := dmap[c.index.value as nat := c.content];
      }
    }
  }

  lemma AllBelow(s: set<nat>, n: nat)
    requires (forall i :: i in s ==> i < n) && |s| >= n
    ensures forall i: nat :: i < n ==> i in s
  {
    SubsetSize(s, Below(n));
    SameSize(s, Below(n));
  }

  // Every data shard is listed, and can be had.
  ghost predicate Complete(chunks: seq<Entry>, dataShards: nat) {
    && (forall i: nat :: i < dataShards ==> Listed(chunks, i))
    && forall c :: c in chunks && !c.sidecar && c.index.Some? && 0 <= c.index.value < dataShards ==> c.content.Some?
  }

  // The data shards that can be had hold their pieces of the file.
  ghost predicate Stored(chunks: seq<Entry>, file: Bytes, dataShards: nat)
    requires |file| > 0 && dataShards > 0
  {
    forall c :: c in chunks && !c.sidecar && c.index.Some? && 0 <= c.index.value < dataShards && c.content.Some? ==>
      c.index.value * PerShard(|file|, dataShards) <= |file| ==>
      HoldsPiece(c.content.value, file, PerShard(|file|, dataShards), c.index.value)
  }

  lemma PiecesHeld(chunks: seq<Entry>, dmap: map<nat, Option<Bytes>>, shardFiles: map<nat, Bytes>, start: nat, end: nat,
                   file: Bytes, dataShards: nat)
    requires dataShards > 0 && start <= end < |file| && Stored(chunks, file, dataShards)
    requires forall i :: i in dmap ==> i < dataShards && exists c :: c in chunks && Lists(c, i) && c.content == dmap[i]
    requires var per := PerShard(|file|, dataShards);
      forall k :: start / per <= k <= end / per ==> k in shardFiles && k in dmap && dmap[k] == Some(shardFiles[k])
    ensures var per := PerShard(|file|, dataShards);
      forall i :: start / per <= i <= end / per ==> i * per <= |file| && HoldsPiece(shardFiles[i], file, per, i)
  {
    hide HoldsPiece;
    var per := PerShard(|file|, dataShards);
    forall i | start / per <= i <= end / per
      ensures i * per <= |file| && HoldsPiece(shardFiles[i], file, per, i)
    {
      ShardOf(end, per);
      Times(i, end / per, per);
      var c :| c in chunks && Lists(c, i) && c.content == dmap[i];
    }
  }

  // Every shard of the range, before anything is sent.
  method ShardFiles(dmap: map<nat, Option<Bytes>>, lo: nat, hi: nat) returns (r: Option<map<nat, Bytes>>)
    requires forall i :: lo <= i <= hi ==> i in dmap
    ensures r.Some? ==> forall k :: lo <= k <= hi ==> k in r.value && dmap[k] == Some(r.value[k])
    ensures r == None ==> exists i :: lo <= i <= hi && dmap[i] == None
  {
    var files: map<nat, Bytes> := map[];
    var i := lo;
    while i <= hi
      invariant lo <= i && forall k :: lo <= k < i && k <= hi ==> k in files && dmap[k] == Some(files[k])
    {
      if dmap[i] == None {
        return None;
      }
      files := files[i := dmap[i].value];
      i := i + 1;
    }
    return Some(files);
  }

  // The bytes start to end from the shards they lie in.
  method FromShards(dmap: map<nat, Option<Bytes>>, start: nat, end: nat, size: nat, dataShards: nat,
                    ghost chunks: seq<Entry>, ghost file: Bytes)
    returns (body: Option<Bytes>)
    requires dataShards > 0 && start <= end < size && forall i: nat :: i < dataShards ==> i in dmap
    requires forall i :: i in dmap ==> i < dataShards && exists c :: c in chunks && Lists(c, i) && c.content == dmap[i]
    ensures body.Some? && |file| == size && Stored(chunks, file, dataShards) ==> body.value == file[start..end + 1]
    ensures Complete(chunks, dataShards) ==> body.Some?
  {
    hide Stored, HoldsPiece, PerShard;
    var per := PerShard(size, dataShards);
    IndexInBounds(end, size, dataShards);
    ShardsInOrder(start, end, per);
    var files := ShardFiles(dmap, start / per, end / per);
    if files == None {
      return None;
    }
    if |file| == size && Stored(chunks, file, dataShards) {
      PiecesHeld(chunks, dmap, files.value, start, end, file, dataShards);
    }
    var bytes := Stream(files.value, start, end, per, size, file);
    return Some(bytes);
  }

  /** The range as served from the data shards it overlaps; no answer means: rebuild the file first.  If
      there is an answer, it is the same as from the whole file. */
  method ServeRangeFromShards(size: int, dataShards: int, chunks: seq<Entry>, spec: Spec, ghost file: Bytes)
    returns (r: Option<Response>)
    ensures size <= 0 || dataShards <= 0 ==> r == None
    ensures size > 0 && dataShards > 0 && Complete(chunks, dataShards) ==> r.Some?
    ensures r.Some? && |file| == size && Stored(chunks, file, dataShards) ==> r == Some(Expected(file, spec))
  {
    hide Stored, HoldsPiece;
    if size <= 0 || dataShards <= 0 {
      return None;
    }
    var dmap := DataShards(chunks, dataShards);
    if |dmap| < dataShards {
      if Complete(chunks, dataShards) {
        forall i: nat | i < dataShards
          ensures i in dmap
        {
          assert Listed(chunks, i);
          var c :| c in chunks && Lists(c, i);
        }
        SubsetSize(Below(dataShards), dmap.Keys);
      }
      return None;
    }
    AllBelow(dmap.Keys, dataShards);
    var interval := Resolve(spec, size);
    match interval {
      case Unsatisfiable => return Some(Response(416, [], None, Some(Unsatisfiable)));
      case Satisfiable(start, end) =>
        var body := FromShards(dmap, start, end, size, dataShards, chunks, file);
        if body == None {
          return None;
        }
        var length := end - start + 1;
        assert spec == NoRange && |file| == size ==> file[start..end + 1] == file;
        return Some(if spec == NoRange then Response(200, body.value, Some(length), None)
          else Response(206, body.value, Some(length), Some(interval)));
    }
  }
}
