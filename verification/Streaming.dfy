/** The stream encoder (streaming.go): Encode, Verify and Reconstruct block by block. */
module Streaming {
  import opened Wrappers
  import opened Galois
  import opened LinearAlgebra
  import opened Coding
  import opened Generator
  import opened Shards
  import opened Streams
  import opened StreamSplit
  import opened Recovery
  import opened TableUse
  import RS = ReedSolomon

  // ---- reading, trimming and writing one block ----

  // A reader with the given contents; None for a missing one.
  ghost predicate Is(r: Reader?, src: Option<Source>)
    reads r
  {
    src == if r == null then None else Some(Source(r.rest, r.broken))
  }

  ghost predicate AllAre(rs: seq<Reader?>, s: seq<Option<Source>>)
    reads rs
  {
    |rs| == |s| && forall i :: 0 <= i < |rs| ==> Is(rs[i], s[i])
  }

  ghost function Inputs(rs: seq<Reader?>): (r: seq<Option<Source>>)
    reads rs
    ensures AllAre(rs, r)
  {
    seq(|rs|, i requires 0 <= i < |rs| reads rs => if rs[i] == null then None
      else Some(Source(rs[i].rest, rs[i].broken)))
  }

  ghost predicate DistinctReaders(rs: seq<Reader?>) {
    forall i, k :: 0 <= i < k < |rs| && rs[i] != null ==> rs[i] != rs[k]
  }

  ghost predicate DistinctWriters(ws: seq<Writer?>) {
    forall i, k :: 0 <= i < k < |ws| && ws[i] != null ==> ws[i] != ws[k]
  }

  // Reader i ends inside a block of b bytes.
  predicate EndsIn(s: Option<Source>, b: nat) { s.Some? && |s.value.rest| < b }

  // What a buffer of b bytes holds after reading from s.
  function Got(s: Option<Source>, b: nat): (r: seq<byte>)
    ensures |r| <= b
  {
    if s.None? then [] else s.value.rest[..Min(|s.value.rest|, b)]
  }

  // What the reader has after that.
  function Left(s: Option<Source>, b: nat): Option<Source> {
    if s.None? then None else Some(Source(s.value.rest[Min(|s.value.rest|, b)..], s.value.broken))
  }

  datatype ReadOutcome = Fine | Eof | Failed(error: Error)

  // The buffers are separate objects made by this encoder.
  ghost predicate Pool(all: array<Shard>, outside: set<object>)
    reads all
  {
    Apart(all) && all !in outside && forall i :: 0 <= i < all.Length ==> all[i] != null && all[i] !in outside
  }

  // A slice of the first n bytes; bytes beyond the old length are whatever the buffer holds there.
  method Reslice(a: array<byte>, n: nat) returns (r: array<byte>)
    ensures fresh(r) && r.Length == n
    ensures n <= a.Length ==> r[..] == a[..n]
    ensures n > a.Length ==> r[..a.Length] == a[..]
  {
    r := new byte[n];
    for k := 0 to Min(n, a.Length)
      invariant r[..k] == a[..k]
    {
      r[k] := a[k];
    }
  }

  // A reader fails inside the block, or two readers end at different places inside it.
  ghost predicate Clash(s: seq<Option<Source>>, b: nat) {
    || (exists i :: 0 <= i < |s| && EndsIn(s[i], b) && s[i].value.broken)
    || (exists i, k :: 0 <= i < k < |s| && EndsIn(s[i], b) && EndsIn(s[k], b) && |s[i].value.rest| != |s[k].value.rest|)
  }

  // The readers that end inside the block all do so after `size` bytes, and none of them fails.
  predicate EndTogether(s: seq<Option<Source>>, n: nat, b: nat, size: int)
    requires n <= |s|
  {
    && (size < 0 ==> forall i :: 0 <= i < n ==> !EndsIn(s[i], b))
    && (size >= 0 ==> exists i :: 0 <= i < n && EndsIn(s[i], b))
    && forall i :: 0 <= i < n && EndsIn(s[i], b) ==> !s[i].value.broken && |s[i].value.rest| == size
  }

  lemma NoneEnd(s: seq<Option<Source>>, b: nat)
    ensures EndTogether(s, 0, b, -1)
  {}

  lemma NextEnds(s: seq<Option<Source>>, i: nat, b: nat, size: int)
    requires i < |s| && EndTogether(s, i, b, size)
    ensures !EndsIn(s[i], b) ==> EndTogether(s, i + 1, b, size)
    ensures EndsIn(s[i], b) && s[i].value.broken ==> Clash(s, b)
    ensures EndsIn(s[i], b) && size >= 0 && |s[i].value.rest| != size ==> Clash(s, b)
    ensures EndsIn(s[i], b) && !s[i].value.broken && (size < 0 || |s[i].value.rest| == size) ==>
      EndTogether(s, i + 1, b, |s[i].value.rest|)
  {}

  lemma OneSize(s: seq<Option<Source>>, b: nat, size: int)
    requires EndTogether(s, |s|, b, size)
    ensures EndTogether(s, |s|, b, 0) ==> size == 0
  {}

  lemma ClashOrNot(s: seq<Option<Source>>, b: nat, size: int)
    requires EndTogether(s, |s|, b, size)
    ensures !Clash(s, b)
  {}

  // Which stream an error names: a reader that fails, or a writer that is there.
  ghost predicate Blamed(e: Error, s: seq<Option<Source>>, ws: seq<Writer?>) {
    match e
    case StreamReadError(i) => i < |s| && s[i].Some? && s[i].value.broken
    case StreamWriteError(i) => i < |ws| && ws[i] != null
    case _ => true
  }

  lemma BlamedAlike(e: Error, s: seq<Option<Source>>, t: seq<Option<Source>>, ws: seq<Writer?>)
    requires |s| == |t| && forall i :: 0 <= i < |s| && s[i].Some? ==>
      t[i].Some? && t[i].value.broken == s[i].value.broken
    requires Blamed(e, s, ws)
    ensures Blamed(e, t, ws)
  {}

  lemma BlamedDropped(e: Error, s: seq<Option<Source>>, n: nat, ws: seq<Writer?>)
    requires Long(s, n) && Blamed(e, Dropped(s, n), ws)
    ensures Blamed(e, s, ws)
  {
    BlamedAlike(e, Dropped(s, n), s, ws);
  }

  lemma NoDataBlamed(s: seq<Option<Source>>, ws: seq<Writer?>)
    ensures Blamed(ShardNoData, s, ws)
  {}

  lemma CheckBlames(lens: seq<nat>)
    ensures Check(lens, false) != None ==> Blamed(Check(lens, false).value, [], [])
  {
    hide SizeOf;
  }

  // Reader i is the first to fail, or to end elsewhere than one before it; this is the error.
  ghost predicate Fault(s: seq<Option<Source>>, b: nat, i: nat, e: Error) {
    && i < |s| && EndsIn(s[i], b)
    && exists size: int :: EndTogether(s, i, b, size) &&
         if s[i].value.broken then e == StreamReadError(i)
         else size >= 0 && |s[i].value.rest| != size && e == ShardSize
  }

  // One reader: a missing one empties its buffer, a short one cuts it.
  method ReadOne(all: array<Shard>, i: nat, reader: Reader?, b: nat, ghost outside: set<object>,
                 ghost src: Option<Source>) returns (n: nat, end: ReadEnd)
    requires Pool(all, outside) && i < all.Length && b > 0 && (reader != null ==> all[i].Length == b)
    requires Is(reader, src)
    modifies all, all[i], if reader == null then {} else {reader}
    ensures Pool(all, outside) && (all[i] == old(all[i]) || fresh(all[i]))
    ensures forall k :: 0 <= k < all.Length && k != i ==> all[k] == old(all[k]) && Bytes(all[k]) == old(Bytes(all[k]))
    ensures EndsIn(src, b) <==> end != Filled
    ensures end != Filled ==> n == |src.value.rest| && (end == Broke <==> src.value.broken)
    ensures end != Broke ==> Bytes(all[i]) == Got(src, b)
    ensures Is(reader, Left(src, b))
  {
    if reader == null {
      all[i] := new byte[0];
      return 0, Filled;
    }
    n, end := reader.ReadFull(all[i]);
    assert n == b ==> all[i][..n] == all[i][..];
    if end == Ended {
      var cut := Reslice(all[i], n);
      all[i] := cut;
    }
  }

  // The next reader, compared with those that ended before it.
  method ReadNext(all: array<Shard>, i: nat, reader: Reader?, b: nat, size0: int, ghost outside: set<object>,
                  ghost s: seq<Option<Source>>)
    returns (size: int, err: Option<Error>)
    requires Pool(all, outside) && i < all.Length && b > 0 && (reader != null ==> all[i].Length == b)
    requires i < |s| && Is(reader, s[i]) && EndTogether(s, i, b, size0)
    modifies all, all[i], if reader == null then {} else {reader}
    ensures Pool(all, outside) && (all[i] == old(all[i]) || fresh(all[i]))
    ensures forall k :: 0 <= k < all.Length && k != i ==> all[k] == old(all[k])
    ensures forall k :: 0 <= k < all.Length && k != i ==> Bytes(all[k]) == old(Bytes(all[k]))
    ensures err == None ==> Bytes(all[i]) == Got(s[i], b) && EndTogether(s, i + 1, b, size)
    ensures err != None ==> Clash(s, b)
    ensures err != None ==> Fault(s, b, i, err.value)
    ensures Is(reader, Left(s[i], b))
  {
    hide Got, Left, EndTogether, Clash;
    NextEnds(s, i, b, size0);
    size := size0;
    var n, end := ReadOne(all, i, reader, b, outside, s[i]);
    if end == Broke {
      return size, Some(StreamReadError(i));
    }
    if end == Ended {
      if size < 0 {
        size := n;
      } else if n != size {
        return size, Some(ShardSize);
      }
    }
    return size, None;
  }

  /** readShards: a block from every reader.  Only the readers that end inside the block are
      compared with each other. */
  method ReadShards(all: array<Shard>, readers: seq<Reader?>, b: nat, ghost outside: set<object>,
                    ghost s: seq<Option<Source>>) returns (res: ReadOutcome)
    requires Pool(all, outside) && |readers| <= all.Length && b > 0 && DistinctReaders(readers) && AllAre(readers, s)
    requires forall i :: 0 <= i < |readers| && readers[i] != null ==> all[i].Length == b
    modifies all, set i | 0 <= i < all.Length :: all[i], set i | 0 <= i < |readers| && readers[i] != null :: readers[i]
    ensures Pool(all, outside) && forall i :: 0 <= i < all.Length ==> all[i] == old(all[i]) || fresh(all[i])
    ensures forall i :: |readers| <= i < all.Length ==> all[i] == old(all[i])
    ensures forall i :: |readers| <= i < all.Length ==> Bytes(all[i]) == old(Bytes(all[i]))
    ensures res == Fine ==> forall i :: 0 <= i < |readers| ==> Bytes(all[i]) == Got(s[i], b)
    ensures res == Fine ==> forall i :: 0 <= i < |readers| ==> Is(readers[i], Left(s[i], b))
    ensures res == Fine ==> exists size: int :: size != 0 && EndTogether(s, |s|, b, size)
    ensures res == Eof <==> EndTogether(s, |s|, b, 0)
    ensures res.Failed? ==> Clash(s, b)
    ensures res.Failed? ==> Blamed(res.error, s, []) && exists i :: Fault(s, b, i, res.error)
  {
    hide Got, Left, EndTogether, Clash;
    var size: int := -1;
    assert EndTogether(s, 0, b, size) by { NoneEnd(s, b); }
    for i := 0 to |readers|
      invariant Pool(all, outside) && EndTogether(s, i, b, size)
      invariant forall k :: 0 <= k < all.Length ==> all[k] == old(all[k]) || fresh(all[k])
      invariant forall k :: i <= k < all.Length ==> all[k] == old(all[k])
      invariant forall k :: i <= k < all.Length ==> Bytes(all[k]) == old(Bytes(all[k]))
      invariant forall k :: 0 <= k < i ==> Bytes(all[k]) == Got(s[k], b)
      invariant forall k :: 0 <= k < |readers| ==> Is(readers[k], if k < i then Left(s[k], b) else s[k])
    {
      var err;
      size, err := ReadNext(all, i, readers[i], b, size, outside, s);
      match err {
        case Some(e) =>
          if EndTogether(s, |s|, b, 0) {
            ClashOrNot(s, b, 0);
          }
          return Failed(e);
        case None =>
      }
    }
    OneSize(s, b, size);
    return if size == 0 then Eof else Fine;
  }

  // Equal as far as both go.
  ghost predicate SameHead(a: seq<byte>, b: seq<byte>) { forall j :: 0 <= j < |a| && j < |b| ==> a[j] == b[j] }

  /** trimShards: shards that are not empty are cut (or stretched inside their buffer) to size. */
  method TrimShards(all: array<Shard>, lo: nat, size: nat, ghost outside: set<object>)
    requires Pool(all, outside) && lo <= all.Length
    modifies all
    ensures Pool(all, outside) && forall i :: 0 <= i < all.Length ==> all[i] == old(all[i]) || fresh(all[i])
    ensures forall i :: 0 <= i < lo ==> all[i] == old(all[i])
    ensures forall i :: lo <= i < all.Length ==> Len(all[i]) == if old(Len(all[i])) == 0 then 0 else size
    ensures forall i :: lo <= i < all.Length && (old(Len(all[i])) == size || old(Len(all[i])) == 0) ==>
      Bytes(all[i]) == old(Bytes(all[i]))
    ensures forall i :: lo <= i < all.Length ==> SameHead(Bytes(all[i]), old(Bytes(all[i])))
  {
    for i := lo to all.Length
      invariant Pool(all, outside)
      invariant forall k :: 0 <= k < all.Length ==> all[k] == old(all[k]) || fresh(all[k])
      invariant forall k :: 0 <= k < lo || i <= k < all.Length ==> all[k] == old(all[k])
      invariant forall k :: lo <= k < i ==> Len(all[k]) == if old(Len(all[k])) == 0 then 0 else size
      invariant forall k :: lo <= k < i && (old(Len(all[k])) == size || old(Len(all[k])) == 0) ==>
        Bytes(all[k]) == old(Bytes(all[k]))
      invariant forall k :: lo <= k < i ==> SameHead(Bytes(all[k]), old(Bytes(all[k])))
    {
      TrimOne(all, i, size, outside);
    }
  }

  method TrimOne(all: array<Shard>, i: nat, size: nat, ghost outside: set<object>)
    requires Pool(all, outside) && i < all.Length
    modifies all
    ensures Pool(all, outside) && (all[i] == old(all[i]) || fresh(all[i]))
    ensures forall k :: 0 <= k < all.Length && k != i ==> all[k] == old(all[k])
    ensures Len(all[i]) == if old(Len(all[i])) == 0 then 0 else size
    ensures old(Len(all[i])) == size || old(Len(all[i])) == 0 ==> Bytes(all[i]) == old(Bytes(all[i]))
    ensures SameHead(Bytes(all[i]), old(Bytes(all[i])))
  {
    if Len(all[i]) != 0 {
      var cut := Reslice(all[i], size);
      all[i] := cut;
    }
    if Len(all[i]) < size {
      var empty := Reslice(all[i], 0);
      all[i] := empty;
    }
  }

  // Every writer that is there takes n more bytes.
  ghost predicate Roomy(ws: seq<Writer?>, n: nat)
    reads ws
  {
    forall i :: 0 <= i < |ws| && ws[i] != null ==> ws[i].room >= n
  }

  /** writeShards: shard lo + i goes to writer i. */
  method WriteShards(writers: seq<Writer?>, all: array<Shard>, lo: nat) returns (err: Option<Error>)
    requires lo + |writers| == all.Length && DistinctWriters(writers) &&
      forall i :: 0 <= i < all.Length ==> all[i] != null
    modifies writers
    ensures err == None ==> forall i :: 0 <= i < |writers| && writers[i] != null ==>
      writers[i].written == old(writers[i].written) + all[lo + i][..] &&
      writers[i].room == old(writers[i].room) - all[lo + i].Length
    ensures err != None ==>
      exists i :: 0 <= i < |writers| && writers[i] != null && old(writers[i].room) < all[lo + i].Length
    ensures err != None ==>
      err.value.StreamWriteError? && err.value.stream < |writers| && writers[err.value.stream] != null
    ensures err != None ==> var i := err.value.stream;
      old(writers[i].room) < all[lo + i].Length &&
      forall k :: 0 <= k < |writers| && k != i && writers[k] != null ==>
        writers[k].written == old(writers[k].written) + if k < i then all[lo + k][..] else []
  {
    for i := 0 to |writers|
      invariant forall k :: 0 <= k < i && writers[k] != null ==>
        writers[k].written == old(writers[k].written) + all[lo + k][..] &&
        writers[k].room == old(writers[k].room) - all[lo + k].Length
      invariant forall k :: i <= k < |writers| && writers[k] != null ==>
        writers[k].written == old(writers[k].written) && writers[k].room == old(writers[k].room)
    {
      if writers[i] != null {
        var ok := writers[i].Write(all[lo + i][..]);
        if !ok {
          return Some(StreamWriteError(i));
        }
      }
    }
    return None;
  }

  // The buffers from the pool: b bytes each, whatever is in them.
  method CreateSlice(shards: nat, b: nat, ghost outside: set<object>) returns (all: array<Shard>)
    ensures fresh(all) && all.Length == shards && Pool(all, outside)
    ensures forall i :: 0 <= i < shards ==> fresh(all[i]) && all[i].Length == b
  {
    all := new Shard[shards];
    for i := 0 to shards
      invariant all !in outside && forall k :: 0 <= k < i ==>
        all[k] != null && fresh(all[k]) && all[k] !in outside && all[k].Length == b
      invariant forall k :: 0 <= k < i ==> all[k] as object != all
      invariant forall j, k :: 0 <= j < k < i ==> all[j] != all[k]
    {
      var buffer := new byte[b];
      all[i] := buffer;
    }
  }

  // ---- Encode ----

  function Gots(s: seq<Option<Source>>, b: nat): (r: Mat)
    ensures |r| == |s| && forall i :: 0 <= i < |s| ==> r[i] == Got(s[i], b)
  {
    seq(|s|, i requires 0 <= i < |s| => Got(s[i], b))
  }

  function Lefts(s: seq<Option<Source>>, b: nat): (r: seq<Option<Source>>)
    ensures |r| == |s| && forall i :: 0 <= i < |s| ==> r[i] == Left(s[i], b)
  {
    seq(|s|, i requires 0 <= i < |s| => Left(s[i], b))
  }

  // Every reader is there and gives w bytes for a buffer of b.
  predicate Even(s: seq<Option<Source>>, b: nat, w: nat) {
    w > 0 && IsMat(Gots(s, b), |s|, w)
  }

  datatype BlockOutcome = More(w: nat) | Finished | Stopped(error: Error)

  // The readers and writers are not part of the encoder.
  ghost predicate Detached(enc: RS.ReedSolomon, rs: seq<Reader?>, ws: seq<Writer?>)
    reads enc.tree, if enc.tree == null then {} else {enc.tree.root}
  {
    && (forall i :: 0 <= i < |rs| ==> rs[i] !in enc.Repr())
    && (forall i :: 0 <= i < |ws| ==> ws[i] !in enc.Repr())
  }

  // Trims the parity buffers and codes the block G.
  method CodeBlock(enc: RS.ReedSolomon, all: array<Shard>, b: nat, ghost G: Mat) returns (size: nat, err: Option<Error>)
    requires enc.Valid() && Pool(all, enc.Repr()) && all.Length == enc.shards && |G| == enc.dataShards && b > 0
    requires forall i :: 0 <= i < |G| ==> Bytes(all[i]) == G[i]
    requires forall i :: enc.dataShards <= i < enc.shards ==> all[i].Length == b
    modifies enc.pool, all, set i | 0 <= i < all.Length :: all[i]
    ensures enc.Valid() && enc.Repr() == old(enc.Repr()) && Pool(all, enc.Repr())
    ensures forall i :: 0 <= i < all.Length ==> all[i] == old(all[i]) || fresh(all[i])
    ensures err == None ==>
      size > 0 && IsMat(G, enc.dataShards, size) && forall i :: 0 <= i < all.Length ==> all[i].Length == size
    ensures err == None ==> forall i :: enc.dataShards <= i < enc.shards ==>
      IsMat(enc.m, enc.shards, enc.dataShards) && Bytes(all[i]) == Comb(enc.m[i], G, size)
    ensures err != None && !enc.Breaks(err) ==> forall w: nat :: w > 0 ==> !IsMat(G, enc.dataShards, w)
    ensures err != None ==> Blamed(err.value, [], [])
  {
    hide Comb, Recoverable, CacheOk, SizeOf, Check, Stocked, Fragile;
    ghost var lens := Lens(all[..enc.dataShards]);
    size := ShardSizeOf(all[..enc.dataShards]);
    TrimShards(all, enc.dataShards, size, enc.Repr());
    assert Lens(all[..])[..enc.dataShards] == lens;
    EvenSize(G, Lens(all[..]), enc.dataShards, size);
    enc.VerdictIs(Lens(all[..]));
    CheckBlames(Lens(all[..]));
    err := enc.Encode(all);
    if err == None {
      assert Values(all)[..enc.dataShards] == G;
    }
  }

  lemma EvenSize(G: Mat, lens: seq<nat>, data: nat, size: nat)
    requires 0 < data == |G| <= |lens| && (forall i :: 0 <= i < data ==> lens[i] == |G[i]|) &&
      size == SizeOf(lens[..data])
    requires forall i :: data <= i < |lens| ==> lens[i] == size
    ensures forall w: nat :: w > 0 && IsMat(G, data, w) ==> Check(lens, false) == None
    ensures Check(lens, false) == None ==> size > 0 && SizeOf(lens) == size && IsMat(G, data, size)
  {
  }

  // The writers hold what they held before and the coded first n bytes of the streams D.
  ghost predicate Wrote(parity: seq<Writer?>, rows: Mat, before: Mat, rooms: seq<int>, D: Mat, n: nat)
    requires |rows| == |before| == |rooms| == |parity| && IsMat(rows, |rows|, |D|) &&
      forall i :: 0 <= i < |D| ==> |D[i]| >= n
    reads parity
  {
    forall i :: 0 <= i < |parity| && parity[i] != null ==>
      parity[i].written == before[i] + Comb(rows[i], Cols(D, 0, n), n) && parity[i].room == rooms[i] - n
  }

  // The same for one block, given the state before it.
  ghost predicate WroteBlock(parity: seq<Writer?>, rows: Mat, before: Mat, rooms: seq<int>, G: Mat, w: nat)
    requires |rows| == |before| == |rooms| == |parity| && IsMat(rows, |rows|, |G|) && IsMat(G, |G|, w)
    reads parity
  {
    forall i :: 0 <= i < |parity| && parity[i] != null ==>
      parity[i].written == before[i] + Comb(rows[i], G, w) && parity[i].room == rooms[i] - w
  }

  // What the writers hold and have room for.
  ghost predicate Holding(ws: seq<Writer?>, held: Mat, rooms: seq<int>)
    reads ws
  {
    |held| == |rooms| == |ws| && forall i :: 0 <= i < |ws| && ws[i] != null ==>
    ws[i].written == held[i] && ws[i].room == rooms[i]
  }

  // The coding rows of the parity; none without parity.
  ghost predicate ParityRows(enc: RS.ReedSolomon, rows: Mat) {
    && IsMat(rows, enc.parityShards, enc.dataShards)
    && (enc.parityShards > 0 ==> |enc.m| == enc.shards == enc.dataShards + enc.parityShards)
    && forall i :: 0 <= i < |rows| ==> rows[i] == enc.m[enc.dataShards + i]
  }

  // The encoder, its buffers, and the streams it was given.
  ghost predicate Ready(enc: RS.ReedSolomon, all: array<Shard>, data: seq<Reader?>, parity: seq<Writer?>)
    reads enc.Repr(), enc.tree, if enc.tree == null then {} else {enc.tree.root}
    reads all
  {
    && enc.Valid() && Detached(enc, data, parity) && Pool(all, enc.Repr()) && all.Length == enc.shards
    && |data| == enc.dataShards && |parity| == enc.parityShards && DistinctReaders(data) && DistinctWriters(parity)
  }

  // Codes the block G that was read and writes its parity.
  method CodeAndWrite(enc: RS.ReedSolomon, all: array<Shard>, parity: seq<Writer?>, b: nat, ghost G: Mat,
                      ghost rows: Mat, ghost held: Mat, ghost rooms: seq<int>) returns (size: nat, err: Option<Error>)
    requires enc.Valid() && Pool(all, enc.Repr()) && all.Length == enc.shards && |G| == enc.dataShards && b > 0
    requires ParityRows(enc, rows) && Holding(parity, held, rooms)
    requires |parity| == enc.parityShards && DistinctWriters(parity) && Detached(enc, [], parity)
    requires forall i :: 0 <= i < |G| ==> Bytes(all[i]) == G[i] && |G[i]| <= b
    requires forall i :: enc.dataShards <= i < enc.shards ==> all[i].Length == b
    modifies enc.pool, all, set i | 0 <= i < all.Length :: all[i], parity
    ensures enc.Valid() && enc.Repr() == old(enc.Repr()) && Pool(all, enc.Repr())
    ensures forall i :: 0 <= i < all.Length ==> all[i] == old(all[i]) || fresh(all[i])
    ensures err == None ==>
      0 < size <= b && IsMat(G, enc.dataShards, size) &&
      forall i :: 0 <= i < all.Length ==> all[i] != null && all[i].Length == size
    ensures err == None ==> WroteBlock(parity, rows, held, rooms, G, size)
    ensures err != None ==> Blamed(err.value, [], parity)
    ensures err != None && !enc.Breaks(err) ==>
      forall w: nat :: w > 0 && IsMat(G, enc.dataShards, w) ==> !old(Roomy(parity, w))
  {
    hide Comb, Recoverable, CacheOk, Stocked, Fragile, Roomy, WroteBlock;
    size, err := CodeBlock(enc, all, b, G);
    if err == None {
      assert |G[0]| == size;
      err := WriteParity(parity, all, enc.dataShards, G, size, rows, held, rooms);
    }
  }

  method WriteParity(parity: seq<Writer?>, all: array<Shard>, data: nat, ghost G: Mat, ghost size: nat,
                     ghost rows: Mat, ghost held: Mat, ghost rooms: seq<int>) returns (err: Option<Error>)
    requires data + |parity| == all.Length && DistinctWriters(parity) && |rows| == |parity| &&
      Holding(parity, held, rooms)
    requires IsMat(rows, |rows|, |G|) && IsMat(G, |G|, size)
    requires forall i :: 0 <= i < all.Length ==> all[i] != null && all[i].Length == size
    requires forall i :: 0 <= i < |rows| ==> all[data + i][..] == Comb(rows[i], G, size)
    modifies parity
    ensures err == None ==> WroteBlock(parity, rows, held, rooms, G, size)
    ensures err != None ==> !old(Roomy(parity, size))
    ensures err != None ==> Blamed(err.value, [], parity)
  {
    hide Comb;
    err := WriteShards(parity, all, data);
  }

  // One turn of the loop of Encode: reads a block, codes it, writes the parity.
  method EncodeBlock(enc: RS.ReedSolomon, all: array<Shard>, data: seq<Reader?>, parity: seq<Writer?>, b: nat,
                     ghost s: seq<Option<Source>>,
                     ghost rows: Mat, ghost held: Mat, ghost rooms: seq<int>) returns (res: BlockOutcome)
    requires ParityRows(enc, rows) && Holding(parity, held, rooms)
    requires Ready(enc, all, data, parity) && AllAre(data, s)
    requires b > 0 && forall i :: 0 <= i < all.Length && (i < |data| ==> data[i] != null) ==> all[i].Length == b
    modifies enc.pool, all, set i | 0 <= i < all.Length :: all[i], set i | 0 <= i < |data| &&
      data[i] != null :: data[i], parity
    ensures Ready(enc, all, data, parity)
    ensures forall i :: 0 <= i < all.Length ==> all[i] == old(all[i]) || fresh(all[i])
    ensures res.More? ==>
      Even(s, b, res.w) && AllAre(data, Lefts(s, b)) &&
      forall i :: 0 <= i < all.Length ==> all[i] != null && all[i].Length == res.w
    ensures res.More? ==> WroteBlock(parity, rows, held, rooms, Gots(s, b), res.w)
    ensures res == Finished ==> EndTogether(s, |s|, b, 0)
    ensures res == Finished ==> Holding(parity, held, rooms)
    ensures EndTogether(s, |s|, b, 0) ==> res == Finished
    ensures res.Stopped? ==>
      enc.Breaks(Some(res.error)) || Clash(s, b) || forall w: nat :: Even(s, b, w) ==> !old(Roomy(parity, w))
    ensures res.Stopped? ==> Blamed(res.error, s, parity)
  {
    hide Comb, Got, Left, Clash, EndTogether, Recoverable, CacheOk, Stocked, Fragile, Roomy, WroteBlock, Holding, Apart;
    var read := ReadShards(all, data, b, enc.Repr(), s);
    match read {
      case Eof => return Finished;
      case Failed(e) => return Stopped(e);
      case Fine =>
    }
    var size, err := CodeAndWrite(enc, all, parity, b, Gots(s, b), rows, held, rooms);
    match err {
      case Some(e) => return Stopped(e);
      case None => return More(size);
    }
  }

  // ---- whole streams ----

  // What is left of the readers after n bytes.
  function Dropped(s: seq<Option<Source>>, n: nat): (r: seq<Option<Source>>)
    requires Long(s, n)
    ensures |r| == |s|
  {
    seq(|s|, i requires 0 <= i < |s| => if s[i].None? then None
      else Some(Source(s[i].value.rest[n..], s[i].value.broken)))
  }

  predicate Long(s: seq<Option<Source>>, n: nat) {
    forall i :: 0 <= i < |s| && s[i].Some? ==> |s[i].value.rest| >= n
  }

  // The streams as rows.
  function Rests(s: seq<Option<Source>>): (r: Mat)
    ensures |r| == |s|
  {
    seq(|s|, i requires 0 <= i < |s| => if s[i].None? then [] else s[i].value.rest)
  }

  predicate Multiple(n: nat, bs: nat)
    requires bs > 0
  {
    n == 0 || (n >= bs && Multiple(n - bs, bs))
  }

  /** The streams a run over blocks of bs bytes accepts, as n bytes each: all have n bytes, or n is
      a multiple of the block size, some have n, and the others at least a block more. */
  ghost predicate Accepts(s: seq<Option<Source>>, bs: nat, n: nat)
    requires bs > 0
  {
    && n > 0 && None !in s && Long(s, n)
    && (forall i :: 0 <= i < |s| && |s[i].value.rest| == n ==> !s[i].value.broken)
    && (exists i :: 0 <= i < |s| && |s[i].value.rest| == n)
    && ((forall i :: 0 <= i < |s| ==> |s[i].value.rest| == n) ||
        (Multiple(n, bs) && forall i :: 0 <= i < |s| ==> |s[i].value.rest| == n || |s[i].value.rest| >= n + bs))
  }

  // After pos bytes the buffers have b bytes: whole blocks so far, or the last one was short.
  ghost predicate Reached(s: seq<Option<Source>>, bs: nat, pos: nat, b: nat)
    requires bs > 0
  {
    && b > 0 && Long(s, pos)
    && ((b == bs && Multiple(pos, bs)) ||
      (pos > 0 && forall i :: 0 <= i < |s| && s[i].Some? ==> |s[i].value.rest| == pos))
  }

  // While a run that is to succeed goes on, a block can be read or the end is reached.
  lemma Proceeds(s: seq<Option<Source>>, bs: nat, n: nat, pos: nat, b: nat)
    requires bs > 0 && Accepts(s, bs, n) && Reached(s, bs, pos, b)
    ensures pos <= n && !Clash(Dropped(s, pos), b)
    ensures EndTogether(Dropped(s, pos), |s|, b, 0) || exists w: nat :: Even(Dropped(s, pos), b, w) && pos + w <= n
    ensures pos == 0 ==> !EndTogether(Dropped(s, pos), |s|, b, 0)
  {
    var d := Dropped(s, pos);
    var k :| 0 <= k < |s| && |s[k].value.rest| == n;
    if pos == n {
      assert EndsIn(d[k], b);
    } else {
      assert b == bs && Multiple(pos, bs);
      var w := Min(n - pos, bs);
      if Multiple(n, bs) {
        SameMultiple(n, pos, bs);
      }
      assert Even(d, b, w);
      EvenNoClash(d, b, w);
    }
  }

  lemma {:induction false} SameMultiple(n: nat, pos: nat, bs: nat)
    requires bs > 0 && pos < n && Multiple(n, bs) && Multiple(pos, bs)
    ensures n >= pos + bs
  {
    if pos > 0 {
      SameMultiple(n - bs, pos - bs, bs);
    }
  }

  lemma EvenNoClash(s: seq<Option<Source>>, b: nat, w: nat)
    requires Even(s, b, w) && b > 0
    requires w < b ==> forall i :: 0 <= i < |s| && s[i].Some? && |s[i].value.rest| == w ==> !s[i].value.broken
    ensures !Clash(s, b)
  {}

  // The next block of every stream follows what was coded before.
  lemma NextBlock(s: seq<Option<Source>>, bs: nat, pos: nat, b: nat, w: nat)
    requires bs > 0 && |s| > 0 && Reached(s, bs, pos, b) && Even(Dropped(s, pos), b, w)
    ensures 0 < w <= b && None !in s && Long(s, pos + w) && Lefts(Dropped(s, pos), b) == Dropped(s, pos + w) &&
      Reached(s, bs, pos + w, w)
    ensures forall i :: 0 <= i < |Rests(s)| ==> |Rests(s)[i]| >= pos + w
    ensures Gots(Dropped(s, pos), b) == Cols(Rests(s), pos, pos + w) && w <= b
  {
    var d := Dropped(s, pos);
    forall i | 0 <= i < |s|
      ensures s[i].Some? && |s[i].value.rest| >= pos + w && Gots(d, b)[i] == s[i].value.rest[pos..pos + w]
      ensures Left(d[i], b) == Some(Source(s[i].value.rest[pos + w..], s[i].value.broken))
      ensures w < b ==> |s[i].value.rest| == pos + w
    {
      assert |Gots(d, b)[i]| == w;
    }
    assert |Gots(d, b)[0]| == w;
  }

  lemma ColsOfCols(D: Mat, pos: nat, w: nat)
    requires forall i :: 0 <= i < |D| ==> |D[i]| >= pos + w
    ensures Cols(Cols(D, 0, pos + w), 0, pos) == Cols(D, 0, pos)
    ensures Cols(Cols(D, 0, pos + w), pos, pos + w) == Cols(D, pos, pos + w)
  {
    var E := Cols(D, 0, pos + w);
    forall i | 0 <= i < |D|
      ensures E[i][0..pos] == D[i][0..pos]
      ensures E[i][pos..pos + w] == D[i][pos..pos + w]
    {
      assert E[i] == D[i][0..pos + w];
    }
  }

  // Coding block by block is coding the whole.
  lemma CombBlocks(row: Vec, D: Mat, pos: nat, w: nat)
    requires |row| == |D| && forall i :: 0 <= i < |D| ==> |D[i]| >= pos + w
    ensures Comb(row, Cols(D, 0, pos), pos) + Comb(row, Cols(D, pos, pos + w), w) ==
      Comb(row, Cols(D, 0, pos + w), pos + w)
  {
    hide Comb;
    var E := Cols(D, 0, pos + w);
    CombCols(row, E, pos + w, 0, pos);
    CombCols(row, E, pos + w, pos, pos + w);
    ColsOfCols(D, pos, w);
    var all := Comb(row, E, pos + w);
    assert all == all[0..pos] + all[pos..pos + w];
  }

  lemma WroteMore(parity: seq<Writer?>, rows: Mat, before: Mat, rooms: seq<int>, D: Mat, pos: nat, mid: Mat,
                  rooms': seq<int>, w: nat)
    requires |rows| == |before| == |rooms| == |parity| == |mid| == |rooms'| && IsMat(rows, |rows|, |D|)
    requires forall i :: 0 <= i < |D| ==> |D[i]| >= pos + w
    requires forall i :: 0 <= i < |parity| && parity[i] != null ==>
      mid[i] == before[i] + Comb(rows[i], Cols(D, 0, pos), pos) && rooms'[i] == rooms[i] - pos
    requires WroteBlock(parity, rows, mid, rooms', Cols(D, pos, pos + w), w)
    ensures Wrote(parity, rows, before, rooms, D, pos + w)
  {
    hide Comb;
    forall i | 0 <= i < |parity| && parity[i] != null
      ensures parity[i].written == before[i] + Comb(rows[i], Cols(D, 0, pos + w), pos + w)
    {
      CombBlocks(rows[i], D, pos, w);
      assert before[i] + Comb(rows[i], Cols(D, 0, pos), pos) + Comb(rows[i], Cols(D, pos, pos + w), w)
          == before[i] + (Comb(rows[i], Cols(D, 0, pos), pos) + Comb(rows[i], Cols(D, pos, pos + w), w));
    }
  }

  ghost function WrittenOf(ws: seq<Writer?>): (r: Mat)
    reads ws
    ensures |r| == |ws| && forall i :: 0 <= i < |ws| && ws[i] != null ==> r[i] == ws[i].written
  {
    seq(|ws|, i requires 0 <= i < |ws| reads ws => if ws[i] == null then [] else ws[i].written)
  }

  ghost function RoomOf(ws: seq<Writer?>): (r: seq<int>)
    reads ws
    ensures |r| == |ws| && forall i :: 0 <= i < |ws| && ws[i] != null ==> r[i] == ws[i].room
  {
    seq(|ws|, i requires 0 <= i < |ws| reads ws => if ws[i] == null then 0 else ws[i].room)
  }

  // What holds before every turn of the loop of Encode.
  ghost predicate Turning(enc: RS.ReedSolomon, all: array<Shard>, data: seq<Reader?>, parity: seq<Writer?>, bs: nat,
                          read: nat, b: nat,
                          s: seq<Option<Source>>, rows: Mat, held: Mat, rooms: seq<int>)
    requires bs > 0 && |rows| == |held| == |rooms| == |parity| && IsMat(rows, |rows|, |s|)
    reads all, data, parity
  {
    && Reached(s, bs, read, b) && AllAre(data, Dropped(s, read)) && (None in s ==> read == 0)
    && (forall i :: 0 <= i < all.Length && (i < |data| ==> data[i] != null) ==> all[i] != null && all[i].Length == b)
    && (read == 0 ==> Holding(parity, held, rooms))
    && (read > 0 ==> Wrote(parity, rows, held, rooms, Rests(s), read))
  }

  // One turn of the loop, in terms of the whole streams.
  method EncodeTurn(enc: RS.ReedSolomon, all: array<Shard>, data: seq<Reader?>, parity: seq<Writer?>, bs: nat,
                    read: nat, b: nat, ghost s: seq<Option<Source>>,
                    ghost rows: Mat, ghost held: Mat, ghost rooms: seq<int>) returns (res: BlockOutcome)
    requires Ready(enc, all, data, parity) && bs > 0 && ParityRows(enc, rows)
    requires |rows| == |held| == |rooms| == |parity| && |s| > 0 && IsMat(rows, |rows|, |s|)
    requires Turning(enc, all, data, parity, bs, read, b, s, rows, held, rooms)
    modifies enc.pool, all, set i | 0 <= i < all.Length :: all[i], set i | 0 <= i < |data| &&
      data[i] != null :: data[i], parity
    ensures Ready(enc, all, data, parity)
    ensures forall i :: 0 <= i < all.Length ==> all[i] == old(all[i]) || fresh(all[i])
    ensures res.More? ==>
      0 < res.w && read + res.w <= |Rests(s)[0]| &&
      Turning(enc, all, data, parity, bs, read + res.w, res.w, s, rows, held, rooms)
    ensures res == Finished ==> EndTogether(Dropped(s, read), |s|, b, 0)
    ensures res == Finished && read > 0 ==> Wrote(parity, rows, held, rooms, Rests(s), read)
    ensures EndTogether(Dropped(s, read), |s|, b, 0) ==> res == Finished
    ensures res.Stopped? ==>
      enc.Breaks(Some(res.error)) || Clash(Dropped(s, read), b) ||
      forall w: nat :: Even(Dropped(s, read), b, w) ==> !Fits(parity, rooms, read + w)
    ensures res.Stopped? ==> Blamed(res.error, Dropped(s, read), parity)
  {
    hide *;
    ghost var mid, rooms' := WrittenOf(parity), RoomOf(parity);
    SoFar(enc, all, data, parity, bs, read, b, s, rows, held, rooms);
    res := EncodeBlock(enc, all, data, parity, b, Dropped(s, read), rows, mid, rooms');
    if res.More? {
      TurnTaken(enc, all, data, parity, bs, read, b, res.w, s, rows, held, rooms, mid, rooms');
    } else if res == Finished && read > 0 {
      StillWrote(parity, rows, held, rooms, Rests(s), read, mid, rooms');
    }
  }

  lemma SoFar(enc: RS.ReedSolomon, all: array<Shard>, data: seq<Reader?>, parity: seq<Writer?>, bs: nat, read: nat,
              b: nat,
              s: seq<Option<Source>>, rows: Mat, held: Mat, rooms: seq<int>)
    requires bs > 0 && |rows| == |held| == |rooms| == |parity| && IsMat(rows, |rows|, |s|)
    requires Turning(enc, all, data, parity, bs, read, b, s, rows, held, rooms)
    ensures b > 0 && Reached(s, bs, read, b) && Long(s, read) && AllAre(data, Dropped(s, read))
    ensures forall i :: 0 <= i < all.Length && (i < |data| ==> data[i] != null) ==> all[i] != null && all[i].Length == b
    ensures Holding(parity, WrittenOf(parity), RoomOf(parity)) &&
      forall i :: 0 <= i < |Rests(s)| ==> |Rests(s)[i]| >= read
    ensures forall i :: 0 <= i < |parity| && parity[i] != null ==>
      parity[i].written == held[i] + Comb(rows[i], Cols(Rests(s), 0, read), read) && parity[i].room == rooms[i] - read
    ensures forall n: nat :: Fits(parity, rooms, read + n) ==> Roomy(parity, n)
  {
    hide Comb;
    assert read == 0 ==> forall i :: 0 <= i < |parity| ==> held[i] + Comb(rows[i], Cols(Rests(s), 0, 0), 0) == held[i];
  }

  lemma NoneMissing(enc: RS.ReedSolomon, all: array<Shard>, data: seq<Reader?>, parity: seq<Writer?>, bs: nat,
                    read: nat, b: nat,
                    s: seq<Option<Source>>, rows: Mat, held: Mat, rooms: seq<int>)
    requires bs > 0 && |rows| == |held| == |rooms| == |parity| && IsMat(rows, |rows|, |s|)
    requires Turning(enc, all, data, parity, bs, read, b, s, rows, held, rooms) && read > 0
    ensures None !in s
  {}

  // A block coded and written: the next turn may begin.
  lemma TurnTaken(enc: RS.ReedSolomon, all: array<Shard>, data: seq<Reader?>, parity: seq<Writer?>, bs: nat, read: nat,
                  b: nat, w: nat,
                  s: seq<Option<Source>>, rows: Mat, held: Mat, rooms: seq<int>, mid: Mat, rooms': seq<int>)
    requires bs > 0 && |rows| == |held| == |rooms| == |parity| && IsMat(rows, |rows|, |s|) && |s| > 0 &&
      |mid| == |rooms'| == |parity|
    requires Reached(s, bs, read, b) && Long(s, read) && Even(Dropped(s, read), b, w) &&
      AllAre(data, Lefts(Dropped(s, read), b))
    requires forall i :: 0 <= i < all.Length ==> all[i] != null && all[i].Length == w
    requires forall i :: 0 <= i < |Rests(s)| ==> |Rests(s)[i]| >= read
    requires forall i :: 0 <= i < |parity| && parity[i] != null ==>
      mid[i] == held[i] + Comb(rows[i], Cols(Rests(s), 0, read), read) && rooms'[i] == rooms[i] - read
    requires WroteBlock(parity, rows, mid, rooms', Gots(Dropped(s, read), b), w)
    ensures 0 < w && read + w <= |Rests(s)[0]| && Turning(enc, all, data, parity, bs, read + w, w, s, rows, held, rooms)
  {
    hide WroteBlock, Wrote, Even, Reached, Comb;
    NextBlock(s, bs, read, b, w);
    WroteMore(parity, rows, held, rooms, Rests(s), read, mid, rooms', w);
  }

  lemma StillWrote(parity: seq<Writer?>, rows: Mat, held: Mat, rooms: seq<int>, D: Mat, n: nat, mid: Mat,
                   rooms': seq<int>)
    requires |rows| == |held| == |rooms| == |parity| && IsMat(rows, |rows|, |D|) &&
      (forall i :: 0 <= i < |D| ==> |D[i]| >= n)
    requires Holding(parity, mid, rooms')
    requires forall i :: 0 <= i < |parity| && parity[i] != null ==>
      mid[i] == held[i] + Comb(rows[i], Cols(D, 0, n), n) && rooms'[i] == rooms[i] - n
    ensures Wrote(parity, rows, held, rooms, D, n)
  {}

  // Every writer that is there has room for n bytes.
  ghost predicate Fits(ws: seq<Writer?>, rooms: seq<int>, n: nat) {
    |rooms| == |ws| && forall i :: 0 <= i < |ws| && ws[i] != null ==> rooms[i] >= n
  }

  lemma Start(s: seq<Option<Source>>, bs: nat)
    requires bs > 0
    ensures Long(s, 0) && Reached(s, bs, 0, bs) && Dropped(s, 0) == s
  {
    forall i | 0 <= i < |s|
      ensures Dropped(s, 0)[i] == s[i]
    {}
  }

  // Coming to an end at a block boundary, or after a short block: the streams are accepted.
  lemma Accepted(s: seq<Option<Source>>, bs: nat, n: nat, b: nat)
    requires bs > 0 && n > 0 && None !in s && Reached(s, bs, n, b) && EndTogether(Dropped(s, n), |s|, b, 0)
    ensures Accepts(s, bs, n)
  {
    var d := Dropped(s, n);
    var k :| 0 <= k < |s| && EndsIn(d[k], b);
    assert |s[k].value.rest| == n;
    forall i | 0 <= i < |s|
      ensures |s[i].value.rest| == n ==> !s[i].value.broken
      ensures |s[i].value.rest| == n || |s[i].value.rest| >= n + b
    {
      assert EndsIn(d[i], b) <==> |s[i].value.rest| < n + b;
    }
  }

  // The end of a run that stops: it is none that should have succeeded.
  lemma NotAccepted(s: seq<Option<Source>>, bs: nat, pos: nat, b: nat, parity: seq<Writer?>, rooms: seq<int>)
    requires bs > 0 && Reached(s, bs, pos, b)
    requires Clash(Dropped(s, pos), b) || forall w: nat :: Even(Dropped(s, pos), b, w) ==> !Fits(parity, rooms, pos + w)
    requires !EndTogether(Dropped(s, pos), |s|, b, 0)
    ensures forall k: nat :: Accepts(s, bs, k) ==> !Fits(parity, rooms, k)
  {
    hide Accepts, Reached, Clash, Even, EndTogether;
    forall k: nat | Accepts(s, bs, k)
      ensures !Fits(parity, rooms, k)
    {
      Proceeds(s, bs, k, pos, b);
    }
  }

  // The loop of Encode.
  method EncodeLoop(enc: RS.ReedSolomon, all: array<Shard>, data: seq<Reader?>, parity: seq<Writer?>, bs: nat,
                    ghost s: seq<Option<Source>>,
                    ghost rows: Mat, ghost held: Mat, ghost rooms: seq<int>) returns (err: Option<Error>, ghost n: nat)
    requires Ready(enc, all, data, parity) && bs > 0 && ParityRows(enc, rows)
    requires |rows| == |held| == |rooms| == |parity| && |s| > 0 && IsMat(rows, |rows|, |s|)
    requires Turning(enc, all, data, parity, bs, 0, bs, s, rows, held, rooms) && Dropped(s, 0) == s
    modifies enc.pool, all, set i | 0 <= i < all.Length :: all[i], set i | 0 <= i < |data| &&
      data[i] != null :: data[i], parity
    ensures Ready(enc, all, data, parity)
    ensures err == None ==> Accepts(s, bs, n) && Wrote(parity, rows, held, rooms, Rests(s), n)
    ensures forall k: nat :: Accepts(s, bs, k) && Fits(parity, rooms, k) ==> err == None || enc.Breaks(err)
    ensures EndTogether(s, |s|, bs, 0) ==> err == Some(ShardNoData)
    ensures err != None ==> Blamed(err.value, s, parity)
  {
    hide *;
    n := 0;
    var read, b := 0, bs;
    while true
      invariant Ready(enc, all, data, parity)
      invariant forall i :: 0 <= i < all.Length ==> all[i] == old(all[i]) || fresh(all[i])
      invariant Turning(enc, all, data, parity, bs, read, b, s, rows, held, rooms)
      invariant EndTogether(s, |s|, bs, 0) ==> read == 0 && b == bs
      decreases |Rests(s)[0]| - read
    {
      SoFar(enc, all, data, parity, bs, read, b, s, rows, held, rooms);
      if read > 0 {
        NoneMissing(enc, all, data, parity, bs, read, b, s, rows, held, rooms);
      }
      var res := EncodeTurn(enc, all, data, parity, bs, read, b, s, rows, held, rooms);
      match res {
        case Finished =>
          if read == 0 {
            EndsAtStart(s, bs, b);
            NoDataBlamed(s, parity);
            return Some(ShardNoData), n;
          }
          Accepted(s, bs, read, b);
          return None, read;
        case Stopped(e) =>
          if !enc.Breaks(Some(e)) {
            NotAccepted(s, bs, read, b, parity, rooms);
          }
          BlamedDropped(e, s, read, parity);
          return Some(e), n;
        case More(w) =>
          read, b := read + w, w;
      }
    }
  }

  // A run that ends before the first byte is none that should have succeeded.
  lemma EndsAtStart(s: seq<Option<Source>>, bs: nat, b: nat)
    requires bs > 0 && Reached(s, bs, 0, b) && EndTogether(Dropped(s, 0), |s|, b, 0)
    ensures forall k: nat :: !Accepts(s, bs, k)
  {
    forall k: nat | Accepts(s, bs, k)
      ensures false
    {
      Proceeds(s, bs, k, 0, b);
    }
  }

  /** Encode: it succeeds exactly on the streams it accepts (given writers with room), and writes the
      parity of the first n bytes of the streams coded at once; beyond that the block size does not
      matter. */
  method Encode(enc: RS.ReedSolomon, bs: nat, data: seq<Reader?>, parity: seq<Writer?>)
    returns (err: Option<Error>, ghost n: nat)
    requires enc.Valid() && Detached(enc, data, parity) && bs > 0 && DistinctReaders(data) && DistinctWriters(parity)
    modifies enc.pool, set i | 0 <= i < |data| && data[i] != null :: data[i], parity
    ensures enc.Valid()
    ensures |data| != enc.dataShards || |parity| != enc.parityShards ==> err == Some(TooFewShards)
    ensures err == None ==>
      |data| == enc.dataShards && |parity| == enc.parityShards && Accepts(old(Inputs(data)), bs, n)
    ensures err == None ==> forall rows: Mat :: ParityRows(enc, rows) ==>
      Wrote(parity, rows, old(WrittenOf(parity)), old(RoomOf(parity)), Rests(old(Inputs(data))), n)
    ensures |data| == enc.dataShards && |parity| == enc.parityShards ==>
      forall k: nat :: Accepts(old(Inputs(data)), bs, k) && Fits(parity, old(RoomOf(parity)), k) ==>
        err == None || enc.Breaks(err)
    ensures |data| == enc.dataShards && |parity| == enc.parityShards &&
            EndTogether(old(Inputs(data)), |data|, bs, 0) ==>
            err == Some(ShardNoData)
    ensures err != None ==> Blamed(err.value, old(Inputs(data)), parity)
  {
    hide Comb, Wrote, Accepts, EndTogether, Recoverable, CacheOk, Stocked, Fragile;
    n := 0;
    if |data| != enc.dataShards {
      return Some(TooFewShards), n;
    }
    if |parity| != enc.parityShards {
      return Some(TooFewShards), n;
    }
    ghost var s, held, rooms := Inputs(data), WrittenOf(parity), RoomOf(parity);
    ghost var rows := Rows(enc);
    var all := CreateSlice(enc.shards, bs, enc.Repr());
    Start(s, bs);
    forall r: Mat | ParityRows(enc, r)
      ensures r == rows
    {
      assert forall i :: 0 <= i < |rows| ==> r[i] == rows[i];
    }
    err, n := EncodeLoop(enc, all, data, parity, bs, s, rows, held, rooms);
  }

  // The coding rows of the parity; none without parity.
  ghost function Rows(enc: RS.ReedSolomon): (r: Mat)
    requires enc.Valid()
    reads enc.Repr(), enc.tree, if enc.tree == null then {} else {enc.tree.root}
    ensures ParityRows(enc, r)
  {
    if enc.parityShards > 0 then enc.RecoverableShape(); enc.Parity() else []
  }

  lemma AllCols(V: Mat, n: nat)
    requires IsMat(V, |V|, n)
    ensures Cols(V, 0, n) == V
  {
    forall i | 0 <= i < |V|
      ensures Cols(V, 0, n)[i] == V[i]
    {
      assert Cols(V, 0, n)[i] == V[i][0..n];
    }
  }

  /** Streams of equal length are accepted whatever the block size, as a whole. */
  lemma EqualStreams(s: seq<Option<Source>>, bs: nat, n: nat)
    requires bs > 0 && n > 0 && |s| > 0
    requires forall i :: 0 <= i < |s| ==> s[i].Some? && !s[i].value.broken && |s[i].value.rest| == n
    ensures Accepts(s, bs, n) && Cols(Rests(s), 0, n) == Rests(s)
  {
    assert |s[0].value.rest| == n;
    AllCols(Rests(s), n);
  }

  /** Streams of different lengths can be accepted: two and four bytes with blocks of two. */
  lemma UnequalAccepted()
    ensures Accepts([Some(Source([1, 2], false)), Some(Source([1, 2, 3, 4], false))], 2, 2)
  {
    var s := [Some(Source([1, 2], false)), Some(Source([1, 2, 3, 4], false))];
    assert |s[0].value.rest| == 2 && |s[1].value.rest| == 4;
    assert Multiple(2, 2) by { assert Multiple(0, 2); }
  }

  // ---- Verify ----

  ghost predicate ReadyAll(enc: RS.ReedSolomon, all: array<Shard>, readers: seq<Reader?>, writers: seq<Writer?>)
    reads enc.Repr(), enc.tree, if enc.tree == null then {} else {enc.tree.root}
    reads all
  {
    && enc.Valid() && Detached(enc, readers, writers) && Pool(all, enc.Repr()) && all.Length == enc.shards
    && |readers| == enc.shards && DistinctReaders(readers) && DistinctWriters(writers)
  }

  // The streams are a codeword over the columns lo to hi.
  ghost predicate CodewordIn(enc: RS.ReedSolomon, D: Mat, lo: nat, hi: nat)
    requires lo <= hi && forall i :: 0 <= i < |D| ==> |D[i]| >= hi
  {
    enc.parityShards > 0 ==> Codeword(enc.m, enc.dataShards, Cols(D, lo, hi), hi - lo)
  }

  // A codeword block by block is a codeword, and the other way round.
  lemma CodewordBlocks(enc: RS.ReedSolomon, D: Mat, pos: nat, w: nat)
    requires forall i :: 0 <= i < |D| ==> |D[i]| >= pos + w
    ensures CodewordIn(enc, D, 0, pos + w) <==> CodewordIn(enc, D, 0, pos) && CodewordIn(enc, D, pos, pos + w)
  {
    hide Comb;
    var m, data := enc.m, enc.dataShards;
    if enc.parityShards > 0 && |m| == |D| && data <= |D| && IsMat(m, |m|, data) {
      var A, B, V := Cols(D, 0, pos), Cols(D, pos, pos + w), Cols(D, 0, pos + w);
      assert A[..data] == Cols(D[..data], 0, pos) && B[..data] == Cols(D[..data], pos, pos + w) &&
        V[..data] == Cols(D[..data], 0, pos + w);
      forall i | 0 <= i < |D|
        ensures V[i] == Comb(m[i], V[..data], pos + w) <==>
          A[i] == Comb(m[i], A[..data], pos) && B[i] == Comb(m[i], B[..data], w)
      {
        CombBlocks(m[i], D[..data], pos, w);
        assert V[i] == A[i] + B[i];
        SameParts(A[i], B[i], Comb(m[i], A[..data], pos), Comb(m[i], B[..data], w));
      }
    }
  }

  lemma SameParts(a: seq<byte>, b: seq<byte>, c: seq<byte>, d: seq<byte>)
    requires |a| == |c|
    ensures a + b == c + d <==> a == c && b == d
  {
    if a + b == c + d {
      assert a == (a + b)[..|a|] && b == (a + b)[|a|..];
      assert c == (c + d)[..|a|] && d == (c + d)[|a|..];
    }
  }

  datatype VerifyOutcome = Matched(w: nat) | Mismatch(w: nat) | AtEnd | Aborted(error: Error)

  // One turn of the loop of Verify.
  method VerifyBlock(enc: RS.ReedSolomon, all: array<Shard>, shards: seq<Reader?>, b: nat, ghost s: seq<Option<Source>>)
    returns (res: VerifyOutcome)
    requires ReadyAll(enc, all, shards, []) && AllAre(shards, s)
    requires b > 0 && forall i :: 0 <= i < all.Length && shards[i] != null ==> all[i].Length == b
    modifies enc.pool, all, set i | 0 <= i < all.Length :: all[i], set i | 0 <= i < |shards| &&
      shards[i] != null :: shards[i]
    ensures ReadyAll(enc, all, shards, [])
    ensures forall i :: 0 <= i < all.Length ==> all[i] == old(all[i]) || fresh(all[i])
    ensures res.Matched? || res.Mismatch? ==> Even(s, b, res.w) && AllAre(shards, Lefts(s, b))
    ensures res.Matched? || res.Mismatch? ==>
      forall i :: 0 <= i < all.Length ==> all[i] != null && all[i].Length == res.w
    ensures res.Matched? ==> enc.parityShards > 0 ==> Codeword(enc.m, enc.dataShards, Gots(s, b), res.w)
    ensures res.Mismatch? ==> enc.parityShards > 0 && !Codeword(enc.m, enc.dataShards, Gots(s, b), res.w)
    ensures res == AtEnd <==> EndTogether(s, |s|, b, 0)
    ensures res.Aborted? ==> enc.Breaks(Some(res.error)) || Clash(s, b) || forall w: nat :: !Even(s, b, w)
    ensures res.Aborted? ==> Blamed(res.error, s, [])
  {
    hide Comb, Got, Left, Clash, EndTogether, Recoverable, CacheOk, Codeword, SizeOf, Check, Stocked, Fragile;
    var read := ReadShards(all, shards, b, enc.Repr(), s);
    match read {
      case Eof => return AtEnd;
      case Failed(e) => return Aborted(e);
      case Fine =>
    }
    assert Values(all) == Gots(s, b);
    res := CheckBlock(enc, all, Gots(s, b));
  }

  // Verifies the block G that was read.
  method CheckBlock(enc: RS.ReedSolomon, all: array<Shard>, ghost G: Mat) returns (res: VerifyOutcome)
    requires enc.Valid() && Apart(all) && all.Length == enc.shards && Values(all) == G
    modifies enc.pool
    ensures enc.Valid() && enc.Repr() == old(enc.Repr())
    ensures res != AtEnd
    ensures res.Matched? || res.Mismatch? ==> res.w > 0 && IsMat(G, |G|, res.w)
    ensures res.Matched? ==> enc.parityShards > 0 ==> Codeword(enc.m, enc.dataShards, G, res.w)
    ensures res.Mismatch? ==> enc.parityShards > 0 && !Codeword(enc.m, enc.dataShards, G, res.w)
    ensures res.Aborted? ==> enc.Breaks(Some(res.error)) || forall w: nat :: w > 0 ==> !IsMat(G, |G|, w)
    ensures res.Aborted? ==> Blamed(res.error, [], [])
  {
    hide Comb, Recoverable, CacheOk, Codeword, SizeOf, Check, Stocked, Fragile;
    var size := ShardSizeOf(all[..]);
    forall i | 0 <= i < all.Length
      ensures Lens(all[..])[i] == |G[i]|
    {
      assert G[i] == Bytes(all[i]);
    }
    EvenLens(G, Lens(all[..]));
    enc.VerdictIs(Lens(all[..]));
    CheckBlames(Lens(all[..]));
    var ok, err := enc.Verify(all);
    match err {
      case Some(e) => return Aborted(e);
      case None => return if ok then Matched(size) else Mismatch(size);
    }
  }

  lemma EvenLens(G: Mat, lens: seq<nat>)
    requires 0 < |G| == |lens| && forall i :: 0 <= i < |G| ==> lens[i] == |G[i]|
    ensures Check(lens, false) == None <==> SizeOf(lens) > 0 && IsMat(G, |G|, SizeOf(lens))
    ensures forall w: nat :: w > 0 && IsMat(G, |G|, w) ==> SizeOf(lens) == w
  {}

  // What holds before every turn of the loop of Verify.
  ghost predicate Checking(enc: RS.ReedSolomon, all: array<Shard>, shards: seq<Reader?>, bs: nat, read: nat, b: nat,
                           s: seq<Option<Source>>)
    requires bs > 0
    reads all, shards
  {
    && Reached(s, bs, read, b) && AllAre(shards, Dropped(s, read)) && (None in s ==> read == 0)
    && (forall i :: 0 <= i < all.Length && (i < |shards| ==> shards[i] != null) ==>
      all[i] != null && all[i].Length == b)
    && (read > 0 ==> CodewordIn(enc, Rests(s), 0, read))
  }

  lemma CheckedOn(enc: RS.ReedSolomon, all: array<Shard>, shards: seq<Reader?>, bs: nat, read: nat, b: nat, w: nat,
                  s: seq<Option<Source>>, ok: bool)
    requires bs > 0 && |s| > 0 && Reached(s, bs, read, b) && (None in s ==> read == 0) &&
      (read > 0 ==> CodewordIn(enc, Rests(s), 0, read))
    requires Even(Dropped(s, read), b, w) && AllAre(shards, Lefts(Dropped(s, read), b))
    requires forall i :: 0 <= i < all.Length ==> all[i] != null && all[i].Length == w
    requires if ok then enc.parityShards > 0 ==> Codeword(enc.m, enc.dataShards, Gots(Dropped(s, read), b), w)
             else enc.parityShards > 0 && !Codeword(enc.m, enc.dataShards, Gots(Dropped(s, read), b), w)
    ensures 0 < w && None !in s && Long(s, read + w) && read + w <= |Rests(s)[0]|
    ensures forall i :: 0 <= i < |Rests(s)| ==> |Rests(s)[i]| >= read + w
    ensures ok ==> Checking(enc, all, shards, bs, read + w, w, s)
    ensures !ok ==> !CodewordIn(enc, Rests(s), 0, read + w)
  {
    hide Comb, Even, Reached, Codeword;
    NextBlock(s, bs, read, b, w);
    CodewordBlocks(enc, Rests(s), read, w);
    if read == 0 && ok {
      assert Cols(Rests(s), 0, 0 + w) == Cols(Rests(s), 0, w);
    }
  }

  lemma CheckingSoFar(enc: RS.ReedSolomon, all: array<Shard>, shards: seq<Reader?>, bs: nat, read: nat, b: nat,
                      s: seq<Option<Source>>)
    requires bs > 0 && Checking(enc, all, shards, bs, read, b, s)
    ensures b > 0 && Reached(s, bs, read, b) && Long(s, read) && AllAre(shards, Dropped(s, read)) &&
      (None in s ==> read == 0)
    ensures forall i :: 0 <= i < all.Length && (i < |shards| ==> shards[i] != null) ==>
      all[i] != null && all[i].Length == b
    ensures read > 0 ==>
      (forall i :: 0 <= i < |Rests(s)| ==> |Rests(s)[i]| >= read) && CodewordIn(enc, Rests(s), 0, read)
  {}

  // A run that stops: it is none that should have gone to the end.
  lemma NotToTheEnd(s: seq<Option<Source>>, bs: nat, pos: nat, b: nat)
    requires bs > 0 && Reached(s, bs, pos, b)
    requires Clash(Dropped(s, pos), b) || forall w: nat :: !Even(Dropped(s, pos), b, w)
    requires !EndTogether(Dropped(s, pos), |s|, b, 0)
    ensures forall k: nat :: !Accepts(s, bs, k)
  {
    hide Accepts, Reached, Clash, Even, EndTogether;
    forall k: nat | Accepts(s, bs, k)
      ensures false
    {
      Proceeds(s, bs, k, pos, b);
    }
  }

  // The beginning of what is accepted as a whole is a codeword if the whole is.
  lemma MismatchEarly(enc: RS.ReedSolomon, s: seq<Option<Source>>, bs: nat, n: nat, k: nat)
    requires bs > 0 && None !in s && Long(s, n) && (forall i :: 0 <= i < |Rests(s)| ==> |Rests(s)[i]| >= n)
    requires !CodewordIn(enc, Rests(s), 0, n) && Accepts(s, bs, k) && n <= k
    ensures (forall i :: 0 <= i < |Rests(s)| ==> |Rests(s)[i]| >= k) && !CodewordIn(enc, Rests(s), 0, k)
  {
    hide Comb, Codeword;
    CodewordBlocks(enc, Rests(s), n, k - n);
  }

  lemma WithinAccepted(s: seq<Option<Source>>, bs: nat, n: nat, k: nat)
    requires bs > 0 && Accepts(s, bs, k) && Long(s, n)
    ensures n <= k
  {}

  /** What Verify should say of streams accepted as n bytes. */
  ghost predicate Verified(enc: RS.ReedSolomon, s: seq<Option<Source>>, n: nat) {
    None !in s && Long(s, n) && CodewordIn(enc, Rests(s), 0, n)
  }

  method VerifyLoop(enc: RS.ReedSolomon, all: array<Shard>, shards: seq<Reader?>, bs: nat, ghost s: seq<Option<Source>>)
    returns (ok: bool, err: Option<Error>, ghost n: nat)
    requires ReadyAll(enc, all, shards, []) && bs > 0 && |s| > 0 && Checking(enc, all, shards, bs, 0, bs, s) &&
      Dropped(s, 0) == s
    modifies enc.pool, all, set i | 0 <= i < all.Length :: all[i], set i | 0 <= i < |shards| &&
      shards[i] != null :: shards[i]
    ensures ReadyAll(enc, all, shards, [])
    ensures err == None && ok ==> Accepts(s, bs, n) && Verified(enc, s, n)
    ensures err == None && !ok ==> None !in s && Long(s, n) && !Verified(enc, s, n)
    ensures err != None ==> !ok
    ensures forall k: nat :: Accepts(s, bs, k) ==> enc.Breaks(err) || (err == None && (ok <==> Verified(enc, s, k)))
    ensures EndTogether(s, |s|, bs, 0) ==> err == Some(ShardNoData)
    ensures err != None ==> Blamed(err.value, s, [])
  {
    hide *;
    n := 0;
    var read, b := 0, bs;
    while true
      invariant ReadyAll(enc, all, shards, [])
      invariant forall i :: 0 <= i < all.Length ==> all[i] == old(all[i]) || fresh(all[i])
      invariant Checking(enc, all, shards, bs, read, b, s)
      invariant EndTogether(s, |s|, bs, 0) ==> read == 0 && b == bs
      decreases |Rests(s)[0]| - read
    {
      CheckingSoFar(enc, all, shards, bs, read, b, s);
      var res := VerifyBlock(enc, all, shards, b, Dropped(s, read));
      match res {
        case AtEnd =>
          if read == 0 {
            EndsAtStart(s, bs, b);
            NoDataBlamed(s, []);
            return false, Some(ShardNoData), n;
          }
          Accepted(s, bs, read, b);
          AcceptedVerified(enc, s, bs, read);
          return true, None, read;
        case Aborted(e) =>
          if !enc.Breaks(Some(e)) {
            NotToTheEnd(s, bs, read, b);
          }
          BlamedDropped(e, s, read, []);
          return false, Some(e), n;
        case Mismatch(w) =>
          CheckedOn(enc, all, shards, bs, read, b, w, s, false);
          MismatchVerified(enc, s, bs, read + w);
          return false, None, read + w;
        case Matched(w) =>
          CheckedOn(enc, all, shards, bs, read, b, w, s, true);
          read, b := read + w, w;
      }
    }
  }

  lemma AcceptedVerified(enc: RS.ReedSolomon, s: seq<Option<Source>>, bs: nat, n: nat)
    requires bs > 0 && Accepts(s, bs, n) && (forall i :: 0 <= i < |Rests(s)| ==> |Rests(s)[i]| >= n) &&
      CodewordIn(enc, Rests(s), 0, n)
    ensures Verified(enc, s, n) && forall k: nat :: Accepts(s, bs, k) ==> Verified(enc, s, k)
  {
    hide CodewordIn;
  }

  lemma MismatchVerified(enc: RS.ReedSolomon, s: seq<Option<Source>>, bs: nat, n: nat)
    requires bs > 0 && None !in s && Long(s, n) && (forall i :: 0 <= i < |Rests(s)| ==> |Rests(s)[i]| >= n) &&
      !CodewordIn(enc, Rests(s), 0, n)
    ensures !Verified(enc, s, n) && forall k: nat :: Accepts(s, bs, k) ==> !Verified(enc, s, k)
  {
    hide CodewordIn, Accepts;
    forall k: nat | Accepts(s, bs, k)
      ensures !Verified(enc, s, k)
    {
      WithinAccepted(s, bs, n, k);
      MismatchEarly(enc, s, bs, n, k);
    }
  }

  /** Verify: on the streams it accepts, it answers what Verify in memory answers for their first n
      bytes; it answers false only if some beginning of the streams is not an encoding. */
  method Verify(enc: RS.ReedSolomon, bs: nat, shards: seq<Reader?>) returns (ok: bool, err: Option<Error>, ghost n: nat)
    requires enc.Valid() && Detached(enc, shards, []) && bs > 0 && DistinctReaders(shards)
    modifies enc.pool, set i | 0 <= i < |shards| && shards[i] != null :: shards[i]
    ensures enc.Valid()
    ensures |shards| != enc.shards ==> err == Some(TooFewShards)
    ensures err != None ==> !ok
    ensures err == None && ok ==>
      |shards| == enc.shards && Accepts(old(Inputs(shards)), bs, n) && Verified(enc, old(Inputs(shards)), n)
    ensures err == None && !ok ==>
      None !in old(Inputs(shards)) && Long(old(Inputs(shards)), n) && !Verified(enc, old(Inputs(shards)), n)
    ensures |shards| == enc.shards ==>
      forall k: nat :: Accepts(old(Inputs(shards)), bs, k) ==>
        enc.Breaks(err) || (err == None && (ok <==> Verified(enc, old(Inputs(shards)), k)))
    ensures |shards| == enc.shards && EndTogether(old(Inputs(shards)), |shards|, bs, 0) ==> err == Some(ShardNoData)
    ensures err != None ==> Blamed(err.value, old(Inputs(shards)), [])
  {
    hide Comb, Codeword, Accepts, EndTogether, Recoverable, CacheOk, Verified, Stocked, Fragile;
    n := 0;
    if |shards| != enc.shards {
      return false, Some(TooFewShards), n;
    }
    ghost var s := Inputs(shards);
    var all := CreateSlice(enc.shards, bs, enc.Repr());
    Start(s, bs);
    ok, err, n := VerifyLoop(enc, all, shards, bs, s);
  }

  // ---- Reconstruct ----

  // How many of the first k readers are there.
  function Given(s: seq<Option<Source>>, k: nat): nat
    requires k <= |s|
  {
    if k == 0 then 0 else Given(s, k - 1) + (if s[k - 1].Some? then 1 else 0)
  }

  // The first reader that is there, or the number of readers.
  function First(s: seq<Option<Source>>): (f: nat)
    ensures f <= |s| && (forall i :: 0 <= i < f ==> s[i].None?) && (f < |s| ==> s[f].Some?)
  {
    if |s| == 0 || s[0].Some? then 0
    else
      assert forall i :: 0 <= i < |s| - 1 ==> s[1..][i] == s[i + 1];
      First(s[1..]) + 1
  }

  // The size a block is cut to: that of the first shard that is there.
  function BlockSize(s: seq<Option<Source>>, b: nat): (w: nat)
    ensures w <= b
  {
    if First(s) < |s| then |Got(s[First(s)], b)| else 0
  }

  lemma {:induction false} SizeOfFirst(lens: seq<nat>, f: nat)
    requires f <= |lens| && (forall i :: 0 <= i < f ==> lens[i] == 0) && (f < |lens| ==> lens[f] != 0)
    ensures SizeOf(lens) == if f < |lens| then lens[f] else 0
  {
    if f > 0 {
      SizeOfFirst(lens[1..], f - 1);
    }
  }

  lemma {:induction false} GivenPresent(s: seq<Option<Source>>, lens: seq<nat>, k: nat)
    requires k <= |s| == |lens| && forall i :: 0 <= i < |s| ==> (s[i].Some? <==> lens[i] != 0)
    ensures RS.ReedSolomon.Present(lens, k) == Given(s, k)
    ensures Given(s, k) > 0 ==> exists i :: 0 <= i < k && s[i].Some?
  {
    if k > 0 {
      GivenPresent(s, lens, k - 1);
    }
  }

  // What reconstruct answers for a block that was cut to one size.
  lemma TrimmedVerdict(enc: RS.ReedSolomon, s: seq<Option<Source>>, lens: seq<nat>, size: nat, dataOnly: bool)
    requires |s| == |lens| == enc.shards && 0 < enc.dataShards <= enc.shards && (First(s) < |s| ==> size > 0)
    requires forall i :: 0 <= i < |s| ==> lens[i] == if s[i].Some? then size else 0
    ensures enc.Verdict(lens, dataOnly) == None <==> Given(s, |s|) >= enc.dataShards
    ensures enc.Verdict(lens, dataOnly) != None ==> Blamed(enc.Verdict(lens, dataOnly).value, [], [])
    ensures Given(s, |s|) >= enc.dataShards ==>
      size > 0 && SizeOf(lens) == size && RS.ReedSolomon.Present(lens, |lens|) >= enc.dataShards
  {
    GivenPresent(s, lens, |s|);
    SizeOfFirst(lens, First(s));
    RS.ReedSolomon.PresentSpan(lens, enc.dataShards, |lens|);
  }

  // V is an encoding that has the first k bytes of the blocks that were read.
  ghost predicate BlockEncodes(enc: RS.ReedSolomon, V: Mat, s: seq<Option<Source>>, b: nat, k: nat) {
    && enc.parityShards > 0 && Codeword(enc.m, enc.dataShards, V, k) && |V| == |s|
    && forall i :: 0 <= i < |s| && s[i].Some? ==> k <= |Got(s[i], b)| && V[i] == Got(s[i], b)[..k]
  }

  // Wherever an encoding is decided by what was read, the blocks for the writers are its rows.
  ghost predicate HeadsRight(enc: RS.ReedSolomon, fill: seq<Writer?>, block: Mat, s: seq<Option<Source>>, b: nat,
                             w: nat) {
    && |block| == |fill| == |s| && (forall i :: 0 <= i < |fill| && fill[i] != null ==> |block[i]| == w)
    && forall V: Mat, k: nat :: BlockEncodes(enc, V, s, b, k) && k <= w ==>
         forall i :: 0 <= i < |fill| && fill[i] != null ==> block[i][..k] == V[i]
  }

  // What is asked for is missing, and parity is asked for only if parity is rebuilt.
  predicate Asked(valid: seq<Reader?>, fill: seq<Writer?>, dataShards: nat, dataOnly: bool) {
    |valid| == |fill| && forall i :: 0 <= i < |fill| && fill[i] != null ==>
    valid[i] == null && (i >= dataShards ==> !dataOnly)
  }

  // Cuts, or stretches, the block that was read to one size.
  method TrimBlock(enc: RS.ReedSolomon, all: array<Shard>, b: nat, ghost s: seq<Option<Source>>) returns (size: nat)
    requires enc.Valid() && Pool(all, enc.Repr()) && |s| == all.Length == enc.shards && b > 0
    requires forall i :: 0 <= i < |s| ==> Bytes(all[i]) == Got(s[i], b) && (s[i].Some? ==> |Got(s[i], b)| > 0)
    modifies all
    ensures enc.Valid() && enc.Repr() == old(enc.Repr()) && Pool(all, enc.Repr())
    ensures forall i :: 0 <= i < all.Length ==> all[i] == old(all[i]) || fresh(all[i])
    ensures size == BlockSize(s, b) && (First(s) < |s| ==> size > 0)
    ensures forall i :: 0 <= i < all.Length ==>
      Len(all[i]) == (if s[i].Some? then size else 0) && SameHead(Bytes(all[i]), Got(s[i], b))
  {
    hide Recoverable, CacheOk, SizeOf, Check, SameHead, Stocked;
    size := ShardSizeOf(all[..]);
    forall i | 0 <= i < |s|
      ensures Lens(all[..])[i] == |Got(s[i], b)|
    {
      assert Lens(all[..])[i] == Len(all[..][i]) == |Bytes(all[i])|;
    }
    SizeOfFirst(Lens(all[..]), First(s));
    TrimShards(all, 0, size, enc.Repr());
  }

  // The first D present shards decide an encoding; its first k columns are those of any encoding with the
  // same first k columns there.
  lemma HeadDecided(enc: RS.ReedSolomon, U: Mat, V: Mat, before: Mat, k: nat, w: nat)
    requires enc.parityShards > 0 && Recoverable(enc.m, enc.dataShards, enc.shards) && k <= w
    requires |before| == enc.shards &&
      RS.ReedSolomon.Present(RS.ReedSolomon.Lengths(before), enc.shards) >= enc.dataShards
    requires Codeword(enc.m, enc.dataShards, U, w) && enc.Leads(U, before) && Codeword(enc.m, enc.dataShards, V, k) &&
      |V| == enc.shards
    requires forall i :: 0 <= i < |before| && |before[i]| != 0 ==> |before[i]| == w && before[i][..k] == V[i]
    ensures |U| == enc.shards && forall i :: 0 <= i < enc.shards ==> |U[i]| == w && U[i][..k] == V[i]
  {
    hide Recoverable, Codeword, RS.ReedSolomon.Present, RS.ReedSolomon.Chosen;
    CodewordShape(enc.m, enc.dataShards, U, w);
    AllCols(U, w);
    CodewordBlocks(enc, U, k, w - k);
    var valid := RS.ReedSolomon.Chosen(RS.ReedSolomon.Lengths(before), enc.shards, enc.dataShards);
    var H := Cols(U, 0, k);
    forall j | 0 <= j < enc.dataShards
      ensures H[valid[j]] == V[valid[j]]
    {
      assert U[valid[j]] == before[valid[j]];
      assert H[valid[j]] == U[valid[j]][0..k];
    }
    AgreeingCodewords(enc.m, enc.dataShards, enc.shards, valid, H, V, k);
    forall i | 0 <= i < enc.shards
      ensures U[i][..k] == V[i]
    {
      assert H[i] == U[i][0..k];
    }
  }

  lemma CodewordShape(m: Mat, data: nat, V: Mat, w: nat)
    requires Codeword(m, data, V, w)
    ensures IsMat(V, |V|, w)
  {}

  // The rebuilt block, given the encoding U that reconstruct used.
  lemma BlockRight(enc: RS.ReedSolomon, fill: seq<Writer?>, U: Mat, before: Mat, after: Mat, wanted: nat,
                   s: seq<Option<Source>>, b: nat, w: nat)
    requires enc.parityShards > 0 && Recoverable(enc.m, enc.dataShards, enc.shards)
    requires |before| == |after| == |s| == |fill| == enc.shards
    requires RS.ReedSolomon.Present(RS.ReedSolomon.Lengths(before), enc.shards) >= enc.dataShards
    requires forall i :: 0 <= i < |s| ==>
      |before[i]| == (if s[i].Some? then w else 0) && SameHead(before[i], Got(s[i], b))
    requires Codeword(enc.m, enc.dataShards, U, w) && enc.Leads(U, before) && enc.Filled(U, before, after, wanted)
    requires forall i :: 0 <= i < |fill| && fill[i] != null ==> s[i].None? && i < wanted && |after[i]| == w
    ensures HeadsRight(enc, fill, after, s, b, w)
  {
    hide Recoverable, Codeword, Got;
    forall V: Mat, k: nat | BlockEncodes(enc, V, s, b, k) && k <= w
      ensures forall i :: 0 <= i < |fill| && fill[i] != null ==> after[i][..k] == V[i]
    {
      forall i | 0 <= i < |before| && |before[i]| != 0
        ensures before[i][..k] == V[i]
      {
        assert s[i].Some?;
      }
      HeadDecided(enc, U, V, before, k, w);
    }
  }

  // Rebuilds the missing shards of the block that was read.
  method RebuildBlock(enc: RS.ReedSolomon, all: array<Shard>, valid: seq<Reader?>, fill: seq<Writer?>, b: nat,
                      dataOnly: bool, ghost s: seq<Option<Source>>)
    returns (size: nat, err: Option<Error>)
    requires ReadyAll(enc, all, valid, fill) && |s| == enc.shards && Asked(valid, fill, enc.dataShards, dataOnly) &&
      b > 0
    requires forall i :: 0 <= i < |s| ==>
      Bytes(all[i]) == Got(s[i], b) && (s[i].Some? <==> valid[i] != null) && (s[i].Some? ==> |Got(s[i], b)| > 0)
    modifies all, enc.Repr()
    ensures ReadyAll(enc, all, valid, fill) && fresh(enc.Repr() - old(enc.Repr()))
    ensures forall i :: 0 <= i < all.Length ==> all[i] == old(all[i]) || fresh(all[i])
    ensures size == BlockSize(s, b)
    ensures err == None ==> size > 0 && Given(s, |s|) >= enc.dataShards
    ensures err != None ==> enc.Breaks(err) || Given(s, |s|) < enc.dataShards
    ensures err != None ==> Blamed(err.value, [], [])
    ensures err == None ==> forall i :: 0 <= i < |s| && (valid[i] != null || fill[i] != null) ==> all[i].Length == size
    ensures err == None ==> HeadsRight(enc, fill, Values(all), s, b, size)
  {
    hide Comb, Got, Recoverable, CacheOk, Codeword, SizeOf, Check, Given, SameHead, Stocked, Fragile, BlockSize,
      HeadsRight, First;
    size := TrimBlock(enc, all, b, s);
    err := RebuildTrimmed(enc, all, valid, fill, b, dataOnly, s, size);
  }

  // The block has been cut to one size.
  method RebuildTrimmed(enc: RS.ReedSolomon, all: array<Shard>, valid: seq<Reader?>, fill: seq<Writer?>, b: nat,
                        dataOnly: bool,
                        ghost s: seq<Option<Source>>, ghost size: nat) returns (err: Option<Error>)
    requires enc.Valid() && Apart(all) && enc.Outside(all) && all.Length == |s| == |valid| == enc.shards &&
      Asked(valid, fill, enc.dataShards, dataOnly)
    requires forall i :: 0 <= i < |s| ==> (s[i].Some? <==> valid[i] != null)
    requires First(s) < |s| ==> size > 0
    requires forall i :: 0 <= i < all.Length ==>
      Len(all[i]) == (if s[i].Some? then size else 0) && SameHead(Bytes(all[i]), Got(s[i], b))
    modifies all, enc.Repr()
    ensures enc.Valid() && Apart(all) && enc.Outside(all) && fresh(enc.Repr() - old(enc.Repr()))
    ensures forall i :: 0 <= i < all.Length ==> all[i] == old(all[i]) || fresh(all[i])
    ensures err == None ==> size > 0 && Given(s, |s|) >= enc.dataShards
    ensures err != None ==> enc.Breaks(err) || Given(s, |s|) < enc.dataShards
    ensures err != None ==> Blamed(err.value, [], [])
    ensures err == None ==> forall i :: 0 <= i < |s| && (valid[i] != null || fill[i] != null) ==> Len(all[i]) == size
    ensures err == None ==> HeadsRight(enc, fill, Values(all), s, b, size)
  {
    hide Comb, Got, Recoverable, CacheOk, Codeword, SizeOf, Check, Given, SameHead, Stocked, Fragile, HeadsRight, First;
    ghost var lens, before := Lens(all[..]), Values(all);
    LensAre(all, lens);
    TrimmedVerdict(enc, s, lens, size, dataOnly);
    assert RS.ReedSolomon.Lengths(before) == lens;
    enc.AnswerIs(lens, dataOnly);
    ghost var U;
    err, U := enc.Reconstruct(all, dataOnly);
    if err == None {
      AskedMissing(enc, valid, fill, dataOnly, s);
      forall i | 0 <= i < |s| && (valid[i] != null || fill[i] != null)
        ensures Len(all[i]) == size
      {}
      HeadsOf(enc, valid, fill, dataOnly, lens, U, before, Values(all), s, b, size);
    }
  }

  lemma HeadsOf(enc: RS.ReedSolomon, valid: seq<Reader?>, fill: seq<Writer?>, dataOnly: bool, lens: seq<nat>, U: Mat,
                before: Mat, after: Mat,
                s: seq<Option<Source>>, b: nat, w: nat)
    requires enc.shards == enc.dataShards + enc.parityShards &&
      (enc.parityShards > 0 ==> Recoverable(enc.m, enc.dataShards, enc.shards))
    requires |lens| == |before| == |after| == |s| == |valid| == |fill| == enc.shards &&
      Asked(valid, fill, enc.dataShards, dataOnly)
    requires lens == RS.ReedSolomon.Lengths(before) && RS.ReedSolomon.Present(lens, enc.shards) >= enc.dataShards &&
      w > 0
    requires forall i :: 0 <= i < |s| ==> (s[i].Some? <==> valid[i] != null)
    requires forall i :: 0 <= i < |s| ==>
      |before[i]| == (if s[i].Some? then w else 0) && SameHead(before[i], Got(s[i], b))
    requires !enc.Nothing(lens, dataOnly) ==>
      Codeword(enc.m, enc.dataShards, U, w) && enc.Leads(U, before) &&
      enc.Filled(U, before, after, enc.Wanted(dataOnly))
    requires forall i :: 0 <= i < |fill| && fill[i] != null ==> |after[i]| == w
    ensures HeadsRight(enc, fill, after, s, b, w)
  {
    hide Recoverable, Codeword, Got, SameHead, HeadsRight, Asked, RS.ReedSolomon.Present;
    forall i | 0 <= i < |s|
      ensures lens[i] != 0 <==> valid[i] != null
    {
      assert lens[i] == |before[i]|;
    }
    hide RS.ReedSolomon.Lengths;
    if enc.Nothing(lens, dataOnly) {
      NothingAsked(enc, valid, fill, lens, dataOnly);
      NoHeads(enc, fill, after, s, b, w);
    } else {
      AskedMissing(enc, valid, fill, dataOnly, s);
      RebuiltHeads(enc, fill, U, before, after, enc.Wanted(dataOnly), s, b, w);
    }
  }

  lemma AskedMissing(enc: RS.ReedSolomon, valid: seq<Reader?>, fill: seq<Writer?>, dataOnly: bool,
                     s: seq<Option<Source>>)
    requires |valid| == |s| == enc.shards && Asked(valid, fill, enc.dataShards, dataOnly)
    requires forall i :: 0 <= i < |s| ==> (s[i].Some? <==> valid[i] != null)
    ensures forall i :: 0 <= i < |fill| && fill[i] != null ==> s[i].None? && i < enc.Wanted(dataOnly)
  {}

  lemma LensAre(all: array<Shard>, lens: seq<nat>)
    requires lens == Lens(all[..])
    ensures forall i :: 0 <= i < all.Length ==> lens[i] == Len(all[i]) == |Values(all)[i]|
  {
    forall i | 0 <= i < all.Length
      ensures lens[i] == Len(all[i])
    {
      assert lens[i] == Len(all[..][i]);
    }
  }

  // With nothing to rebuild nothing was asked for.
  lemma NothingAsked(enc: RS.ReedSolomon, valid: seq<Reader?>, fill: seq<Writer?>, lens: seq<nat>, dataOnly: bool)
    requires |lens| == |valid| == enc.shards && Asked(valid, fill, enc.dataShards, dataOnly) &&
      enc.Nothing(lens, dataOnly)
    requires forall i :: 0 <= i < |lens| ==> (lens[i] != 0 <==> valid[i] != null)
    ensures forall i :: 0 <= i < |fill| ==> fill[i] == null
  {
    if RS.ReedSolomon.Present(lens, |lens|) == enc.shards {
      RS.ReedSolomon.AllPresent(lens, enc.shards);
    } else {
      RS.ReedSolomon.AllPresent(lens, enc.dataShards);
    }
  }

  lemma NoHeads(enc: RS.ReedSolomon, fill: seq<Writer?>, block: Mat, s: seq<Option<Source>>, b: nat, w: nat)
    requires |block| == |fill| == |s| && forall i :: 0 <= i < |fill| ==> fill[i] == null
    ensures HeadsRight(enc, fill, block, s, b, w)
  {}

  lemma RebuiltHeads(enc: RS.ReedSolomon, fill: seq<Writer?>, U: Mat, before: Mat, after: Mat, wanted: nat,
                     s: seq<Option<Source>>, b: nat, w: nat)
    requires enc.shards == enc.dataShards + enc.parityShards &&
      (enc.parityShards > 0 ==> Recoverable(enc.m, enc.dataShards, enc.shards))
    requires |before| == |after| == |s| == |fill| == enc.shards
    requires RS.ReedSolomon.Present(RS.ReedSolomon.Lengths(before), enc.shards) >= enc.dataShards
    requires forall i :: 0 <= i < |s| ==>
      |before[i]| == (if s[i].Some? then w else 0) && SameHead(before[i], Got(s[i], b))
    requires Codeword(enc.m, enc.dataShards, U, w) && enc.Leads(U, before) && enc.Filled(U, before, after, wanted)
    requires forall i :: 0 <= i < |fill| && fill[i] != null ==> s[i].None? && i < wanted && |after[i]| == w
    ensures HeadsRight(enc, fill, after, s, b, w)
  {
    hide Recoverable, Codeword, Got, SameHead;
    if enc.parityShards > 0 {
      BlockRight(enc, fill, U, before, after, wanted, s, b, w);
    }
  }

  // The writers hold what they held, and their rows of `block`.
  ghost predicate Appended(fill: seq<Writer?>, held: Mat, rooms: seq<int>, block: Mat, w: nat)
    requires |held| == |rooms| == |fill| == |block|
    reads fill
  {
    forall i :: 0 <= i < |fill| && fill[i] != null ==>
      |block[i]| == w && fill[i].written == held[i] + block[i] && fill[i].room == rooms[i] - w
  }

  // Rebuilds the missing shards of the block and writes those that are asked for.
  method RebuildAndWrite(enc: RS.ReedSolomon, all: array<Shard>, valid: seq<Reader?>, fill: seq<Writer?>, b: nat,
                         dataOnly: bool,
                         ghost s: seq<Option<Source>>, ghost held: Mat, ghost rooms: seq<int>) returns (size: nat,
                           err: Option<Error>, ghost block: Mat)
    requires ReadyAll(enc, all, valid, fill) && |s| == enc.shards && Asked(valid, fill, enc.dataShards, dataOnly) &&
      b > 0 && Holding(fill, held, rooms)
    requires forall i :: 0 <= i < |s| ==>
      Bytes(all[i]) == Got(s[i], b) && (s[i].Some? <==> valid[i] != null) && (s[i].Some? ==> |Got(s[i], b)| > 0)
    modifies all, fill
    modifies enc.Repr()
    ensures ReadyAll(enc, all, valid, fill) && fresh(enc.Repr() - old(enc.Repr()))
    ensures forall i :: 0 <= i < all.Length ==> all[i] == old(all[i]) || fresh(all[i])
    ensures size == BlockSize(s, b)
    ensures err == None ==> size > 0 && Given(s, |s|) >= enc.dataShards
    ensures err == None ==> forall i :: 0 <= i < all.Length && valid[i] != null ==>
      all[i] != null && all[i].Length == size
    ensures err == None ==>
      |block| == |fill| && HeadsRight(enc, fill, block, s, b, size) && Appended(fill, held, rooms, block, size)
    ensures err != None ==> enc.Breaks(err) || Given(s, |s|) < enc.dataShards || !Fits(fill, rooms, size)
    ensures err != None ==> Blamed(err.value, [], fill)
  {
    hide Comb, Got, Recoverable, CacheOk, Codeword, SizeOf, Given, Stocked, Fragile, HeadsRight, BlockSize;
    size, err := RebuildBlock(enc, all, valid, fill, b, dataOnly, s);
    block := Values(all);
    if err != None {
      return;
    }
    err := WriteShards(fill, all, 0);
    assert HeadsRight(enc, fill, block, s, b, size);
  }

  // One turn of the loop of Reconstruct.
  method ReconstructBlock(enc: RS.ReedSolomon, all: array<Shard>, valid: seq<Reader?>, fill: seq<Writer?>, b: nat,
                          dataOnly: bool,
                          ghost s: seq<Option<Source>>, ghost held: Mat,
                            ghost rooms: seq<int>) returns (res: BlockOutcome, ghost block: Mat)
    requires ReadyAll(enc, all, valid, fill) && AllAre(valid, s) && Asked(valid, fill, enc.dataShards, dataOnly) &&
      Holding(fill, held, rooms)
    requires b > 0 && forall i :: 0 <= i < all.Length && valid[i] != null ==> all[i].Length == b
    modifies all, set i | 0 <= i < all.Length :: all[i], set i | 0 <= i < |valid| && valid[i] != null :: valid[i], fill
    modifies enc.Repr()
    ensures ReadyAll(enc, all, valid, fill) && fresh(enc.Repr() - old(enc.Repr()))
    ensures forall i :: 0 <= i < all.Length ==> all[i] == old(all[i]) || fresh(all[i])
    ensures res.More? ==> res.w == BlockSize(s, b) > 0 && AllAre(valid, Lefts(s, b)) && Given(s, |s|) >= enc.dataShards
    ensures res.More? ==> exists size: int :: size != 0 && EndTogether(s, |s|, b, size)
    ensures res.More? ==> forall i :: 0 <= i < all.Length && valid[i] != null ==>
      all[i] != null && all[i].Length == res.w
    ensures res.More? ==>
      |block| == |fill| && HeadsRight(enc, fill, block, s, b, res.w) && Appended(fill, held, rooms, block, res.w)
    ensures res == Finished <==> EndTogether(s, |s|, b, 0)
    ensures res == Finished ==> Holding(fill, held, rooms)
    ensures res.Stopped? ==>
      enc.Breaks(Some(res.error)) || Clash(s, b) || Given(s, |s|) < enc.dataShards ||
      !Fits(fill, rooms, BlockSize(s, b))
    ensures res.Stopped? ==> Blamed(res.error, s, fill)
  {
    hide Comb, Got, Left, Clash, EndTogether, Recoverable, CacheOk, Codeword, SizeOf, Given, Stocked, Fragile,
      HeadsRight, BlockSize;
    block := [];
    var read := ReadShards(all, valid, b, enc.Repr(), s);
    match read {
      case Eof => return Finished, block;
      case Failed(e) => return Stopped(e), block;
      case Fine =>
    }
    SomethingRead(s, b);
    var size, err;
    size, err, block := RebuildAndWrite(enc, all, valid, fill, b, dataOnly, s, held, rooms);
    match err {
      case Some(e) => return Stopped(e), block;
      case None => return More(size), block;
    }
  }

  lemma SomethingRead(s: seq<Option<Source>>, b: nat)
    requires b > 0 && exists size: int :: size != 0 && EndTogether(s, |s|, b, size)
    ensures forall i :: 0 <= i < |s| && s[i].Some? ==> |Got(s[i], b)| > 0
  {
    var size: int :| size != 0 && EndTogether(s, |s|, b, size);
    forall i | 0 <= i < |s| && s[i].Some?
      ensures |Got(s[i], b)| > 0
    {
      if EndsIn(s[i], b) {
        assert |s[i].value.rest| == size;
      }
    }
  }

  // ---- which streams Reconstruct accepts ----

  // How many bytes come out when the shortest streams have m bytes and end in the block behind `base`: theirs, if
  // the first stream is one of them; else the block is stretched to its full size.
  function OutSize(s: seq<Option<Source>>, bs: nat, base: nat, m: nat): nat {
    if m == base || (First(s) < |s| && |s[First(s)].value.rest| == m) then m else base + bs
  }

  // The shortest streams have m bytes, end in the block behind `base`, and do not fail; the others have that
  // block in full.
  ghost predicate ShortestAt(s: seq<Option<Source>>, bs: nat, base: nat, m: nat)
    requires bs > 0
  {
    && Multiple(base, bs) && base <= m < base + bs && m > 0
    && (exists i :: 0 <= i < |s| && s[i].Some? && |s[i].value.rest| == m)
    && forall i :: 0 <= i < |s| && s[i].Some? ==>
      (|s[i].value.rest| == m && !s[i].value.broken) || |s[i].value.rest| >= base + bs
  }

  /** The streams Reconstruct accepts with blocks of bs bytes, writing n bytes to each writer.  After a short block
      the buffers are n - base bytes long, and every other stream must end there or fill another buffer. */
  ghost predicate RebuildsAt(s: seq<Option<Source>>, bs: nat, base: nat, m: nat, n: nat)
    requires bs > 0
  {
    && ShortestAt(s, bs, base, m) && n == OutSize(s, bs, base, m)
    && (m > base ==> forall i :: 0 <= i < |s| && s[i].Some? && |s[i].value.rest| != m ==>
          (|s[i].value.rest| == base + bs && !s[i].value.broken) || |s[i].value.rest| >= bs + n)
  }

  ghost predicate Rebuilds(s: seq<Option<Source>>, bs: nat, n: nat)
    requires bs > 0
  {
    exists base: nat, m: nat :: RebuildsAt(s, bs, base, m, n)
  }

  // The streams that are there have n bytes each and do not fail.
  predicate SameLength(s: seq<Option<Source>>, n: nat) {
    n > 0 && forall i :: 0 <= i < |s| && s[i].Some? ==> |s[i].value.rest| == n && !s[i].value.broken
  }

  lemma {:induction false} BlockOf(m: nat, bs: nat) returns (base: nat)
    requires bs > 0
    ensures Multiple(base, bs) && base <= m < base + bs
  {
    if m < bs {
      base := 0;
    } else {
      base := BlockOf(m - bs, bs);
      base := base + bs;
    }
  }

  /** Streams of one length are accepted whatever the block size, and as a whole. */
  lemma EqualRebuilds(s: seq<Option<Source>>, bs: nat, n: nat)
    requires bs > 0 && SameLength(s, n) && First(s) < |s|
    ensures Rebuilds(s, bs, n)
  {
    var base := BlockOf(n, bs);
    assert |s[First(s)].value.rest| == n;
    assert RebuildsAt(s, bs, base, n, n);
  }

  /** What comes out is as long as every stream that went in exactly if these are of one length. */
  lemma WholeExactly(s: seq<Option<Source>>, bs: nat, n: nat)
    requires bs > 0 && Rebuilds(s, bs, n)
    ensures SameLength(s, n) <==>
      forall i, k :: 0 <= i < |s| && 0 <= k < |s| && s[i].Some? && s[k].Some? ==> |s[i].value.rest| == |s[k].value.rest|
  {
    var base: nat, m: nat :| RebuildsAt(s, bs, base, m, n);
    var j :| 0 <= j < |s| && s[j].Some? && |s[j].value.rest| == m;
    assert First(s) <= j;
    if forall i, k :: 0 <= i < |s| && 0 <= k < |s| && s[i].Some? && s[k].Some? ==>
      |s[i].value.rest| == |s[k].value.rest| {
      assert |s[First(s)].value.rest| == |s[j].value.rest|;
      forall i | 0 <= i < |s| && s[i].Some?
        ensures |s[i].value.rest| == n && !s[i].value.broken
      {
        assert |s[i].value.rest| == |s[j].value.rest|;
      }
    }
  }

  /** Otherwise it is cut off, as with three and four bytes, */
  lemma UnequalCut()
    ensures Rebuilds([Some(Source([1, 2, 3], false)), None, Some(Source([4, 5, 6, 7], false))], 4, 3)
  {
    var s := [Some(Source([1, 2, 3], false)), None, Some(Source([4, 5, 6, 7], false))];
    assert Multiple(0, 4) && First(s) == 0 && |s[0].value.rest| == 3;
    assert RebuildsAt(s, 4, 0, 3, 3);
  }

  /** or stretched, as with four and three bytes: four come out, although the last stream has only three. */
  lemma UnequalStretched()
    ensures Rebuilds([Some(Source([1, 2, 3, 4], false)), None, Some(Source([5, 6, 7], false))], 4, 4)
  {
    var s := [Some(Source([1, 2, 3, 4], false)), None, Some(Source([5, 6, 7], false))];
    assert Multiple(0, 4) && First(s) == 0 && |s[0].value.rest| == 4 && |s[2].value.rest| == 3;
    assert RebuildsAt(s, 4, 0, 3, 4);
  }

  /** The stretched byte is what the buffer held before, and it shows: with two data shards and one parity shard,
      another byte in the parity shard's place makes another byte of the missing data shard. */
  lemma StaleByteShows(m: Mat, U: Mat, V: Mat)
    requires Recoverable(m, 2, 3) && Codeword(m, 2, U, 1) && Codeword(m, 2, V, 1)
    requires U[0] == V[0] && U[2] != V[2]
    ensures U[1] != V[1]
  {
    hide Recoverable;
    if U[1] == V[1] {
      var valid: seq<nat> := [0, 1];
      AgreeingCodewords(m, 2, 3, valid, U, V, 1);
    }
  }

  // ---- the run of Reconstruct ----

  // V is an encoding that has the first k bytes of the streams that are there.
  ghost predicate PrefixEncodes(enc: RS.ReedSolomon, V: Mat, s: seq<Option<Source>>, k: nat) {
    && enc.parityShards > 0 && Codeword(enc.m, enc.dataShards, V, k) && |V| == |s|
    && forall i :: 0 <= i < |s| && s[i].Some? ==> k <= |s[i].value.rest| && V[i] == s[i].value.rest[..k]
  }

  // The bytes for the writers so far are those of every encoding that the streams belong to so far.
  ghost predicate RowsRight(enc: RS.ReedSolomon, fill: seq<Writer?>, outs: Mat, s: seq<Option<Source>>, n: nat) {
    && |outs| == |fill| == |s| && (forall i :: 0 <= i < |fill| && fill[i] != null ==> |outs[i]| == n)
    && forall V: Mat, k: nat :: PrefixEncodes(enc, V, s, k) && k <= n ==>
         forall i :: 0 <= i < |fill| && fill[i] != null ==> outs[i][..k] == V[i]
  }

  // Where the run is: at a block boundary with full buffers, or behind a short block.
  ghost predicate Whole(s: seq<Option<Source>>, bs: nat, read: nat, b: nat, cur: seq<Option<Source>>)
    requires bs > 0
  {
    b == bs && Multiple(read, bs) && Long(s, read) && cur == Dropped(s, read)
  }

  ghost predicate Short(s: seq<Option<Source>>, bs: nat, base: nat, m: nat, read: nat, b: nat, cur: seq<Option<Source>>)
    requires bs > 0
  {
    && base < m && ShortestAt(s, bs, base, m) && read == OutSize(s, bs, base, m) && b == read - base
    && Alike(s, cur) && forall i :: 0 <= i < |s| && s[i].Some? ==>
         |cur[i].value.rest| == if |s[i].value.rest| == m then 0 else |s[i].value.rest| - base - bs
  }

  // The same readers.
  ghost predicate Alike(s: seq<Option<Source>>, cur: seq<Option<Source>>) {
    |s| == |cur| && forall i :: 0 <= i < |s| ==>
      (s[i].Some? <==> cur[i].Some?) && (s[i].Some? ==> cur[i].value.broken == s[i].value.broken)
  }

  lemma DroppedLens(s: seq<Option<Source>>, n: nat)
    requires Long(s, n)
    ensures Alike(s, Dropped(s, n)) && First(Dropped(s, n)) == First(s)
    ensures forall i :: 0 <= i < |s| && s[i].Some? ==> |Dropped(s, n)[i].value.rest| == |s[i].value.rest| - n
  {
    var f, g := First(s), First(Dropped(s, n));
    assert f < |s| ==> Dropped(s, n)[f].Some?;
    assert g < |s| ==> s[g].Some?;
  }

  lemma LeftLens(s: seq<Option<Source>>, b: nat)
    ensures Alike(s, Lefts(s, b))
    ensures forall i :: 0 <= i < |s| && s[i].Some? ==>
      |Lefts(s, b)[i].value.rest| == if |s[i].value.rest| < b then 0 else |s[i].value.rest| - b
  {}

  ghost predicate Located(s: seq<Option<Source>>, bs: nat, read: nat, b: nat, cur: seq<Option<Source>>)
    requires bs > 0
  {
    Whole(s, bs, read, b, cur) || exists base: nat, m: nat :: Short(s, bs, base, m, read, b, cur)
  }

  // Coming to the end means that the streams are accepted.
  lemma EndAccepted(s: seq<Option<Source>>, bs: nat, read: nat, b: nat, cur: seq<Option<Source>>)
    requires bs > 0 && read > 0 && Located(s, bs, read, b, cur) && |cur| == |s| && EndTogether(cur, |s|, b, 0)
    ensures Rebuilds(s, bs, read)
  {
    hide RebuildsAt, Whole, Short, EndTogether;
    if Whole(s, bs, read, b, cur) {
      WholeEnd(s, bs, read, b, cur);
    } else {
      var base: nat, m: nat :| Short(s, bs, base, m, read, b, cur);
      ShortEnd(s, bs, base, m, read, b, cur);
    }
  }

  lemma WholeEnd(s: seq<Option<Source>>, bs: nat, read: nat, b: nat, cur: seq<Option<Source>>)
    requires bs > 0 && read > 0 && Whole(s, bs, read, b, cur) && |cur| == |s| && EndTogether(cur, |s|, b, 0)
    ensures RebuildsAt(s, bs, read, read, read)
  {
    hide Dropped;
    DroppedLens(s, read);
    var k :| 0 <= k < |s| && EndsIn(cur[k], b);
    assert |s[k].value.rest| == read;
    forall i | 0 <= i < |s| && s[i].Some?
      ensures (|s[i].value.rest| == read && !s[i].value.broken) || |s[i].value.rest| >= read + bs
    {
      assert EndsIn(cur[i], b) <==> |s[i].value.rest| < read + bs;
    }
  }

  lemma ShortEnd(s: seq<Option<Source>>, bs: nat, base: nat, m: nat, read: nat, b: nat, cur: seq<Option<Source>>)
    requires bs > 0 && Short(s, bs, base, m, read, b, cur) && EndTogether(cur, |s|, b, 0)
    ensures RebuildsAt(s, bs, base, m, read)
  {
    hide OutSize, Multiple;
    forall i | 0 <= i < |s| && s[i].Some? && |s[i].value.rest| != m
      ensures (|s[i].value.rest| == base + bs && !s[i].value.broken) || |s[i].value.rest| >= bs + read
    {
      assert EndsIn(cur[i], b) <==> |s[i].value.rest| < bs + read;
    }
  }

  // A turn that goes on: from a block boundary only.
  lemma GoesOn(s: seq<Option<Source>>, bs: nat, read: nat, b: nat, cur: seq<Option<Source>>)
    requires bs > 0 && Located(s, bs, read, b, cur) && |cur| == |s| && First(s) < |s|
    requires exists size: int :: size != 0 && EndTogether(cur, |s|, b, size)
    ensures Whole(s, bs, read, b, cur) && Located(s, bs, read + BlockSize(cur, b), BlockSize(cur, b), Lefts(cur, b))
  {
    hide Whole, Short, EndTogether, BlockSize, First, Lefts;
    var size: int :| size != 0 && EndTogether(cur, |s|, b, size);
    if !Whole(s, bs, read, b, cur) {
      var base: nat, m: nat :| Short(s, bs, base, m, read, b, cur);
      NoMore(s, bs, base, m, read, b, cur, size);
    } else {
      NextPlace(s, bs, read, b, cur, size);
    }
  }

  lemma NextPlace(s: seq<Option<Source>>, bs: nat, read: nat, b: nat, cur: seq<Option<Source>>, size: int)
    requires bs > 0 && Whole(s, bs, read, b, cur) && |cur| == |s| && First(s) < |s| && size != 0 &&
      EndTogether(cur, |s|, b, size)
    ensures b == bs
    ensures if size < 0 then Whole(s, bs, read + BlockSize(cur, b), BlockSize(cur, b), Lefts(cur, b))
            else Short(s, bs, read, read + size, read + BlockSize(cur, b), BlockSize(cur, b), Lefts(cur, b))
  {
    hide Short, EndTogether, BlockSize, First, Lefts, Dropped, Long, Multiple;
    if size < 0 {
      FullBlock(s, bs, read, cur, size);
    } else {
      ShortBlock(s, bs, read, cur, size);
    }
  }

  // Behind a short block some stream is at its end.
  lemma NoMore(s: seq<Option<Source>>, bs: nat, base: nat, m: nat, read: nat, b: nat, cur: seq<Option<Source>>,
               size: int)
    requires bs > 0 && Short(s, bs, base, m, read, b, cur) && size != 0
    ensures !EndTogether(cur, |s|, b, size)
  {
    var k :| 0 <= k < |s| && s[k].Some? && |s[k].value.rest| == m;
    assert |cur[k].value.rest| == 0;
    assert EndsIn(cur[k], b);
  }

  // No stream ends in the block.
  lemma FullBlock(s: seq<Option<Source>>, bs: nat, read: nat, cur: seq<Option<Source>>, size: int)
    requires bs > 0 && Whole(s, bs, read, bs, cur) && |cur| == |s| && First(s) < |s| && size < 0 &&
      EndTogether(cur, |s|, bs, size)
    ensures BlockSize(cur, bs) == bs && Whole(s, bs, read + bs, bs, Lefts(cur, bs))
  {
    DroppedLens(s, read);
    forall i | 0 <= i < |s| && s[i].Some?
      ensures |s[i].value.rest| >= read + bs
    {
      assert !EndsIn(cur[i], bs);
    }
    forall i | 0 <= i < |s|
      ensures Lefts(cur, bs)[i] == Dropped(s, read + bs)[i]
    {
      if s[i].Some? {
        assert s[i].value.rest[read..][bs..] == s[i].value.rest[read + bs..];
      }
    }
  }

  // Some streams end in the block, all at the same place.
  lemma ShortBlock(s: seq<Option<Source>>, bs: nat, read: nat, cur: seq<Option<Source>>, size: int)
    requires bs > 0 && Whole(s, bs, read, bs, cur) && |cur| == |s| && First(s) < |s| && size > 0 &&
      EndTogether(cur, |s|, bs, size)
    ensures Short(s, bs, read, read + size, read + BlockSize(cur, bs), BlockSize(cur, bs), Lefts(cur, bs))
  {
    DroppedLens(s, read);
    LeftLens(cur, bs);
    hide Dropped, Lefts, Left, Multiple, ShortestAt;
    ShortestHere(s, bs, read, cur, size);
    forall i | 0 <= i < |s| && s[i].Some?
      ensures |s[i].value.rest| == read + size <==> EndsIn(cur[i], bs)
    {}
  }

  lemma ShortestHere(s: seq<Option<Source>>, bs: nat, read: nat, cur: seq<Option<Source>>, size: int)
    requires bs > 0 && Whole(s, bs, read, bs, cur) && |cur| == |s| && size > 0 && EndTogether(cur, |s|, bs, size)
    ensures size < bs && ShortestAt(s, bs, read, read + size)
  {
    DroppedLens(s, read);
    hide Dropped, Multiple;
    var k :| 0 <= k < |s| && EndsIn(cur[k], bs);
    assert |s[k].value.rest| == read + size;
    forall i | 0 <= i < |s| && s[i].Some?
      ensures (|s[i].value.rest| == read + size && !s[i].value.broken) || |s[i].value.rest| >= read + bs
    {
      assert EndsIn(cur[i], bs) <==> |s[i].value.rest| < read + bs;
    }
  }

  // A run over streams that are accepted does not stop before it has written everything.
  lemma Continues(s: seq<Option<Source>>, bs: nat, read: nat, b: nat, cur: seq<Option<Source>>, n: nat)
    requires bs > 0 && Located(s, bs, read, b, cur) && |cur| == |s| && Rebuilds(s, bs, n)
    ensures !Clash(cur, b) && (EndTogether(cur, |s|, b, 0) || read + BlockSize(cur, b) <= n)
    ensures read == 0 ==> !EndTogether(cur, |s|, b, 0)
  {
    hide RebuildsAt, Whole, Short, Clash, EndTogether, BlockSize, ShortestAt;
    var base: nat, m: nat :| RebuildsAt(s, bs, base, m, n);
    if Whole(s, bs, read, b, cur) {
      WholeContinues(s, bs, read, b, cur, base, m, n);
    } else {
      var base', m' :| Short(s, bs, base', m', read, b, cur);
      SamePlace(s, bs, base, m, n, base', m', read, b, cur);
      ShortContinues(s, bs, base, m, read, b, cur, n);
    }
  }

  lemma SamePlace(s: seq<Option<Source>>, bs: nat, base: nat, m: nat, n: nat, base': nat, m': nat, read: nat, b: nat,
                  cur: seq<Option<Source>>)
    requires bs > 0 && RebuildsAt(s, bs, base, m, n) && Short(s, bs, base', m', read, b, cur)
    ensures base == base' && m == m'
  {
    hide ShortestAt;
    SameBlock(s, bs, base, m, base', m');
  }

  lemma SameBlock(s: seq<Option<Source>>, bs: nat, base: nat, m: nat, base': nat, m': nat)
    requires bs > 0 && ShortestAt(s, bs, base, m) && ShortestAt(s, bs, base', m')
    ensures base == base' && m == m'
  {
    var k :| 0 <= k < |s| && s[k].Some? && |s[k].value.rest| == m;
    var k' :| 0 <= k' < |s| && s[k'].Some? && |s[k'].value.rest| == m';
    if base < base' {
      SameMultiple(base', base, bs);
    } else if base' < base {
      SameMultiple(base, base', bs);
    }
  }

  lemma WholeContinues(s: seq<Option<Source>>, bs: nat, read: nat, b: nat, cur: seq<Option<Source>>, base: nat, m: nat,
                       n: nat)
    requires bs > 0 && Whole(s, bs, read, b, cur) && |cur| == |s| && RebuildsAt(s, bs, base, m, n)
    ensures !Clash(cur, b) && (EndTogether(cur, |s|, b, 0) || read + BlockSize(cur, b) <= n)
    ensures read == 0 ==> !EndTogether(cur, |s|, b, 0)
  {
    DroppedLens(s, read);
    hide Dropped;
    var k :| 0 <= k < |s| && s[k].Some? && |s[k].value.rest| == m;
    assert read <= m;
    if read > base {
      SameMultiple(read, base, bs);
    }
    if read < base {
      SameMultiple(base, read, bs);
      forall i | 0 <= i < |s|
        ensures !EndsIn(cur[i], bs)
      {}
    } else {
      assert EndsIn(cur[k], bs);
      forall i | 0 <= i < |s| && EndsIn(cur[i], bs)
        ensures |s[i].value.rest| == m && !s[i].value.broken
      {}
      assert EndTogether(cur, |s|, b, m - base);
      ClashOrNot(cur, bs, m - base);
    }
  }

  lemma ShortContinues(s: seq<Option<Source>>, bs: nat, base: nat, m: nat, read: nat, b: nat, cur: seq<Option<Source>>,
                       n: nat)
    requires bs > 0 && Short(s, bs, base, m, read, b, cur) && RebuildsAt(s, bs, base, m, n)
    ensures EndTogether(cur, |s|, b, 0) && !Clash(cur, b) && read > 0
  {
    var k :| 0 <= k < |s| && s[k].Some? && |s[k].value.rest| == m;
    assert |cur[k].value.rest| == 0 && EndsIn(cur[k], b);
    forall i | 0 <= i < |s| && EndsIn(cur[i], b)
      ensures !cur[i].value.broken && |cur[i].value.rest| == 0
    {
      assert |s[i].value.rest| != m ==> |s[i].value.rest| < bs + n;
    }
    ClashOrNot(cur, b, 0);
  }

  // A block of an encoding of the streams is an encoding of the block.
  lemma EncodesBlock(enc: RS.ReedSolomon, V: Mat, s: seq<Option<Source>>, k: nat, read: nat, bs: nat)
    requires bs > 0 && PrefixEncodes(enc, V, s, k) && Long(s, read) && read <= k <= read + bs
    ensures (forall i :: 0 <= i < |V| ==> |V[i]| == k) && PrefixEncodes(enc, Cols(V, 0, read), s, read)
    ensures BlockEncodes(enc, Cols(V, read, k), Dropped(s, read), bs, k - read)
  {
    hide Codeword;
    CodewordShape(enc.m, enc.dataShards, V, k);
    AllCols(V, k);
    CodewordBlocks(enc, V, read, k - read);
    var d, A, B := Dropped(s, read), Cols(V, 0, read), Cols(V, read, k);
    forall i | 0 <= i < |s| && s[i].Some?
      ensures A[i] == s[i].value.rest[..read]
      ensures k - read <= |Got(d[i], bs)| && B[i] == Got(d[i], bs)[..k - read]
    {
      assert A[i] == V[i][0..read] && B[i] == V[i][read..k];
      PrefixParts(s[i].value.rest, read, k);
    }
  }

  lemma PrefixParts(r: seq<byte>, read: nat, k: nat)
    requires read <= k <= |r|
    ensures r[..k][0..read] == r[..read] && r[..k][read..k] == r[read..][..k - read]
  {
    assert forall j :: 0 <= j < k - read ==> r[..k][read..k][j] == r[read + j] == r[read..][..k - read][j];
  }

  lemma PrefixShape(enc: RS.ReedSolomon, V: Mat, s: seq<Option<Source>>, k: nat)
    requires PrefixEncodes(enc, V, s, k)
    ensures |V| == |s|
  {}

  // Another block behind the rows so far.
  lemma RowsGrow(enc: RS.ReedSolomon, fill: seq<Writer?>, outs: Mat, block: Mat, more: Mat, s: seq<Option<Source>>,
                 read: nat, bs: nat, w: nat)
    requires bs > 0 && Long(s, read) && w <= bs && RowsRight(enc, fill, outs, s, read)
    requires HeadsRight(enc, fill, block, Dropped(s, read), bs, w)
    requires |more| == |fill| && forall i :: 0 <= i < |fill| && fill[i] != null ==> more[i] == outs[i] + block[i]
    ensures RowsRight(enc, fill, more, s, read + w)
  {
    hide PrefixEncodes, BlockEncodes, Dropped, Long;
    forall V: Mat, k: nat | PrefixEncodes(enc, V, s, k)
      ensures |V| == |s|
    {
      PrefixShape(enc, V, s, k);
    }
    forall V: Mat, k: nat | PrefixEncodes(enc, V, s, k) && k <= read + w
      ensures forall i :: 0 <= i < |fill| && fill[i] != null ==> more[i][..k] == V[i]
    {
      if k <= read {
        forall i | 0 <= i < |fill| && fill[i] != null
          ensures more[i][..k] == V[i]
        {
          assert more[i][..k] == outs[i][..k];
        }
      } else {
        EncodesBlock(enc, V, s, k, read, bs);
        forall i | 0 <= i < |fill| && fill[i] != null
          ensures more[i][..k] == V[i]
        {
          var A, B := Cols(V, 0, read), Cols(V, read, k);
          assert outs[i][..read] == A[i] && block[i][..k - read] == B[i];
          assert more[i][..k] == outs[i][..read] + block[i][..k - read];
          assert A[i] == V[i][0..read] && B[i] == V[i][read..k];
          assert V[i] == V[i][0..read] + V[i][read..k];
        }
      }
    }
  }

  // What holds before every turn of the loop of Reconstruct.
  ghost predicate Rebuilding(enc: RS.ReedSolomon, all: array<Shard>, valid: seq<Reader?>, fill: seq<Writer?>, bs: nat,
                             read: nat, b: nat,
                             s: seq<Option<Source>>, cur: seq<Option<Source>>, held: Mat, rooms: seq<int>, outs: Mat)
    requires bs > 0 && |held| == |rooms| == |fill| && |valid| == all.Length
    reads all, valid, fill
  {
    && b > 0 && AllAre(valid, cur) && |cur| == |s| == |fill| == |outs| && Located(s, bs, read, b, cur)
    && (forall i :: 0 <= i < |s| ==> (s[i].Some? <==> cur[i].Some?))
    && (forall i :: 0 <= i < all.Length && valid[i] != null ==> all[i] != null && all[i].Length == b)
    && RowsRight(enc, fill, outs, s, read) && Appended(fill, held, rooms, outs, read)
  }

  lemma {:induction false} SameGiven(s: seq<Option<Source>>, cur: seq<Option<Source>>, k: nat)
    requires k <= |s| == |cur| && forall i :: 0 <= i < |s| ==> (s[i].Some? <==> cur[i].Some?)
    ensures Given(cur, k) == Given(s, k) && (Given(s, k) > 0 ==> First(s) < |s|)
  {
    if k > 0 {
      SameGiven(s, cur, k - 1);
    }
  }

  // After a block was rebuilt and written, the next turn may begin.
  lemma RebuiltOn(enc: RS.ReedSolomon, all: array<Shard>, valid: seq<Reader?>, fill: seq<Writer?>, bs: nat, read: nat,
                  b: nat, w: nat,
                  s: seq<Option<Source>>, cur: seq<Option<Source>>, held: Mat, rooms: seq<int>, outs: Mat, mid: Mat,
                  rooms': seq<int>,
                  block: Mat, more: Mat)
    requires bs > 0 && |valid| == all.Length
    requires |held| == |rooms| == |mid| == |rooms'| == |fill| == |s| == |cur| == |outs| == |block| == |more|
    requires Located(s, bs, read, b, cur) && First(s) < |s| && w == BlockSize(cur, b) > 0 &&
      AllAre(valid, Lefts(cur, b))
    requires forall i :: 0 <= i < |s| ==> (s[i].Some? <==> cur[i].Some?)
    requires exists size: int :: size != 0 && EndTogether(cur, |cur|, b, size)
    requires forall i :: 0 <= i < all.Length && valid[i] != null ==> all[i] != null && all[i].Length == w
    requires RowsRight(enc, fill, outs, s, read) && HeadsRight(enc, fill, block, cur, b, w) &&
      Appended(fill, mid, rooms', block, w)
    requires forall i :: 0 <= i < |fill| && fill[i] != null ==>
      mid[i] == held[i] + outs[i] && rooms'[i] == rooms[i] - read
    requires forall i :: 0 <= i < |fill| ==> more[i] == outs[i] + block[i]
    ensures Rebuilding(enc, all, valid, fill, bs, read + w, w, s, Lefts(cur, b), held, rooms, more)
  {
    hide EndTogether, RowsRight, HeadsRight, Located, BlockSize, Given, First;
    GoesOn(s, bs, read, b, cur);
    RowsGrow(enc, fill, outs, block, more, s, read, bs, w);
    forall i | 0 <= i < |fill| && fill[i] != null
      ensures |more[i]| == read + w && fill[i].written == held[i] + more[i]
    {
      RowSize(enc, fill, outs, s, read, i);
      assert held[i] + outs[i] + block[i] == held[i] + (outs[i] + block[i]);
    }
  }

  lemma RowSize(enc: RS.ReedSolomon, fill: seq<Writer?>, outs: Mat, s: seq<Option<Source>>, n: nat, i: nat)
    requires RowsRight(enc, fill, outs, s, n) && i < |fill| && fill[i] != null
    ensures |outs[i]| == n
  {}

  // Everything a run may change.
  ghost predicate Covers(frame: set<object>, enc: RS.ReedSolomon, all: array<Shard>, valid: seq<Reader?>,
                         fill: seq<Writer?>)
    reads all, enc.Repr(), enc.tree, if enc.tree == null then {} else {enc.tree.root}
  {
    && enc.Repr() <= frame && all in frame && (forall i :: 0 <= i < all.Length && all[i] != null ==> all[i] in frame)
    && (forall i :: 0 <= i < |valid| && valid[i] != null ==> valid[i] in frame)
    && (forall i :: 0 <= i < |fill| && fill[i] != null ==> fill[i] in frame)
  }

  // What the predicate says, for use where it is hidden.
  lemma RebuildingSoFar(enc: RS.ReedSolomon, all: array<Shard>, valid: seq<Reader?>, fill: seq<Writer?>, bs: nat,
                        read: nat, b: nat,
                        s: seq<Option<Source>>, cur: seq<Option<Source>>, held: Mat, rooms: seq<int>, outs: Mat)
    requires bs > 0 && |held| == |rooms| == |fill| && |valid| == all.Length
    requires Rebuilding(enc, all, valid, fill, bs, read, b, s, cur, held, rooms, outs)
    ensures b > 0 && AllAre(valid, cur) && |cur| == |s| == |fill| == |outs| && Located(s, bs, read, b, cur)
    ensures forall i :: 0 <= i < |s| ==> (s[i].Some? <==> cur[i].Some?)
    ensures forall i :: 0 <= i < all.Length && valid[i] != null ==> all[i] != null && all[i].Length == b
    ensures RowsRight(enc, fill, outs, s, read) && Holding(fill, WrittenOf(fill), RoomOf(fill))
    ensures forall i :: 0 <= i < |fill| && fill[i] != null ==>
      WrittenOf(fill)[i] == held[i] + outs[i] && RoomOf(fill)[i] == rooms[i] - read
  {}

  // A run that stops: it is none that should have succeeded.
  lemma StopsRightly(s: seq<Option<Source>>, bs: nat, read: nat, b: nat, cur: seq<Option<Source>>, fill: seq<Writer?>,
                     rooms: seq<int>,
                     rooms': seq<int>, data: nat, n: nat)
    requires bs > 0 && Located(s, bs, read, b, cur) && |cur| == |s| && Rebuilds(s, bs, n) &&
      |rooms| == |rooms'| == |fill|
    requires forall i :: 0 <= i < |s| ==> (s[i].Some? <==> cur[i].Some?)
    requires forall i :: 0 <= i < |fill| && fill[i] != null ==> rooms'[i] == rooms[i] - read
    requires !EndTogether(cur, |cur|, b, 0)
    requires Clash(cur, b) || Given(cur, |cur|) < data || !Fits(fill, rooms', BlockSize(cur, b))
    ensures Given(s, |s|) < data || !Fits(fill, rooms, n)
  {
    hide Located, Rebuilds, Clash, EndTogether, BlockSize, Given;
    SameGiven(s, cur, |s|);
    Continues(s, bs, read, b, cur, n);
  }

  // One turn, in terms of the whole streams.
  method ReconstructTurn(enc: RS.ReedSolomon, all: array<Shard>, valid: seq<Reader?>, fill: seq<Writer?>, bs: nat,
                         read: nat, b: nat, dataOnly: bool,
                         ghost s: seq<Option<Source>>, ghost cur: seq<Option<Source>>, ghost held: Mat,
                           ghost rooms: seq<int>, ghost outs: Mat,
                         ghost frame: set<object>) returns (res: BlockOutcome, ghost more: Mat,
                           ghost frame': set<object>)
    requires ReadyAll(enc, all, valid, fill) && Asked(valid, fill, enc.dataShards, dataOnly) && bs > 0 &&
      enc.dataShards > 0
    requires Covers(frame, enc, all, valid, fill)
    requires |held| == |rooms| == |fill| == |s| == |valid| == all.Length
    requires Rebuilding(enc, all, valid, fill, bs, read, b, s, cur, held, rooms, outs)
    modifies frame
    ensures ReadyAll(enc, all, valid, fill) && Covers(frame', enc, all, valid, fill) && fresh(frame' - frame)
    ensures res.More? ==> Rebuilding(enc, all, valid, fill, bs, read + res.w, res.w, s, Lefts(cur, b), held, rooms,
      more)
    ensures res.More? ==>
      res.w > 0 && First(s) < |s| && Given(s, |s|) >= enc.dataShards && |cur| == |s| && cur[First(s)].Some? &&
      |Got(cur[First(s)], b)| > 0
    ensures res == Finished ==>
      more == outs && RowsRight(enc, fill, outs, s, read) && Appended(fill, held, rooms, outs, read)
    ensures |cur| == |s| && b > 0 && (res == Finished <==> EndTogether(cur, |s|, b, 0)) && Located(s, bs, read, b, cur)
    ensures res.Stopped? ==> enc.Breaks(Some(res.error)) || forall n: nat :: Rebuilds(s, bs, n) ==>
      Given(s, |s|) < enc.dataShards || !Fits(fill, rooms, n)
    ensures res.Stopped? ==> Blamed(res.error, cur, fill)
  {
    hide EndTogether, Clash, RowsRight, HeadsRight, Located, Rebuilds, AllAre, Appended, Rebuilding, Comb, Codeword,
      Got, Left, Lefts, Given,
      Fits, Asked, Holding, Recoverable, CacheOk, Stocked, Fragile, BlockSize, First;
    frame' := frame;
    RebuildingSoFar(enc, all, valid, fill, bs, read, b, s, cur, held, rooms, outs);
    ghost var mid, rooms', block := WrittenOf(fill), RoomOf(fill), [];
    res, block := ReconstructBlock(enc, all, valid, fill, b, dataOnly, cur, mid, rooms');
    frame' := frame + enc.Repr() + set i | 0 <= i < all.Length && all[i] != null :: all[i];
    StillCovered(frame, frame', enc, all, valid, fill);
    more := TurnEnds(enc, all, valid, fill, bs, read, b, s, cur, held, rooms, outs, mid, rooms', res, block);
  }

  // What a turn means for the whole streams.
  lemma TurnEnds(enc: RS.ReedSolomon, all: array<Shard>, valid: seq<Reader?>, fill: seq<Writer?>, bs: nat, read: nat,
                 b: nat,
                 s: seq<Option<Source>>, cur: seq<Option<Source>>, held: Mat, rooms: seq<int>, outs: Mat, mid: Mat,
                 rooms': seq<int>,
                 res: BlockOutcome, block: Mat) returns (more: Mat)
    requires bs > 0 && b > 0 && enc.dataShards > 0 && Located(s, bs, read, b, cur)
    requires |held| == |rooms| == |mid| == |rooms'| == |fill| == |s| == |cur| == |outs| == |valid| == all.Length
    requires forall i :: 0 <= i < |s| ==> (s[i].Some? <==> cur[i].Some?)
    requires RowsRight(enc, fill, outs, s, read)
    requires forall i :: 0 <= i < |fill| && fill[i] != null ==>
      mid[i] == held[i] + outs[i] && rooms'[i] == rooms[i] - read
    requires res.More? ==>
      res.w == BlockSize(cur, b) > 0 && AllAre(valid, Lefts(cur, b)) && Given(cur, |cur|) >= enc.dataShards
    requires res.More? ==> exists size: int :: size != 0 && EndTogether(cur, |cur|, b, size)
    requires res.More? ==> forall i :: 0 <= i < all.Length && valid[i] != null ==>
      all[i] != null && all[i].Length == res.w
    requires res.More? ==>
      |block| == |fill| && HeadsRight(enc, fill, block, cur, b, res.w) && Appended(fill, mid, rooms', block, res.w)
    requires res == Finished <==> EndTogether(cur, |cur|, b, 0)
    requires res == Finished ==> Holding(fill, mid, rooms')
    requires res.Stopped? ==>
      enc.Breaks(Some(res.error)) || Clash(cur, b) || Given(cur, |cur|) < enc.dataShards ||
      !Fits(fill, rooms', BlockSize(cur, b))
    ensures res.More? ==> Rebuilding(enc, all, valid, fill, bs, read + res.w, res.w, s, Lefts(cur, b), held, rooms,
      more)
    ensures res.More? ==>
      First(s) < |s| && Given(s, |s|) >= enc.dataShards && cur[First(s)].Some? && |Got(cur[First(s)], b)| > 0
    ensures res == Finished ==> more == outs && Appended(fill, held, rooms, outs, read)
    ensures res.Stopped? ==> enc.Breaks(Some(res.error)) || forall n: nat :: Rebuilds(s, bs, n) ==>
      Given(s, |s|) < enc.dataShards || !Fits(fill, rooms, n)
  {
    hide *;
    more := outs;
    match res {
      case More(w) =>
        SameGiven(s, cur, |s|);
        more := Joined(outs, block);
        FirstOf(s, cur, b);
        RebuiltOn(enc, all, valid, fill, bs, read, b, w, s, cur, held, rooms, outs, mid, rooms', block, more);
      case Finished =>
        StillThere(enc, fill, s, held, rooms, outs, read, mid, rooms');
      case Stopped(e) =>
        forall n: nat | Rebuilds(s, bs, n) && !enc.Breaks(Some(e))
          ensures Given(s, |s|) < enc.dataShards || !Fits(fill, rooms, n)
        {
          StopsRightly(s, bs, read, b, cur, fill, rooms, rooms', enc.dataShards, n);
        }
    }
  }

  ghost function Joined(outs: Mat, block: Mat): (r: Mat)
    requires |outs| == |block|
    ensures |r| == |outs| && forall i :: 0 <= i < |r| ==> r[i] == outs[i] + block[i]
  {
    seq(|outs|, i requires 0 <= i < |outs| => outs[i] + block[i])
  }

  lemma FirstOf(s: seq<Option<Source>>, cur: seq<Option<Source>>, b: nat)
    requires |s| == |cur| && (forall i :: 0 <= i < |s| ==> (s[i].Some? <==> cur[i].Some?)) && BlockSize(cur, b) > 0
    ensures First(s) < |s| && cur[First(s)].Some? && |Got(cur[First(s)], b)| > 0
  {
    var f, g := First(s), First(cur);
    assert f < |s| ==> cur[f].Some?;
    assert g < |cur| ==> s[g].Some?;
  }

  lemma StillThere(enc: RS.ReedSolomon, fill: seq<Writer?>, s: seq<Option<Source>>, held: Mat, rooms: seq<int>,
                   outs: Mat, read: nat, mid: Mat, rooms': seq<int>)
    requires |held| == |rooms| == |fill| == |outs| && RowsRight(enc, fill, outs, s, read) && Holding(fill, mid, rooms')
    requires forall i :: 0 <= i < |fill| && fill[i] != null ==>
      mid[i] == held[i] + outs[i] && rooms'[i] == rooms[i] - read
    ensures Appended(fill, held, rooms, outs, read)
  {}

  lemma StillCovered(frame: set<object>, frame': set<object>, enc: RS.ReedSolomon, all: array<Shard>,
                     valid: seq<Reader?>, fill: seq<Writer?>)
    requires frame' == frame + enc.Repr() + set i | 0 <= i < all.Length && all[i] != null :: all[i]
    requires all in frame && (forall i :: 0 <= i < |valid| && valid[i] != null ==> valid[i] in frame)
    requires forall i :: 0 <= i < |fill| && fill[i] != null ==> fill[i] in frame
    ensures Covers(frame', enc, all, valid, fill)
  {}

  method ReconstructLoop(enc: RS.ReedSolomon, all: array<Shard>, valid: seq<Reader?>, fill: seq<Writer?>, bs: nat,
                         dataOnly: bool,
                         ghost s: seq<Option<Source>>, ghost held: Mat, ghost rooms: seq<int>, ghost outs0: Mat,
                           ghost frame: set<object>)
    returns (err: Option<Error>, ghost n: nat, ghost outs: Mat, ghost now: set<object>)
    requires ReadyAll(enc, all, valid, fill) && Asked(valid, fill, enc.dataShards, dataOnly) && bs > 0 &&
      enc.dataShards > 0
    requires |held| == |rooms| == |fill| == |s| == |valid| == all.Length
    requires Rebuilding(enc, all, valid, fill, bs, 0, bs, s, s, held, rooms, outs0)
    requires Covers(frame, enc, all, valid, fill)
    modifies frame
    ensures ReadyAll(enc, all, valid, fill) && Covers(now, enc, all, valid, fill) && fresh(now - frame)
    ensures err == None ==> Rebuilds(s, bs, n) && Given(s, |s|) >= enc.dataShards
    ensures err == None ==> |outs| == |fill| && RowsRight(enc, fill, outs, s, n) && Appended(fill, held, rooms, outs, n)
    ensures forall k: nat :: Rebuilds(s, bs, k) && Given(s, |s|) >= enc.dataShards && Fits(fill, rooms, k) ==>
      err == None || enc.Breaks(err)
    ensures err != None ==> Blamed(err.value, s, fill)
  {
    hide *;
    var read, b := 0, bs;
    ghost var cur := s;
    now, outs, n := frame, outs0, 0;
    AlikeAtFirst(s);
    while true
      invariant ReadyAll(enc, all, valid, fill) && Covers(now, enc, all, valid, fill) && fresh(now - frame)
      invariant Rebuilding(enc, all, valid, fill, bs, read, b, s, cur, held, rooms, outs)
      invariant read > 0 ==> Given(s, |s|) >= enc.dataShards
      invariant Alike(s, cur)
      decreases Remaining(cur, First(s))
    {
      var res;
      ghost var more;
      res, more, now := ReconstructTurn(enc, all, valid, fill, bs, read, b, dataOnly, s, cur, held, rooms, outs, now);
      match res {
        case Finished =>
          if read == 0 {
            forall k: nat | Rebuilds(s, bs, k)
              ensures false
            {
              Continues(s, bs, read, b, cur, k);
            }
            NoDataBlamed(s, fill);
            return Some(ShardNoData), n, outs, now;
          }
          EndAccepted(s, bs, read, b, cur);
          OutsFit(enc, fill, outs, s, read);
          return None, read, outs, now;
        case Stopped(e) =>
          BlamedStill(e, s, cur, fill);
          return Some(e), n, outs, now;
        case More(w) =>
          LessRemains(cur, b, First(s));
          StillAlike(s, cur, b);
          cur, outs, read, b := Lefts(cur, b), more, read + w, w;
      }
    }
  }

  lemma OutsFit(enc: RS.ReedSolomon, fill: seq<Writer?>, outs: Mat, s: seq<Option<Source>>, n: nat)
    requires RowsRight(enc, fill, outs, s, n)
    ensures |outs| == |fill|
  {}

  lemma AlikeAtFirst(s: seq<Option<Source>>)
    ensures Alike(s, s)
  {}

  lemma BlamedStill(e: Error, s: seq<Option<Source>>, cur: seq<Option<Source>>, ws: seq<Writer?>)
    requires Alike(s, cur) && Blamed(e, cur, ws)
    ensures Blamed(e, s, ws)
  {}

  lemma StillAlike(s: seq<Option<Source>>, cur: seq<Option<Source>>, b: nat)
    requires Alike(s, cur)
    ensures Alike(s, Lefts(cur, b))
  {}

  function Remaining(s: seq<Option<Source>>, k: nat): nat {
    if k < |s| && s[k].Some? then |s[k].value.rest| else 0
  }

  lemma LessRemains(s: seq<Option<Source>>, b: nat, k: nat)
    requires k < |s| && s[k].Some? && |Got(s[k], b)| > 0
    ensures Remaining(Lefts(s, b), k) < Remaining(s, k)
  {}

  // Which parity shards are asked for; a shard that is both given and asked for is an error.
  method WhatToRebuild(valid: seq<Reader?>, fill: seq<Writer?>, dataShards: nat)
    returns (dataOnly: bool, err: Option<Error>)
    requires |valid| == |fill|
    ensures err == if exists i :: 0 <= i < |fill| && valid[i] != null && fill[i] != null then Some(ReconstructMismatch)
      else None
    ensures err == None ==> Asked(valid, fill, dataShards, dataOnly)
  {
    dataOnly := true;
    for i := 0 to |valid|
      invariant forall k :: 0 <= k < i ==> valid[k] == null || fill[k] == null
      invariant forall k :: 0 <= k < i && dataShards <= k && fill[k] != null ==> !dataOnly
    {
      if valid[i] != null && fill[i] != null {
        return dataOnly, Some(ReconstructMismatch);
      }
      if i >= dataShards && fill[i] != null {
        dataOnly := false;
      }
    }
    return dataOnly, None;
  }

  /** Reconstruct: given enough streams and room, it succeeds exactly on the streams it accepts, and writes n
      bytes to every writer.  As far as the streams are there, these are the rows of the encoding they belong
      to; all n bytes are if the streams have one length. */
  method Reconstruct(enc: RS.ReedSolomon, bs: nat, valid: seq<Reader?>, fill: seq<Writer?>)
    returns (err: Option<Error>, ghost n: nat, ghost outs: Mat)
    requires enc.Valid() && Detached(enc, valid, fill) && bs > 0 && DistinctReaders(valid) && DistinctWriters(fill)
    modifies set i | 0 <= i < |valid| && valid[i] != null :: valid[i], fill
    modifies enc.Repr()
    ensures enc.Valid()
    ensures |valid| != enc.shards || |fill| != enc.shards ==> err == Some(TooFewShards)
    ensures |valid| == |fill| == enc.shards && (exists i :: 0 <= i < |fill| && valid[i] != null && fill[i] != null) ==>
      err == Some(ReconstructMismatch)
    ensures |valid| == |fill| == enc.shards && (forall i :: 0 <= i < |fill| ==> valid[i] == null || fill[i] == null) ==>
      forall k: nat ::
        Rebuilds(old(Inputs(valid)), bs, k) && Given(old(Inputs(valid)), |valid|) >= enc.dataShards &&
        Fits(fill, old(RoomOf(fill)), k) ==>
        err == None || enc.Breaks(err)
    ensures err == None ==> Rebuilds(old(Inputs(valid)), bs, n) && Given(old(Inputs(valid)), |valid|) >= enc.dataShards
    ensures err == None ==> |outs| == |fill| && Appended(fill, old(WrittenOf(fill)), old(RoomOf(fill)), outs, n)
    ensures err == None ==> RowsRight(enc, fill, outs, old(Inputs(valid)), n)
    ensures err != None ==> Blamed(err.value, old(Inputs(valid)), fill)
  {
    hide Comb, Codeword, Recoverable, CacheOk, Given, Fits, Rebuilding, Asked, DistinctReaders, DistinctWriters, AllAre,
      Stocked, Fragile,
      Rebuilds, RowsRight, Appended;
    n, outs := 0, [];
    if |valid| != enc.shards {
      return Some(TooFewShards), n, outs;
    }
    if |fill| != enc.shards {
      return Some(TooFewShards), n, outs;
    }
    ghost var s := Inputs(valid);
    var all := CreateSlice(enc.shards, bs, enc.Repr());
    var reconDataOnly;
    reconDataOnly, err := WhatToRebuild(valid, fill, enc.dataShards);
    if err != None {
      return;
    }
    ghost var nothing := seq(|fill|, _ => []);
    RebuildingStarts(enc, all, valid, fill, bs, s, nothing);
    ghost var now, frame := {}, Frame(enc, all, valid, fill);
    err, n, outs, now := ReconstructLoop(enc, all, valid, fill, bs, reconDataOnly, s, WrittenOf(fill), RoomOf(fill),
      nothing, frame);
  }

  ghost function Frame(enc: RS.ReedSolomon, all: array<Shard>, valid: seq<Reader?>,
                       fill: seq<Writer?>): (r: set<object>)
    requires forall i :: 0 <= i < all.Length ==> all[i] != null
    reads all, enc.Repr(), enc.tree, if enc.tree == null then {} else {enc.tree.root}
    ensures Covers(r, enc, all, valid, fill)
  {
    enc.Repr() + (set i | 0 <= i < |valid| &&
      valid[i] != null :: valid[i] as object) + (set i | 0 <= i < |fill| && fill[i] != null :: fill[i] as object)
    + {all as object} + set i | 0 <= i < all.Length :: all[i] as object
  }

  lemma RebuildingStarts(enc: RS.ReedSolomon, all: array<Shard>, valid: seq<Reader?>, fill: seq<Writer?>, bs: nat,
                         s: seq<Option<Source>>, nothing: Mat)
    requires bs > 0 && |fill| == |valid| == all.Length && s == Inputs(valid)
    requires forall i :: 0 <= i < all.Length ==> all[i] != null && all[i].Length == bs
    requires |nothing| == |fill| && forall i :: 0 <= i < |nothing| ==> nothing[i] == []
    ensures Rebuilding(enc, all, valid, fill, bs, 0, bs, s, s, WrittenOf(fill), RoomOf(fill), nothing)
  {
    hide Codeword;
    Start(s, bs);
    forall V: Mat, k: nat | PrefixEncodes(enc, V, s, k) && k <= 0
      ensures forall i :: 0 <= i < |fill| && fill[i] != null ==> nothing[i][..k] == V[i]
    {
      CodewordShape(enc.m, enc.dataShards, V, k);
    }
  }
}
