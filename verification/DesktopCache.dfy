/** Reads through the desktop mount (desktop/scripts/cfs_mount.py): a cache of a fixed number of blocks,
    four fetched per miss. */
module DesktopCache {
  import opened Wrappers
  import opened BlockCache

  const READAHEAD: nat := 4
  const CACHE_BLOCKS: nat := 192

  // What the node does with the request for a block: it may fail, and an old one ignores the range.
  datatype Manner = Fails | Ranged | Whole

  class Mount {
    var cache: seq<Entry>

    ghost predicate Valid()
      reads this
    {
      Distinct(cache) && |cache| <= CACHE_BLOCKS
    }

    ghost predicate Right(files: string -> Bytes)
      reads this
    {
      forall e :: e in cache ==> e.payload == Block(files(e.key.0), e.key.1) && |e.payload| > 0
    }

    constructor ()
      ensures Valid() && cache == []
    {
      cache := [];
    }

    // An entry becomes the newest.
    method Put(key: Key, payload: Bytes)
      requires Distinct(cache)
      modifies this
      ensures Distinct(cache) && cache == Without(old(cache), key) + [Entry(key, payload)]
    {
      WithoutKeys(cache, key);
      cache := Without(cache, key) + [Entry(key, payload)];
    }

    /** _block: a block of the file, from the cache or with three more behind it from the node. */
    method BlockOf(file: string, blk: nat, size: nat, manner: Manner, content: Bytes, ghost files: string -> Bytes)
      returns (block: Option<Bytes>)
      requires Valid() && Right(files) && content == files(file) && size == |content| && blk * BLOCK < size
      modifies this
      ensures Valid() && Right(files)
      ensures block.Some? ==> block.value == Block(content, blk)
      ensures manner != Fails ==> block.Some?
      ensures Has(old(cache), (file, blk)) ==>
        block.Some? && cache == Without(old(cache), (file, blk)) + [Entry((file, blk), Block(content, blk))]
      ensures !Has(old(cache), (file, blk)) && manner == Fails ==> block == None && cache == old(cache)
      ensures !Has(old(cache), (file, blk)) && manner != Fails ==>
        cache == NewestOf(Filled(old(cache), file, content, blk, Ahead4(content, blk)), 192)
    {
      hide Ahead4, Filled, Without;
      var key := (file, blk);
      var hit := Find(cache, key);
      if hit < |cache| {
        var payload := cache[hit].payload;
        assert cache[hit] in cache;
        WithoutKeys(cache, key);
        WithoutSize(cache, key);
        Put(key, payload);
        return Some(payload);
      }
      var start := blk * BLOCK;
      var end := Min(size, (blk + READAHEAD) * BLOCK);
      if manner == Fails {
        return None;
      }
      var data := if manner == Whole then content[start..end] else Clip(content, start, end - start);
      assert data == content[start..end];
      StoreAhead(file, blk, data, size, content, files);
      ghost var filled := cache;
      while |cache| > CACHE_BLOCKS
        invariant Distinct(cache) && Right(files) && AtEnd(cache, key)
        invariant NewestOf(cache, CACHE_BLOCKS) == NewestOf(filled, CACHE_BLOCKS)
      {
        DropKeeps(cache, key);
        cache := cache[1..];
      }
      var i := Find(cache, key);
      block := Some(if i < |cache| then cache[i].payload else []);
    }

    // The blocks that came back, each as the newest.
    method StoreAhead(file: string, blk: nat, data: Bytes, size: nat, content: Bytes, ghost files: string -> Bytes)
      requires Distinct(cache) && Right(files) && content == files(file) && size == |content| && blk * BLOCK < size
      requires data == content[blk * BLOCK..Min(size, (blk + READAHEAD) * BLOCK)]
      modifies this
      ensures Distinct(cache) && Right(files) && AtEnd(cache, (file, blk))
      ensures cache == Filled(old(cache), file, content, blk, Ahead4(content, blk))
    {
      hide Clip, Block, Without, Fetched, AtEnd, Filled, Ahead4;
      var i := 0;
      NothingFilled(cache, file, content, blk);
      FetchedNext(file, content, blk, 0);
      while i < READAHEAD
        invariant i <= READAHEAD && Distinct(cache) && Right(files)
        invariant i <= |cache| && cache[|cache| - i..] == Fetched(file, content, blk, i)
        invariant i == 0 ==> |data| > 0
        invariant cache == Filled(old(cache), file, content, blk, i) && i <= Ahead4(content, blk)
      {
        var off := i * BLOCK;
        AheadAt(content, blk, i);
        if off >= |data| {
          break;
        }
        Ahead(content, blk, i, size);
        FilledNext(old(cache), file, content, blk, i);
        StoreOne(file, blk, i, Clip(data, off, BLOCK), content, files);
        i := i + 1;
      }
      AheadAt(content, blk, i);
      assert cache[|cache| - i..][0] == Fetched(file, content, blk, i)[0];
      NearEnd(cache, |cache| - i, (file, blk));
    }

    // Block blk + i of a fetch becomes the newest entry.
    method StoreOne(file: string, blk: nat, i: nat, payload: Bytes, content: Bytes, ghost files: string -> Bytes)
      requires Distinct(cache) && Right(files) && content == files(file) && payload == Block(content, blk + i) &&
        |payload| > 0
      requires i <= |cache| && cache[|cache| - i..] == Fetched(file, content, blk, i)
      modifies this
      ensures Distinct(cache) && Right(files)
      ensures i + 1 <= |cache| && cache[|cache| - (i + 1)..] == Fetched(file, content, blk, i + 1)
      ensures cache == Without(old(cache), (file, blk + i)) + [Entry((file, blk + i), payload)]
    {
      hide Block, Without, Fetched;
      ghost var before := cache;
      FetchedNext(file, content, blk, i);
      Put((file, blk + i), payload);
      LastStay(before, (file, blk + i), Fetched(file, content, blk, i));
      WithoutKeys(before, (file, blk + i));
    }

    /** read: all the bytes asked for, unless a request fails. */
    method Read(file: string, size: nat, offset: nat, fsize: nat, manners: nat -> Manner, content: Bytes,
                ghost files: string -> Bytes)
      returns (r: Option<Bytes>)
      requires Valid() && Right(files) && content == files(file) && fsize == |content|
      modifies this
      ensures Valid() && Right(files)
      ensures r.Some? ==> r.value == Clip(content, offset, size)
      ensures (forall i :: manners(i) != Fails) ==> r.Some?
    {
      hide Ahead4, Filled, NewestOf, Without, Has, Distinct;
      if offset >= fsize {
        return Some([]);
      }
      var end := Min(offset + size, fsize);
      var out: Bytes := [];
      var pos := offset;
      while pos < end
        invariant offset <= pos <= end && out == content[offset..pos] && Valid() && Right(files)
      {
        var blk := pos / BLOCK;
        var data := BlockOf(file, blk, fsize, manners(blk), content, files);
        if data == None {
          return None;
        }
        var boff := pos - blk * BLOCK;
        var take := Min(|data.value| - boff, end - pos);
        if take <= 0 {
          break;
        }
        TakeBlock(content, blk, boff, take);
        out := out + data.value[boff..boff + take];
        pos := pos + take;
      }
      return Some(out);
    }
  }

  // How many blocks a fetch brings in: up to four, as far as the file goes.
  function Ahead4(content: Bytes, blk: nat): nat {
    if |content| <= blk * BLOCK then 0
    else if |content| <= (blk + 1) * BLOCK then 1
    else if |content| <= (blk + 2) * BLOCK then 2
    else if |content| <= (blk + 3) * BLOCK then 3
    else 4
  }

  // The cache with blocks blk to blk + i - 1 as the newest.
  function Filled(s: seq<Entry>, file: string, content: Bytes, blk: nat, i: nat): seq<Entry> {
    if i == 0 then s
    else
      Without(Filled(s, file, content, blk, i - 1), (file, blk + i - 1)) +
      [Entry((file, blk + i - 1), Block(content, blk + i - 1))]
  }

  // The n newest entries.
  function NewestOf(s: seq<Entry>, n: nat): seq<Entry> { if |s| <= n then s else s[|s| - n..] }

  lemma NothingFilled(s: seq<Entry>, file: string, content: Bytes, blk: nat)
    ensures Filled(s, file, content, blk, 0) == s
  {}

  lemma FilledNext(s: seq<Entry>, file: string, content: Bytes, blk: nat, i: nat)
    ensures Filled(s, file, content, blk, i + 1) ==
      Without(Filled(s, file, content, blk, i), (file, blk + i)) + [Entry((file, blk + i), Block(content, blk + i))]
  {}

  // A fetch goes on to block i as long as it has bytes there.
  lemma AheadAt(content: Bytes, blk: nat, i: nat)
    requires blk * BLOCK < |content| && i <= READAHEAD
    ensures i < READAHEAD ==>
      (i * BLOCK < Min(|content|, (blk + READAHEAD) * BLOCK) - blk * BLOCK <==> i < Ahead4(content, blk))
    ensures i == READAHEAD ==> Ahead4(content, blk) <= i
  {}

  // The key is among the newest entries of one fetch.
  ghost predicate AtEnd(s: seq<Entry>, key: Key) {
    exists p: nat :: p < |s| <= p + READAHEAD && IsAt(s, p, key)
  }

  predicate IsAt(s: seq<Entry>, p: nat, key: Key)
    requires p < |s|
  {
    s[p].key == key
  }

  lemma WithoutSize(s: seq<Entry>, key: Key)
    ensures |Without(s, key)| == |s| - if Has(s, key) then 1 else 0
  {}

  // The first i entries of a fetch.
  function Fetched(file: string, content: Bytes, blk: nat, i: nat): (r: seq<Entry>)
    ensures |r| == i && forall j :: 0 <= j < i ==> r[j].key == (file, blk + j)
  {
    if i == 0 then []
    else Fetched(file, content, blk, i - 1) + [Entry((file, blk + i - 1), Block(content, blk + i - 1))]
  }

  // The last entries stay the last if another key becomes the newest.
  lemma LastStay(s: seq<Entry>, key: Key, t: seq<Entry>)
    requires |t| <= |s| && s[|s| - |t|..] == t && forall j :: 0 <= j < |t| ==> t[j].key != key
    ensures var r := Without(s, key);
      |t| <= |r| && r[|r| - |t|..] == t && forall e :: (r + [e])[|r| - |t|..] == t + [e]
  {
    var i, r := Find(s, key), Without(s, key);
    if i < |s| {
      forall j | |s| - |t| <= j < |s|
        ensures s[j].key != key
      {
        assert s[j] == t[j - (|s| - |t|)];
      }
      assert r[|r| - |t|..] == s[|s| - |t|..];
    }
  }

  lemma FetchedNext(file: string, content: Bytes, blk: nat, i: nat)
    ensures Fetched(file, content, blk, i + 1) ==
      Fetched(file, content, blk, i) + [Entry((file, blk + i), Block(content, blk + i))]
    ensures Fetched(file, content, blk, 0) == []
  {}

  lemma NearEnd(s: seq<Entry>, p: nat, key: Key)
    requires p < |s| <= p + READAHEAD && s[p].key == key
    ensures AtEnd(s, key)
  {
    assert IsAt(s, p, key);
  }

  lemma DropKeeps(s: seq<Entry>, key: Key)
    requires AtEnd(s, key) && |s| > READAHEAD
    ensures AtEnd(s[1..], key)
  {
    var p: nat :| p < |s| <= p + READAHEAD && IsAt(s, p, key);
    assert IsAt(s[1..], p - 1, key);
  }

  // Block i of what was fetched is block blk + i of the file.
  lemma Ahead(content: Bytes, blk: nat, i: nat, size: nat)
    requires size == |content| && blk * BLOCK < size && i < READAHEAD
    ensures var end := Min(size, (blk + READAHEAD) * BLOCK);
      i * BLOCK < end - blk * BLOCK ==>
        Clip(content[blk * BLOCK..end], i * BLOCK, BLOCK) == Block(content, blk + i) && |Block(content, blk + i)| > 0
  {
    var start, end := blk * BLOCK, Min(size, (blk + READAHEAD) * BLOCK);
    var at := i * BLOCK;
    if at < end - start {
      var upto := Min(at + BLOCK, end - start);
      SliceOfSlice(content, start, end, at, upto);
    }
  }

  lemma TakeBlock(content: Bytes, blk: nat, boff: nat, take: nat)
    requires blk * BLOCK < |content| && boff + take <= |Block(content, blk)|
    ensures blk * BLOCK + boff + take <= |content|
    ensures Block(content, blk)[boff..boff + take] == content[blk * BLOCK + boff..blk * BLOCK + boff + take]
  {
    var base := blk * BLOCK;
    assert Block(content, blk) == content[base..base + |Block(content, blk)|];
    SliceOfSlice(content, base, base + |Block(content, blk)|, boff, boff + take);
  }
}
