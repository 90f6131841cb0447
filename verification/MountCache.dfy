/** Reads through the mount (cfs_mount.py): a cache of blocks bounded in bytes, least recently used
    first out, and one request for every run of missing blocks. */
module MountCache {
  import opened Wrappers
  import opened BlockCache

  // ---- runs ----

  datatype Run = Run(first: nat, last: nat)

  // lo to hi - 1.
  function Range(lo: nat, hi: nat): (r: seq<nat>)
    ensures |r| == if lo < hi then hi - lo else 0
  {
    if lo >= hi then [] else seq(hi - lo, k requires 0 <= k => lo + k)
  }

  // The indexes of the first k runs, one run after the other.
  function Spelled(runs: seq<Run>, k: nat): seq<nat>
    requires k <= |runs|
  {
    if k == 0 then [] else Spelled(runs, k - 1) + Range(runs[k - 1].first, runs[k - 1].last + 1)
  }

  // Runs k - 1 and k cannot be joined.
  predicate Split(runs: seq<Run>, k: nat)
    requires k < |runs|
  {
    runs[k].first <= runs[k].last && (k > 0 ==> runs[k].first != runs[k - 1].last + 1)
  }

  predicate Maximal(runs: seq<Run>) { forall k: nat :: k < |runs| ==> Split(runs, k) }

  lemma {:induction false} SpelledSame(r: seq<Run>, s: seq<Run>, k: nat)
    requires k <= |r| && k <= |s| && forall i :: 0 <= i < k ==> r[i] == s[i]
    ensures Spelled(r, k) == Spelled(s, k)
  {
    if k > 0 {
      SpelledSame(r, s, k - 1);
    }
  }

  lemma RangeNext(lo: nat, hi: nat)
    requires lo <= hi
    ensures Range(lo, hi + 1) == Range(lo, hi) + [hi] && Range(lo, lo) == []
  {}

  // The runs after replacing the last one, or adding one, at n.
  lemma SpelledAt(runs: seq<Run>, grown: seq<Run>, n: nat)
    requires n < |grown| && n <= |runs| && forall i :: 0 <= i < n ==> grown[i] == runs[i]
    ensures Spelled(grown, n + 1) == Spelled(runs, n) + Range(grown[n].first, grown[n].last + 1)
  {
    hide Range;
    SpelledSame(runs, grown, n);
  }

  lemma MaximalAt(runs: seq<Run>, grown: seq<Run>, n: nat)
    requires n + 1 == |grown| && n <= |runs| && Maximal(runs) && forall i :: 0 <= i < n ==> grown[i] == runs[i]
    requires Split(grown, n)
    ensures Maximal(grown)
  {
    forall k: nat | k < n
      ensures Split(grown, k)
    {
      assert Split(runs, k);
    }
  }

  // The last run is one index longer;
  lemma RunLonger(runs: seq<Run>, grown: seq<Run>, n: nat)
    requires Maximal(runs) && |runs| == |grown| == n + 1 && forall i :: 0 <= i < n ==> grown[i] == runs[i]
    requires grown[n].first == runs[n].first && grown[n].last == runs[n].last + 1
    ensures Maximal(grown) && Spelled(grown, n + 1) == Spelled(runs, n + 1) + [runs[n].last + 1]
  {
    hide Range, Spelled;
    assert Split(runs, n);
    MaximalAt(runs, grown, n);
    var lo, hi := runs[n].first, runs[n].last + 1;
    RangeNext(lo, hi);
    SpelledAt(runs, runs, n);
    SpelledAt(runs, grown, n);
    Chain(Spelled(runs, n), Range(lo, hi), hi, Spelled(runs, n + 1), Spelled(grown, n + 1));
  }

  lemma Assoc<T>(a: seq<T>, b: seq<T>, c: seq<T>)
    ensures a + (b + c) == a + b + c
  {}

  lemma Chain<T>(a: seq<T>, b: seq<T>, x: T, shorter: seq<T>, longer: seq<T>)
    requires shorter == a + b && longer == a + (b + [x])
    ensures longer == shorter + [x]
  {}

  lemma RunAdded(runs: seq<Run>, grown: seq<Run>, index: nat)
    requires Maximal(runs) && (|runs| > 0 ==> index != runs[|runs| - 1].last + 1) && grown == runs + [Run(index, index)]
    ensures Maximal(grown) && Spelled(grown, |grown|) == Spelled(runs, |runs|) + [index]
  {
    hide Range, Spelled;
    RangeNext(index, index);
    SpelledAt(runs, grown, |runs|);
    MaximalAt(runs, grown, |runs|);
  }

  /** _runs: the indexes, split into as few runs as possible. */
  method Runs(indexes: seq<nat>) returns (runs: seq<Run>)
    ensures Maximal(runs) && Spelled(runs, |runs|) == indexes
  {
    NoRuns();
    hide *;
    runs := [];
    for t := 0 to |indexes|
      invariant Maximal(runs) && Spelled(runs, |runs|) == indexes[..t]
    {
      var index := indexes[t];
      ghost var before := runs;
      if |runs| > 0 && index == runs[|runs| - 1].last + 1 {
        runs := runs[|runs| - 1 := Run(runs[|runs| - 1].first, index)];
        RunLonger(before, runs, |before| - 1);
      } else {
        runs := runs + [Run(index, index)];
        RunAdded(before, runs, index);
      }
      assert indexes[..t + 1] == indexes[..t] + [index];
    }
    assert indexes[..|indexes|] == indexes;
  }

  lemma NoRuns()
    ensures Maximal([]) && Spelled([], 0) == []
  {}

  // ---- the cache ----

  class Cache {
    var entries: seq<Entry>
    var bytes: int
    const budget: nat

    ghost predicate Valid()
      reads this
    {
      Distinct(entries) && bytes == Total(entries) <= budget
    }

    // Every cached block is a block of its file.
    ghost predicate Right(files: string -> Bytes)
      reads this
    {
      forall e :: e in entries ==> e.payload == Block(files(e.key.0), e.key.1) && |e.payload| > 0
    }

    constructor (budget: nat)
      ensures Valid() && entries == [] && this.budget == budget
    {
      entries, bytes, this.budget := [], 0, budget;
    }

    /** _store_block: the block becomes the newest; the oldest go until all fit. */
    method StoreBlock(file: string, index: nat, payload: Bytes)
      requires Valid()
      modifies this
      ensures Valid() && entries == Fit(Without(old(entries), (file, index)) + [Entry((file, index), payload)], budget)
    {
      var key := (file, index);
      WithoutTotal(entries, key);
      WithoutKeys(entries, key);
      var i := Find(entries, key);
      if i < |entries| {
        bytes := bytes - |entries[i].payload|;
        entries := Without(entries, key);
      }
      assert entries == Without(old(entries), key);
      var all := entries + [Entry(key, payload)];
      TotalSum(entries, [Entry(key, payload)]);
      assert Total([Entry(key, payload)]) == |payload| + Total([Entry(key, payload)][1..]);
      AddsKey(entries, Entry(key, payload));
      entries := all;
      bytes := bytes + |payload|;
      while bytes > budget && |entries| > 0
        invariant Distinct(entries) && bytes == Total(entries) && Fit(entries, budget) == Fit(all, budget)
        decreases |entries|
      {
        bytes := bytes - |entries[0].payload|;
        entries := entries[1..];
      }
    }

    // move_to_end.
    method Touch(key: Key)
      requires Valid() && Has(entries, key)
      modifies this`entries
      ensures Valid() && (forall e :: e in entries <==> e in old(entries))
      ensures entries == Newest(old(entries), key)
    {
      WithoutTotal(entries, key);
      WithoutKeys(entries, key);
      var e := entries[Find(entries, key)];
      ghost var rest := Without(entries, key);
      TotalSum(rest, [e]);
      assert Total([e]) == |e.payload| + Total([e][1..]);
      AddsKey(rest, e);
      entries := Without(entries, key) + [e];
    }

    /** _invalidate: the blocks of one file go, the others stay as they are. */
    method Invalidate(file: string)
      requires Valid()
      modifies this
      ensures Valid() && entries == Others(old(entries), file)
    {
      var keys := KeysOf(entries, file);
      ghost var before := entries;
      for t := 0 to |keys|
        invariant Distinct(entries) && bytes == Total(entries) <= budget
        invariant Others(entries, file) == Others(before, file) && KeysOf(entries, file) == keys[t..]
      {
        WithoutFirst(entries, file);
        WithoutTotal(entries, keys[t]);
        WithoutKeys(entries, keys[t]);
        bytes := bytes - |entries[Find(entries, keys[t])].payload|;
        entries := Without(entries, keys[t]);
      }
      NoKeys(entries, file);
    }

    // The blocks first to last of the file that are not cached.
    method Absent(file: string, first: nat, last: nat) returns (missing: seq<nat>)
      requires first <= last
      ensures missing == Missing(entries, file, first, last + 1)
    {
      missing := [];
      for index := first to last + 1
        invariant missing == Missing(entries, file, first, index)
      {
        if Find(entries, (file, index)) == |entries| {
          missing := missing + [index];
        }
      }
    }

    // One request for a run; what came back is cut into blocks.
    method FetchRun(file: string, content: Bytes, run: Run, limit: nat)
      requires Valid() && run.first <= run.last && (limit == 0 || limit == |content|)
      requires forall i :: run.first <= i <= run.last ==> !Has(entries, (file, i))
      modifies this
      ensures Valid() && entries == Fit(old(entries) + News(file, content, Range(run.first, run.last + 1)), budget)
    {
      hide Fit, News, Without, Range, Clip, Block, Total;
      ghost var before := entries;
      var start := run.first * BLOCK;
      var length := (run.last - run.first + 1) * BLOCK;
      if limit > 0 {
        length := Min(length, limit - start);
      }
      NothingFetched(entries, file, content, run.first, budget);
      if length <= 0 {
        NewsEnd(file, content, run.first, run.first, run.last + 1);
        return;
      }
      var payload := Clip(content, start, length);
      for index := run.first to run.last + 1
        invariant Valid() && entries == Fit(before + News(file, content, Range(run.first, index)), budget)
      {
        var chunk := Clip(payload, (index - run.first) * BLOCK, BLOCK);
        ChunkIsBlock(content, run.first, run.last, length, index);
        if |chunk| == 0 {
          NewsEnd(file, content, run.first, index, run.last + 1);
          break;
        }
        StoredNext(before, file, content, run.first, index, budget);
        StoreBlock(file, index, chunk);
      }
    }

    // A request for every run of missing blocks.
    method FetchMissing(file: string, content: Bytes, missing: seq<nat>, limit: nat)
      requires Valid() && (limit == 0 || limit == |content|)
      requires (forall k :: 0 <= k < |missing| ==> !Has(entries, (file, missing[k]))) && Ascending(missing)
      modifies this
      ensures Valid() && entries == Fit(old(entries) + News(file, content, missing), budget)
    {
      hide Fit, News, Total, Spelled, Has;
      ghost var before := entries;
      var runs := Runs(missing);
      NothingSpelled(entries, file, content, runs, budget);
      for k := 0 to |runs|
        invariant Valid() && entries == Fit(before + News(file, content, Spelled(runs, k)), budget)
      {
        RunIsNext(before, file, content, missing, runs, k, budget);
        FetchRun(file, content, runs[k], limit);
      }
    }

    // Puts the blocks first to last together, up to the first one that is not there.
    method Assemble(file: string, off: nat, size: nat, first: nat, last: nat, ghost files: string -> Bytes,
                    ghost upto: nat) returns (out: Bytes)
      requires Valid() && Right(files) && Spans(off, size, first, last) && first <= last
      requires |Clip(files(file), off, size)| > 0 ==> Spans(off, |Clip(files(file), off, size)|, first, upto)
      modifies this`entries
      ensures Valid() && Right(files)
      ensures exists k ::
        Contiguous(old(entries), file, first, last, k) && entries == Used(old(entries), file, first, k)
      ensures out <= Clip(files(file), off, size)
      ensures |Clip(files(file), off, size)| > 0 ==>
        (out == Clip(files(file), off, size) <==> forall i :: first <= i <= upto ==> Has(old(entries), (file, i)))
    {
      hide Clip, Block, Edge, Spans, Has, Newest;
      ghost var before := entries;
      out := [];
      NothingYet(files(file), off, size, first, last);
      for index := first to last + 1
        invariant Valid() && Right(files) && forall e :: e in entries <==> e in before
        invariant forall i :: first <= i < index ==> Has(before, (file, i))
        invariant entries == Used(before, file, first, index)
        invariant off <= Edge(off, size, first, index)
        invariant out == Clip(files(file), off, Edge(off, size, first, index) - off)
      {
        var i := Find(entries, (file, index));
        SameKeys(before, entries, (file, index));
        if i == |entries| {
          assert Contiguous(before, file, first, last, index);
          Shorter(files(file), off, size, first, last, index);
          if |Clip(files(file), off, size)| > 0 {
            ShortOrEnough(files(file), off, size, first, last, index, upto);
          }
          return;
        }
        var block := entries[i].payload;
        assert entries[i] in entries;
        Touch((file, index));
        var lo := (if off > index * BLOCK then off else index * BLOCK) - index * BLOCK;
        var hi := Min(off + size, (index + 1) * BLOCK) - index * BLOCK;
        EdgeAt(off, size, first, last, index);
        JoinBlock(files(file), off, size, first, last, index);
        out := out + Clip(block, lo, hi - lo);
      }
      assert Contiguous(before, file, first, last, last + 1);
      if |Clip(files(file), off, size)| > 0 {
        WithinLast(files(file), off, size, first, last, upto);
      }
    }

    /** _read_at: a beginning of the bytes asked for, and all of them that the file has exactly if nothing that
        is needed is evicted on the way. */
    method ReadAt(file: string, off: nat, size: nat, limit: nat, pending: Option<Bytes>, ghost files: string -> Bytes,
                  remote: string -> Bytes) returns (out: Bytes)
      requires Valid() && Right(files) && remote(file) == files(file) && (limit == 0 || limit == |files(file)|)
      modifies this
      ensures Valid() && Right(files)
      ensures pending.Some? ==> out == Clip(pending.value, off, size) && entries == old(entries)
      ensures pending == None ==> out <= Clip(files(file), off, size)
      ensures pending == None ==>
        (out == Clip(files(file), off, size) <==>
          Room(old(entries), file, files(file), off, |Clip(files(file), off, size)|, budget))
      ensures pending == None && size > 0 && (limit == 0 || off < limit) ==>
        var first, last := off / BLOCK, (off + (if limit > 0 then Min(size, limit - off) else size) - 1) / BLOCK;
        var missing := Missing(old(entries), file, first, last + 1);
        var fetched := Fit(old(entries) + News(file, files(file), missing), budget);
        exists k :: Contiguous(fetched, file, first, last, k) && entries == Used(fetched, file, first, k)
      ensures pending == None && (size == 0 || (limit > 0 && off >= limit)) ==> entries == old(entries)
    {
      hide Clip, Fit, Total, News, Missing, Has, Spans, Room, Used, Contiguous;
      if pending.Some? {
        return Clip(pending.value, off, size);
      }
      WantedPart(files(file), off, size, limit, entries, file, budget);
      if limit > 0 && off >= limit {
        return [];
      }
      var wanted := if limit > 0 then Min(size, limit - off) else size;
      if wanted <= 0 {
        return [];
      }
      var first, last := off / BLOCK, (off + wanted - 1) / BLOCK;
      ghost var before := entries;
      var missing := Absent(file, first, last);
      FetchMissing(file, remote(file), missing, limit);
      StillRight(before, file, files, missing, budget);
      ghost var there := |Clip(files(file), off, size)|;
      ghost var upto := if there > 0 then (off + there - 1) / BLOCK else 0;
      out := Assemble(file, off, wanted, first, last, files, upto);
      if there > 0 {
        RoomAsked(before, file, files(file), off, wanted, first, last, upto, budget);
      }
    }
  }

  // What is asked for, inside the file if its size is known.
  lemma WantedPart(content: Bytes, off: nat, size: nat, limit: nat, s: seq<Entry>, file: string, budget: nat)
    requires limit == 0 || limit == |content|
    ensures size == 0 ==> Clip(content, off, size) == []
    ensures limit > 0 && (off >= limit || size == 0) ==> Clip(content, off, size) == []
    ensures Room(s, file, content, off, 0, budget)
    ensures var wanted := if limit > 0 then Min(size, limit - off) else size;
      wanted > 0 ==>
        Spans(off, wanted, off / BLOCK, (off + wanted - 1) / BLOCK) &&
        Clip(content, off, wanted) == Clip(content, off, size)
    ensures var there := |Clip(content, off, size)|;
      there > 0 ==> Spans(off, there, off / BLOCK, (off + there - 1) / BLOCK)
  {
    var wanted := if limit > 0 then Min(size, limit - off) else size;
    if wanted > 0 {
      var first, last := off / BLOCK, (off + wanted - 1) / BLOCK;
      assert first <= last;
    }
  }

  // The blocks behind the last byte that the file has there bring nothing.
  lemma NothingBehind(s: seq<Entry>, file: string, content: Bytes, off: nat, size: nat, first: nat, last: nat,
                      upto: nat)
    requires Spans(off, size, first, last) && |Clip(content, off, size)| > 0 &&
      Spans(off, |Clip(content, off, size)|, first, upto)
    ensures first <= upto <= last && forall i :: first <= i <= upto ==> Block(content, i) != []
    ensures News(file, content, Missing(s, file, first, last + 1)) ==
      News(file, content, Missing(s, file, first, upto + 1))
  {
    hide News, Missing, Spans, Clip, Block;
    LastThere(content, off, size, first, last, upto);
    if upto < last {
      BehindBrings(s, file, content, first, upto + 1, last + 1);
    }
  }

  // All the needed blocks are there after the fetch exactly if there was room.
  lemma RoomAsked(s: seq<Entry>, file: string, content: Bytes, off: nat, size: nat, first: nat, last: nat, upto: nat,
                  budget: nat)
    requires Distinct(s) && Spans(off, size, first, last)
    requires |Clip(content, off, size)| > 0 && Spans(off, |Clip(content, off, size)|, first, upto)
    ensures (forall i :: first <= i <= upto ==>
      Has(Fit(s + News(file, content, Missing(s, file, first, last + 1)), budget), (file, i))) <==>
      Room(s, file, content, off, |Clip(content, off, size)|, budget)
  {
    hide *;
    NothingBehind(s, file, content, off, size, first, last, upto);
    RoomDecides(s, file, content, first, upto, budget);
    RoomOver(s, file, content, off, |Clip(content, off, size)|, first, upto, budget);
  }

  lemma RoomOver(s: seq<Entry>, file: string, content: Bytes, off: nat, size: nat, first: nat, last: nat, budget: nat)
    requires Spans(off, size, first, last)
    ensures Room(s, file, content, off, size, budget) <==>
      Total(s[Oldest(s, file, first, last)..]) + Total(News(file, content, Missing(s, file, first, last + 1))) <= budget
  {
    hide News, Missing, Oldest, Total;
    assert first == off / BLOCK && last == (off + size - 1) / BLOCK;
  }

  lemma LastThere(content: Bytes, off: nat, size: nat, first: nat, last: nat, upto: nat)
    requires Spans(off, size, first, last) && |Clip(content, off, size)| > 0 &&
      Spans(off, |Clip(content, off, size)|, first, upto)
    ensures first <= upto <= last && forall i :: first <= i <= upto ==> Block(content, i) != []
    ensures upto < last ==> (upto + 1) * BLOCK >= |content|
  {}

  lemma {:induction false} BehindBrings(s: seq<Entry>, file: string, content: Bytes, first: nat, mid: nat, hi: nat)
    requires first <= mid <= hi && mid * BLOCK >= |content|
    ensures News(file, content, Missing(s, file, first, hi)) == News(file, content, Missing(s, file, first, mid))
    decreases hi - mid
  {
    hide Block, Missing, News;
    if mid < hi {
      BehindBrings(s, file, content, first, mid, hi - 1);
      BehindEnd(content, hi - 1);
      MissingNext(s, file, first, hi);
      var missing := Missing(s, file, first, hi);
      if missing != Missing(s, file, first, hi - 1) {
        NewsSnoc(file, content, missing);
        assert missing[..|missing| - 1] == Missing(s, file, first, hi - 1);
      }
    }
  }

  lemma MissingNext(s: seq<Entry>, file: string, lo: nat, hi: nat)
    requires lo < hi
    ensures Missing(s, file, lo, hi) == Missing(s, file, lo, hi - 1) + if Has(s, (file, hi - 1)) then [] else [hi - 1]
  {
    hide Find;
  }

  // Fetched blocks are blocks of the file, and the older ones stay.
  lemma StillRight(s: seq<Entry>, file: string, files: string -> Bytes, indexes: seq<nat>, budget: nat)
    requires forall e :: e in s ==> e.payload == Block(files(e.key.0), e.key.1) && |e.payload| > 0
    ensures forall e :: e in Fit(s + News(file, files(file), indexes), budget) ==>
      e.payload == Block(files(e.key.0), e.key.1) && |e.payload| > 0
  {
    var all := s + News(file, files(file), indexes);
    FitIsSuffix(all, budget);
    var r := Fit(all, budget);
    forall e | e in r
      ensures e in all
    {
      var k :| 0 <= k < |r| && r[k] == e;
      assert e == all[|all| - |r| + k];
    }
  }

  // The entry of a key becomes the newest; the others keep their order.
  function Newest(s: seq<Entry>, key: Key): seq<Entry> {
    var i := Find(s, key);
    if i < |s| then s[..i] + s[i + 1..] + [s[i]] else s
  }

  // The blocks first to k - 1 are used one after the other.
  function Used(s: seq<Entry>, file: string, first: nat, k: nat): seq<Entry>
    decreases k
  {
    if k <= first then s else Newest(Used(s, file, first, k - 1), (file, k - 1))
  }

  // The blocks first to k - 1 are there, and block k is not, if it is wanted.
  ghost predicate Contiguous(s: seq<Entry>, file: string, first: nat, last: nat, k: nat) {
    && first <= k <= last + 1 && (forall i :: first <= i < k ==> Has(s, (file, i)))
    && (k <= last ==> !Has(s, (file, k)))
  }

  // Everything from the oldest block that is needed on, and all that is to be fetched, is in budget.
  ghost predicate Room(s: seq<Entry>, file: string, content: Bytes, off: nat, size: nat, budget: nat) {
    size == 0 ||
    var first, last := off / BLOCK, (off + size - 1) / BLOCK;
    Total(s[Oldest(s, file, first, last)..]) + Total(News(file, content, Missing(s, file, first, last + 1))) <= budget
  }

  // The position of the first entry of a block first to last of the file, or the length.
  function Oldest(s: seq<Entry>, file: string, first: nat, last: nat): (p: nat)
    ensures p <= |s| && (forall k :: 0 <= k < p ==> !Needed(s[k].key, file, first, last)) &&
      (p < |s| ==> Needed(s[p].key, file, first, last))
  {
    if |s| == 0 || Needed(s[0].key, file, first, last) then 0
    else
      assert forall k :: 0 <= k < |s| - 1 ==> s[1..][k] == s[k + 1];
      Oldest(s[1..], file, first, last) + 1
  }

  predicate Needed(key: Key, file: string, first: nat, last: nat) { key.0 == file && first <= key.1 <= last }

  // Blocks first to last are those that bytes off to off + size - 1 lie in.
  predicate Spans(off: nat, size: nat, first: nat, last: nat) {
    size > 0 && first <= last && first * BLOCK <= off < first * BLOCK + BLOCK &&
    last * BLOCK <= off + size - 1 < last * BLOCK + BLOCK
  }

  // How far the blocks before index reach.
  function Edge(off: nat, size: nat, first: nat, index: nat): nat {
    if index <= first then off else Min(off + size, index * BLOCK)
  }

  lemma SameKeys(s: seq<Entry>, t: seq<Entry>, key: Key)
    requires forall e :: e in s <==> e in t
    ensures Has(s, key) <==> Has(t, key)
  {
    if Has(s, key) {
      var i :| 0 <= i < |s| && s[i].key == key;
      assert s[i] in t;
    }
    if Has(t, key) {
      var i :| 0 <= i < |t| && t[i].key == key;
      assert t[i] in s;
    }
  }

  lemma NothingYet(content: Bytes, off: nat, size: nat, first: nat, last: nat)
    requires Spans(off, size, first, last)
    ensures Edge(off, size, first, first) == off && Clip(content, off, 0) == [] &&
      Edge(off, size, first, last + 1) == off + size
  {}

  // A run of blocks broken off at index gives a proper beginning of what was asked for.
  lemma Shorter(content: Bytes, off: nat, size: nat, first: nat, last: nat, index: nat)
    requires Spans(off, size, first, last) && first <= index <= last
    ensures Edge(off, size, first, index) < off + size
    ensures Clip(content, off, Edge(off, size, first, index) - off) <= Clip(content, off, size)
  {}

  // The bytes the file has reach up to block upto: broken off behind it, nothing is missing.
  lemma ShortOrEnough(content: Bytes, off: nat, size: nat, first: nat, last: nat, index: nat, upto: nat)
    requires Spans(off, size, first, last) && first <= index <= last && |Clip(content, off, size)| > 0
    requires Spans(off, |Clip(content, off, size)|, first, upto)
    ensures index > upto ==> Clip(content, off, Edge(off, size, first, index) - off) == Clip(content, off, size)
    ensures index <= upto ==> |Clip(content, off, Edge(off, size, first, index) - off)| < |Clip(content, off, size)|
  {}

  lemma WithinLast(content: Bytes, off: nat, size: nat, first: nat, last: nat, upto: nat)
    requires Spans(off, size, first, last) && Spans(off, |Clip(content, off, size)|, first, upto)
    ensures upto <= last
  {}

  lemma EdgeAt(off: nat, size: nat, first: nat, last: nat, index: nat)
    requires Spans(off, size, first, last) && first <= index <= last
    ensures var from, upto, base := Edge(off, size, first, index), Edge(off, size, first, index + 1), index * BLOCK;
      off <= from <= upto <= off + size && base <= from && upto <= base + BLOCK &&
      base + BLOCK == (index + 1) * BLOCK &&
      from == (if off > base then off else base) && upto == Min(off + size, base + BLOCK) &&
      (index == last ==> upto == off + size)
  {}

  // The next block continues what was put together.
  lemma JoinBlock(content: Bytes, off: nat, size: nat, first: nat, last: nat, index: nat)
    requires Spans(off, size, first, last) && first <= index <= last
    ensures var from, upto, base := Edge(off, size, first, index), Edge(off, size, first, index + 1), index * BLOCK;
      off <= from <= upto && base <= from &&
      Clip(content, off, from - off) + Clip(Block(content, index), from - base, upto - from) ==
      Clip(content, off, upto - off)
  {
    hide Clip, Block, Edge;
    EdgeAt(off, size, first, last, index);
    var from, upto, base := Edge(off, size, first, index), Edge(off, size, first, index + 1), index * BLOCK;
    BlockPart(content, index, from - base, upto - base);
    JoinClips(content, off, from, upto);
  }

  lemma BlockPart(content: Bytes, index: nat, lo: nat, hi: nat)
    requires lo <= hi <= BLOCK
    ensures Clip(Block(content, index), lo, hi - lo) == Clip(content, index * BLOCK + lo, hi - lo)
  {
    var base, block := index * BLOCK, Block(content, index);
    if base < |content| && lo < |block| {
      SliceOfSlice(content, base, base + |block|, lo, Min(hi, |block|));
    }
  }

  lemma JoinClips(content: Bytes, off: nat, from: nat, upto: nat)
    requires off <= from <= upto
    ensures Clip(content, off, from - off) + Clip(content, from, upto - from) == Clip(content, off, upto - off)
  {}

  predicate Ascending(s: seq<nat>) { forall j, k :: 0 <= j < k < |s| ==> s[j] < s[k] }

  lemma NothingSpelled(s: seq<Entry>, file: string, content: Bytes, runs: seq<Run>, budget: nat)
    requires Total(s) <= budget
    ensures Fit(s + News(file, content, Spelled(runs, 0)), budget) == s
  {
    assert s + [] == s;
  }

  lemma {:induction false} SpelledPrefix(runs: seq<Run>, k: nat, n: nat)
    requires k <= n <= |runs|
    ensures Spelled(runs, k) <= Spelled(runs, n)
    decreases n
  {
    if k < n {
      SpelledPrefix(runs, k, n - 1);
    }
  }

  lemma {:induction false} NewsSum(file: string, content: Bytes, a: seq<nat>, b: seq<nat>)
    ensures News(file, content, a + b) == News(file, content, a) + News(file, content, b)
  {
    if |b| == 0 {
      assert a + b == a;
    } else {
      var init := b[..|b| - 1];
      assert (a + b)[..|a + b| - 1] == a + init;
      NewsSum(file, content, a, init);
    }
  }

  // Fetching run k after the runs before it.
  lemma RunIsNext(before: seq<Entry>, file: string, content: Bytes, missing: seq<nat>, runs: seq<Run>, k: nat,
                  budget: nat)
    requires k < |runs| && Maximal(runs) && Spelled(runs, |runs|) == missing && Ascending(missing)
    requires forall j :: 0 <= j < |missing| ==> !Has(before, (file, missing[j]))
    ensures runs[k].first <= runs[k].last
    ensures var kept := Fit(before + News(file, content, Spelled(runs, k)), budget);
      (forall i :: runs[k].first <= i <= runs[k].last ==> !Has(kept, (file, i))) &&
      Fit(kept + News(file, content, Range(runs[k].first, runs[k].last + 1)), budget) ==
      Fit(before + News(file, content, Spelled(runs, k + 1)), budget)
  {
    assert Split(runs, k);
    var done, range := Spelled(runs, k), Range(runs[k].first, runs[k].last + 1);
    SpelledPrefix(runs, k + 1, |runs|);
    forall i | runs[k].first <= i <= runs[k].last
      ensures !Has(Fit(before + News(file, content, done), budget), (file, i))
    {
      var at := |done| + i - runs[k].first;
      assert missing[at] == (done + range)[at] == range[i - runs[k].first] == i;
      assert forall j :: 0 <= j < |done| ==> done[j] == missing[j] < i;
      StillAbsent(before, News(file, content, done), budget, (file, i));
    }
    NewsSum(file, content, done, range);
    FitAppend(before + News(file, content, done), News(file, content, range), budget);
    Assoc(before, News(file, content, done), News(file, content, range));
  }

  // The indexes lo to hi - 1 without a cached block.
  function Missing(s: seq<Entry>, file: string, lo: nat, hi: nat): (r: seq<nat>)
    requires lo <= hi
    ensures forall k :: 0 <= k < |r| ==> lo <= r[k] < hi && !Has(s, (file, r[k]))
    ensures forall j, k :: 0 <= j < k < |r| ==> r[j] < r[k]
    ensures forall i :: lo <= i < hi && !Has(s, (file, i)) ==> i in r
    decreases hi - lo
  {
    if lo == hi then []
    else Missing(s, file, lo, hi - 1) + if Find(s, (file, hi - 1)) == |s| then [hi - 1] else []
  }

  // The entries a fetch of these blocks brings; there is none for a block behind the end.
  function News(file: string, content: Bytes, indexes: seq<nat>): (r: seq<Entry>)
    ensures forall e :: e in r ==>
      e.key.0 == file && e.key.1 in indexes && e.payload == Block(content, e.key.1) && |e.payload| > 0
  {
    if |indexes| == 0 then []
    else
      var last := indexes[|indexes| - 1];
      News(file, content, indexes[..|indexes| - 1]) + if Block(content, last) == [] then []
      else [Entry((file, last), Block(content, last))]
  }

  lemma NewsNext(file: string, content: Bytes, lo: nat, hi: nat)
    requires lo <= hi
    ensures News(file, content, Range(lo, hi + 1)) ==
      News(file, content, Range(lo, hi)) + if Block(content, hi) == [] then []
      else [Entry((file, hi), Block(content, hi))]
    ensures forall e :: e in News(file, content, Range(lo, hi)) ==> e.key.1 < hi
  {
    RangeNext(lo, hi);
    assert Range(lo, hi + 1)[..hi - lo] == Range(lo, hi);
  }

  // Behind an empty block there are only empty ones.
  lemma {:induction false} NewsEnd(file: string, content: Bytes, lo: nat, mid: nat, hi: nat)
    requires lo <= mid <= hi && mid * BLOCK >= |content|
    ensures News(file, content, Range(lo, hi)) == News(file, content, Range(lo, mid))
    decreases hi - mid
  {
    hide News, Range, Block;
    if mid < hi {
      NewsEnd(file, content, lo, mid, hi - 1);
      NewsNext(file, content, lo, hi - 1);
      BehindEnd(content, hi - 1);
    }
  }

  lemma BehindEnd(content: Bytes, i: nat)
    requires i * BLOCK >= |content|
    ensures Block(content, i) == []
  {}

  // A piece of what was fetched is a block of the file.
  lemma ChunkIsBlock(content: Bytes, first: nat, last: nat, length: int, index: nat)
    requires first <= index <= last && length > 0
    requires length == (last - first + 1) * BLOCK ||
      (length == |content| - first * BLOCK && length <= (last - first + 1) * BLOCK)
    ensures Clip(Clip(content, first * BLOCK, length), (index - first) * BLOCK, BLOCK) == Block(content, index)
    ensures Block(content, index) == [] ==> index * BLOCK >= |content|
  {
    var start, at := first * BLOCK, (index - first) * BLOCK;
    var payload := Clip(content, start, length);
    if start < |content| && at < |payload| {
      SliceOfSlice(content, start, start + |payload|, at, Min(at + BLOCK, |payload|));
    }
  }

  // Storing the next block of a run.
  lemma StoredNext(before: seq<Entry>, file: string, content: Bytes, lo: nat, index: nat, budget: nat)
    requires lo <= index && !Has(before, (file, index)) && Block(content, index) != []
    ensures var kept := Fit(before + News(file, content, Range(lo, index)), budget);
      Fit(Without(kept, (file, index)) + [Entry((file, index), Block(content, index))], budget)
        == Fit(before + News(file, content, Range(lo, index + 1)), budget)
  {
    hide Block, Fit;
    var news, e := News(file, content, Range(lo, index)), Entry((file, index), Block(content, index));
    NewsNext(file, content, lo, index);
    StillAbsent(before, news, budget, (file, index));
    FitAppend(before + news, [e], budget);
    assert before + news + [e] == before + (news + [e]);
  }

  lemma NothingFetched(s: seq<Entry>, file: string, content: Bytes, lo: nat, budget: nat)
    requires Total(s) <= budget
    ensures Fit(s + News(file, content, Range(lo, lo)), budget) == s
  {
    assert s + [] == s;
  }

  // A block neither cached before nor fetched since is not cached.
  lemma StillAbsent(before: seq<Entry>, news: seq<Entry>, budget: nat, key: Key)
    requires !Has(before, key) && forall e :: e in news ==> e.key != key
    ensures !Has(Fit(before + news, budget), key)
  {
    hide Fit;
    var all := before + news;
    FitIsSuffix(all, budget);
    var r := Fit(all, budget);
    forall i | 0 <= i < |r|
      ensures r[i].key != key
    {
      assert r[i] == all[|all| - |r| + i];
    }
  }

  // The entries of other files, in order.
  function Others(s: seq<Entry>, file: string): seq<Entry> {
    if |s| == 0 then []
    else if s[0].key.0 == file then Others(s[1..], file)
    else [s[0]] + Others(s[1..], file)
  }

  lemma AddsKey(s: seq<Entry>, e: Entry)
    requires Distinct(s) && !Has(s, e.key)
    ensures Distinct(s + [e])
  {}

  function KeysOf(s: seq<Entry>, file: string): seq<Key> {
    if |s| == 0 then [] else (if s[0].key.0 == file then [s[0].key] else []) + KeysOf(s[1..], file)
  }

  lemma {:induction false} NoKeys(s: seq<Entry>, file: string)
    requires KeysOf(s, file) == []
    ensures Others(s, file) == s
  {
    if |s| > 0 {
      NoKeys(s[1..], file);
    }
  }

  lemma {:induction false} WithoutFirst(s: seq<Entry>, file: string)
    requires KeysOf(s, file) != []
    ensures var key := KeysOf(s, file)[0];
      Has(s, key) && KeysOf(Without(s, key), file) == KeysOf(s, file)[1..] &&
      Others(Without(s, key), file) == Others(s, file)
  {
    var key := KeysOf(s, file)[0];
    if s[0].key.0 == file {
      assert Without(s, key) == s[1..];
    } else {
      WithoutFirst(s[1..], file);
      FirstIsOf(s[1..], file);
      var i := Find(s[1..], key);
      assert Find(s, key) == i + 1;
      assert Without(s, key) == [s[0]] + Without(s[1..], key);
      assert Without(s, key)[1..] == Without(s[1..], key);
    }
  }

  lemma {:induction false} FirstIsOf(s: seq<Entry>, file: string)
    requires KeysOf(s, file) != []
    ensures KeysOf(s, file)[0].0 == file
  {
    if s[0].key.0 != file {
      FirstIsOf(s[1..], file);
    }
  }

  // ---- what is still there when the read is put together ----

  lemma {:induction false} NewsHas(file: string, content: Bytes, indexes: seq<nat>, k: nat)
    requires k < |indexes| && Block(content, indexes[k]) != []
    ensures Has(News(file, content, indexes), (file, indexes[k]))
  {
    hide Block;
    var n := |indexes| - 1;
    var before, news := News(file, content, indexes[..n]), News(file, content, indexes);
    if k < n {
      NewsHas(file, content, indexes[..n], k);
      var j :| 0 <= j < |before| && before[j].key == (file, indexes[..n][k]);
      assert news[j] == before[j];
    } else {
      assert news[|before|].key == (file, indexes[k]);
    }
  }

  lemma NewsSnoc(file: string, content: Bytes, indexes: seq<nat>)
    requires |indexes| > 0
    ensures var last := indexes[|indexes| - 1];
      News(file, content, indexes) ==
        News(file, content, indexes[..|indexes| - 1]) + if Block(content, last) == [] then []
        else [Entry((file, last), Block(content, last))]
  {}

  lemma {:induction false} NewsDistinct(file: string, content: Bytes, indexes: seq<nat>)
    requires Ascending(indexes)
    ensures Distinct(News(file, content, indexes))
    ensures forall e :: e in News(file, content, indexes) ==> |indexes| > 0 && e.key.1 <= indexes[|indexes| - 1]
  {
    hide Block, News;
    if |indexes| > 0 {
      var init, last := indexes[..|indexes| - 1], indexes[|indexes| - 1];
      NewsDistinct(file, content, init);
      NewsSnoc(file, content, indexes);
      var before, e := News(file, content, init), Entry((file, last), Block(content, last));
      assert forall x :: x in before ==> x.key.1 < last;
      KeyApart(before, e);
      AddsKey(before, e);
    }
  }

  lemma KeyApart(s: seq<Entry>, e: Entry)
    requires forall x :: x in s ==> x.key != e.key
    ensures !Has(s, e.key)
  {}

  // An entry is kept exactly if it lies in the ending that fits.
  lemma KeptAt(all: seq<Entry>, budget: nat, p: nat)
    requires Distinct(all) && p < |all|
    ensures Has(Fit(all, budget), all[p].key) <==> Total(all[p..]) <= budget
  {
    FitIsSuffix(all, budget);
    var r := Fit(all, budget);
    var e := |all| - |r|;
    if p >= e {
      assert r[p - e] == all[p];
    } else {
      forall k | 0 <= k < |r|
        ensures r[k].key != all[p].key
      {
        assert r[k] == all[e + k];
      }
    }
  }

  lemma NewsApart(s: seq<Entry>, file: string, content: Bytes, first: nat, last: nat)
    requires Distinct(s) && first <= last
    ensures Distinct(s + News(file, content, Missing(s, file, first, last + 1)))
  {
    var missing := Missing(s, file, first, last + 1);
    NewsDistinct(file, content, missing);
    var news := News(file, content, missing);
    forall i, k | 0 <= i < |s| && 0 <= k < |news|
      ensures s[i].key != news[k].key
    {
      var j :| 0 <= j < |missing| && missing[j] == news[k].key.1;
      assert !Has(s, (file, missing[j]));
    }
  }

  // Every needed block lies at or behind the oldest one, in the cache or among what is fetched.
  lemma NeededBehind(s: seq<Entry>, file: string, content: Bytes, first: nat, last: nat, i: nat) returns (p: nat)
    requires first <= i <= last && Block(content, i) != []
    ensures var all := s + News(file, content, Missing(s, file, first, last + 1));
      Oldest(s, file, first, last) <= p < |all| && all[p].key == (file, i)
  {
    hide News, Missing, Oldest, Block;
    var missing := Missing(s, file, first, last + 1);
    var news := News(file, content, missing);
    if Has(s, (file, i)) {
      p := Find(s, (file, i));
      assert Needed(s[p].key, file, first, last);
    } else {
      var k :| 0 <= k < |missing| && missing[k] == i;
      NewsHas(file, content, missing, k);
      var j :| 0 <= j < |news| && news[j].key == (file, i);
      p := |s| + j;
    }
  }

  // The oldest of the needed blocks, in the cache or else the first that is fetched.
  lemma OldestNeeded(s: seq<Entry>, file: string, content: Bytes, first: nat, last: nat)
    requires first <= last && forall i :: first <= i <= last ==> Block(content, i) != []
    ensures var p, all := Oldest(s, file, first, last), s + News(file, content, Missing(s, file, first, last + 1));
      p < |all| && Needed(all[p].key, file, first, last)
  {
    var p, news := Oldest(s, file, first, last), News(file, content, Missing(s, file, first, last + 1));
    var q := NeededBehind(s, file, content, first, last, first);
    if p == |s| {
      assert news[0] in news;
    }
  }

  lemma DropOfSum<T>(s: seq<T>, t: seq<T>, p: nat)
    requires p <= |s|
    ensures (s + t)[p..] == s[p..] + t
  {}

  /** After the fetch all needed blocks are there exactly if there was room. */
  lemma RoomDecides(s: seq<Entry>, file: string, content: Bytes, first: nat, last: nat, budget: nat)
    requires Distinct(s) && first <= last && forall i :: first <= i <= last ==> Block(content, i) != []
    ensures var news := News(file, content, Missing(s, file, first, last + 1));
      (forall i :: first <= i <= last ==> Has(Fit(s + news, budget), (file, i))) <==>
      Total(s[Oldest(s, file, first, last)..]) + Total(news) <= budget
  {
    hide *;
    var news := News(file, content, Missing(s, file, first, last + 1));
    var p, all := Oldest(s, file, first, last), s + news;
    NewsApart(s, file, content, first, last);
    OldestNeeded(s, file, content, first, last);
    TotalSum(s[p..], news);
    DropOfSum(s, news, p);
    KeptAt(all, budget, p);
    if Total(all[p..]) <= budget {
      forall i | first <= i <= last
        ensures Has(Fit(all, budget), (file, i))
      {
        var q := NeededBehind(s, file, content, first, last, i);
        KeptBehind(all, budget, p, q);
      }
    } else {
      NeededKey(all[p].key, file, first, last);
    }
  }

  lemma NeededKey(key: Key, file: string, first: nat, last: nat)
    requires Needed(key, file, first, last)
    ensures first <= key.1 <= last && key == (file, key.1)
  {}

  lemma KeptBehind(all: seq<Entry>, budget: nat, p: nat, q: nat)
    requires Distinct(all) && p <= q < |all| && Total(all[p..]) <= budget
    ensures Has(Fit(all, budget), all[q].key)
  {
    KeptAt(all, budget, q);
    TotalSum(all[p..q], all[q..]);
    assert all[p..][..q - p] == all[p..q] && all[p..][q - p..] == all[q..];
    assert all[p..] == all[p..][..q - p] + all[p..][q - p..];
  }

  /** A full cache cuts a read short: of the two blocks that are needed, the one that is cached is the oldest entry,
      and fetching the other one evicts it. */
  method FullCacheCutsShort(cache: Cache, content: Bytes, others: seq<Entry>, ghost files: string -> Bytes,
                            remote: string -> Bytes)
    returns (out: Bytes)
    requires cache.Valid() && cache.Right(files) && |content| == BLOCK + 1 && remote("f") == files("f") == content
    requires cache.entries == [Entry(("f", 1), Block(content, 1))] + others && cache.budget == Total(others) + 1
    requires forall e :: e in others ==> e.key.0 != "f"
    modifies cache
    ensures out < Clip(content, BLOCK - 1, 2)
  {
    hide Clip, Room;
    assert |Clip(content, BLOCK - 1, 2)| == 2 by { TwoBytes(content); }
    NoRoom(content, others);
    out := cache.ReadAt("f", BLOCK - 1, 2, |content|, None, files, remote);
  }

  lemma TwoBytes(content: Bytes)
    requires |content| == BLOCK + 1
    ensures |Clip(content, BLOCK - 1, 2)| == 2
  {}

  lemma NoRoom(content: Bytes, others: seq<Entry>)
    requires |content| == BLOCK + 1 && forall e :: e in others ==> e.key.0 != "f"
    ensures !Room([Entry(("f", 1), Block(content, 1))] + others, "f", content, BLOCK - 1, 2, Total(others) + 1)
  {
    hide Missing, News, Find, Oldest, Room;
    var s := [Entry(("f", 1), Block(content, 1))] + others;
    assert Needed(s[0].key, "f", 0, 1) && s[0..] == s && s[1..] == others;
    assert |Block(content, 1)| == 1 && Total(s) == 1 + Total(others);
    OneFetched(content, s);
    RoomOver(s, "f", content, BLOCK - 1, 2, 0, 1, Total(others) + 1);
  }

  lemma OneFetched(content: Bytes, s: seq<Entry>)
    requires |content| == BLOCK + 1 && |s| > 0 && s[0].key == ("f", 1) && forall i :: 0 < i < |s| ==> s[i].key.0 != "f"
    ensures Missing(s, "f", 0, 2) == [0] && Total(News("f", content, [0])) == BLOCK
  {
    hide Find;
    assert Has(s, ("f", 1)) && !Has(s, ("f", 0));
    assert Missing(s, "f", 0, 0) == [];
    assert Missing(s, "f", 0, 1) == [] + [0] == [0];
    assert Missing(s, "f", 0, 2) == [0] + [];
    hide Missing;
    assert [0 as nat][..0] == [];
    assert News("f", content, [0]) == [] + [Entry(("f", 0), Block(content, 0))];
    assert |Block(content, 0)| == BLOCK;
    assert [Entry(("f", 0), Block(content, 0))][1..] == [];
  }
}
