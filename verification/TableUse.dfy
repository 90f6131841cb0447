/** What coding calls do with the pool of coefficient tables, over whole sequences of calls.

    The single-block path puts its slice back as short as the table it wrote.  The planned path cuts its
    slice table by table and panics when it drew one that is too short. */
module TableUse {
  import opened Wrappers
  import opened Kernels
  import opened Avx2
  import opened TablePool

  datatype Route = NoTables | OneBlock | ManyBlocks | Planned

  const PLAN_LIMIT := 10485760

  // Which path codeSomeShards takes, as far as tables are concerned.
  function RouteOf(o: Options, byteCount: nat, inputs: nat, outputs: nat): Route {
    if outputs == 0 || (o.useAVX512 && inputs >= 4 && outputs >= 2) then NoTables
    else if CanAvx2(o, byteCount, inputs, outputs) then OneBlock
    else if inputs + outputs <= CODE_GEN_MIN_SHARDS then NoTables
    else if byteCount > o.minSplitSize then
      if byteCount < PLAN_LIMIT && CanAvx2(o, byteCount / 4, MAX_INPUTS, MAX_OUTPUTS) then Planned else NoTables
    else if CanAvx2(o, byteCount, MAX_INPUTS, MAX_OUTPUTS) then ManyBlocks
    else NoTables
  }

  predicate PoolPanics(s: Shelf, o: Options, byteCount: nat, inputs: nat, outputs: nat) {
    RouteOf(o, byteCount, inputs, outputs) == Planned && s.Next().len < TableBytes(inputs, outputs)
  }

  // What the pool is after a coding call.
  function ShelfAfter(s: Shelf, o: Options, byteCount: nat, inputs: nat, outputs: nat): Shelf {
    match RouteOf(o, byteCount, inputs, outputs)
    case NoTables => s
    case OneBlock =>
      var want := TableBytes(inputs, outputs);
      s.Taken().PutBack(Held(want, if s.Next().cap < want then want else s.Next().cap))
    case ManyBlocks => s.Taken().PutBack(s.Next())
    case Planned => s.Taken().PutBack(s.Next())
  }

  // ---- sequences of calls on one encoder ----

  datatype Call = Call(byteCount: nat, outputs: nat)

  // The pool after the calls; None if one of them panics.
  function Run(s: Shelf, o: Options, inputs: nat, calls: seq<Call>): Option<Shelf>
    decreases |calls|
  {
    if |calls| == 0 then Some(s)
    else if PoolPanics(s, o, calls[0].byteCount, inputs, calls[0].outputs) then None
    else Run(ShelfAfter(s, o, calls[0].byteCount, inputs, calls[0].outputs), o, inputs, calls[1..])
  }

  /** The encoders for which some sequence of calls panics: at most ten data shards, more than ten parity
      shards, AVX2 in use and not pre-empted by AVX512, and a split size that leaves the planned path open. */
  predicate Fragile(o: Options, data: nat, parity: nat) {
    && o.useAVX2 && data <= MAX_INPUTS && parity > MAX_OUTPUTS && !(o.useAVX512 && data >= 4)
    && o.minSplitSize + 1 < PLAN_LIMIT
  }

  // Nothing is cut short as long as there are too many data shards for a single block.
  ghost predicate Stocked(s: Shelf, data: nat, parity: nat) {
    && s.size == TableBytes(data, parity) && s.Sound()
    && (data > MAX_INPUTS ==> forall h :: h in s.held ==> h.len == s.size)
  }

  lemma StockedSound(s: Shelf, data: nat, parity: nat)
    requires Stocked(s, data, parity)
    ensures s.Sound()
  {}

  lemma StaysStocked(s: Shelf, o: Options, byteCount: nat, data: nat, parity: nat, outputs: nat)
    requires Stocked(s, data, parity)
    ensures Stocked(ShelfAfter(s, o, byteCount, data, outputs), data, parity)
  {
    hide TableBytes;
  }

  lemma NoMoreBytes(data: nat, outputs: nat, parity: nat)
    requires outputs <= parity
    ensures TableBytes(data, outputs) <= TableBytes(data, parity)
    ensures outputs < parity && data > 0 ==> TableBytes(data, outputs) < TableBytes(data, parity)
  {
    assert data * outputs <= data * parity;
    assert outputs < parity && data > 0 ==> data * outputs < data * parity;
  }

  // One call panics only with a fragile encoder.
  lemma OnlyFragile(s: Shelf, o: Options, byteCount: nat, data: nat, parity: nat, outputs: nat)
    requires Stocked(s, data, parity) && outputs <= parity && PoolPanics(s, o, byteCount, data, outputs)
    ensures Fragile(o, data, parity)
  {
    hide TableBytes;
    NoMoreBytes(data, outputs, parity);
  }

  /** No sequence of calls panics with any other encoder, whatever the pool gives; */
  lemma {:induction false} NoRunPanics(s: Shelf, o: Options, data: nat, parity: nat, calls: seq<Call>)
    requires Stocked(s, data, parity) && !Fragile(o, data, parity)
    requires forall c :: c in calls ==> c.outputs <= parity
    ensures Run(s, o, data, calls).Some? && Stocked(Run(s, o, data, calls).value, data, parity)
    decreases |calls|
  {
    hide PoolPanics, ShelfAfter, Stocked, Fragile;
    if |calls| > 0 {
      var c := calls[0];
      if PoolPanics(s, o, c.byteCount, data, c.outputs) {
        OnlyFragile(s, o, c.byteCount, data, parity, c.outputs);
      }
      StaysStocked(s, o, c.byteCount, data, parity, c.outputs);
      NoRunPanics(ShelfAfter(s, o, c.byteCount, data, c.outputs), o, data, parity, calls[1..]);
    }
  }

  // A new encoder, with a pool that gives like that, panics in these calls.
  ghost predicate Breaks(o: Options, data: nat, parity: nat, reuse: nat -> Option<nat>, calls: seq<Call>) {
    && (forall c :: c in calls ==> c.outputs <= parity)
    && Run(Shelf(TableBytes(data, parity), reuse, 0, []), o, data, calls) == None
  }

  /** and with every fragile one two calls are enough: ten outputs, then more in the same slice. */
  lemma TwoCallsPanic(o: Options, data: nat, parity: nat, byteCount: nat, more: nat)
    requires Fragile(o, data, parity) && 0 < data && 256 <= byteCount < PLAN_LIMIT && byteCount > o.minSplitSize
    requires MAX_OUTPUTS < more <= parity
    ensures Breaks(o, data, parity, Eager(), [Call(byteCount, 10), Call(byteCount, more)])
  {
    var s0 := Shelf(TableBytes(data, parity), Eager(), 0, []);
    var s1 := ShelfAfter(s0, o, byteCount, data, 10);
    assert RouteOf(o, byteCount, data, 10) == OneBlock && RouteOf(o, byteCount, data, more) == Planned;
    NoMoreBytes(data, 10, more);
    assert s1.Next().len == TableBytes(data, 10) < TableBytes(data, more);
    var calls := [Call(byteCount, 10), Call(byteCount, more)];
    assert calls[1..] == [Call(byteCount, more)];
    assert Run(s1, o, data, calls[1..]) == None;
  }

  lemma FragileExactly(o: Options, data: nat, parity: nat)
    requires 0 < data
    ensures Fragile(o, data, parity) <==>
      exists reuse: nat -> Option<nat>, calls :: Breaks(o, data, parity, reuse, calls)
  {
    hide Breaks, Fragile;
    if Fragile(o, data, parity) {
      SplitsBelow(o, data, parity);
      TwoCallsPanic(o, data, parity, if o.minSplitSize < 256 then 256 else o.minSplitSize + 1, parity);
    }
    if exists reuse: nat -> Option<nat>, calls :: Breaks(o, data, parity, reuse, calls) {
      var reuse: nat -> Option<nat>, calls :| Breaks(o, data, parity, reuse, calls);
      BreaksFragile(o, data, parity, reuse, calls);
    }
  }

  lemma SplitsBelow(o: Options, data: nat, parity: nat)
    requires Fragile(o, data, parity)
    ensures o.minSplitSize + 1 < PLAN_LIMIT && parity > MAX_OUTPUTS
  {}

  lemma BreaksFragile(o: Options, data: nat, parity: nat, reuse: nat -> Option<nat>, calls: seq<Call>)
    requires Breaks(o, data, parity, reuse, calls)
    ensures Fragile(o, data, parity)
  {
    if !Fragile(o, data, parity) {
      NoRunPanics(Shelf(TableBytes(data, parity), reuse, 0, []), o, data, parity, calls);
    }
  }
}
