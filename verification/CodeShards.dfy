/** codeSomeShards and its parallel forms: whatever path the options choose, output i ends up as the
    combination of the inputs with matrix row i. */
module CodeShards {
  import opened Wrappers
  import opened Galois
  import opened LinearAlgebra
  import opened Kernels
  import opened Coding
  import opened Avx2
  import opened Plan
  import opened Avx512
  import opened Parallel
  import opened TablePool
  import opened TableUse

  // All bytes done is the combination itself.
  lemma HoldsAll(row: Vec, data: Mat, bytes: seq<byte>)
    requires IsMat(data, |row|, |bytes|) && HoldsIn(row, data, bytes, 0, |bytes|, |row|)
    ensures bytes == Comb(row, data, |bytes|)
  {
    hide CombTo;
    assert forall j :: 0 <= j < |bytes| ==> bytes[j] == Partial(row, data, |bytes|, |row|, j);
  }

  // What a vector prefix 0..start left over, in one tile.
  method CodeTail(rows: seq<Vec>, inputs: seq<array<byte>>, outputs: seq<array<byte>>, start: nat, byteCount: nat,
                  o: Options)
    requires Buffers(inputs, outputs, byteCount) && Rowed(rows, |outputs|, |inputs|) && start <= byteCount
    requires forall i :: 0 <= i < |outputs| ==> Holds(rows[i], Contents(inputs), outputs[i], 0, start, |inputs|)
    modifies outputs
    ensures Contents(inputs) == old(Contents(inputs))
    ensures forall i :: 0 <= i < |outputs| ==> Holds(rows[i], Contents(inputs), outputs[i], 0, byteCount, |inputs|)
  {
    hide HoldsIn;
    if start >= byteCount {
      return;
    }
    ghost var data, before := Contents(inputs), Contents(outputs);
    CodeTile(rows, inputs, outputs, start, byteCount, o, byteCount);
    Extend(rows, data, outputs, before, 0, start, byteCount, byteCount);
  }

  // One block, with its tables in the given slice.
  method CodeOneBlock(rows: seq<Vec>, inputs: seq<array<byte>>, outputs: seq<array<byte>>, b: Block, byteCount: nat,
                      dst: Window)
    returns (m: Window)
    requires Buffers(inputs, outputs, byteCount) && Rowed(rows, |outputs|, |inputs|) && Fits(b, |inputs|, |outputs|)
    requires dst.Inside() && dst.base !in inputs && dst.base !in outputs
    requires b.inIdx > 0 ==> forall i :: 0 <= i < |outputs| && Covers(b, i) ==>
      Holds(rows[i], Contents(inputs), outputs[i], 0, Whole(byteCount), b.inIdx)
    modifies outputs, dst.base
    ensures Contents(inputs) == old(Contents(inputs))
    ensures forall i :: 0 <= i < |outputs| && Covers(b, i) ==>
      Holds(rows[i], Contents(inputs), outputs[i], 0, Whole(byteCount), b.inIdx + b.inputs)
    ensures forall i :: 0 <= i < |outputs| && !Covers(b, i) ==> outputs[i][..] == old(outputs[i][..])
    ensures m.Inside() && (m.base == dst.base || fresh(m.base))
    ensures m.len == TableBytes(b.inputs, b.outputs)
    ensures m.Cap() == if dst.Cap() < m.len then m.len else dst.Cap()
  {
    hide HoldsIn, Laid, Coefficients, TableBytes;
    ghost var data, before := Contents(inputs), Contents(outputs);
    m := GenAvx2Matrix(Coefficients(rows, b), b.inputs, b.outputs, dst);
    assert Contents(inputs) == data && Contents(outputs) == before;
    var _ := Avx2Kernel(m.base[m.off..m.off + m.len], rows, inputs, outputs, b, 0, byteCount, byteCount);
  }

  // Inputs inIdx.. (at most ten) into all outputs, ten outputs at a time.
  method CodeBlockColumn(rows: seq<Vec>, inputs: seq<array<byte>>, outputs: seq<array<byte>>, inIdx: nat, inPer: nat,
                         byteCount: nat,
                         dst: Window) returns (m: Window)
    requires Buffers(inputs, outputs, byteCount) && Rowed(rows, |outputs|, |inputs|) && 0 < inPer &&
      inIdx + inPer <= |inputs|
    requires dst.Inside() && dst.base !in inputs && dst.base !in outputs
    requires inIdx > 0 ==> forall i :: 0 <= i < |outputs| ==>
      Holds(rows[i], Contents(inputs), outputs[i], 0, Whole(byteCount), inIdx)
    modifies outputs, dst.base
    ensures Contents(inputs) == old(Contents(inputs))
    ensures forall i :: 0 <= i < |outputs| ==>
      Holds(rows[i], Contents(inputs), outputs[i], 0, Whole(byteCount), inIdx + inPer)
    ensures m.Inside() && (m.base == dst.base || fresh(m.base))
  {
    hide HoldsIn, Laid, Coefficients, Whole, TableBytes;
    ghost var data := Contents(inputs);
    var outIdx := 0;
    m := dst;
    while outIdx < |outputs|
      invariant outIdx <= |outputs| && Contents(inputs) == data
      invariant m.Inside() && (m.base == dst.base || fresh(m.base))
      invariant forall i :: 0 <= i < outIdx ==> Holds(rows[i], data, outputs[i], 0, Whole(byteCount), inIdx + inPer)
      invariant inIdx > 0 ==> forall i :: outIdx <= i < |outputs| ==>
        Holds(rows[i], data, outputs[i], 0, Whole(byteCount), inIdx)
    {
      var outPer := Least(|outputs| - outIdx, MAX_OUTPUTS);
      var b := Block(inIdx, inPer, outIdx, outPer);
      m := CodeOneBlock(rows, inputs, outputs, b, byteCount, m);
      outIdx := outIdx + outPer;
    }
  }

  // The blocks of ten inputs by ten outputs, inputs outermost; then the tail.
  method CodeBlocks(rows: seq<Vec>, inputs: seq<array<byte>>, outputs: seq<array<byte>>, byteCount: nat, o: Options,
                    dst: Window)
    requires Buffers(inputs, outputs, byteCount) && Rowed(rows, |outputs|, |inputs|)
    requires dst.Inside() && dst.base !in inputs && dst.base !in outputs
    modifies outputs, dst.base
    ensures Contents(inputs) == old(Contents(inputs))
    ensures forall i :: 0 <= i < |outputs| ==> Holds(rows[i], Contents(inputs), outputs[i], 0, byteCount, |inputs|)
  {
    hide HoldsIn;
    ghost var data := Contents(inputs);
    var inIdx := 0;
    var m := dst;
    while inIdx < |inputs|
      invariant inIdx <= |inputs| && Contents(inputs) == data
      invariant m.Inside() && (m.base == dst.base || fresh(m.base))
      invariant inIdx > 0 ==> forall i :: 0 <= i < |outputs| ==>
        Holds(rows[i], data, outputs[i], 0, Whole(byteCount), inIdx)
    {
      var inPer := Least(|inputs| - inIdx, MAX_INPUTS);
      m := CodeBlockColumn(rows, inputs, outputs, inIdx, inPer, byteCount, m);
      inIdx := inIdx + inPer;
    }
    CodeTail(rows, inputs, outputs, Whole(byteCount), byteCount, o);
  }

  // No goroutines: an AVX2 prefix, AVX2 blocks, or tiles of perRound bytes.
  method CodeSerial(rows: seq<Vec>, inputs: seq<array<byte>>, outputs: seq<array<byte>>, byteCount: nat, o: Options,
                    pool: Pool)
    requires Buffers(inputs, outputs, byteCount) && Rowed(rows, |outputs|, |inputs|) && o.perRound >= 1 &&
      pool.shelf.Sound()
    requires byteCount <= o.minSplitSize && |outputs| > 0 && !(o.useAVX512 && |inputs| >= 4 && |outputs| >= 2)
    modifies outputs, pool
    ensures Contents(inputs) == old(Contents(inputs))
    ensures forall i :: 0 <= i < |outputs| ==> Holds(rows[i], Contents(inputs), outputs[i], 0, byteCount, |inputs|)
    ensures pool.shelf.Sound() && pool.shelf == ShelfAfter(old(pool.shelf), o, byteCount, |inputs|, |outputs|)
  {
    hide HoldsIn, Laid, Coefficients, TableBytes;
    if CanAvx2(o, byteCount, |inputs|, |outputs|) {
      var b := Block(0, |inputs|, 0, |outputs|);
      var m := pool.Get();
      m := CodeOneBlock(rows, inputs, outputs, b, byteCount, m);
      pool.Put(m);
      CodeTail(rows, inputs, outputs, Whole(byteCount), byteCount, o);
    } else if |inputs| + |outputs| > CODE_GEN_MIN_SHARDS && CanAvx2(o, byteCount, MAX_INPUTS, MAX_OUTPUTS) {
      var m := pool.Get();
      CodeBlocks(rows, inputs, outputs, byteCount, o, m);
      pool.Put(m);
    } else {
      CodeRange(rows, inputs, outputs, 0, byteCount, o, byteCount);
    }
  }

  // The goroutine body of codeSomeShardsAVXP on lo..hi: the plan where a tile has a whole block,
  // plain tiles for what is left.
  method ExecPlanned(plan: seq<Step>, rows: seq<Vec>, inputs: seq<array<byte>>, outputs: seq<array<byte>>, lo: nat,
                     hi: nat, o: Options, ghost w: nat)
    requires Buffers(inputs, outputs, w) && Rowed(rows, |outputs|, |inputs|) && lo <= hi <= w && o.perRound >= 1
    requires Valid(plan, rows, |inputs|, |outputs|) && forall i :: 0 <= i < |outputs| ==> After(plan, i) == |inputs|
    modifies outputs
    ensures Contents(inputs) == old(Contents(inputs))
    ensures forall i :: 0 <= i < |outputs| ==> Holds(rows[i], Contents(inputs), outputs[i], lo, hi, |inputs|)
    ensures forall i, j :: 0 <= i < |outputs| && 0 <= j < w && !(lo <= j < hi) ==> outputs[i][j] == old(outputs[i][j])
  {
    hide HoldsIn, Valid, After;
    ghost var data := Contents(inputs);
    var lstart, lstop := lo, lo + o.perRound;
    if lstop > hi {
      lstop := hi;
    }
    EmptyRange(rows, data, outputs, lo, w);
    while lstart < hi
      invariant lo <= lstart <= lstop <= hi && (lstart < hi ==> lstart < lstop)
      invariant Contents(inputs) == data
      invariant forall i :: 0 <= i < |outputs| ==> Holds(rows[i], data, outputs[i], lo, lstart, |inputs|)
      invariant forall i, j :: 0 <= i < |outputs| && 0 <= j < w && !(lo <= j < hi) ==>
        outputs[i][j] == old(outputs[i][j])
      decreases hi - lstart
    {
      if lstop - lstart >= MIN_SIZE {
        ExecuteMore(plan, rows, inputs, outputs, lo, lstart, lstop, w);
        lstart := lstart + Whole(lstop - lstart);
        if lstart == lstop {
          lstop := lstop + o.perRound;
          if lstop > hi {
            lstop := hi;
          }
          continue;
        }
      }
      CodeMore(rows, inputs, outputs, lo, lstart, lstop, o, w);
      lstart := lstop;
      lstop := lstop + o.perRound;
      if lstop > hi {
        lstop := hi;
      }
    }
  }

  // With lo..start done, the plan does the whole blocks of start..stop;
  method ExecuteMore(plan: seq<Step>, rows: seq<Vec>, inputs: seq<array<byte>>, outputs: seq<array<byte>>,
                     ghost lo: nat, start: nat, stop: nat, ghost w: nat)
    requires Buffers(inputs, outputs, w) && Rowed(rows, |outputs|, |inputs|) && lo <= start <= stop <= w
    requires Valid(plan, rows, |inputs|, |outputs|) && forall i :: 0 <= i < |outputs| ==> After(plan, i) == |inputs|
    requires forall i :: 0 <= i < |outputs| ==> Holds(rows[i], Contents(inputs), outputs[i], lo, start, |inputs|)
    modifies outputs
    ensures Contents(inputs) == old(Contents(inputs))
    ensures forall i :: 0 <= i < |outputs| ==>
      Holds(rows[i], Contents(inputs), outputs[i], lo, start + Whole(stop - start), |inputs|)
    ensures forall i, j :: 0 <= i < |outputs| && 0 <= j < w && !(start <= j < start + Whole(stop - start)) ==>
      outputs[i][j] == old(outputs[i][j])
  {
    hide HoldsIn, Valid, After;
    ghost var before := Contents(outputs);
    ExecutePlan(plan, rows, inputs, outputs, start, stop, w);
    Extend(rows, Contents(inputs), outputs, before, lo, start, start + Whole(stop - start), w);
  }

  // plain tiles do all of it.
  method CodeMore(rows: seq<Vec>, inputs: seq<array<byte>>, outputs: seq<array<byte>>, ghost lo: nat, start: nat,
                  stop: nat, o: Options, ghost w: nat)
    requires Buffers(inputs, outputs, w) && Rowed(rows, |outputs|, |inputs|) && lo <= start <= stop <= w
    requires forall i :: 0 <= i < |outputs| ==> Holds(rows[i], Contents(inputs), outputs[i], lo, start, |inputs|)
    modifies outputs
    ensures Contents(inputs) == old(Contents(inputs))
    ensures forall i :: 0 <= i < |outputs| ==> Holds(rows[i], Contents(inputs), outputs[i], lo, stop, |inputs|)
    ensures forall i, j :: 0 <= i < |outputs| && 0 <= j < w && !(start <= j < stop) ==>
      outputs[i][j] == old(outputs[i][j])
  {
    hide HoldsIn;
    ghost var before := Contents(outputs);
    CodeTile(rows, inputs, outputs, start, stop, o, w);
    Extend(rows, Contents(inputs), outputs, before, lo, start, stop, w);
  }

  lemma EmptyRange(rows: seq<Vec>, data: Mat, outputs: seq<array<byte>>, lo: nat, w: nat)
    requires lo <= w && Rowed(rows, |outputs|, |data|) && IsMat(data, |data|, w)
    requires forall i :: 0 <= i < |outputs| ==> outputs[i].Length == w
    ensures forall i :: 0 <= i < |outputs| ==> Holds(rows[i], data, outputs[i], lo, lo, |data|)
  {}

  // What a goroutine of the other two parallel forms runs.
  datatype Body = Planned(plan: seq<Step>) | Wide

  ghost predicate BodyOk(body: Body, rows: seq<Vec>, inputs: nat, outputs: nat)
    requires Rowed(rows, outputs, inputs)
  {
    body.Planned? ==>
      Valid(body.plan, rows, inputs, outputs) && forall i :: 0 <= i < outputs ==> After(body.plan, i) == inputs
  }

  method Exec(body: Body, rows: seq<Vec>, inputs: seq<array<byte>>, outputs: seq<array<byte>>, lo: nat, hi: nat,
              o: Options, ghost w: nat)
    requires Buffers(inputs, outputs, w) && Rowed(rows, |outputs|, |inputs|) && lo <= hi <= w && o.perRound >= 1
    requires BodyOk(body, rows, |inputs|, |outputs|)
    modifies outputs
    ensures Contents(inputs) == old(Contents(inputs))
    ensures forall i :: 0 <= i < |outputs| ==> Holds(rows[i], Contents(inputs), outputs[i], lo, hi, |inputs|)
    ensures forall i, j :: 0 <= i < |outputs| && 0 <= j < w && !(lo <= j < hi) ==> outputs[i][j] == old(outputs[i][j])
  {
    match body
    case Planned(plan) => ExecPlanned(plan, rows, inputs, outputs, lo, hi, o, w);
    case Wide => CodeRange512(rows, inputs, outputs, lo, hi, o, w);
  }

  // The goroutines of the other two parallel forms, in any order.
  method RunAnyOrder(body: Body, jobs: seq<Job>, rows: seq<Vec>, inputs: seq<array<byte>>, outputs: seq<array<byte>>,
                     o: Options, ghost w: nat)
    requires Buffers(inputs, outputs, w) && Rowed(rows, |outputs|, |inputs|) && o.perRound >= 1 && Partition(jobs, w)
    requires BodyOk(body, rows, |inputs|, |outputs|)
    modifies outputs
    ensures Contents(inputs) == old(Contents(inputs))
    ensures forall i :: 0 <= i < |outputs| ==> Holds(rows[i], Contents(inputs), outputs[i], 0, w, |inputs|)
  {
    hide BodyOk, Partial, Below;
    ghost var data := Contents(inputs);
    var pending: set<nat> := Below(|jobs|);
    while pending != {}
      invariant Contents(inputs) == data
      invariant forall g :: g in pending ==> 0 <= g < |jobs|
      invariant forall g, i :: 0 <= g < |jobs| && g !in pending && 0 <= i < |outputs| ==>
        HoldsIn(rows[i], data, outputs[i][..], jobs[g].lo, jobs[g].hi, |inputs|)
      decreases |pending|
    {
      var g: nat :| g in pending;
      ghost var before := Contents(outputs);
      Exec(body, rows, inputs, outputs, jobs[g].lo, jobs[g].hi, o, w);
      forall h, i | 0 <= h < |jobs| && h !in pending && 0 <= i < |outputs|
        ensures HoldsIn(rows[i], data, outputs[i][..], jobs[h].lo, jobs[h].hi, |inputs|)
      {
        assert jobs[h].hi <= jobs[g].lo || jobs[g].hi <= jobs[h].lo;
        assert HoldsIn(rows[i], data, before[i], jobs[h].lo, jobs[h].hi, |inputs|);
      }
      pending := pending - {g};
    }
    forall i | 0 <= i < |outputs|
      ensures Holds(rows[i], data, outputs[i], 0, w, |inputs|)
    {
      forall j | 0 <= j < w
        ensures outputs[i][..][j] == Partial(rows[i], data, w, |inputs|, j)
      {
        var g := JobOf(jobs, w, j, 0);
        assert HoldsIn(rows[i], data, outputs[i][..], jobs[g].lo, jobs[g].hi, |inputs|);
      }
    }
  }

  function JobSize(byteCount: nat, o: Options): (r: nat)
    requires Tuned(o)
    ensures r > 0
  {
    var do_ := byteCount / o.maxGoroutines;
    if do_ < o.minSplitSize then o.minSplitSize else do_
  }

  /** The planned form: it panics, before any output changes, exactly if the slice it draws is shorter than
      all tables together. */
  method CodeSomeShardsAvxP(rows: seq<Vec>, inputs: seq<array<byte>>, outputs: seq<array<byte>>, byteCount: nat,
                            o: Options, pool: Pool)
    returns (panics: bool)
    requires Buffers(inputs, outputs, byteCount) && Rowed(rows, |outputs|, |inputs|) && Tuned(o) && pool.shelf.Sound()
    modifies outputs, pool
    ensures Contents(inputs) == old(Contents(inputs))
    ensures panics <==> old(pool.shelf).Next().len < TableBytes(|inputs|, |outputs|)
    ensures panics ==> Contents(outputs) == old(Contents(outputs))
    ensures !panics ==> forall i :: 0 <= i < |outputs| ==>
      Holds(rows[i], Contents(inputs), outputs[i], 0, byteCount, |inputs|)
    ensures pool.shelf.Sound() && pool.shelf == old(pool.shelf).Taken().PutBack(old(pool.shelf).Next())
  {
    hide HoldsIn, TableBytes;
    var tmp := pool.Get();
    var plan, at;
    panics, plan, at := MakePlan(rows, |inputs|, |outputs|, tmp);
    if !panics {
      if o.maxGoroutines == 1 {
        ExecPlanned(plan, rows, inputs, outputs, 0, byteCount, o, byteCount);
      } else {
        var jobs := SplitJobs(byteCount, RoundUp64(JobSize(byteCount, o)));
        RunAnyOrder(Body.Planned(plan), jobs, rows, inputs, outputs, o, byteCount);
      }
    }
    pool.Put(tmp);
  }

  method CodeSomeShardsP(rows: seq<Vec>, inputs: seq<array<byte>>, outputs: seq<array<byte>>, byteCount: nat,
                         o: Options, pool: Pool)
    returns (panics: bool)
    requires Buffers(inputs, outputs, byteCount) && |outputs| > 0 && Rowed(rows, |outputs|, |inputs|) && Tuned(o) &&
      pool.shelf.Sound()
    requires byteCount > o.minSplitSize && !(o.useAVX512 && |inputs| >= 4 && |outputs| >= 2)
    modifies outputs, pool
    ensures Contents(inputs) == old(Contents(inputs))
    ensures panics <==> PoolPanics(old(pool.shelf), o, byteCount, |inputs|, |outputs|)
    ensures panics ==> Contents(outputs) == old(Contents(outputs))
    ensures !panics ==> forall i :: 0 <= i < |outputs| ==>
      Holds(rows[i], Contents(inputs), outputs[i], 0, byteCount, |inputs|)
    ensures pool.shelf.Sound() && pool.shelf == ShelfAfter(old(pool.shelf), o, byteCount, |inputs|, |outputs|)
  {
    hide HoldsIn, Laid, Coefficients, TableBytes;
    if CanAvx2(o, byteCount, |inputs|, |outputs|) {
      var m := pool.Get();
      m := GenAvx2Matrix(Coefficients(rows, Block(0, |inputs|, 0, |outputs|)), |inputs|, |outputs|, m);
      var jobs := JobsOf(byteCount, o);
      RunInterleaved(jobs, m.base[m.off..m.off + m.len], true, rows, inputs, outputs, o, byteCount);
      pool.Put(m);
      return false;
    }
    if byteCount < PLAN_LIMIT && |inputs| + |outputs| > CODE_GEN_MIN_SHARDS &&
      CanAvx2(o, byteCount / 4, MAX_INPUTS, MAX_OUTPUTS) {
      panics := CodeSomeShardsAvxP(rows, inputs, outputs, byteCount, o, pool);
      return;
    }
    var jobs := JobsOf(byteCount, o);
    RunInterleaved(jobs, [], false, rows, inputs, outputs, o, byteCount);
    return false;
  }

  // One interval for a single goroutine, else one for each.
  method JobsOf(byteCount: nat, o: Options) returns (jobs: seq<Job>)
    requires Tuned(o)
    ensures Partition(jobs, byteCount)
  {
    jobs := SplitJobs(byteCount, if o.maxGoroutines <= 1 then byteCount + 1 else RoundUp64(JobSize(byteCount, o)));
  }

  /** Every path that does not panic: output i is the combination of the inputs with row i. */
  method CodeSomeShards(rows: seq<Vec>, inputs: seq<array<byte>>, outputs: seq<array<byte>>, byteCount: nat, o: Options,
                        pool: Pool)
    returns (panics: bool)
    requires Buffers(inputs, outputs, byteCount) && Rowed(rows, |outputs|, |inputs|) && Tuned(o) && pool.shelf.Sound()
    modifies outputs, pool
    ensures Contents(inputs) == old(Contents(inputs))
    ensures panics <==> PoolPanics(old(pool.shelf), o, byteCount, |inputs|, |outputs|)
    ensures panics ==> Contents(outputs) == old(Contents(outputs))
    ensures !panics ==> forall i :: 0 <= i < |outputs| ==> outputs[i][..] == Comb(rows[i], Contents(inputs), byteCount)
    ensures pool.shelf.Sound() && pool.shelf == ShelfAfter(old(pool.shelf), o, byteCount, |inputs|, |outputs|)
  {
    hide HoldsIn, Comb, TableBytes;
    panics := false;
    if |outputs| == 0 {
      return;
    }
    ghost var data := Contents(inputs);
    if o.useAVX512 && o.maxGoroutines > 1 && byteCount > o.minSplitSize && |inputs| >= 4 && |outputs| >= 2 {
      var jobs := SplitJobs(byteCount, RoundUp64(JobSize(byteCount, o)));
      RunAnyOrder(Wide, jobs, rows, inputs, outputs, o, byteCount);
    } else if o.useAVX512 && |inputs| >= 4 && |outputs| >= 2 {
      CodeRange512(rows, inputs, outputs, 0, byteCount, o, byteCount);
    } else if byteCount > o.minSplitSize {
      panics := CodeSomeShardsP(rows, inputs, outputs, byteCount, o, pool);
      if panics {
        return;
      }
    } else {
      CodeSerial(rows, inputs, outputs, byteCount, o, pool);
    }
    forall i | 0 <= i < |outputs|
      ensures outputs[i][..] == Comb(rows[i], data, byteCount)
    {
      assert Holds(rows[i], data, outputs[i], 0, byteCount, |inputs|);
      HoldsAll(rows[i], data, outputs[i][..]);
    }
  }
}
