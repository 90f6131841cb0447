/** Splitting the byte range over goroutines.  `codeSomeShardsP` is run one innermost call at a
    time under an arbitrary schedule: whichever goroutine moves next, the outputs end up coded. */
module Parallel {
  import opened Galois
  import opened LinearAlgebra
  import opened Kernels
  import opened Coding
  import opened Avx2

  // ---- the split ----

  datatype Job = Job(lo: nat, hi: nat)

  // Consecutive non-empty intervals from 0 to n.
  ghost predicate Partition(jobs: seq<Job>, n: nat) {
    && (|jobs| == 0 <==> n == 0)
    && (|jobs| > 0 ==> jobs[0].lo == 0 && jobs[|jobs| - 1].hi == n)
    && (forall g :: 0 <= g < |jobs| ==> jobs[g].lo < jobs[g].hi <= n)
    && (forall g, h :: 0 <= g < h < |jobs| ==> jobs[g].hi <= jobs[h].lo)
    && (forall g :: 0 < g < |jobs| ==> jobs[g - 1].hi == jobs[g].lo)
  }

  // Sizes are rounded up to a multiple of 64 where the code does.
  function RoundUp64(x: nat): (r: nat)
    ensures x <= r < x + 64 && r % 64 == 0
  {
    (x + 63) / 64 * 64
  }

  method SplitJobs(byteCount: nat, size: nat) returns (jobs: seq<Job>)
    requires size > 0
    ensures Partition(jobs, byteCount)
  {
    jobs := [];
    assert Partition(jobs, 0);
    hide Partition;
    var do_, start := size, 0;
    while start < byteCount
      invariant start <= byteCount && do_ > 0
      invariant Partition(jobs, start)
    {
      if start + do_ > byteCount {
        do_ := byteCount - start;
      }
      AppendJob(jobs, start, start + do_);
      jobs := jobs + [Job(start, start + do_)];
      start := start + do_;
    }
  }

  lemma AppendJob(jobs: seq<Job>, n: nat, m: nat)
    requires Partition(jobs, n) && n < m
    ensures Partition(jobs + [Job(n, m)], m)
  {
    var r := jobs + [Job(n, m)];
    assert forall g :: 0 <= g < |jobs| ==> r[g] == jobs[g];
  }

  // Every byte belongs to a job.
  lemma {:induction false} JobOf(jobs: seq<Job>, n: nat, j: nat, g: nat) returns (r: nat)
    requires Partition(jobs, n) && j < n && g < |jobs| && jobs[g].lo <= j
    ensures r < |jobs| && jobs[r].lo <= j < jobs[r].hi
    decreases |jobs| - g
  {
    if j < jobs[g].hi {
      r := g;
    } else {
      assert g + 1 < |jobs|;
      assert jobs[g].hi == jobs[g + 1].lo;
      r := JobOf(jobs, n, j, g + 1);
    }
  }

  // ---- one goroutine ----

  // Where a goroutine is: its interval, its current tile, and the next call inside the tile.
  datatype Worker = Worker(lo: nat, hi: nat, begun: bool, lstart: nat, lstop: nat, c: nat, iRow: nat)

  predicate Finished(w: Worker) { w.begun && w.lstart >= w.hi }

  function Tile(w: Worker, lstart: nat, perRound: int): Worker
    requires perRound >= 1
  {
    w.(begun := true, lstart := lstart, lstop := if lstart + perRound > w.hi then w.hi
      else lstart + perRound, c := 0, iRow := 0)
  }

  ghost predicate WorkerInv(w: Worker, rows: seq<Vec>, data: Mat, outs: Mat, n: nat)
    requires IsMat(data, |data|, n) && IsMat(outs, |outs|, n) && Rowed(rows, |outs|, |data|)
  {
    && w.lo <= w.hi <= n
    && (!w.begun ==> w.c == w.iRow == 0)
    && (w.begun ==>
      && w.lo <= w.lstart <= w.lstop <= w.hi && (w.lstart < w.hi ==> w.lstart < w.lstop)
      && w.c < |data| && w.iRow < |outs|
      && (w.lstart >= w.hi ==> w.c == w.iRow == 0)
      && (forall i :: 0 <= i < |outs| ==> HoldsIn(rows[i], data, outs[i], w.lo, w.lstart, |data|))
      && (forall i :: 0 <= i < w.iRow ==> HoldsIn(rows[i], data, outs[i], w.lstart, w.lstop, w.c + 1))
      && (w.c > 0 ==> forall i :: w.iRow <= i < |outs| ==> HoldsIn(rows[i], data, outs[i], w.lstart, w.lstop, w.c)))
  }

  // A goroutine does not notice changes outside its interval.
  lemma WorkerKept(w: Worker, rows: seq<Vec>, data: Mat, before: Mat, after: Mat, n: nat)
    requires IsMat(data, |data|, n) && IsMat(before, |before|, n) && IsMat(after, |before|, n) &&
      Rowed(rows, |before|, |data|)
    requires WorkerInv(w, rows, data, before, n)
    requires forall i, j :: 0 <= i < |before| && w.lo <= j < w.hi ==> after[i][j] == before[i][j]
    ensures WorkerInv(w, rows, data, after, n)
  {
    hide Partial;
  }

  // After the last input of the last row: the tile is done and the next one begins.
  lemma TileDone(w: Worker, rows: seq<Vec>, data: Mat, outs: Mat, n: nat, perRound: int)
    requires IsMat(data, |data|, n) && IsMat(outs, |outs|, n) && Rowed(rows, |outs|, |data|) && |data| > 0 && |outs| > 0
    requires w.begun && w.lo <= w.lstart <= w.lstop <= w.hi <= n && perRound >= 1
    requires forall i :: 0 <= i < |outs| ==> HoldsIn(rows[i], data, outs[i], w.lo, w.lstart, |data|)
    requires forall i :: 0 <= i < |outs| ==> HoldsIn(rows[i], data, outs[i], w.lstart, w.lstop, |data|)
    ensures WorkerInv(Tile(w, w.lstop, perRound), rows, data, outs, n)
  {
    hide Partial;
  }

  // Work left, in calls: a tile of at least one byte is |inputs| * |outputs| calls.
  function Work(w: Worker, calls: nat): int {
    if !w.begun then (w.hi - w.lo) * (calls + 1) + 1 else (w.hi - w.lstart) * (calls + 1)
  }

  function Progress(w: Worker, outputs: nat): nat { w.c * outputs + w.iRow }

  function Left(w: Worker, inputs: nat, outputs: nat): int { Work(w, inputs * outputs) - Progress(w, outputs) }

  // The first call: an AVX2 prefix if there is one, then the first tile.
  method BeginWorker(w: Worker, m: seq<byte>, useAvx2: bool, rows: seq<Vec>, inputs: seq<array<byte>>,
                     outputs: seq<array<byte>>,
                     o: Options, ghost n: nat) returns (r: Worker)
    requires Buffers(inputs, outputs, n) && |outputs| > 0 && Rowed(rows, |outputs|, |inputs|) && o.perRound >= 1
    requires !w.begun && WorkerInv(w, rows, Contents(inputs), Contents(outputs), n)
    requires useAvx2 ==> Laid(m, Coefficients(rows, Block(0, |inputs|, 0, |outputs|)), |inputs|, |outputs|)
    modifies outputs
    ensures Contents(inputs) == old(Contents(inputs)) && r.lo == w.lo && r.hi == w.hi
    ensures WorkerInv(r, rows, Contents(inputs), Contents(outputs), n)
    ensures forall i, k :: 0 <= i < |outputs| && 0 <= k < n && !(w.lo <= k < w.hi) ==>
      outputs[i][k] == old(outputs[i][k])
    ensures r.begun && w.lo <= r.lstart <= r.hi && r.c == r.iRow == 0
  {
    hide Partial, Laid, Coefficients;
    var start := w.lo;
    if useAvx2 && w.hi - w.lo >= 64 {
      var done := Avx2Kernel(m, rows, inputs, outputs, Block(0, |inputs|, 0, |outputs|), w.lo, w.hi, n);
      start := start + done;
    }
    r := Tile(w, start, o.perRound);
  }

  // The next call: the next output row, the next input, or the next tile.
  function Next(w: Worker, inputs: nat, outputs: nat, perRound: int): Worker
    requires perRound >= 1
  {
    if w.iRow + 1 < outputs then w.(iRow := w.iRow + 1)
    else if w.c + 1 < inputs then w.(c := w.c + 1, iRow := 0)
    else Tile(w, w.lstop, perRound)
  }

  // Only row iRow changed, only inside the tile, and it now includes input c.
  ghost predicate Called(w: Worker, rows: seq<Vec>, data: Mat, before: Mat, after: Mat, n: nat)
    requires IsMat(data, |data|, n) && IsMat(before, |before|, n) && Rowed(rows, |before|, |data|)
    requires w.c < |data| && w.iRow < |before| && w.lstart <= w.lstop <= n
  {
    && IsMat(after, |before|, n)
    && (forall i :: 0 <= i < |before| && i != w.iRow ==> after[i] == before[i])
    && (forall k :: 0 <= k < n && !(w.lstart <= k < w.lstop) ==> after[w.iRow][k] == before[w.iRow][k])
    && HoldsIn(rows[w.iRow], data, after[w.iRow], w.lstart, w.lstop, w.c + 1)
  }

  lemma NextInv(w: Worker, rows: seq<Vec>, data: Mat, before: Mat, after: Mat, n: nat, perRound: int)
    requires IsMat(data, |data|, n) && IsMat(before, |before|, n) && Rowed(rows, |before|, |data|) && perRound >= 1
    requires w.begun && !Finished(w) && WorkerInv(w, rows, data, before, n) && Called(w, rows, data, before, after, n)
    ensures WorkerInv(Next(w, |data|, |before|, perRound), rows, data, after, n)
  {
    hide Partial;
    forall i | 0 <= i < |before|
      ensures HoldsIn(rows[i], data, after[i], w.lo, w.lstart, |data|)
    {
      assert HoldsIn(rows[i], data, before[i], w.lo, w.lstart, |data|);
    }
    if w.iRow + 1 >= |before| && w.c + 1 >= |data| {
      TileDone(w, rows, data, after, n, perRound);
    }
  }

  // Any later call: one input into one output row of the tile.
  method AdvanceWorker(w: Worker, rows: seq<Vec>, inputs: seq<array<byte>>, outputs: seq<array<byte>>, o: Options,
                       ghost n: nat) returns (r: Worker)
    requires Buffers(inputs, outputs, n) && |outputs| > 0 && Rowed(rows, |outputs|, |inputs|) && o.perRound >= 1
    requires w.begun && !Finished(w) && WorkerInv(w, rows, Contents(inputs), Contents(outputs), n)
    modifies outputs
    ensures Contents(inputs) == old(Contents(inputs)) && r == Next(w, |inputs|, |outputs|, o.perRound)
    ensures WorkerInv(r, rows, Contents(inputs), Contents(outputs), n)
    ensures forall i, k :: 0 <= i < |outputs| && 0 <= k < n && !(w.lo <= k < w.hi) ==>
      outputs[i][k] == old(outputs[i][k])
  {
    hide HoldsIn, Next;
    ghost var data, before := Contents(inputs), Contents(outputs);
    MulInto(rows[w.iRow], w.c, inputs[w.c], outputs[w.iRow], w.lstart, w.lstop, o, data);
    assert Contents(inputs) == data;
    assert Called(w, rows, data, before, Contents(outputs), n);
    r := Next(w, |inputs|, |outputs|, o.perRound);
    NextInv(w, rows, data, before, Contents(outputs), n, o.perRound);
  }

  // One call of one goroutine.
  method StepWorker(w: Worker, m: seq<byte>, useAvx2: bool, rows: seq<Vec>, inputs: seq<array<byte>>,
                    outputs: seq<array<byte>>,
                    o: Options, ghost n: nat) returns (r: Worker)
    requires Buffers(inputs, outputs, n) && |outputs| > 0 && Rowed(rows, |outputs|, |inputs|) && o.perRound >= 1
    requires !Finished(w) && WorkerInv(w, rows, Contents(inputs), Contents(outputs), n)
    requires useAvx2 ==> Laid(m, Coefficients(rows, Block(0, |inputs|, 0, |outputs|)), |inputs|, |outputs|)
    modifies outputs
    ensures Contents(inputs) == old(Contents(inputs)) && r.lo == w.lo && r.hi == w.hi
    ensures WorkerInv(r, rows, Contents(inputs), Contents(outputs), n)
    ensures forall i, k :: 0 <= i < |outputs| && 0 <= k < n && !(w.lo <= k < w.hi) ==>
      outputs[i][k] == old(outputs[i][k])
    ensures Left(r, |inputs|, |outputs|) < Left(w, |inputs|, |outputs|)
  {
    hide HoldsIn, Laid, Coefficients;
    if !w.begun {
      r := BeginWorker(w, m, useAvx2, rows, inputs, outputs, o, n);
      BeginsLess(w, r, |inputs| * |outputs|, |outputs|);
    } else {
      r := AdvanceWorker(w, rows, inputs, outputs, o, n);
      if r.lstart != w.lstart {
        TileLess(w, r, |inputs|, |outputs|);
      } else {
        assert r.begun && Work(r, |inputs| * |outputs|) == Work(w, |inputs| * |outputs|);
        assert Progress(w, |outputs|) < Progress(r, |outputs|);
      }
    }
  }

  lemma BeginsLess(w: Worker, r: Worker, calls: nat, outputs: nat)
    requires !w.begun && r.begun && r.hi == w.hi && w.lo <= r.lstart <= r.hi && r.c == r.iRow == w.c == w.iRow == 0
    ensures Work(r, calls) - Progress(r, outputs) < Work(w, calls) - Progress(w, outputs)
  {
    assert (w.hi - r.lstart) * (calls + 1) <= (w.hi - w.lo) * (calls + 1);
  }

  lemma TileLess(w: Worker, r: Worker, inputs: nat, outputs: nat)
    requires w.begun && r.begun && r.hi == w.hi && w.lstart < r.lstart <= r.hi && r.c == r.iRow == 0
    requires w.c < inputs && w.iRow < outputs
    ensures Work(r, inputs * outputs) - Progress(r, outputs) < Work(w, inputs * outputs) - Progress(w, outputs)
  {
    var k := inputs * outputs + 1;
    assert (w.hi - r.lstart) * k <= (w.hi - w.lstart - 1) * k == (w.hi - w.lstart) * k - k;
    assert w.c * outputs <= (inputs - 1) * outputs;
  }

  // ---- all goroutines under an arbitrary schedule ----

  function Total(ws: seq<Worker>, inputs: nat, outputs: nat, k: nat): int
    requires k <= |ws|
  {
    if k == 0 then 0 else Total(ws, inputs, outputs, k - 1) + Left(ws[k - 1], inputs, outputs)
  }

  lemma {:induction false} TotalUpdate(ws: seq<Worker>, g: nat, r: Worker, inputs: nat, outputs: nat, k: nat)
    requires g < |ws| && k <= |ws|
    ensures Total(ws[g := r], inputs, outputs, k)
         == Total(ws, inputs, outputs, k) + (if g < k then Left(r, inputs, outputs) - Left(ws[g], inputs, outputs)
           else 0)
    decreases k
  {
    hide Left;
    if k > 0 {
      TotalUpdate(ws, g, r, inputs, outputs, k - 1);
    }
  }

  ghost predicate AllInv(ws: seq<Worker>, rows: seq<Vec>, data: Mat, outs: Mat, n: nat)
    requires IsMat(data, |data|, n) && IsMat(outs, |outs|, n) && Rowed(rows, |outs|, |data|)
  {
    forall g :: 0 <= g < |ws| ==> WorkerInv(ws[g], rows, data, outs, n)
  }

  lemma LeftNat(w: Worker, rows: seq<Vec>, data: Mat, outs: Mat, n: nat)
    requires IsMat(data, |data|, n) && IsMat(outs, |outs|, n) && Rowed(rows, |outs|, |data|)
    requires WorkerInv(w, rows, data, outs, n)
    ensures Left(w, |data|, |outs|) >= 0
  {
    hide HoldsIn;
    var bytes := if w.begun then w.hi - w.lstart else w.hi - w.lo;
    if w.begun && bytes > 0 {
      EnoughCalls(bytes, |data|, |outs|, w.c, w.iRow);
    } else {
      assert bytes * (|data| * |outs| + 1) >= 0;
      assert w.c * |outs| == 0;
    }
  }

  lemma EnoughCalls(bytes: nat, inputs: nat, outputs: nat, c: nat, iRow: nat)
    requires bytes > 0 && c < inputs && iRow < outputs
    ensures bytes * (inputs * outputs + 1) >= c * outputs + iRow
  {
    assert (c + 1) * outputs <= inputs * outputs;
    assert 1 * (inputs * outputs + 1) <= bytes * (inputs * outputs + 1);
  }

  lemma {:induction false} TotalNat(ws: seq<Worker>, rows: seq<Vec>, data: Mat, outs: Mat, n: nat, k: nat)
    requires IsMat(data, |data|, n) && IsMat(outs, |outs|, n) && Rowed(rows, |outs|, |data|) && k <= |ws|
    requires AllInv(ws, rows, data, outs, n)
    ensures Total(ws, |data|, |outs|, k) >= 0
    decreases k
  {
    hide WorkerInv, Left;
    if k > 0 {
      TotalNat(ws, rows, data, outs, n, k - 1);
      LeftNat(ws[k - 1], rows, data, outs, n);
    }
  }

  // The other goroutines keep their invariants when one moves.
  lemma OthersKept(ws: seq<Worker>, jobs: seq<Job>, g: nat, r: Worker, rows: seq<Vec>, data: Mat, before: Mat,
                   after: Mat, n: nat)
    requires IsMat(data, |data|, n) && IsMat(before, |before|, n) && IsMat(after, |before|, n) &&
      Rowed(rows, |before|, |data|)
    requires Partition(jobs, n) && |ws| == |jobs| && g < |ws|
    requires forall h :: 0 <= h < |ws| ==> ws[h].lo == jobs[h].lo && ws[h].hi == jobs[h].hi
    requires AllInv(ws, rows, data, before, n) && WorkerInv(r, rows, data, after, n)
    requires forall i, k :: 0 <= i < |before| && 0 <= k < n && !(ws[g].lo <= k < ws[g].hi) ==>
      after[i][k] == before[i][k]
    ensures AllInv(ws[g := r], rows, data, after, n)
  {
    hide HoldsIn;
    forall h | 0 <= h < |ws| && h != g
      ensures WorkerInv(ws[h], rows, data, after, n)
    {
      assert jobs[h].hi <= jobs[g].lo || jobs[g].hi <= jobs[h].lo;
      WorkerKept(ws[h], rows, data, before, after, n);
    }
  }

  // All goroutines finished: every byte of every output is coded.
  lemma AllDone(ws: seq<Worker>, jobs: seq<Job>, rows: seq<Vec>, data: Mat, outs: Mat, n: nat)
    requires IsMat(data, |data|, n) && IsMat(outs, |outs|, n) && Rowed(rows, |outs|, |data|)
    requires Partition(jobs, n) && |ws| == |jobs| && AllInv(ws, rows, data, outs, n)
    requires forall h :: 0 <= h < |ws| ==> ws[h].lo == jobs[h].lo && ws[h].hi == jobs[h].hi && Finished(ws[h])
    ensures forall i :: 0 <= i < |outs| ==> HoldsIn(rows[i], data, outs[i], 0, n, |data|)
  {
    hide Partial;
    forall i | 0 <= i < |outs|
      ensures HoldsIn(rows[i], data, outs[i], 0, n, |data|)
    {
      forall j | 0 <= j < n
        ensures outs[i][j] == Partial(rows[i], data, n, |data|, j)
      {
        var g := JobOf(jobs, n, j, 0);
        assert WorkerInv(ws[g], rows, data, outs, n);
        assert HoldsIn(rows[i], data, outs[i], ws[g].lo, ws[g].lstart, |data|);
      }
    }
  }

  // Goroutine g makes its next call.
  method TakeTurn(ws: seq<Worker>, jobs: seq<Job>, g: nat, m: seq<byte>, useAvx2: bool, rows: seq<Vec>,
                  inputs: seq<array<byte>>,
                  outputs: seq<array<byte>>, o: Options, ghost n: nat) returns (next: seq<Worker>)
    requires Buffers(inputs, outputs, n) && |outputs| > 0 && Rowed(rows, |outputs|, |inputs|) && o.perRound >= 1 &&
      Partition(jobs, n)
    requires useAvx2 ==> Laid(m, Coefficients(rows, Block(0, |inputs|, 0, |outputs|)), |inputs|, |outputs|)
    requires |ws| == |jobs| && (forall h :: 0 <= h < |ws| ==> ws[h].lo == jobs[h].lo && ws[h].hi == jobs[h].hi)
    requires g < |ws| && !Finished(ws[g]) && AllInv(ws, rows, Contents(inputs), Contents(outputs), n)
    modifies outputs
    ensures Contents(inputs) == old(Contents(inputs)) && AllInv(next, rows, Contents(inputs), Contents(outputs), n)
    ensures |next| == |jobs| && (forall h :: 0 <= h < |next| ==> next[h].lo == jobs[h].lo && next[h].hi == jobs[h].hi)
    ensures Total(next, |inputs|, |outputs|, |next|) < Total(ws, |inputs|, |outputs|, |ws|)
  {
    hide HoldsIn, Laid, Coefficients, Left, Partition;
    ghost var before := Contents(outputs);
    var r := StepWorker(ws[g], m, useAvx2, rows, inputs, outputs, o, n);
    OthersKept(ws, jobs, g, r, rows, Contents(inputs), before, Contents(outputs), n);
    TotalUpdate(ws, g, r, |inputs|, |outputs|, |ws|);
    next := ws[g := r];
  }

  /** Any interleaving of the goroutines terminates with all outputs coded. */
  method RunInterleaved(jobs: seq<Job>, m: seq<byte>, useAvx2: bool, rows: seq<Vec>, inputs: seq<array<byte>>,
                        outputs: seq<array<byte>>,
                        o: Options, ghost n: nat)
    requires Buffers(inputs, outputs, n) && |outputs| > 0 && Rowed(rows, |outputs|, |inputs|) && o.perRound >= 1 &&
      Partition(jobs, n)
    requires useAvx2 ==> Laid(m, Coefficients(rows, Block(0, |inputs|, 0, |outputs|)), |inputs|, |outputs|)
    modifies outputs
    ensures Contents(inputs) == old(Contents(inputs))
    ensures forall i :: 0 <= i < |outputs| ==> Holds(rows[i], Contents(inputs), outputs[i], 0, n, |inputs|)
  {
    hide HoldsIn, Laid, Coefficients, Left, Partition;
    ghost var data := Contents(inputs);
    var ws := seq(|jobs|, g requires 0 <= g < |jobs| => Worker(jobs[g].lo, jobs[g].hi, false, 0, 0, 0, 0));
    assert AllInv(ws, rows, data, Contents(outputs), n) by { StartInv(jobs, rows, data, Contents(outputs), n); }
    TotalNat(ws, rows, data, Contents(outputs), n, |ws|);
    while exists g :: 0 <= g < |ws| && !Finished(ws[g])
      invariant |ws| == |jobs| && Contents(inputs) == data
      invariant forall h :: 0 <= h < |ws| ==> ws[h].lo == jobs[h].lo && ws[h].hi == jobs[h].hi
      invariant AllInv(ws, rows, data, Contents(outputs), n)
      invariant Total(ws, |inputs|, |outputs|, |ws|) >= 0
      decreases Total(ws, |inputs|, |outputs|, |ws|)
    {
      var g :| 0 <= g < |ws| && !Finished(ws[g]);
      ws := TakeTurn(ws, jobs, g, m, useAvx2, rows, inputs, outputs, o, n);
      TotalNat(ws, rows, data, Contents(outputs), n, |ws|);
    }
    AllDone(ws, jobs, rows, data, Contents(outputs), n);
  }

  lemma StartInv(jobs: seq<Job>, rows: seq<Vec>, data: Mat, outs: Mat, n: nat)
    requires IsMat(data, |data|, n) && IsMat(outs, |outs|, n) && Rowed(rows, |outs|, |data|) && Partition(jobs, n)
    ensures forall g :: 0 <= g < |jobs| ==>
      WorkerInv(Worker(jobs[g].lo, jobs[g].hi, false, 0, 0, 0, 0), rows, data, outs, n)
  {}
}
