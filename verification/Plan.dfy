/** Covering all inputs and outputs with AVX2 blocks: the nested loops of codeSomeShards and the
    plan of codeSomeShardsAVXP, whose two loop orders are both correct. */
module Plan {
  import opened Galois
  import opened LinearAlgebra
  import opened Kernels
  import opened Coding
  import opened Avx2
  import opened TablePool

  datatype Step = Step(block: Block, m: seq<byte>)

  predicate Covers(b: Block, i: int) { b.outIdx <= i < b.outIdx + b.outputs }

  // How many inputs output i has accumulated after all steps.
  ghost function After(plan: seq<Step>, i: int): nat {
    if |plan| == 0 then 0
    else
      var b := plan[|plan| - 1].block;
      if Covers(b, i) then b.inIdx + b.inputs else After(plan[..|plan| - 1], i)
  }

  // Every step starts, for each of its outputs, where the steps before it stopped.
  ghost predicate Valid(plan: seq<Step>, rows: seq<Vec>, inputs: nat, outputs: nat)
    requires Rowed(rows, outputs, inputs)
  {
    |plan| == 0 ||
    var s := plan[|plan| - 1];
    && Valid(plan[..|plan| - 1], rows, inputs, outputs)
    && Fits(s.block, inputs, outputs)
    && Laid(s.m, Coefficients(rows, s.block), s.block.inputs, s.block.outputs)
    && (forall i :: 0 <= i < outputs && Covers(s.block, i) ==> After(plan[..|plan| - 1], i) == s.block.inIdx)
  }

  function Least(a: nat, b: nat): nat { if a < b then a else b }

  // ---- the tables of a plan, one behind the other in one pooled slice ----

  // The tables of the plan lie in lo..hi of the bytes of base, in order.
  ghost predicate Packed(at: seq<Window>, plan: seq<Step>, base: array<byte>, bytes: seq<byte>, lo: nat, hi: nat) {
    && |at| == |plan|
    && (forall k :: 0 <= k < |at| ==> at[k].base == base && lo <= at[k].off && at[k].off + at[k].len <= hi <= |bytes|)
    && (forall k, l :: 0 <= k < l < |at| ==> at[k].off + at[k].len <= at[l].off)
    && (forall k :: 0 <= k < |at| ==> bytes[at[k].off..at[k].off + at[k].len] == plan[k].m)
  }

  lemma PackedOn(before: seq<byte>, after: seq<byte>, at: seq<Window>, plan: seq<Step>, base: array<byte>, lo: nat,
                 mid: nat, w: Window, s: Step)
    requires Packed(at, plan, base, before, lo, mid) && |before| == |after|
    requires w.base == base && lo <= mid == w.off && w.off + w.len <= |after| && after[w.off..w.off + w.len] == s.m
    requires forall k :: 0 <= k < mid ==> after[k] == before[k]
    ensures Packed(at + [w], plan + [s], base, after, lo, mid + w.len)
  {
    forall k | 0 <= k < |at|
      ensures after[at[k].off..at[k].off + at[k].len] == plan[k].m
    {
      assert after[at[k].off..at[k].off + at[k].len] == before[at[k].off..at[k].off + at[k].len];
    }
  }

  // A plan under way: its steps, where their tables are, and what is left of the slice.
  datatype Draft = Draft(plan: seq<Step>, at: seq<Window>, tmp: Window)

  ghost predicate Drafted(d: Draft, rows: seq<Vec>, inputs: nat, outputs: nat, first: Window, used: nat)
    requires Rowed(rows, outputs, inputs)
    reads first.base
  {
    && Valid(d.plan, rows, inputs, outputs)
    && first.Inside() && used <= first.len
    && d.tmp == Window(first.base, first.off + used, first.len - used)
    && Packed(d.at, d.plan, first.base, first.base[..], first.off, first.off + used)
  }

  // One block: its table is written at the front of tmp, which is then cut; the cut fails if tmp is too short.
  method Append(d: Draft, rows: seq<Vec>, b: Block, ghost inputs: nat, ghost outputs: nat, ghost first: Window,
                ghost used: nat)
    returns (panics: bool, r: Draft)
    requires Rowed(rows, outputs, inputs) && Drafted(d, rows, inputs, outputs, first, used) && Fits(b, inputs, outputs)
    requires forall i :: 0 <= i < outputs && Covers(b, i) ==> After(d.plan, i) == b.inIdx
    modifies first.base
    ensures panics <==> first.len < used + TableBytes(b.inputs, b.outputs)
    ensures !panics ==> Drafted(r, rows, inputs, outputs, first, used + TableBytes(b.inputs, b.outputs))
    ensures !panics ==> forall i :: After(r.plan, i) == if Covers(b, i) then b.inIdx + b.inputs else After(d.plan, i)
  {
    hide Laid, Coefficients, TableBytes, Packed, Valid, After;
    ghost var before := first.base[..];
    var m := GenAvx2Matrix(Coefficients(rows, b), b.inputs, b.outputs, d.tmp);
    if m.len > d.tmp.len {
      return true, d;
    }
    var step := Step(b, m.base[m.off..m.off + m.len]);
    r := Draft(d.plan + [step], d.at + [m], Window(d.tmp.base, d.tmp.off + m.len, d.tmp.len - m.len));
    PackedOn(before, first.base[..], d.at, d.plan, first.base, first.off, first.off + used, m, step);
    OneMore(d.plan, step, rows, inputs, outputs);
    return false, r;
  }

  lemma OneMore(plan: seq<Step>, s: Step, rows: seq<Vec>, inputs: nat, outputs: nat)
    requires Rowed(rows, outputs, inputs) && Valid(plan, rows, inputs, outputs) && Fits(s.block, inputs, outputs)
    requires Laid(s.m, Coefficients(rows, s.block), s.block.inputs, s.block.outputs)
    requires forall i :: 0 <= i < outputs && Covers(s.block, i) ==> After(plan, i) == s.block.inIdx
    ensures Valid(plan + [s], rows, inputs, outputs)
    ensures forall i :: After(plan + [s], i) == if Covers(s.block, i) then s.block.inIdx + s.block.inputs
      else After(plan, i)
  {
    hide Laid, Coefficients;
    assert (plan + [s])[..|plan|] == plan;
  }

  // ---- how much of the slice is used ----

  lemma MoreBytes(a: nat, b: nat, c: nat)
    ensures TableBytes(a + b, c) == TableBytes(a, c) + TableBytes(b, c)
    ensures TableBytes(c, a + b) == TableBytes(c, a) + TableBytes(c, b)
  {}

  /** The larger side goes into the outer loop.  All tables lie side by side in the slice, as they were
      written; making the plan panics exactly if they do not fit its length, whatever its capacity. */
  method MakePlan(rows: seq<Vec>, inputs: nat, outputs: nat, tmp: Window)
    returns (panics: bool, plan: seq<Step>, at: seq<Window>)
    requires Rowed(rows, outputs, inputs) && tmp.Inside()
    modifies tmp.base
    ensures panics <==> tmp.len < TableBytes(inputs, outputs)
    ensures !panics ==> Valid(plan, rows, inputs, outputs) && forall i :: 0 <= i < outputs ==> After(plan, i) == inputs
    ensures !panics ==> Packed(at, plan, tmp.base, tmp.base[..], tmp.off, tmp.off + tmp.len)
  {
    hide Valid, After, TableBytes, Packed;
    EmptyPlan(rows, inputs, outputs);
    var d := Draft([], [], tmp);
    NoneWritten(tmp);
    NoBytes(inputs, outputs);
    if inputs > outputs {
      var inIdx := 0;
      while inIdx < inputs
        invariant inIdx <= inputs && Drafted(d, rows, inputs, outputs, tmp, TableBytes(inIdx, outputs))
        invariant forall i :: 0 <= i < outputs ==> After(d.plan, i) == inIdx
      {
        var inPer := Least(inputs - inIdx, MAX_INPUTS);
        panics, d := PlanColumns(d, rows, inputs, outputs, inIdx, inPer, tmp);
        if panics {
          NotEnough(inIdx + inPer, inputs, outputs);
          return true, [], [];
        }
        inIdx := inIdx + inPer;
      }
    } else {
      var outIdx := 0;
      while outIdx < outputs
        invariant outIdx <= outputs && Drafted(d, rows, inputs, outputs, tmp, TableBytes(inputs, outIdx))
        invariant forall i :: 0 <= i < outIdx ==> After(d.plan, i) == inputs
        invariant forall i :: outIdx <= i < outputs ==> After(d.plan, i) == 0
      {
        var outPer := Least(outputs - outIdx, MAX_OUTPUTS);
        panics, d := PlanRows(d, rows, inputs, outputs, outIdx, outPer, tmp);
        if panics {
          NotEnough(outIdx + outPer, outputs, inputs);
          return true, [], [];
        }
        outIdx := outIdx + outPer;
      }
    }
    PackedWithin(d.at, d.plan, tmp, TableBytes(inputs, outputs));
    return false, d.plan, d.at;
  }

  // The inner loop over the outputs, for inputs inIdx.. of the plan.
  method PlanColumns(d0: Draft, rows: seq<Vec>, inputs: nat, outputs: nat, inIdx: nat, inPer: nat, tmp: Window)
    returns (panics: bool, d: Draft)
    requires Rowed(rows, outputs, inputs) && Drafted(d0, rows, inputs, outputs, tmp, TableBytes(inIdx, outputs))
    requires 0 < inPer && inIdx + inPer <= inputs && forall i :: 0 <= i < outputs ==> After(d0.plan, i) == inIdx
    modifies tmp.base
    ensures panics <==> tmp.len < TableBytes(inIdx + inPer, outputs)
    ensures !panics ==> Drafted(d, rows, inputs, outputs, tmp, TableBytes(inIdx + inPer, outputs))
    ensures !panics ==> forall i :: 0 <= i < outputs ==> After(d.plan, i) == inIdx + inPer
  {
    hide Valid, After, TableBytes, Packed;
    MoreBytes(inIdx, inPer, outputs);
    NoBytes(inPer, outputs);
    d, panics := d0, false;
    var outIdx := 0;
    while outIdx < outputs
      invariant outIdx <= outputs &&
        Drafted(d, rows, inputs, outputs, tmp, TableBytes(inIdx, outputs) + TableBytes(inPer, outIdx))
      invariant forall i :: 0 <= i < outIdx ==> After(d.plan, i) == inIdx + inPer
      invariant forall i :: outIdx <= i < outputs ==> After(d.plan, i) == inIdx
    {
      var outPer := Least(outputs - outIdx, MAX_OUTPUTS);
      MoreBytes(outIdx, outPer, inPer);
      panics, d := Append(d, rows, Block(inIdx, inPer, outIdx, outPer), inputs, outputs, tmp,
        TableBytes(inIdx, outputs) + TableBytes(inPer, outIdx));
      if panics {
        NotEnough(outIdx + outPer, outputs, inPer);
        return;
      }
      outIdx := outIdx + outPer;
    }
  }

  // The inner loop over the inputs, for outputs outIdx.. of the plan.
  method PlanRows(d0: Draft, rows: seq<Vec>, inputs: nat, outputs: nat, outIdx: nat, outPer: nat, tmp: Window)
    returns (panics: bool, d: Draft)
    requires Rowed(rows, outputs, inputs) && Drafted(d0, rows, inputs, outputs, tmp, TableBytes(inputs, outIdx))
    requires 0 < outPer && outIdx + outPer <= outputs
    requires forall i :: 0 <= i < outIdx ==> After(d0.plan, i) == inputs
    requires forall i :: outIdx <= i < outputs ==> After(d0.plan, i) == 0
    modifies tmp.base
    ensures panics <==> tmp.len < TableBytes(inputs, outIdx + outPer)
    ensures !panics ==> Drafted(d, rows, inputs, outputs, tmp, TableBytes(inputs, outIdx + outPer))
    ensures !panics ==> forall i :: 0 <= i < outIdx + outPer ==> After(d.plan, i) == inputs
    ensures !panics ==> forall i :: outIdx + outPer <= i < outputs ==> After(d.plan, i) == 0
  {
    hide Valid, After, TableBytes, Packed;
    MoreBytes(outIdx, outPer, inputs);
    NoBytes(inputs, outPer);
    d, panics := d0, false;
    var inIdx := 0;
    while inIdx < inputs
      invariant inIdx <= inputs && Drafted(d, rows, inputs, outputs, tmp,
        TableBytes(inputs, outIdx) + TableBytes(inIdx, outPer))
      invariant forall i :: 0 <= i < outIdx ==> After(d.plan, i) == inputs
      invariant forall i :: outIdx <= i < outIdx + outPer ==> After(d.plan, i) == inIdx
      invariant forall i :: outIdx + outPer <= i < outputs ==> After(d.plan, i) == 0
    {
      var inPer := Least(inputs - inIdx, MAX_INPUTS);
      MoreBytes(inIdx, inPer, outPer);
      panics, d := Append(d, rows, Block(inIdx, inPer, outIdx, outPer), inputs, outputs, tmp,
        TableBytes(inputs, outIdx) + TableBytes(inIdx, outPer));
      if panics {
        NotEnough(inIdx + inPer, inputs, outPer);
        return;
      }
      inIdx := inIdx + inPer;
    }
  }

  lemma NoBytes(inputs: nat, outputs: nat)
    ensures TableBytes(0, outputs) == TableBytes(inputs, 0) == 0
  {}

  lemma NotEnough(some: nat, all: nat, other: nat)
    requires some <= all
    ensures TableBytes(some, other) <= TableBytes(all, other) && TableBytes(other, some) <= TableBytes(other, all)
  {
    MoreBytes(some, all - some, other);
  }

  lemma NoneWritten(tmp: Window)
    requires tmp.Inside()
    ensures Packed([], [], tmp.base, tmp.base[..], tmp.off, tmp.off)
  {}

  lemma PackedWithin(at: seq<Window>, plan: seq<Step>, tmp: Window, used: nat)
    requires tmp.Inside() && used <= tmp.len && Packed(at, plan, tmp.base, tmp.base[..], tmp.off, tmp.off + used)
    ensures Packed(at, plan, tmp.base, tmp.base[..], tmp.off, tmp.off + tmp.len)
  {}

  lemma EmptyPlan(rows: seq<Vec>, inputs: nat, outputs: nat)
    requires Rowed(rows, outputs, inputs)
    ensures Valid([], rows, inputs, outputs) && forall i :: After([], i) == 0
  {}

  lemma {:induction false} ValidPrefix(plan: seq<Step>, rows: seq<Vec>, inputs: nat, outputs: nat, k: nat)
    requires Rowed(rows, outputs, inputs) && Valid(plan, rows, inputs, outputs) && k < |plan|
    ensures Valid(plan[..k + 1], rows, inputs, outputs)
    decreases |plan|
  {
    hide Laid, Coefficients, Fits;
    if k + 1 == |plan| {
      assert plan[..k + 1] == plan;
    } else {
      ValidPrefix(plan[..|plan| - 1], rows, inputs, outputs, k);
      assert plan[..|plan| - 1][..k + 1] == plan[..k + 1];
    }
  }

  lemma StepFacts(plan: seq<Step>, rows: seq<Vec>, inputs: nat, outputs: nat, k: nat)
    requires Rowed(rows, outputs, inputs) && Valid(plan, rows, inputs, outputs) && k < |plan|
    ensures Fits(plan[k].block, inputs, outputs)
    ensures Laid(plan[k].m, Coefficients(rows, plan[k].block), plan[k].block.inputs, plan[k].block.outputs)
    ensures forall i :: 0 <= i < outputs && Covers(plan[k].block, i) ==> After(plan[..k], i) == plan[k].block.inIdx
    ensures forall i :: 0 <= i < outputs ==>
      After(plan[..k + 1], i) == if Covers(plan[k].block, i) then plan[k].block.inIdx + plan[k].block.inputs
      else After(plan[..k], i)
  {
    hide Laid, Coefficients, Fits;
    ValidPrefix(plan, rows, inputs, outputs, k);
    assert plan[..k + 1][..k] == plan[..k];
  }

  ghost predicate AllHold(plan: seq<Step>, rows: seq<Vec>, data: Mat, outputs: seq<array<byte>>, lo: nat, hi: nat,
                          w: nat)
    requires |rows| >= |outputs| && hi <= w
    requires forall i :: 0 <= i < |outputs| ==> IsMat(data, |rows[i]|, w) && outputs[i].Length == w
    reads outputs
  {
    forall i :: 0 <= i < |outputs| ==>
      After(plan, i) <= |data| && (After(plan, i) > 0 ==> Holds(rows[i], data, outputs[i], lo, hi, After(plan, i)))
  }

  method ExecuteStep(step: Step, ghost before: seq<Step>, ghost after: seq<Step>, rows: seq<Vec>,
                     inputs: seq<array<byte>>, outputs: seq<array<byte>>, start: nat, stop: nat, ghost w: nat)
    requires Buffers(inputs, outputs, w) && Rowed(rows, |outputs|, |inputs|) && start <= stop <= w
    requires Fits(step.block, |inputs|, |outputs|)
    requires Laid(step.m, Coefficients(rows, step.block), step.block.inputs, step.block.outputs)
    requires AllHold(before, rows, Contents(inputs), outputs, start, start + Whole(stop - start), w)
    requires forall i :: 0 <= i < |outputs| && Covers(step.block, i) ==> After(before, i) == step.block.inIdx
    requires forall i :: 0 <= i < |outputs| ==>
      After(after, i) == if Covers(step.block, i) then step.block.inIdx + step.block.inputs else After(before, i)
    modifies outputs
    ensures Contents(inputs) == old(Contents(inputs))
    ensures AllHold(after, rows, Contents(inputs), outputs, start, start + Whole(stop - start), w)
    ensures forall i, k :: 0 <= i < |outputs| && 0 <= k < w && !(start <= k < start + Whole(stop - start)) ==>
      outputs[i][k] == old(outputs[i][k])
  {
    hide HoldsIn, Laid, Coefficients, After;
    var _ := Avx2Kernel(step.m, rows, inputs, outputs, step.block, start, stop, w);
    forall i | 0 <= i < |outputs| && !Covers(step.block, i)
      ensures outputs[i][..] == old(outputs[i][..])
    {}
  }

  // Runs every step over the whole 64-byte part of start..stop.
  method ExecutePlan(plan: seq<Step>, rows: seq<Vec>, inputs: seq<array<byte>>, outputs: seq<array<byte>>, start: nat,
                     stop: nat, ghost w: nat)
    requires Buffers(inputs, outputs, w) && Rowed(rows, |outputs|, |inputs|) && start <= stop <= w
    requires Valid(plan, rows, |inputs|, |outputs|) && forall i :: 0 <= i < |outputs| ==> After(plan, i) == |inputs|
    modifies outputs
    ensures Contents(inputs) == old(Contents(inputs))
    ensures forall i :: 0 <= i < |outputs| ==>
      Holds(rows[i], Contents(inputs), outputs[i], start, start + Whole(stop - start), |inputs|)
    ensures forall i, k :: 0 <= i < |outputs| && 0 <= k < w && !(start <= k < start + Whole(stop - start)) ==>
      outputs[i][k] == old(outputs[i][k])
  {
    hide HoldsIn, Laid, Coefficients, Valid, After, Fits;
    ghost var data := Contents(inputs);
    ghost var hi := start + Whole(stop - start);
    EmptyPlan(rows, |inputs|, |outputs|);
    assert plan[..0] == [];
    for k := 0 to |plan|
      invariant Contents(inputs) == data
      invariant AllHold(plan[..k], rows, data, outputs, start, hi, w)
      invariant forall i, j :: 0 <= i < |outputs| && 0 <= j < w && !(start <= j < hi) ==>
        outputs[i][j] == old(outputs[i][j])
    {
      StepFacts(plan, rows, |inputs|, |outputs|, k);
      ExecuteStep(plan[k], plan[..k], plan[..k + 1], rows, inputs, outputs, start, stop, w);
    }
    assert plan[..|plan|] == plan;
  }
}
