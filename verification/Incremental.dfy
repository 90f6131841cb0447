/** Parity built up without coding everything at once: EncodeIdx. */
module Incremental {
  import opened Wrappers
  import opened Galois
  import opened LinearAlgebra
  import opened Kernels
  import opened Coding
  import opened Parallel
  import opened CodeShards
  import opened Generator
  import opened Shards
  import opened TableUse
  import opened Recovery
  import RS = ReedSolomon

  /** Adds one data shard to every parity shard, tile by tile. */
  method EncodeIdx(enc: RS.ReedSolomon, dataShard: array<byte>, idx: int, parity: array<Shard>)
    returns (err: Option<Error>)
    requires enc.Valid() && Apart(parity) && forall i :: 0 <= i < parity.Length ==> parity[i] != dataShard
    modifies set i | 0 <= i < parity.Length && parity[i] != null :: parity[i]
    ensures parity[..] == old(parity[..]) && dataShard[..] == old(dataShard[..])
    ensures parity.Length != enc.parityShards ==> err == Some(TooFewShards)
    ensures parity.Length == enc.parityShards == 0 ==> err == None
    ensures parity.Length == enc.parityShards > 0 && !(0 <= idx < enc.dataShards) ==> err == Some(InvShardNum)
    ensures parity.Length == enc.parityShards > 0 && 0 <= idx < enc.dataShards ==>
      err == if Check(Lens(parity[..]), false) != None then Check(Lens(parity[..]), false)
             else if Len(parity[0]) != dataShard.Length then Some(ShardSize) else None
    ensures err != None ==> forall i :: 0 <= i < parity.Length ==> Bytes(parity[i]) == old(Bytes(parity[i]))
    ensures err == None ==> |enc.m| == enc.shards || enc.parityShards == 0
    ensures err == None ==> forall i :: 0 <= i < parity.Length ==>
      |enc.m[enc.dataShards + i]| == enc.dataShards && Len(parity[i]) == dataShard.Length &&
      Bytes(parity[i]) == VAdd(old(Bytes(parity[i])), VScale(enc.m[enc.dataShards + i][idx], dataShard[..]))
  {
    hide Add, Mul;
    if parity.Length != enc.parityShards {
      return Some(TooFewShards);
    }
    if parity.Length == 0 {
      return None;
    }
    if idx < 0 || idx >= enc.dataShards {
      return Some(InvShardNum);
    }
    err := CheckShards(parity[..], false);
    if err != None {
      return;
    }
    if Len(parity[0]) != dataShard.Length {
      return Some(ShardSize);
    }
    ghost var w := dataShard.Length;
    AllOfSize(parity);
    var rows := Collect(parity, 0, parity.Length);
    AddShard(enc.Parity(), idx, dataShard, rows, enc.o);
    forall i | 0 <= i < parity.Length
      ensures Bytes(parity[i]) == VAdd(old(Bytes(parity[i])), VScale(enc.m[enc.dataShards + i][idx], dataShard[..]))
    {
      assert rows[i] == parity[i];
    }
    return None;
  }

  // The loops of EncodeIdx.
  method AddShard(matrixRows: seq<Vec>, idx: nat, data: array<byte>, rows: seq<array<byte>>, o: Options)
    requires |matrixRows| == |rows| && o.perRound >= 1 && forall i :: 0 <= i < |rows| ==> idx < |matrixRows[i]|
    requires forall i :: 0 <= i < |rows| ==> rows[i].Length == data.Length && rows[i] != data
    requires forall i, k :: 0 <= i < k < |rows| ==> rows[i] != rows[k]
    modifies rows
    ensures data[..] == old(data[..])
    ensures forall i :: 0 <= i < |rows| ==> rows[i][..] == VAdd(old(rows[i][..]), VScale(matrixRows[i][idx], data[..]))
  {
    hide Add, Mul;
    var start, end := 0, o.perRound;
    if end > data.Length {
      end := data.Length;
    }
    while start < data.Length
      invariant 0 <= start <= end <= data.Length && (start < data.Length ==> start < end)
      invariant data[..] == old(data[..])
      invariant forall i, j :: 0 <= i < |rows| && 0 <= j < start ==>
        rows[i][j] == Add(old(rows[i][j]), Mul(matrixRows[i][idx], data[j]))
      invariant forall i, j :: 0 <= i < |rows| && start <= j < data.Length ==> rows[i][j] == old(rows[i][j])
      decreases data.Length - start
    {
      for iRow := 0 to |rows|
        invariant data[..] == old(data[..])
        invariant forall i, j :: 0 <= i < |rows| && 0 <= j < (if i < iRow then end else start) ==>
          rows[i][j] == Add(old(rows[i][j]), Mul(matrixRows[i][idx], data[j]))
        invariant forall i, j :: 0 <= i < |rows| && (if i < iRow then end else start) <= j < data.Length ==>
          rows[i][j] == old(rows[i][j])
      {
        GalMulSliceXor(matrixRows[iRow][idx], data, rows[iRow], start, end, o);
      }
      start := end;
      end := end + o.perRound;
      if end > data.Length {
        end := data.Length;
      }
    }
    forall i | 0 <= i < |rows|
      ensures rows[i][..] == VAdd(old(rows[i][..]), VScale(matrixRows[i][idx], data[..]))
    {
      assert forall j :: 0 <= j < data.Length ==> rows[i][..][j] == rows[i][j];
    }
  }

  // ---- EncodeIdx agrees with Encode, whatever the order of delivery ----

  // A zeroed parity shard after delivering the data shards in the given order.
  function Deliver(row: Vec, D: Mat, order: seq<nat>, w: nat): (r: Vec)
    requires IsMat(D, |row|, w) && forall k :: 0 <= k < |order| ==> order[k] < |row|
    ensures |r| == w
    decreases |order|
  {
    if |order| == 0 then Zeros(w)
    else
      var c := order[|order| - 1];
      VAdd(Deliver(row, D, order[..|order| - 1], w), VScale(row[c], D[c]))
  }

  // The coefficients of the shards delivered so far.
  function Delivered(row: Vec, order: seq<nat>): (r: Vec)
    ensures |r| == |row|
  {
    seq(|row|, c requires 0 <= c < |row| => if c in order then row[c] else 0)
  }

  lemma {:induction false} DeliverIsComb(row: Vec, D: Mat, order: seq<nat>, w: nat)
    requires IsMat(D, |row|, w) && forall k :: 0 <= k < |order| ==> order[k] < |row|
    requires forall k, l :: 0 <= k < l < |order| ==> order[k] != order[l]
    ensures Deliver(row, D, order, w) == Comb(Delivered(row, order), D, w)
    decreases |order|
  {
    hide Add, Mul, VAdd, VScale, CombTo;
    var n := |row|;
    if |order| == 0 {
      assert Delivered(row, order) == Zeros(n);
      CombToZero(D, n, w, n);
    } else {
      var c, before := order[|order| - 1], order[..|order| - 1];
      DeliverIsComb(row, D, before, w);
      var one := VScale(row[c], Unit(n, c));
      CombToScale(row[c], Unit(n, c), D, w, n);
      CombUnit(n, c, D, w);
      CombToAdd(Delivered(row, before), one, D, w, n);
      AddsOne(row, order, c);
    }
  }

  lemma AddsOne(row: Vec, order: seq<nat>, c: nat)
    requires |order| > 0 && c == order[|order| - 1] < |row| && c !in order[..|order| - 1]
    ensures Delivered(row, order) == VAdd(Delivered(row, order[..|order| - 1]), VScale(row[c], Unit(|row|, c)))
  {
    hide Add, Mul;
    forall k | 0 <= k < |row|
      ensures Delivered(row, order)[k] ==
        Add(Delivered(row, order[..|order| - 1])[k], Mul(row[c], if k == c then 1 else 0))
    {
      MulOne(row[c]);
      MulZero(row[c]);
      AddZero(row[c]);
      AddZero(Delivered(row, order[..|order| - 1])[k]);
    }
  }

  /** Every order that delivers each data shard exactly once gives Encode's parity. */
  lemma AnyOrderEncodes(row: Vec, D: Mat, order: seq<nat>, w: nat)
    requires IsMat(D, |row|, w) && (forall k :: 0 <= k < |order| ==> order[k] < |row|)
    requires forall k, l :: 0 <= k < l < |order| ==> order[k] != order[l]
    requires forall c: nat :: c < |row| ==> c in order
    ensures Deliver(row, D, order, w) == Comb(row, D, w)
  {
    hide Comb;
    DeliverIsComb(row, D, order, w);
    assert Delivered(row, order) == row;
  }

  // Zeroed parity after the first k deliveries.
  ghost predicate DeliveredTo(enc: RS.ReedSolomon, D: Mat, order: seq<nat>, k: nat, parity: array<Shard>, w: nat)
    requires k <= |order|
    reads parity, parity[..]
  {
    && parity.Length == enc.parityShards && |enc.m| == enc.shards == enc.dataShards + enc.parityShards &&
      IsMat(enc.m, enc.shards, enc.dataShards)
    && IsMat(D, enc.dataShards, w) && (forall l :: 0 <= l < |order| ==> order[l] < enc.dataShards)
    && forall i :: 0 <= i < parity.Length ==> Bytes(parity[i]) == Deliver(enc.m[enc.dataShards + i], D, order[..k], w)
  }

  method DeliverOne(enc: RS.ReedSolomon, data: array<byte>, order: seq<nat>, k: nat, parity: array<Shard>, ghost D: Mat,
                    ghost w: nat) returns (err: Option<Error>)
    requires enc.Valid() && enc.parityShards > 0 && Apart(parity) && k < |order| &&
      DeliveredTo(enc, D, order, k, parity, w) && w > 0
    requires enc.Outside(parity) && D[order[k]] == data[..] && forall i :: 0 <= i < parity.Length ==> parity[i] != data
    modifies set i | 0 <= i < parity.Length && parity[i] != null :: parity[i]
    ensures enc.Valid() && enc.Outside(parity) && err == None && DeliveredTo(enc, D, order, k + 1, parity, w) &&
      parity[..] == old(parity[..])
  {
    hide Comb, Deliver, Recoverable, CacheOk, Check, SizeOf, Stocked, VAdd, VScale;
    ghost var before := Values(parity);
    forall i | 0 <= i < parity.Length
      ensures Len(parity[i]) == w
    {
      assert |Bytes(parity[i])| == w;
    }
    AllOfLength(parity, w);
    err := EncodeIdx(enc, data, order[k], parity);
    forall i | 0 <= i < parity.Length
      ensures Bytes(parity[i]) == Deliver(enc.m[enc.dataShards + i], D, order[..k + 1], w)
    {
      assert before[i] == Deliver(enc.m[enc.dataShards + i], D, order[..k], w);
      DeliverNext(enc.m[enc.dataShards + i], D, order, k, w);
    }
  }

  /** EncodeIdx called once for each data shard, in any order, on zeroed parity: data and parity form an encoding. */
  method DeliverAll(enc: RS.ReedSolomon, data: seq<array<byte>>, order: seq<nat>, parity: array<Shard>, ghost w: nat)
    returns (err: Option<Error>)
    requires enc.Valid() && enc.parityShards > 0 && Apart(parity) && enc.Outside(parity) &&
      parity.Length == enc.parityShards && |data| == enc.dataShards && w > 0
    requires forall c :: 0 <= c < |data| ==> data[c].Length == w && forall i :: 0 <= i < parity.Length ==>
      parity[i] != data[c]
    requires forall i :: 0 <= i < parity.Length ==> Bytes(parity[i]) == Zeros(w)
    requires (forall k :: 0 <= k < |order| ==> order[k] < |data|) &&
      forall k, l :: 0 <= k < l < |order| ==> order[k] != order[l]
    requires forall c: nat :: c < |data| ==> c in order
    modifies set i | 0 <= i < parity.Length && parity[i] != null :: parity[i]
    ensures err == None && Codeword(enc.m, enc.dataShards, Contents(data) + Values(parity), w)
  {
    hide Comb, Deliver, Recoverable, CacheOk, Codeword, Stocked, DeliveredTo;
    ghost var D := Contents(data);
    enc.RecoverableShape();
    NothingDelivered(enc, D, order, parity, w);
    err := None;
    for k := 0 to |order|
      invariant enc.Valid() && enc.Outside(parity) && parity[..] == old(parity[..])
      invariant Contents(data) == D && err == None && DeliveredTo(enc, D, order, k, parity, w)
    {
      err := DeliverOne(enc, data[order[k]], order, k, parity, D, w);
    }
    AllDelivered(enc, D, order, parity, w);
  }

  lemma NothingDelivered(enc: RS.ReedSolomon, D: Mat, order: seq<nat>, parity: array<Shard>, w: nat)
    requires parity.Length == enc.parityShards && enc.shards == enc.dataShards + enc.parityShards &&
      IsMat(enc.m, enc.shards, enc.dataShards)
    requires IsMat(D, enc.dataShards, w) && (forall l :: 0 <= l < |order| ==> order[l] < enc.dataShards)
    requires forall i :: 0 <= i < parity.Length ==> Bytes(parity[i]) == Zeros(w)
    ensures DeliveredTo(enc, D, order, 0, parity, w)
  {
    Undelivered(enc.m, enc.dataShards, D, w);
    assert order[..0] == [];
  }

  lemma AllDelivered(enc: RS.ReedSolomon, D: Mat, order: seq<nat>, parity: array<Shard>, w: nat)
    requires enc.Valid() && enc.parityShards > 0 && DeliveredTo(enc, D, order, |order|, parity, w)
    requires forall k, l :: 0 <= k < l < |order| ==> order[k] != order[l]
    requires forall c: nat :: c < enc.dataShards ==> c in order
    ensures Codeword(enc.m, enc.dataShards, D + Values(parity), w)
  {
    hide Comb, Deliver, Recoverable, Codeword, Stocked;
    assert order[..|order|] == order;
    var V := D + Values(parity);
    assert V[..enc.dataShards] == D;
    forall i | enc.dataShards <= i < enc.shards
      ensures |V[i]| == w && V[i] == Comb(enc.m[i], D, w)
    {
      assert V[i] == Bytes(parity[i - enc.dataShards]);
      AnyOrderEncodes(enc.m[i], D, order, w);
    }
    enc.EncodedIsCodeword(V, w);
  }

  lemma Undelivered(m: Mat, data: nat, D: Mat, w: nat)
    requires IsMat(m, |m|, data) && IsMat(D, data, w)
    ensures forall i :: 0 <= i < |m| ==> Deliver(m[i], D, [], w) == Zeros(w)
  {}

  lemma DeliverNext(row: Vec, D: Mat, order: seq<nat>, k: nat, w: nat)
    requires IsMat(D, |row|, w) && (forall l :: 0 <= l < |order| ==> order[l] < |row|) && k < |order|
    ensures Deliver(row, D, order[..k + 1], w) ==
      VAdd(Deliver(row, D, order[..k], w), VScale(row[order[k]], D[order[k]]))
  {
    assert order[..k + 1][..k] == order[..k];
  }
}
