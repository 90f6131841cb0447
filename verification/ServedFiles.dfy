/** The shards that the encoder makes are those that ranges are served from. */
module ServedFiles {
  import opened Wrappers
  import opened Galois
  import opened LinearAlgebra
  import opened ObjectCode
  import SJ = SplitJoin
  import RangeServe

  // Shard i stands in the data shards from i * per on.
  lemma {:induction false} PieceOf(p: seq<Vec>, per: nat, i: nat, k: nat)
    requires i < k <= |p| && forall j :: 0 <= j < |p| ==> |p[j]| == per
    ensures i * per + per <= |SJ.FlatTo(p, k)| == k * per
    ensures SJ.FlatTo(p, k)[i * per..i * per + per] == p[i]
  {
    Length(p, per, k - 1);
    if i < k - 1 {
      PieceOf(p, per, i, k - 1);
    }
  }

  lemma {:induction false} Length(p: seq<Vec>, per: nat, k: nat)
    requires k <= |p| && forall j :: 0 <= j < |p| ==> |p[j]| == per
    ensures |SJ.FlatTo(p, k)| == k * per
  {
    if k > 0 {
      Length(p, per, k - 1);
    }
  }

  lemma SamePerShard(size: nat, dataShards: nat)
    requires size > 0 && dataShards > 0
    ensures RangeServe.PerShard(size, dataShards) == SJ.PerShard(size, dataShards)
  {}

  // What the shard holds of the content.
  lemma HeldBy(p: seq<Vec>, content: Vec, per: nat, i: nat)
    requires i < |p| && (forall j :: 0 <= j < |p| ==> |p[j]| == per) && i * per <= |content|
    requires content <= SJ.Flat(p)
    ensures RangeServe.HoldsPiece(p[i], content, per, i)
  {
    hide SJ.FlatTo;
    PieceOf(p, per, i, |p|);
    var n, whole := RangeServe.Min(per, |content| - i * per), SJ.FlatTo(p, |p|);
    assert p[i][..n] == whole[i * per..i * per + n] == content[i * per..i * per + n];
  }

  /** Chunks that hold the shards of a file, as far as they can be had, are what ranges of it may be
      served from. */
  lemma EncodedAreStored(m: Mat, V: Mat, content: Vec, dataShards: nat, parityShards: nat,
                         chunks: seq<RangeServe.Entry>)
    requires Encodes(m, V, content, dataShards, parityShards)
    requires forall c :: c in chunks && !c.sidecar && c.index.Some? && 0 <= c.index.value < |V| && c.content.Some? ==>
      c.content.value == V[c.index.value]
    ensures RangeServe.Stored(chunks, content, dataShards)
  {
    hide RangeServe.HoldsPiece, RangeServe.PerShard, SJ.PerShard, SJ.FlatTo;
    var per := RangeServe.PerShard(|content|, dataShards);
    SamePerShard(|content|, dataShards);
    forall i: nat | i < dataShards && i * per <= |content|
      ensures RangeServe.HoldsPiece(V[i], content, per, i)
    {
      assert content <= SJ.Flat(V[..dataShards]);
      HeldBy(V[..dataShards], content, per, i);
    }
  }
}
