/** Spreading a file's shards over peers (api/replication.py): which shard goes where, and the
    hand-off that drops a local copy only for one a peer is known to hold. */
module Replication {
  import opened Wrappers

  type Bytes = seq<bv8>
  type Peer = string

  // An entry of the chunk list.  The index is the numeric suffix of the path, if it has one; the
  // `.size` sidecar is not a shard.
  class Chunk {
    const path: string
    const index: Option<nat>
    const sidecar: bool
    var peer: Option<Peer>
    var digest: Option<string>
    var size: nat
    var local: bool

    constructor (path: string, index: Option<nat>, sidecar: bool)
      ensures this.path == path && this.index == index && this.sidecar == sidecar && peer == None && digest == None &&
        local
    {
      this.path, this.index, this.sidecar := path, index, sidecar;
      peer, digest, size, local := None, None, 0, true;
    }
  }

  // ---- placement ----

  function DataShardsOnly(chunks: seq<Chunk>): (r: seq<Chunk>)
    ensures forall k :: 0 <= k < |r| ==> r[k] in chunks && !r[k].sidecar
  {
    if |chunks| == 0 then []
    else DataShardsOnly(chunks[..|chunks| - 1]) + if chunks[|chunks| - 1].sidecar then [] else [chunks[|chunks| - 1]]
  }

  // The indices of the shards that have one, in list order.
  function Indices(shards: seq<Chunk>): (r: seq<nat>) {
    if |shards| == 0 then []
    else Indices(shards[..|shards| - 1]) + if shards[|shards| - 1].index == None then []
      else [shards[|shards| - 1].index.value]
  }

  /** data_shards_only keeps the entries that are no sidecar, each as often as it occurs and in their order. */
  lemma {:induction false} DataShardsAt(chunks: seq<Chunk>) returns (at: seq<nat>)
    ensures |at| == |DataShardsOnly(chunks)| && forall j, k :: 0 <= j < k < |at| ==> at[j] < at[k]
    ensures forall k :: 0 <= k < |at| ==> at[k] < |chunks| && DataShardsOnly(chunks)[k] == chunks[at[k]]
    ensures forall i: nat :: i in at <==> i < |chunks| && !chunks[i].sidecar
  {
    if |chunks| == 0 {
      at := [];
    } else {
      var n := |chunks| - 1;
      at := DataShardsAt(chunks[..n]);
      if !chunks[n].sidecar {
        at := at + [n];
      }
    }
  }

  // Entry q is a shard with an index.
  predicate IsShard(chunks: seq<Chunk>, q: int) {
    0 <= q < |chunks| && !chunks[q].sidecar && chunks[q].index.Some?
  }

  // How many such entries stand before entry q.
  function Rank(chunks: seq<Chunk>, q: nat): nat
    requires q <= |chunks|
  {
    if q == 0 then 0 else Rank(chunks, q - 1) + if IsShard(chunks, q - 1) then 1 else 0
  }

  lemma {:induction false} RankOfPrefix(chunks: seq<Chunk>, n: nat, q: nat)
    requires q <= n <= |chunks|
    ensures Rank(chunks[..n], q) == Rank(chunks, q)
  {
    if q > 0 {
      RankOfPrefix(chunks, n, q - 1);
    }
  }

  lemma NextIndices(chunks: seq<Chunk>)
    requires |chunks| > 0
    ensures var n := |chunks| - 1;
      Indices(DataShardsOnly(chunks)) ==
        Indices(DataShardsOnly(chunks[..n])) + if IsShard(chunks, n) then [chunks[n].index.value] else []
  {
    var n := |chunks| - 1;
    var all, before := DataShardsOnly(chunks), DataShardsOnly(chunks[..n]);
    if chunks[n].sidecar {
      assert all == before;
    } else {
      assert all[..|all| - 1] == before && all[|all| - 1] == chunks[n];
    }
  }

  // The indices by their places in the list.
  lemma {:induction false} Ranked(chunks: seq<Chunk>)
    ensures |Indices(DataShardsOnly(chunks))| == Rank(chunks, |chunks|)
    ensures forall q :: IsShard(chunks, q) ==> Rank(chunks, q) < |Indices(DataShardsOnly(chunks))|
    ensures forall q :: IsShard(chunks, q) ==>
      Indices(DataShardsOnly(chunks))[Rank(chunks, q)] == chunks[q].index.value
  {
    if |chunks| > 0 {
      var n := |chunks| - 1;
      var init := chunks[..n];
      Ranked(init);
      forall q: nat | q <= n
        ensures Rank(init, q) == Rank(chunks, q)
      {
        RankOfPrefix(chunks, n, q);
      }
      forall q
        ensures IsShard(chunks, q) <==> IsShard(init, q) || (q == n && IsShard(chunks, n))
      {}
      NextIndices(chunks);
    }
  }

  // The indices that occur.
  lemma {:induction false} IndicesOccur(shards: seq<Chunk>)
    ensures forall i: nat :: i in Indices(shards) <==> exists c :: c in shards && c.index == Some(i)
  {
    if |shards| > 0 {
      var n := |shards| - 1;
      IndicesOccur(shards[..n]);
      forall c
        ensures c in shards <==> c in shards[..n] || c == shards[n]
      {}
    }
  }

  lemma {:induction false} KeptOccur(chunks: seq<Chunk>)
    ensures forall c :: c in DataShardsOnly(chunks) <==> c in chunks && !c.sidecar
  {
    if |chunks| > 0 {
      var n := |chunks| - 1;
      KeptOccur(chunks[..n]);
      forall c
        ensures c in chunks <==> c in chunks[..n] || c == chunks[n]
      {}
    }
  }

  // No two shards have the same index.
  ghost predicate Numbered(chunks: seq<Chunk>) {
    forall q, r :: q < r && IsShard(chunks, q) && IsShard(chunks, r) ==> chunks[q].index != chunks[r].index
  }

  predicate Distinct<T(==)>(s: seq<T>) { forall i, k :: 0 <= i < k < |s| ==> s[i] != s[k] }

  // The shards placed on peer p.
  ghost function On(placement: map<nat, Option<Peer>>, p: Peer): set<nat> {
    set i | i in placement && placement[i] == Some(p)
  }

  // How many of k shards dealt in turn go to place j of a ring of n.
  function Dealt(rounds: nat, cursor: nat, j: nat): nat { rounds + if j < cursor then 1 else 0 }

  // The loads of a ring: rounds of one shard each, and one more up to the cursor.
  ghost predicate Balanced(placement: map<nat, Option<Peer>>, shards: nat, peers: seq<Peer>, parity: nat) {
    exists rounds: nat, cursor: nat ::
      Position(Least(shards, |peers| * parity), |peers|, parity, rounds, cursor) &&
      forall j :: 0 <= j < |peers| ==> |On(placement, peers[j])| == Dealt(rounds, cursor, j)
  }

  // Where shard t of a deal goes.
  function Target(t: nat, peers: seq<Peer>, parity: nat): Option<Peer>
    requires |peers| > 0
  {
    if t < |peers| * parity then Some(peers[t % |peers|]) else None
  }

  // Place x of a ring of n, for x less than twice around.
  lemma Around(x: nat, n: nat)
    requires x < n + n
    ensures x % n == if x < n then x else x - n
  {}

  /** One walk around the ring: the first peer from the cursor on with room left. */
  method Walk(peers: seq<Peer>, capacity: map<Peer, nat>, cursor: nat)
    returns (target: Option<Peer>, capacity': map<Peer, nat>, cursor': nat)
    requires cursor < |peers| && forall p :: p in peers ==> p in capacity
    ensures cursor' < |peers|
    ensures target == None ==> capacity' == capacity && cursor' == cursor && forall p :: p in peers ==> capacity[p] == 0
    ensures target.Some? ==> target.value in peers && capacity[target.value] > 0
    ensures target.Some? ==> capacity' == capacity[target.value := capacity[target.value] - 1]
    ensures capacity[peers[cursor]] > 0 ==> target == Some(peers[cursor]) && cursor' == (cursor + 1) % |peers|
  {
    var offset := 0;
    while offset < |peers|
      invariant forall k :: 0 <= k < offset ==> capacity[AtOffset(peers, cursor, k)] == 0
      invariant offset <= |peers|
    {
      var candidate := peers[(cursor + offset) % |peers|];
      if capacity[candidate] > 0 {
        Around(cursor, |peers|);
        assert offset > 0 ==> capacity[AtOffset(peers, cursor, 0)] == 0;
        return Some(candidate), capacity[candidate := capacity[candidate] - 1], (cursor + offset + 1) % |peers|;
      }
      offset := offset + 1;
    }
    forall p | p in peers
      ensures capacity[p] == 0
    {
      var j :| 0 <= j < |peers| && peers[j] == p;
      var k := if j >= cursor then j - cursor else j + |peers| - cursor;
      Around(cursor + k, |peers|);
      assert AtOffset(peers, cursor, k) == p;
    }
    assert capacity[AtOffset(peers, cursor, 0)] == 0;
    Around(cursor, |peers|);
    return None, capacity, cursor;
  }

  function AtOffset(peers: seq<Peer>, cursor: nat, k: nat): Peer
    requires |peers| > 0
  {
    peers[(cursor + k) % |peers|]
  }

  lemma OnUpdate(placement: map<nat, Option<Peer>>, i: nat, target: Option<Peer>, p: Peer)
    ensures |On(placement[i := target], p)| <= |On(placement, p)| + (if target == Some(p) then 1 else 0)
    ensures i !in placement ==>
      |On(placement[i := target], p)| == |On(placement, p)| + (if target == Some(p) then 1 else 0)
  {
    var after := placement[i := target];
    if target == Some(p) {
      assert On(after, p) == On(placement, p) + {i};
    } else {
      assert On(after, p) == On(placement, p) - {i};
    }
  }

  // After k shards were dealt, at most parity to each of n peers: whole rounds, and a cursor.
  ghost predicate Position(k: nat, n: nat, parity: nat, rounds: nat, cursor: nat) {
    k == rounds * n + cursor && cursor < n && rounds <= parity && (rounds == parity ==> cursor == 0)
  }

  lemma Times(d: int, n: nat)
    ensures d >= 1 ==> d * n >= n
    ensures d <= -1 ==> d * n <= 0 - n
    ensures d == 0 ==> d * n == 0
  {}

  lemma Spread(a: int, b: int, n: int)
    ensures (a - b) * n == a * n - b * n
  {}

  lemma Remainder(k: nat, n: nat, rounds: nat, cursor: nat)
    requires k == rounds * n + cursor && cursor < n
    ensures k % n == cursor
  {
    var q := k / n;
    assert k == q * n + k % n;
    Spread(q, rounds, n);
    Times(q - rounds, n);
  }

  lemma PositionNext(k: nat, n: nat, parity: nat, rounds: nat, cursor: nat)
    requires Position(k, n, parity, rounds, cursor)
    ensures rounds < parity ==> k < n * parity && k % n == cursor
    ensures rounds < parity && cursor + 1 == n ==> (cursor + 1) % n == 0 && Position(k + 1, n, parity, rounds + 1, 0)
    ensures rounds < parity && cursor + 1 < n ==>
      (cursor + 1) % n == cursor + 1 && Position(k + 1, n, parity, rounds, cursor + 1)
    ensures rounds == parity ==> k == n * parity
  {
    if rounds < parity {
      Remainder(k, n, rounds, cursor);
      Spread(parity, rounds, n);
      Times(parity - rounds, n);
      Spread(rounds + 1, rounds, n);
      Around(cursor + 1, n);
    }
  }

  // The capacities when k shards were dealt round by round.
  ghost predicate Even(capacity: map<Peer, nat>, peers: seq<Peer>, parity: nat, rounds: nat, cursor: nat)
    requires forall p :: p in peers ==> p in capacity
  {
    forall j :: 0 <= j < |peers| ==> capacity[peers[j]] == parity - Dealt(rounds, cursor, j)
  }

  // What the deal has done with the first t shards.
  ghost predicate DealtSoFar(placement: map<nat, Option<Peer>>, indices: seq<nat>, t: nat, peers: seq<Peer>,
                             parity: nat, capacity: map<Peer, nat>)
    requires t <= |indices| && forall p :: p in peers ==> p in capacity
  {
    && (forall i :: i in placement <==> i in indices[..t])
    && (forall i :: i in placement && placement[i].Some? ==> placement[i].value in peers)
    && (forall p :: p in peers ==> |On(placement, p)| + capacity[p] <= parity)
    && (Distinct(indices) ==> forall p :: p in peers ==> |On(placement, p)| + capacity[p] == parity)
    && (forall i, p :: i in placement && placement[i] == None && p in peers ==> capacity[p] == 0)
  }

  lemma DealNext(placement: map<nat, Option<Peer>>, indices: seq<nat>, t: nat, peers: seq<Peer>, parity: nat,
                 capacity: map<Peer, nat>,
                 target: Option<Peer>, capacity': map<Peer, nat>)
    requires t < |indices| && (forall p :: p in peers ==> p in capacity) &&
      DealtSoFar(placement, indices, t, peers, parity, capacity)
    requires target == None ==> capacity' == capacity && forall p :: p in peers ==> capacity[p] == 0
    requires target.Some? ==> target.value in peers && capacity[target.value] > 0
    requires target.Some? ==> capacity' == capacity[target.value := capacity[target.value] - 1]
    ensures DealtSoFar(placement[indices[t] := target], indices, t + 1, peers, parity, capacity')
  {
    hide On;
    var after := placement[indices[t] := target];
    forall p
      ensures |On(after, p)| <= |On(placement, p)| + (if target == Some(p) then 1 else 0)
      ensures indices[t] !in placement ==> |On(after, p)| == |On(placement, p)| + (if target == Some(p) then 1 else 0)
    {
      OnUpdate(placement, indices[t], target, p);
    }
    assert indices[..t + 1] == indices[..t] + [indices[t]];
    assert Distinct(indices) ==> forall k :: 0 <= k < t ==> indices[..t][k] != indices[t];
    assert Distinct(indices) ==> indices[t] !in indices[..t];
    assert forall i, p :: i in after && after[i] == None && p in peers ==> capacity'[p] == 0;
    assert Distinct(indices) ==> forall p :: p in peers ==> |On(after, p)| + capacity'[p] == parity;
  }

  // The ring walk for every shard; every peer has room for `parity` of them.
  method Deal(indices: seq<nat>, peers: seq<Peer>, parity: nat) returns (placement: map<nat, Option<Peer>>)
    requires |peers| > 0 && parity > 0
    ensures forall i :: i in placement <==> i in indices
    ensures forall i :: i in placement && placement[i].Some? ==> placement[i].value in peers
    ensures forall p :: |On(placement, p)| <= parity
    ensures Distinct(indices) ==> forall i, p :: i in placement && placement[i] == None && p in peers ==>
      |On(placement, p)| == parity
    ensures Distinct(indices) && Distinct(peers) ==> Balanced(placement, |indices|, peers, parity)
    ensures Distinct(indices) && Distinct(peers) ==>
      forall t :: 0 <= t < |indices| ==> indices[t] in placement && placement[indices[t]] == Target(t, peers, parity)
  {
    hide On, Target, Even, Position, DealtSoFar;
    placement := map[];
    var capacity: map<Peer, nat> := map p | p in peers :: parity;
    var cursor := 0;
    ghost var rounds := 0;
    NothingDealt(indices, peers, parity, capacity);
    for t := 0 to |indices|
      invariant 0 <= cursor < |peers| && forall p :: p in peers <==> p in capacity
      invariant DealtSoFar(placement, indices, t, peers, parity, capacity)
      invariant Distinct(peers) ==>
        Even(capacity, peers, parity, rounds, cursor) &&
        Position(Least(t, |peers| * parity), |peers|, parity, rounds, cursor)
      invariant Distinct(indices) && Distinct(peers) ==>
        forall k :: 0 <= k < t ==> indices[k] in placement && placement[indices[k]] == Target(k, peers, parity)
    {
      var target;
      ghost var capacity0, cursor0 := capacity, cursor;
      target, capacity, cursor := Walk(peers, capacity, cursor);
      if Distinct(peers) {
        rounds := EvenNext(t, peers, parity, capacity0, cursor0, rounds, target, capacity, cursor);
      }
      DealNext(placement, indices, t, peers, parity, capacity0, target, capacity);
      placement := placement[indices[t] := target];
    }
    AllDealt(placement, indices, peers, parity, capacity);
    if Distinct(indices) && Distinct(peers) {
      DealtEvenly(placement, indices, peers, parity, capacity, rounds, cursor);
    }
  }

  lemma DealtEvenly(placement: map<nat, Option<Peer>>, indices: seq<nat>, peers: seq<Peer>, parity: nat,
                    capacity: map<Peer, nat>, rounds: nat, cursor: nat)
    requires (forall p :: p in peers ==> p in capacity) &&
      DealtSoFar(placement, indices, |indices|, peers, parity, capacity) && Distinct(indices)
    requires Even(capacity, peers, parity, rounds, cursor) &&
      Position(Least(|indices|, |peers| * parity), |peers|, parity, rounds, cursor)
    ensures Balanced(placement, |indices|, peers, parity)
  {
    hide On, Position;
    forall j | 0 <= j < |peers|
      ensures |On(placement, peers[j])| == Dealt(rounds, cursor, j)
    {
      assert |On(placement, peers[j])| + capacity[peers[j]] == parity;
    }
  }

  lemma AllDealt(placement: map<nat, Option<Peer>>, indices: seq<nat>, peers: seq<Peer>, parity: nat,
                 capacity: map<Peer, nat>)
    requires (forall p :: p in peers ==> p in capacity) &&
      DealtSoFar(placement, indices, |indices|, peers, parity, capacity)
    ensures forall i :: i in placement <==> i in indices
    ensures forall i :: i in placement && placement[i].Some? ==> placement[i].value in peers
    ensures forall p :: |On(placement, p)| <= parity
    ensures Distinct(indices) ==> forall i, p :: i in placement && placement[i] == None && p in peers ==>
      |On(placement, p)| == parity
  {
    assert indices[..|indices|] == indices;
    forall p
      ensures |On(placement, p)| <= parity
    {
      if p !in peers {
        NotOn(placement, p);
      }
    }
  }

  lemma NotOn(placement: map<nat, Option<Peer>>, p: Peer)
    requires forall i :: i in placement ==> placement[i] != Some(p)
    ensures On(placement, p) == {}
  {
  }

  lemma NothingDealt(indices: seq<nat>, peers: seq<Peer>, parity: nat, capacity: map<Peer, nat>)
    requires |peers| > 0 && parity > 0 && forall p :: p in peers ==> p in capacity && capacity[p] == parity
    ensures DealtSoFar(map[], indices, 0, peers, parity, capacity)
    ensures Even(capacity, peers, parity, 0, 0) && Position(Least(0, |peers| * parity), |peers|, parity, 0, 0)
  {
    forall p
      ensures On(map[], p) == {}
    {}
  }

  function Least(a: nat, b: nat): nat { if a < b then a else b }

  // Dealing goes on round by round while there is room.
  lemma EvenNext(t: nat, peers: seq<Peer>, parity: nat, capacity: map<Peer, nat>, cursor: nat, rounds: nat,
                 target: Option<Peer>, capacity': map<Peer, nat>, cursor': nat) returns (rounds': nat)
    requires |peers| > 0 && Distinct(peers) && cursor < |peers| &&
      (forall p :: p in peers ==> p in capacity && p in capacity')
    requires Even(capacity, peers, parity, rounds, cursor) &&
      Position(Least(t, |peers| * parity), |peers|, parity, rounds, cursor)
    requires target == None ==>
      capacity' == capacity && cursor' == cursor && forall p :: p in peers ==> capacity[p] == 0
    requires target.Some? ==> target.value in peers && capacity[target.value] > 0
    requires target.Some? ==> capacity' == capacity[target.value := capacity[target.value] - 1]
    requires capacity[peers[cursor]] > 0 ==> target == Some(peers[cursor]) && cursor' == (cursor + 1) % |peers|
    ensures target == Target(t, peers, parity)
    ensures Even(capacity', peers, parity, rounds', cursor') &&
      Position(Least(t + 1, |peers| * parity), |peers|, parity, rounds', cursor')
  {
    var n := |peers|;
    PositionNext(Least(t, n * parity), n, parity, rounds, cursor);
    assert capacity[peers[cursor]] == parity - rounds;
    if rounds < parity {
      rounds' := if cursor + 1 == n then rounds + 1 else rounds;
    } else {
      rounds' := rounds;
      assert forall j :: 0 <= j < n ==> capacity[peers[j]] == 0;
    }
  }

  ghost predicate Planned(placement: map<nat, Option<Peer>>, indices: seq<nat>, peers: seq<Peer>, parity: int) {
    && (forall i :: i in placement <==> i in indices)
    && (forall i :: i in placement && placement[i].Some? ==> placement[i].value in peers)
    && (|peers| == 0 || parity <= 0 ==> forall i :: i in placement ==> placement[i] == None)
    && (forall p :: |On(placement, p)| <= if parity > 0 then parity else 0)
    && (parity > 0 && Distinct(indices) ==>
      forall i, p :: i in placement && placement[i] == None && p in peers ==> |On(placement, p)| == parity)
  }

  lemma {:induction false} Numbers(chunks: seq<Chunk>)
    requires Numbered(chunks)
    ensures Distinct(Indices(DataShardsOnly(chunks)))
  {
    if |chunks| > 0 {
      var n := |chunks| - 1;
      var init := chunks[..n];
      forall q, r | q < r && IsShard(init, q) && IsShard(init, r)
        ensures init[q].index != init[r].index
      {
        assert IsShard(chunks, q) && IsShard(chunks, r);
      }
      Numbers(init);
      NextIndices(chunks);
      var before := DataShardsOnly(init);
      IndicesOccur(before);
      KeptOccur(init);
      forall c | c in before
        ensures IsShard(chunks, n) ==> c.index != chunks[n].index
      {
        var q: nat :| q < n && chunks[q] == c;
        assert c.index.Some? ==> IsShard(chunks, q);
      }
    }
  }

  /** plan_placement: no peer gets more than parity shards; a shard stays here only if there is no
      room at any peer; distinct peers are dealt the shards in turn. */
  method PlanPlacement(chunks: seq<Chunk>, peers: seq<Peer>, parity: int) returns (placement: map<nat, Option<Peer>>)
    ensures forall i: nat :: i in placement <==> exists c :: c in chunks && !c.sidecar && c.index == Some(i)
    ensures parity > 0 && |peers| > 0 && Distinct(peers) && Numbered(chunks) ==>
      forall q :: IsShard(chunks, q) ==>
        placement[chunks[q].index.value] ==
          var t := Rank(chunks, q);
          if t < |peers| * parity then Some(peers[t % |peers|]) else None
    ensures Planned(placement, Indices(DataShardsOnly(chunks)), peers, parity)
    ensures parity > 0 && |peers| > 0 && Distinct(peers) && Distinct(Indices(DataShardsOnly(chunks))) ==>
      Balanced(placement, |Indices(DataShardsOnly(chunks))|, peers, parity)
    ensures parity > 0 && |peers| > 0 && Distinct(peers) && Distinct(Indices(DataShardsOnly(chunks))) ==>
      forall t :: 0 <= t < |Indices(DataShardsOnly(chunks))| ==>
        Indices(DataShardsOnly(chunks))[t] in placement &&
        placement[Indices(DataShardsOnly(chunks))[t]] == Target(t, peers, parity)
  {
    var indices := Indices(DataShardsOnly(chunks));
    IndicesOccur(DataShardsOnly(chunks));
    KeptOccur(chunks);
    if |peers| > 0 && parity > 0 {
      placement := Deal(indices, peers, parity);
      BySeat(chunks, peers, parity, placement);
      return;
    }
    placement := map[];
    for k := 0 to |indices|
      invariant forall i :: i in placement <==> i in indices[..k]
      invariant forall i :: i in placement ==> placement[i] == None
    {
      placement := placement[indices[k] := None];
    }
    assert indices[..|indices|] == indices;
    forall p
      ensures |On(placement, p)| == 0
    {
      NotOn(placement, p);
    }
  }

  lemma BySeat(chunks: seq<Chunk>, peers: seq<Peer>, parity: nat, placement: map<nat, Option<Peer>>)
    requires |peers| > 0 && parity > 0
    requires Distinct(peers) && Distinct(Indices(DataShardsOnly(chunks))) ==>
      forall t :: 0 <= t < |Indices(DataShardsOnly(chunks))| ==>
        Indices(DataShardsOnly(chunks))[t] in placement &&
        placement[Indices(DataShardsOnly(chunks))[t]] == Target(t, peers, parity)
    ensures Distinct(peers) && Numbered(chunks) ==>
      forall q :: IsShard(chunks, q) ==>
        chunks[q].index.value in placement &&
        placement[chunks[q].index.value] == Target(Rank(chunks, q), peers, parity)
  {
    hide Target;
    if Distinct(peers) && Numbered(chunks) {
      Numbers(chunks);
      Ranked(chunks);
    }
  }

  // ---- the hand-off ----

  // What a push to a peer comes to.  Whatever the answer, the peer may have stored something.
  datatype Reply =
    | NoAnswer(kept: Option<Bytes>)
    | Rejected(kept: Option<Bytes>)
    | NoDigest(kept: Option<Bytes>)
    | Stored(bytes: Bytes) // answers with the digest of what it wrote

  // The origin's files and what the peers hold of this file.
  class World {
    var files: map<string, Bytes>
    var stores: map<(Peer, nat), Bytes>

    constructor (files: map<string, Bytes>)
      ensures this.files == files && stores == map[]
    {
      this.files, stores := files, map[];
    }
  }

  // The digest tells x from y.  No digest of a fixed length tells all byte strings apart, so this is asked only
  // of byte strings that are compared.
  ghost predicate Told(digest: Bytes -> string, x: Bytes, y: Bytes) { digest(x) == digest(y) ==> x == y }

  // Digests are not empty, and tell what the peers store of the shards from the shards.
  ghost predicate Faithful(digest: Bytes -> string, shards: seq<Chunk>, replies: nat -> Reply, originals: seq<Bytes>) {
    && |shards| == |originals| && (forall x :: digest(x) != "")
    && forall k :: 0 <= k < |shards| && shards[k].index.Some? && replies(shards[k].index.value).Stored? ==>
      Told(digest, replies(shards[k].index.value).bytes, originals[k])
  }

  // A shard with its original content is on the origin, or on its recorded peer.
  ghost predicate Safe(w: World, c: Chunk, original: Bytes)
    reads w, c
  {
    || (c.path in w.files && w.files[c.path] == original)
    || HeldBy(w, c, original)
  }

  ghost predicate HeldBy(w: World, c: Chunk, original: Bytes)
    reads w, c
  {
    HeldIn(w.stores, c, c.peer, original)
  }

  ghost predicate HeldIn(stores: map<(Peer, nat), Bytes>, c: Chunk, peer: Option<Peer>, original: Bytes) {
    c.index.Some? && peer.Some? && (peer.value, c.index.value) in stores &&
    stores[(peer.value, c.index.value)] == original
  }

  // Every shard is safe; what is left of it on the origin is intact; a recorded peer comes with the
  // digest of the original.
  ghost predicate AllSafe(w: World, shards: seq<Chunk>, originals: seq<Bytes>, digest: Bytes -> string)
    requires |shards| == |originals|
    reads w, shards
  {
    forall k :: 0 <= k < |shards| ==>
      Safe(w, shards[k], originals[k]) &&
      (shards[k].path in w.files ==> w.files[shards[k].path] == originals[k]) &&
      (shards[k].peer.Some? ==> shards[k].digest == Some(digest(originals[k])) && digest(originals[k]) != "")
  }

  // Shards are told apart by index and by path.
  ghost predicate Apart(shards: seq<Chunk>) {
    && (forall k :: 0 <= k < |shards| ==> shards[k].index.Some? && !shards[k].sidecar)
    && (forall j, k :: 0 <= j < k < |shards| ==>
         shards[j] != shards[k] && shards[j].index != shards[k].index && shards[j].path != shards[k].path)
  }

  lemma {:induction false} IndicesOfApart(shards: seq<Chunk>)
    requires Apart(shards)
    ensures |Indices(shards)| == |shards| &&
      forall k :: 0 <= k < |shards| ==> Indices(shards)[k] == shards[k].index.value
  {
    if |shards| > 0 {
      IndicesOfApart(shards[..|shards| - 1]);
    }
  }

  // Only what peer q holds of shard i may differ.
  ghost predicate SameStores(before: map<(Peer, nat), Bytes>, after: map<(Peer, nat), Bytes>, q: Peer, i: nat) {
    forall k :: k != (q, i) ==> (k in before <==> k in after) && (k in before ==> after[k] == before[k])
  }

  /** push_shard, while the shard is here: the digest the peer reports, or a failure. */
  method PushShard(w: World, shards: seq<Chunk>, k: nat, target: Peer, reply: Reply, digest: Bytes -> string,
                   ghost originals: seq<Bytes>)
    returns (stored: Option<string>)
    requires |shards| == |originals| && k < |shards| && Apart(shards) && AllSafe(w, shards, originals, digest) &&
      shards[k].path in w.files
    modifies w`stores
    ensures AllSafe(w, shards, originals, digest) && SameStores(old(w.stores), w.stores, target, shards[k].index.value)
    ensures stored.Some? ==> reply.Stored? && stored.value == digest(reply.bytes) != ""
    ensures reply.Stored? ==> w.stores == old(w.stores)[(target, shards[k].index.value) := reply.bytes]
    ensures stored == if reply.Stored? && digest(reply.bytes) != "" then Some(digest(reply.bytes)) else None
  {
    var slot := (target, shards[k].index.value);
    ghost var before := w.stores;
    match reply {
      case Stored(bytes) =>
        w.stores := w.stores[slot := bytes];
        stored := if digest(bytes) == "" then None else Some(digest(bytes));
      case _ =>
        if reply.kept.Some? {
          w.stores := w.stores[slot := reply.kept.value];
        }
        stored := None;
    }
    forall j | 0 <= j < |shards|
      ensures Safe(w, shards[j], originals[j])
    {
      assert j != k ==> shards[j].index.value != shards[k].index.value;
    }
  }

  /** The target is recorded for a shard it holds. */
  method Record(w: World, shards: seq<Chunk>, k: nat, target: Peer, size: nat, digest: Bytes -> string,
                ghost originals: seq<Bytes>, sum: string)
    requires |shards| == |originals| && k < |shards| && Apart(shards) && AllSafe(w, shards, originals, digest)
    requires (target, shards[k].index.value) in w.stores && w.stores[(target, shards[k].index.value)] == originals[k]
    requires sum == digest(originals[k]) != ""
    modifies shards[k]
    ensures AllSafe(w, shards, originals, digest)
    ensures shards[k].peer == Some(target) && HeldBy(w, shards[k], originals[k]) &&
      shards[k].local == old(shards[k].local)
    ensures shards[k].digest == Some(sum) && shards[k].size == size
  {
    shards[k].peer, shards[k].digest, shards[k].size := Some(target), Some(sum), size;
    forall j | 0 <= j < |shards| && j != k
      ensures Safe(w, shards[j], originals[j]) == old(Safe(w, shards[j], originals[j]))
    {}
  }

  /** The local copy of a shard that is held elsewhere goes. */
  method DropLocal(w: World, shards: seq<Chunk>, k: nat, digest: Bytes -> string, ghost originals: seq<Bytes>)
    requires |shards| == |originals| && k < |shards| && Apart(shards) && AllSafe(w, shards, originals, digest)
    requires HeldBy(w, shards[k], originals[k])
    modifies w`files, shards[k]
    ensures AllSafe(w, shards, originals, digest) && HeldBy(w, shards[k], originals[k]) &&
      shards[k].peer == old(shards[k].peer)
    ensures w.files == old(w.files) - {shards[k].path} && !shards[k].local
    ensures shards[k].digest == old(shards[k].digest) && shards[k].size == old(shards[k].size)
  {
    w.files := w.files - {shards[k].path};
    shards[k].local := false;
    forall j | 0 <= j < |shards|
      ensures Safe(w, shards[j], originals[j])
    {
      assert j != k ==> shards[j].path != shards[k].path;
    }
  }

  method MarkLocal(w: World, shards: seq<Chunk>, k: nat, digest: Bytes -> string, ghost originals: seq<Bytes>)
    requires |shards| == |originals| && k < |shards| && Apart(shards) && AllSafe(w, shards, originals, digest)
    modifies shards[k]
    ensures AllSafe(w, shards, originals, digest) && shards[k].peer == old(shards[k].peer) && shards[k].local
    ensures HeldBy(w, shards[k], originals[k]) == old(HeldBy(w, shards[k], originals[k]))
    ensures shards[k].digest == old(shards[k].digest) && shards[k].size == old(shards[k].size)
  {
    shards[k].local := true;
    forall j | 0 <= j < |shards|
      ensures Safe(w, shards[j], originals[j])
    {
      assert old(Safe(w, shards[j], originals[j]));
    }
  }

  /** One shard: push it to its target; record the target exactly if the shard is here and the peer reports the
      digest of what it is; only then drop the local copy.  All shards stay safe throughout. */
  method HandOff(w: World, shards: seq<Chunk>, k: nat, target: Peer, keepLocal: bool, reply: Reply, canDrop: bool,
                 digest: Bytes -> string,
                 ghost originals: seq<Bytes>) returns (placed: bool, failed: bool)
    requires |shards| == |originals| && k < |shards| && Apart(shards) && AllSafe(w, shards, originals, digest)
    requires (forall x :: digest(x) != "") && (reply.Stored? ==> Told(digest, reply.bytes, originals[k]))
    modifies w, shards[k]
    ensures AllSafe(w, shards, originals, digest)
    ensures placed <==> old(shards[k].path in w.files) && reply == Stored(originals[k])
    ensures shards[k].peer == (if placed then Some(target) else old(shards[k].peer)) &&
      (placed ==> HeldBy(w, shards[k], originals[k]))
    ensures failed <==> !(placed && (keepLocal || canDrop))
    ensures w.files == if placed && !keepLocal && canDrop then old(w.files) - {shards[k].path} else old(w.files)
    ensures exists q :: SameStores(old(w.stores), w.stores, q, shards[k].index.value)
    ensures shards[k].local ==
      if old(shards[k].path in w.files) then !(placed && !keepLocal && canDrop) else old(shards[k].local)
    ensures (shards[k].digest, shards[k].size) ==
      if placed then (Some(digest(originals[k])), |originals[k]|) else old((shards[k].digest, shards[k].size))
  {
    hide AllSafe, Safe, HeldBy, SameStores;
    var chunk := shards[k];
    if chunk.path !in w.files {
      NothingStored(w.stores, target, shards[k].index.value);
      return false, true;
    }
    var payload := w.files[chunk.path];
    StillHere(w, shards, k, originals, digest);
    var remote := PushShard(w, shards, k, target, reply, digest, originals);
    if remote != Some(digest(payload)) {
      MarkLocal(w, shards, k, digest, originals);
      return false, true;
    }
    Record(w, shards, k, target, |payload|, digest, originals, digest(payload));
    failed := false;
    if keepLocal {
      MarkLocal(w, shards, k, digest, originals);
    } else if canDrop {
      DropLocal(w, shards, k, digest, originals);
    } else {
      failed := true;
      MarkLocal(w, shards, k, digest, originals);
    }
    placed := true;
  }

  lemma StillHere(w: World, shards: seq<Chunk>, k: nat, originals: seq<Bytes>, digest: Bytes -> string)
    requires |shards| == |originals| && k < |shards| && AllSafe(w, shards, originals, digest) &&
      shards[k].path in w.files
    ensures w.files[shards[k].path] == originals[k]
  {}

  lemma NothingStored(stores: map<(Peer, nat), Bytes>, q: Peer, i: nat)
    ensures SameStores(stores, stores, q, i)
  {}

  // by_index: the chunk of every index.
  method ByIndex(shards: seq<Chunk>) returns (r: map<nat, nat>)
    requires Apart(shards)
    ensures forall i :: i in r <==> i in Indices(shards)
    ensures forall i :: i in r ==> r[i] < |shards| && shards[r[i]].index == Some(i)
    ensures forall k :: 0 <= k < |shards| ==> shards[k].index.value in r && r[shards[k].index.value] == k
  {
    IndicesOfApart(shards);
    r := map[];
    for k := 0 to |shards|
      invariant forall i :: i in r <==> exists j :: 0 <= j < k && shards[j].index == Some(i)
      invariant forall i :: i in r ==> r[i] < k && shards[r[i]].index == Some(i)
    {
      r := r[shards[k].index.value := k];
    }
    forall i
      ensures i in r <==> i in Indices(shards)
    {
      if i in r {
        assert Indices(shards)[r[i]] == i;
      }
      if i in Indices(shards) {
        var k :| 0 <= k < |shards| && Indices(shards)[k] == i;
        assert shards[k].index == Some(i);
      }
    }
  }

  lemma Smallest(s: set<nat>) returns (x: nat)
    requires s != {}
    ensures x in s && forall y :: y in s ==> x <= y
  {
    x :| x in s;
    var rest := s - {x};
    if rest == {} {
      assert s == {x};
    } else {
      var y := Smallest(rest);
      assert s == rest + {x};
      if y < x {
        x := y;
      }
    }
  }

  // What the peers and the disk do in a run: the answer to each push, and whether each local copy can go.
  datatype Conduct = Conduct(replies: nat -> Reply, canDrop: nat -> bool, keepLocal: bool)

  // A shard that is here goes to its target if the answer shows that it is there.
  ghost predicate Moves(target: Option<Peer>, wasHere: bool, reply: Reply, original: Bytes) {
    target.Some? && wasHere && reply == Stored(original)
  }

  // What distribute has done for a shard, given its target.
  ghost predicate Settled(files: map<string, Bytes>, stores: map<(Peer, nat), Bytes>, c: Chunk, peer: Option<Peer>,
                          original: Bytes,
                          target: Option<Peer>, failed: bool, before: Option<Peer>, wasHere: bool, reply: Reply,
                          dropped: bool)
  {
    var moves := Moves(target, wasHere, reply, original);
    && peer == (if moves then target else before)
    && (moves ==> HeldIn(stores, c, peer, original))
    && (c.path in files <==> wasHere && !(moves && dropped))
  }

  // Where the loop of distribute is: shards still to do are as they were, the others are settled.
  ghost predicate Going(files: map<string, Bytes>, stores: map<(Peer, nat), Bytes>, shards: seq<Chunk>,
                        peers: seq<Option<Peer>>, originals: seq<Bytes>,
                        plan: map<nat, Option<Peer>>, todo: set<nat>, failures: set<nat>, before: seq<Option<Peer>>,
                        here: seq<bool>, run: Conduct)
  {
    && Apart(shards) && |shards| == |originals| == |before| == |here| == |peers|
    && forall k :: 0 <= k < |shards| ==>
      GoingAt(files, stores, shards[k], peers[k], originals[k], plan, todo, failures, before[k], here[k], run)
  }

  ghost predicate GoingAt(files: map<string, Bytes>, stores: map<(Peer, nat), Bytes>, c: Chunk, peer: Option<Peer>,
                          original: Bytes,
                          plan: map<nat, Option<Peer>>, todo: set<nat>, failures: set<nat>, before: Option<Peer>,
                          wasHere: bool, run: Conduct)
  {
    c.index.Some? && c.index.value in plan &&
    if c.index.value in todo then peer == before && (c.path in files <==> wasHere) && c.index.value !in failures
    else
      var i := c.index.value;
      var moves := Moves(plan[i], wasHere, run.replies(i), original);
      Settled(files, stores, c, peer, original, plan[i], i in failures, before, wasHere, run.replies(i),
        !run.keepLocal && run.canDrop(i)) &&
      (i in failures <==> plan[i].Some? && !(moves && (run.keepLocal || run.canDrop(i))))
  }

  // One turn of the loop.
  method Settle(w: World, shards: seq<Chunk>, k: nat, target: Option<Peer>, keepLocal: bool, reply: Reply,
                canDrop: bool, digest: Bytes -> string,
                ghost originals: seq<Bytes>, ghost before: Option<Peer>, ghost wasHere: bool) returns (placed: bool,
                  failed: bool)
    requires |shards| == |originals| && k < |shards| && Apart(shards) && AllSafe(w, shards, originals, digest)
    requires (forall x :: digest(x) != "") && (reply.Stored? ==> Told(digest, reply.bytes, originals[k]))
    requires shards[k].peer == before && (shards[k].path in w.files <==> wasHere)
    modifies w, shards[k]
    ensures AllSafe(w, shards, originals, digest)
    ensures Settled(w.files, w.stores, shards[k], shards[k].peer, originals[k], target, failed, before, wasHere, reply,
      !keepLocal && canDrop)
    ensures placed <==> Moves(target, wasHere, reply, originals[k])
    ensures failed <==> target.Some? && !(placed && (keepLocal || canDrop))
    ensures w.files == if placed && !keepLocal && canDrop then old(w.files) - {shards[k].path} else old(w.files)
    ensures exists q :: SameStores(old(w.stores), w.stores, q, shards[k].index.value)
    ensures shards[k].local ==
      if target.Some? && !wasHere then old(shards[k].local) else !(placed && !keepLocal && canDrop)
    ensures (shards[k].digest, shards[k].size) ==
      if placed then (Some(digest(originals[k])), |originals[k]|) else old((shards[k].digest, shards[k].size))
  {
    match target {
      case None =>
        MarkLocal(w, shards, k, digest, originals);
        NothingStored(w.stores, "", shards[k].index.value);
        return false, false;
      case Some(p) =>
        placed, failed := HandOff(w, shards, k, p, keepLocal, reply, canDrop, digest, originals);
    }
  }

  // The other shards are not touched by a turn.
  lemma OthersKept(files: map<string, Bytes>, files': map<string, Bytes>, stores: map<(Peer, nat), Bytes>,
                   stores': map<(Peer, nat), Bytes>,
                   shards: seq<Chunk>, k: nat, peers: seq<Option<Peer>>, peers': seq<Option<Peer>>,
                   originals: seq<Bytes>, plan: map<nat, Option<Peer>>,
                   todo: set<nat>, failures: set<nat>, failures': set<nat>, before: seq<Option<Peer>>, here: seq<bool>,
                   run: Conduct)
    requires Going(files, stores, shards, peers, originals, plan, todo, failures, before, here, run) && k < |shards| &&
      shards[k].index.value in todo
    requires |peers'| == |peers| && forall j :: 0 <= j < |peers| && j != k ==> peers'[j] == peers[j]
    requires files' == files || files' == files - {shards[k].path}
    requires exists q :: SameStores(stores, stores', q, shards[k].index.value)
    requires failures' == failures || failures' == failures + {shards[k].index.value}
    requires GoingAt(files', stores', shards[k], peers'[k], originals[k], plan, todo - {shards[k].index.value},
      failures', before[k], here[k], run)
    ensures Going(files', stores', shards, peers', originals, plan, todo - {shards[k].index.value}, failures', before,
      here, run)
  {
    forall j | 0 <= j < |shards|
      ensures GoingAt(files', stores', shards[j], peers'[j], originals[j], plan, todo - {shards[k].index.value},
        failures', before[j], here[j], run)
    {
      if j != k {
        assert shards[j].path != shards[k].path && shards[j].index.value != shards[k].index.value;
        assert GoingAt(files, stores, shards[j], peers[j], originals[j], plan, todo, failures, before[j], here[j], run);
      }
    }
  }

  ghost function PeersOf(shards: seq<Chunk>): (r: seq<Option<Peer>>)
    reads shards
    ensures |r| == |shards| && forall k :: 0 <= k < |shards| ==> r[k] == shards[k].peer
  {
    seq(|shards|, k requires 0 <= k < |shards| reads shards => shards[k].peer)
  }

  // Which shards have a local copy.
  ghost function HereOf(w: World, shards: seq<Chunk>): (r: seq<bool>)
    reads w
    ensures |r| == |shards| && forall k :: 0 <= k < |shards| ==> (r[k] <==> shards[k].path in w.files)
  {
    seq(|shards|, k requires 0 <= k < |shards| reads w => shards[k].path in w.files)
  }

  // One turn of the loop, for all shards.
  method Turn(w: World, shards: seq<Chunk>, k: nat, placement: map<nat, Option<Peer>>, todo: set<nat>,
              failures: set<nat>, run: Conduct,
              digest: Bytes -> string, ghost originals: seq<Bytes>, ghost before: seq<Option<Peer>>,
              ghost here: seq<bool>)
    returns (done: bool, failures': set<nat>)
    requires k < |shards| && Going(w.files, w.stores, shards, PeersOf(shards), originals, placement, todo, failures,
      before, here, run)
    requires Faithful(digest, shards, run.replies, originals) && AllSafe(w, shards, originals, digest) &&
      shards[k].index.value in todo
    modifies w, shards[k]
    ensures AllSafe(w, shards, originals, digest)
    ensures Going(w.files, w.stores, shards, PeersOf(shards), originals, placement, todo - {shards[k].index.value},
      failures', before, here, run)
    ensures run.keepLocal ==> w.files == old(w.files)
    ensures var i := shards[k].index.value; done <==> Moves(placement[i], here[k], run.replies(i), originals[k])
  {
    hide AllSafe, Settled, SameStores;
    ghost var files, stores, peers := w.files, w.stores, PeersOf(shards);
    assert GoingAt(files, stores, shards[k], peers[k], originals[k], placement, todo, failures, before[k], here[k],
      run);
    var failed;
    var i := shards[k].index.value;
    done, failed := Settle(w, shards, k, placement[i], run.keepLocal, run.replies(i), run.canDrop(i), digest, originals,
      before[k], here[k]);
    failures' := if failed then failures + {i} else failures;
    OthersKept(files, w.files, stores, w.stores, shards, k, peers, PeersOf(shards), originals, placement, todo,
      failures, failures', before, here, run);
  }

  // The same turn, and the count of the shards that were placed.
  method CountedTurn(w: World, shards: seq<Chunk>, k: nat, placement: map<nat, Option<Peer>>, todo: set<nat>,
                     placed: nat, failures: set<nat>, run: Conduct,
                     digest: Bytes -> string, ghost originals: seq<Bytes>, ghost before: seq<Option<Peer>>,
                     ghost here: seq<bool>)
    returns (placed': nat, failures': set<nat>)
    requires k < |shards| && Apart(shards) && Indexed(placement, shards) && |here| == |shards|
    requires Going(w.files, w.stores, shards, PeersOf(shards), originals, placement, todo, failures, before, here, run)
    requires Faithful(digest, shards, run.replies, originals) && AllSafe(w, shards, originals, digest) &&
      shards[k].index.value in todo
    requires placed == |Moved(placement, shards, run.replies, here, originals, todo)|
    modifies w, shards[k]
    ensures AllSafe(w, shards, originals, digest)
    ensures Going(w.files, w.stores, shards, PeersOf(shards), originals, placement, todo - {shards[k].index.value},
      failures', before, here, run)
    ensures run.keepLocal ==> w.files == old(w.files)
    ensures placed' == |Moved(placement, shards, run.replies, here, originals, todo - {shards[k].index.value})|
  {
    hide AllSafe, Settled, SameStores, Going, Moves, Moved, Told;
    placed' := placed;
    var done;
    done, failures' := Turn(w, shards, k, placement, todo, failures, run, digest, originals, before, here);
    MovedNext(placement, shards, run.replies, here, originals, todo, k);
    if done {
      placed' := placed' + 1;
    }
  }

  lemma OneEach(shards: seq<Chunk>, originals: seq<Bytes>, run: Conduct, digest: Bytes -> string)
    requires Faithful(digest, shards, run.replies, originals)
    ensures |shards| == |originals|
  {}

  // The loop of distribute, in ascending order of the indices.
  method CarryOut(w: World, shards: seq<Chunk>, placement: map<nat, Option<Peer>>, run: Conduct,
                  digest: Bytes -> string,
                  ghost originals: seq<Bytes>)
    returns (placed: nat, failures: set<nat>)
    requires Apart(shards) && Faithful(digest, shards, run.replies, originals) && AllSafe(w, shards, originals, digest)
    requires forall i :: i in placement <==> i in Indices(shards)
    modifies w, shards
    ensures AllSafe(w, shards, originals, digest)
    ensures Going(w.files, w.stores, shards, PeersOf(shards), originals, placement, {}, failures, old(PeersOf(shards)),
      old(HereOf(w, shards)), run)
    ensures run.keepLocal ==> w.files == old(w.files)
    ensures Indexed(placement, shards) &&
      placed == |Moved(placement, shards, run.replies, old(HereOf(w, shards)), originals, {})|
  {
    hide PeersOf, HereOf, AllSafe, Settled, Indices, SameStores, Going, Moves, Moved;
    placed, failures := 0, {};
    var byIndex := ByIndex(shards);
    var todo: set<nat> := placement.Keys;
    ghost var before, here := PeersOf(shards), HereOf(w, shards);
    OneEach(shards, originals, run, digest);
    Starts(w, shards, originals, placement, before, here, run);
    AllPlanned(shards, placement);
    NoneMoved(placement, shards, run.replies, here, originals, todo);
    while todo != {}
      invariant todo <= placement.Keys && AllSafe(w, shards, originals, digest)
      invariant Going(w.files, w.stores, shards, PeersOf(shards), originals, placement, todo, failures, before, here,
        run)
      invariant run.keepLocal ==> w.files == old(w.files)
      invariant placed == |Moved(placement, shards, run.replies, here, originals, todo)|
      decreases |todo|
    {
      ghost var least := Smallest(todo);
      var index: nat :| index in todo && forall i :: i in todo ==> index <= i;
      var k := byIndex[index];
      placed, failures := CountedTurn(w, shards, k, placement, todo, placed, failures, run, digest, originals, before,
        here);
      todo := todo - {index};
    }
  }

  // The shards that are done and have moved.
  ghost function Moved(plan: map<nat, Option<Peer>>, shards: seq<Chunk>, replies: nat -> Reply, here: seq<bool>,
                       originals: seq<Bytes>, todo: set<nat>): set<nat>
    requires Indexed(plan, shards) && |here| == |originals| == |shards|
  {
    set k: nat | k < |shards| && shards[k].index.value !in todo &&
      Moves(plan[shards[k].index.value], here[k], replies(shards[k].index.value), originals[k])
  }

  lemma NoneMoved(plan: map<nat, Option<Peer>>, shards: seq<Chunk>, replies: nat -> Reply, here: seq<bool>,
                  originals: seq<Bytes>, todo: set<nat>)
    requires Indexed(plan, shards) && |here| == |originals| == |shards|
    requires forall k :: 0 <= k < |shards| ==> shards[k].index.value in todo
    ensures Moved(plan, shards, replies, here, originals, todo) == {}
  {}

  lemma MovedNext(plan: map<nat, Option<Peer>>, shards: seq<Chunk>, replies: nat -> Reply, here: seq<bool>,
                  originals: seq<Bytes>, todo: set<nat>, k: nat)
    requires Apart(shards) && Indexed(plan, shards) && |here| == |originals| == |shards| && k < |shards|
    requires shards[k].index.value in todo
    ensures var i := shards[k].index.value;
      |Moved(plan, shards, replies, here, originals, todo - {i})| ==
        |Moved(plan, shards, replies, here, originals, todo)| +
        if Moves(plan[i], here[k], replies(i), originals[k]) then 1 else 0
  {
    hide Moves;
    var i := shards[k].index.value;
    var before, after := Moved(plan, shards, replies, here, originals, todo),
      Moved(plan, shards, replies, here, originals, todo - {i});
    assert forall j :: 0 <= j < |shards| && j != k ==> shards[j].index.value != i;
    assert after == before + if Moves(plan[i], here[k], replies(i), originals[k]) then {k} else {};
  }

  lemma AllPlanned(shards: seq<Chunk>, plan: map<nat, Option<Peer>>)
    requires Apart(shards) && forall i :: i in plan <==> i in Indices(shards)
    ensures Indexed(plan, shards)
    ensures forall k :: 0 <= k < |shards| ==> shards[k].index.value in plan.Keys
  {
    IndicesOfApart(shards);
    forall k | 0 <= k < |shards|
      ensures shards[k].index.value in plan
    {
      assert Indices(shards)[k] == shards[k].index.value;
    }
  }

  // What a run has made of an entry of the list.
  ghost predicate WentThrough(w: World, c: Chunk, original: Bytes, plan: map<nat, Option<Peer>>, run: Conduct,
                              before: Option<Peer>, wasHere: bool)
    reads w, c
  {
    && Safe(w, c, original) && c.index.Some? && c.index.value in plan
    && c.peer == (if Moves(plan[c.index.value], wasHere, run.replies(c.index.value), original) then plan[c.index.value]
         else before)
  }

  /** distribute, whatever the peers answer: at every step every shard is here or stored intact on its
      recorded peer. */
  method Distribute(w: World, chunks: seq<Chunk>, peers: seq<Peer>, parity: int, run: Conduct, digest: Bytes -> string,
                    ghost originals: seq<Bytes>)
    returns (placed: nat, failures: set<nat>, ghost plan: map<nat, Option<Peer>>)
    requires Apart(DataShardsOnly(chunks)) && Faithful(digest, DataShardsOnly(chunks), run.replies, originals)
    requires AllSafe(w, DataShardsOnly(chunks), originals, digest)
    modifies w, DataShardsOnly(chunks)
    ensures AllSafe(w, DataShardsOnly(chunks), originals, digest)
    ensures Planned(plan, Indices(DataShardsOnly(chunks)), peers, parity)
    ensures Going(w.files, w.stores, DataShardsOnly(chunks), PeersOf(DataShardsOnly(chunks)), originals, plan, {},
      failures,
                  old(PeersOf(DataShardsOnly(chunks))), old(HereOf(w, DataShardsOnly(chunks))), run)
    ensures run.keepLocal ==> w.files == old(w.files)
    ensures Indexed(plan, DataShardsOnly(chunks)) && PeersOf(DataShardsOnly(chunks)) ==
      PeersAfter(plan, DataShardsOnly(chunks), run.replies, old(PeersOf(DataShardsOnly(chunks))),
        old(HereOf(w, DataShardsOnly(chunks))), originals)
    ensures parity > 0 && |peers| > 0 && Distinct(peers) ==>
      forall k :: 0 <= k < |DataShardsOnly(chunks)| ==>
        plan[DataShardsOnly(chunks)[k].index.value] == Target(k, peers, parity)
    ensures forall c :: c in chunks && !c.sidecar ==>
      exists k: nat ::
        k < |originals| && DataShardsOnly(chunks)[k] == c &&
        WentThrough(w, c, originals[k], plan, run, old(c.peer), old(c.path in w.files))
    ensures placed ==
      |Moved(plan, DataShardsOnly(chunks), run.replies, old(HereOf(w, DataShardsOnly(chunks))), originals, {})|
  {
    hide AllSafe, Settled, SameStores, Target, Going, Planned, Indices, PeersAfter, Distinct, Moved;
    var placement := PlanPlacement(chunks, peers, parity);
    plan := placement;
    ghost var shards := DataShardsOnly(chunks);
    PlanAt(shards, plan, peers, parity);
    ghost var before, here := PeersOf(shards), HereOf(w, shards);
    placed, failures := CarryOut(w, DataShardsOnly(chunks), placement, run, digest, originals);
    GoneThrough(w.files, w.stores, shards, PeersOf(shards), originals, plan, failures, before, here, run);
    KeptOccur(chunks);
    forall c | c in chunks && !c.sidecar
      ensures exists k: nat ::
        k < |originals| && DataShardsOnly(chunks)[k] == c &&
        WentThrough(w, c, originals[k], plan, run, old(c.peer), old(c.path in w.files))
    {
      var k: nat :| k < |shards| && shards[k] == c;
      ThroughAt(w, shards, k, originals, plan, run, before, here, digest);
    }
  }

  lemma ThroughAt(w: World, shards: seq<Chunk>, k: nat, originals: seq<Bytes>, plan: map<nat, Option<Peer>>,
                  run: Conduct, before: seq<Option<Peer>>, here: seq<bool>, digest: Bytes -> string)
    requires k < |shards| == |originals| == |before| == |here| && AllSafe(w, shards, originals, digest)
    requires Indexed(plan, shards) && PeersOf(shards) == PeersAfter(plan, shards, run.replies, before, here, originals)
    ensures WentThrough(w, shards[k], originals[k], plan, run, before[k], here[k])
  {
    hide Safe;
    assert PeersOf(shards)[k] == shards[k].peer;
  }

  lemma PlanAt(shards: seq<Chunk>, plan: map<nat, Option<Peer>>, peers: seq<Peer>, parity: int)
    requires Apart(shards) && Planned(plan, Indices(shards), peers, parity)
    requires parity > 0 && |peers| > 0 && Distinct(peers) && Distinct(Indices(shards)) ==>
      forall t :: 0 <= t < |Indices(shards)| ==>
        Indices(shards)[t] in plan && plan[Indices(shards)[t]] == Target(t, peers, parity)
    ensures Indexed(plan, shards) && forall i :: i in plan <==> i in Indices(shards)
    ensures parity > 0 && |peers| > 0 && Distinct(peers) ==>
      forall k :: 0 <= k < |shards| ==> plan[shards[k].index.value] == Target(k, peers, parity)
  {
    hide Target;
    IndicesOfApart(shards);
    forall k | 0 <= k < |shards|
      ensures shards[k].index.value in plan
    {
      assert Indices(shards)[k] == shards[k].index.value;
    }
  }

  // Every shard has a place in the plan.
  ghost predicate Indexed(plan: map<nat, Option<Peer>>, shards: seq<Chunk>) {
    forall k :: 0 <= k < |shards| ==> shards[k].index.Some? && shards[k].index.value in plan
  }

  /** The recorded peers after a run. */
  ghost function PeersAfter(plan: map<nat, Option<Peer>>, shards: seq<Chunk>, replies: nat -> Reply,
                            before: seq<Option<Peer>>, here: seq<bool>,
                            originals: seq<Bytes>): (r: seq<Option<Peer>>)
    requires Indexed(plan, shards) && |before| == |here| == |originals| == |shards|
    ensures |r| == |shards|
  {
    seq(|shards|, k requires 0 <= k < |shards| =>
      var i := shards[k].index.value;
      if Moves(plan[i], here[k], replies(i), originals[k]) then plan[i] else before[k])
  }

  lemma GoneThrough(files: map<string, Bytes>, stores: map<(Peer, nat), Bytes>, shards: seq<Chunk>,
                    peers: seq<Option<Peer>>, originals: seq<Bytes>,
                    plan: map<nat, Option<Peer>>, failures: set<nat>, before: seq<Option<Peer>>, here: seq<bool>,
                    run: Conduct)
    requires Going(files, stores, shards, peers, originals, plan, {}, failures, before, here, run)
    ensures Indexed(plan, shards) && peers == PeersAfter(plan, shards, run.replies, before, here, originals)
  {
    forall k | 0 <= k < |shards|
      ensures shards[k].index.value in plan
      ensures peers[k] ==
        if Moves(plan[shards[k].index.value], here[k], run.replies(shards[k].index.value), originals[k])
        then plan[shards[k].index.value] else before[k]
    {
      assert GoingAt(files, stores, shards[k], peers[k], originals[k], plan, {}, failures, before[k], here[k], run);
    }
  }

  lemma Starts(w: World, shards: seq<Chunk>, originals: seq<Bytes>, plan: map<nat, Option<Peer>>,
               before: seq<Option<Peer>>, here: seq<bool>, run: Conduct)
    requires Apart(shards) && |shards| == |originals| && forall i :: i in plan <==> i in Indices(shards)
    requires before == PeersOf(shards) && here == HereOf(w, shards)
    ensures Going(w.files, w.stores, shards, before, originals, plan, plan.Keys, {}, before, here, run)
  {
    IndicesOfApart(shards);
    forall k | 0 <= k < |shards|
      ensures shards[k].index.value in plan
    {
      assert Indices(shards)[k] in Indices(shards);
    }
  }

  // ---- losing a peer ----

  // The shards recorded at peer p.
  ghost function Recorded(peers: seq<Option<Peer>>, p: Peer): set<nat> {
    set k: nat | k < |peers| && peers[k] == Some(p)
  }

  lemma {:induction false} NoMoreThan(shards: seq<Chunk>, s: set<nat>, indices: set<nat>)
    requires Apart(shards) && forall k :: k in s ==> k < |shards| && shards[k].index.value in indices
    ensures |s| <= |indices|
    decreases |s|
  {
    if s != {} {
      var k :| k in s;
      assert forall j :: j in s && j != k ==> shards[j].index.value != shards[k].index.value;
      NoMoreThan(shards, s - {k}, indices - {shards[k].index.value});
    }
  }

  // The shards that are or can come to be recorded at p: those that are, and those here that p is to get.
  ghost function Reach(plan: map<nat, Option<Peer>>, shards: seq<Chunk>, before: seq<Option<Peer>>, here: seq<bool>,
                       p: Peer): set<nat>
    requires Indexed(plan, shards) && |before| == |here| == |shards|
  {
    set k: nat | k < |shards| && (before[k] == Some(p) || (here[k] && plan[shards[k].index.value] == Some(p)))
  }

  lemma WithinReach(plan: map<nat, Option<Peer>>, shards: seq<Chunk>, replies: nat -> Reply, before: seq<Option<Peer>>,
                    here: seq<bool>,
                    originals: seq<Bytes>, p: Peer)
    requires Indexed(plan, shards) && |before| == |here| == |originals| == |shards|
    ensures Recorded(PeersAfter(plan, shards, replies, before, here, originals), p) <=
      Reach(plan, shards, before, here, p)
    ensures |Recorded(PeersAfter(plan, shards, replies, before, here, originals), p)| <=
      |Reach(plan, shards, before, here, p)|
  {
    SubsetSize(Recorded(PeersAfter(plan, shards, replies, before, here, originals), p),
      Reach(plan, shards, before, here, p));
  }

  // The shard with index i.
  ghost function OriginalOf(shards: seq<Chunk>, originals: seq<Bytes>, i: nat): Bytes
    requires |shards| == |originals|
  {
    if exists k :: 0 <= k < |shards| && shards[k].index == Some(i)
    then var k :| 0 <= k < |shards| && shards[k].index == Some(i); originals[k]
    else []
  }

  // The answers that bring p all it can get: p takes every shard, no other peer answers.
  ghost function Friendly(plan: map<nat, Option<Peer>>, shards: seq<Chunk>, originals: seq<Bytes>,
                          p: Peer): nat -> Reply
    requires |shards| == |originals|
  {
    i => if i in plan && plan[i] == Some(p) then Stored(OriginalOf(shards, originals, i)) else NoAnswer(None)
  }

  lemma AllReached(plan: map<nat, Option<Peer>>, shards: seq<Chunk>, before: seq<Option<Peer>>, here: seq<bool>,
                   originals: seq<Bytes>, p: Peer)
    requires Apart(shards) && Indexed(plan, shards) && |before| == |here| == |originals| == |shards|
    ensures Recorded(PeersAfter(plan, shards, Friendly(plan, shards, originals, p), before, here, originals), p) ==
      Reach(plan, shards, before, here, p)
  {
    var after := PeersAfter(plan, shards, Friendly(plan, shards, originals, p), before, here, originals);
    forall k: nat | k < |shards|
      ensures k in Recorded(after, p) <==> k in Reach(plan, shards, before, here, p)
    {
      var i := shards[k].index.value;
      assert OriginalOf(shards, originals, i) == originals[k] by {
        assert shards[k].index == Some(i);
        assert forall j :: 0 <= j < |shards| && shards[j].index == Some(i) ==> j == k;
      }
    }
  }

  /** A run keeps peer p within the budget whatever the peers answer, exactly if the shards recorded there
      before, and those here that p is to get, are no more than parity. */
  lemma BudgetExactly(plan: map<nat, Option<Peer>>, shards: seq<Chunk>, before: seq<Option<Peer>>, here: seq<bool>,
                      originals: seq<Bytes>,
                      p: Peer, parity: nat)
    requires Apart(shards) && Indexed(plan, shards) && |before| == |here| == |originals| == |shards|
    ensures (forall replies: nat -> Reply ::
      |Recorded(PeersAfter(plan, shards, replies, before, here, originals), p)| <= parity) <==>
            |Reach(plan, shards, before, here, p)| <= parity
  {
    hide PeersAfter, Recorded, Reach;
    AllReached(plan, shards, before, here, originals, p);
    forall replies: nat -> Reply
      ensures |Recorded(PeersAfter(plan, shards, replies, before, here, originals), p)| <=
        |Reach(plan, shards, before, here, p)|
    {
      WithinReach(plan, shards, replies, before, here, originals, p);
    }
  }

  /** The plan puts no more than parity shards into reach of any peer, besides those recorded there. */
  lemma Budget(plan: map<nat, Option<Peer>>, shards: seq<Chunk>, before: seq<Option<Peer>>, here: seq<bool>,
               peers: seq<Peer>, parity: nat, p: Peer)
    requires Apart(shards) && Indexed(plan, shards) && |before| == |here| == |shards| &&
      Planned(plan, Indices(shards), peers, parity)
    ensures |Reach(plan, shards, before, here, p)| <= |Recorded(before, p)| + parity
    ensures p !in peers ==> Reach(plan, shards, before, here, p) == Recorded(before, p)
  {
    var all, held := Reach(plan, shards, before, here, p), Recorded(before, p);
    forall k | k in all - held
      ensures k < |shards| && shards[k].index.value in On(plan, p)
    {}
    NoMoreThan(shards, all - held, On(plan, p));
    assert all == (all - held) + held;
  }

  // The shards that can be had, with their original content, without peer `lost`.
  ghost function Survivors(w: World, shards: seq<Chunk>, originals: seq<Bytes>, lost: Peer): set<nat>
    requires |shards| == |originals|
    reads w, shards
  {
    set k: nat | k < |shards| && ((shards[k].path in w.files && w.files[shards[k].path] == originals[k]) ||
                                  (HeldBy(w, shards[k], originals[k]) && shards[k].peer != Some(lost)))
  }

  /** Losing any one peer costs no more shards than are recorded there: with at most parity of them,
      enough shards are left to rebuild the file. */
  lemma SurvivesPeerLoss(w: World, shards: seq<Chunk>, originals: seq<Bytes>, digest: Bytes -> string, lost: Peer,
                         dataShards: nat, parity: nat)
    requires |shards| == |originals| == dataShards + parity && AllSafe(w, shards, originals, digest)
    requires |Recorded(PeersOf(shards), lost)| <= parity
    ensures |Survivors(w, shards, originals, lost)| >= dataShards
  {
    var gone := Recorded(PeersOf(shards), lost);
    forall k: nat | k < |shards| && k !in Survivors(w, shards, originals, lost)
      ensures k in gone
    {
      assert Safe(w, shards[k], originals[k]);
    }
    SubsetSize(Below(|shards|), Survivors(w, shards, originals, lost) + gone);
  }

  // Twelve shards of a file, all here, none recorded anywhere.
  method TwelveShards(originals: seq<Bytes>, digest: Bytes -> string) returns (w: World, chunks: seq<Chunk>)
    requires |originals| == 12
    ensures |chunks| == 12 && fresh(chunks) && fresh(w) && Apart(chunks) && AllSafe(w, chunks, originals, digest)
    ensures forall k :: 0 <= k < 12 ==>
      chunks[k].index == Some(k) && chunks[k].peer == None && chunks[k].path in w.files
  {
    chunks := [];
    var files: map<string, Bytes> := map[];
    for k := 0 to 12
      invariant |chunks| == k && fresh(chunks)
      invariant forall j :: 0 <= j < k ==>
        chunks[j].index == Some(j) && chunks[j].peer == None && !chunks[j].sidecar && |chunks[j].path| == j
      invariant forall j :: 0 <= j < k ==> chunks[j].path in files && files[chunks[j].path] == originals[j]
      invariant forall f :: f in files ==> |f| < k
    {
      var path := seq(k, _ => 'x');
      var c := new Chunk(path, Some(k), false);
      chunks := chunks + [c];
      files := files[path := originals[k]];
    }
    w := new World(files);
  }

  lemma {:induction false} AllData(chunks: seq<Chunk>)
    requires forall k :: 0 <= k < |chunks| ==> !chunks[k].sidecar
    ensures DataShardsOnly(chunks) == chunks
  {
    if |chunks| > 0 {
      AllData(chunks[..|chunks| - 1]);
    }
  }

  /** Over two runs the budget can be exceeded: twelve shards with parity four go to peer a alone and then, those
      still here, to peers b and a.  Every push succeeds, and six end up at a. */
  method TwoRunsExceedBudget(originals: seq<Bytes>, digest: Bytes -> string) returns (w: World, chunks: seq<Chunk>)
    requires |originals| == 12 && forall x :: digest(x) != ""
    ensures |chunks| == 12 && AllSafe(w, chunks, originals, digest) &&
      Recorded(PeersOf(chunks), "a") == {0, 1, 2, 3, 5, 7}
    ensures |Recorded(PeersOf(chunks), "a")| == 6
  {
    hide AllSafe, Recorded;
    w, chunks := TwelveShards(originals, digest);
    var kind := Conduct(i => if 0 <= i < |originals| then Stored(originals[i]) else NoAnswer(None), _ => true, false);
    RunFirst(w, chunks, originals, kind, digest);
    RunSecond(w, chunks, originals, kind, digest);
    Six();
  }

  lemma Six()
    ensures |{0, 1, 2, 3, 5, 7 as nat}| == 6
  {}

  // The shards, and peers that take every one of them.
  ghost predicate Twelve(chunks: seq<Chunk>, originals: seq<Bytes>, kind: Conduct) {
    && |chunks| == |originals| == 12 && Apart(chunks) && (forall k :: 0 <= k < 12 ==> chunks[k].index == Some(k))
    && !kind.keepLocal && forall k :: 0 <= k < 12 ==> kind.replies(k) == Stored(originals[k]) && kind.canDrop(k)
  }

  method RunFirst(w: World, chunks: seq<Chunk>, originals: seq<Bytes>, kind: Conduct, digest: Bytes -> string)
    requires Twelve(chunks, originals, kind) && (forall x :: digest(x) != "") &&
      AllSafe(w, chunks, originals, digest)
    requires forall k :: 0 <= k < 12 ==> chunks[k].peer == None && chunks[k].path in w.files
    modifies w, chunks
    ensures AllSafe(w, chunks, originals, digest)
    ensures forall k :: 0 <= k < 12 ==>
      chunks[k].peer == (if k < 4 then Some("a") else None) && (chunks[k].path in w.files <==> k >= 4)
  {
    hide AllSafe, Going, Planned, Target, PeersAfter, Indices;
    AllData(chunks);
    ghost var before, here := PeersOf(chunks), HereOf(w, chunks);
    var _, failures, plan := Distribute(w, chunks, ["a"], 4, kind, digest, originals);
    forall k | 0 <= k < 12
      ensures k in plan && plan[k] == Target(k, ["a"], 4)
    {
      assert chunks[k].index.value == k;
    }
    FirstRun(w.files, w.stores, chunks, PeersOf(chunks), originals, plan, failures, before, here, kind,
      HereOf(w, chunks));
  }

  method RunSecond(w: World, chunks: seq<Chunk>, originals: seq<Bytes>, kind: Conduct, digest: Bytes -> string)
    requires Twelve(chunks, originals, kind) && (forall x :: digest(x) != "") &&
      AllSafe(w, chunks, originals, digest)
    requires forall k :: 0 <= k < 12 ==>
      chunks[k].peer == (if k < 4 then Some("a") else None) && (chunks[k].path in w.files <==> k >= 4)
    modifies w, chunks
    ensures AllSafe(w, chunks, originals, digest) && Recorded(PeersOf(chunks), "a") == {0, 1, 2, 3, 5, 7}
  {
    hide AllSafe, Going, Planned, Target, PeersAfter, Recorded, Indices;
    AllData(chunks);
    ghost var before, here := PeersOf(chunks), HereOf(w, chunks);
    var _, failures, plan := Distribute(w, chunks, ["b", "a"], 4, kind, digest, originals);
    forall k | 0 <= k < 12
      ensures k in plan && plan[k] == Target(k, ["b", "a"], 4)
    {
      assert chunks[k].index.value == k;
    }
    SecondRun(chunks, originals, plan, before, here, kind);
  }

  lemma FirstRun(files: map<string, Bytes>, stores: map<(Peer, nat), Bytes>, chunks: seq<Chunk>,
                 peers: seq<Option<Peer>>, originals: seq<Bytes>,
                 plan: map<nat, Option<Peer>>, failures: set<nat>, before: seq<Option<Peer>>, here: seq<bool>,
                 run: Conduct, after: seq<bool>)
    requires Going(files, stores, chunks, peers, originals, plan, {}, failures, before, here, run)
    requires |chunks| == |originals| == |peers| == |before| == |here| == |after| == 12
    requires forall k :: 0 <= k < 12 ==> chunks[k].index == Some(k) && before[k] == None && here[k]
    requires forall k :: 0 <= k < 12 ==> k in plan && plan[k] == Target(k, ["a"], 4)
    requires forall k :: 0 <= k < 12 ==> run.replies(k) == Stored(originals[k]) && run.canDrop(k)
    requires !run.keepLocal && forall k :: 0 <= k < 12 ==> (after[k] <==> chunks[k].path in files)
    ensures forall k :: 0 <= k < 12 ==> peers[k] == (if k < 4 then Some("a") else None) && (after[k] <==> k >= 4)
  {
    forall k | 0 <= k < 12
      ensures peers[k] == (if k < 4 then Some("a") else None) && (after[k] <==> k >= 4)
    {
      assert GoingAt(files, stores, chunks[k], peers[k], originals[k], plan, {}, failures, before[k], here[k], run);
    }
  }

  lemma SecondRun(chunks: seq<Chunk>, originals: seq<Bytes>, plan: map<nat, Option<Peer>>, before: seq<Option<Peer>>,
                  here: seq<bool>, run: Conduct)
    requires |chunks| == |originals| == |before| == |here| == 12 && Indexed(plan, chunks)
    requires forall k :: 0 <= k < 12 ==> chunks[k].index == Some(k) && k in plan && plan[k] == Target(k, ["b", "a"], 4)
    requires forall k :: 0 <= k < 12 ==> before[k] == (if k < 4 then Some("a") else None) && (here[k] <==> k >= 4)
    requires forall k :: 0 <= k < 12 ==> run.replies(k) == Stored(originals[k])
    ensures Recorded(PeersAfter(plan, chunks, run.replies, before, here, originals), "a") == {0, 1, 2, 3, 5, 7}
  {
    var after := PeersAfter(plan, chunks, run.replies, before, here, originals);
    forall k: nat | k < 12
      ensures after[k] == Some("a") <==> k < 4 || k == 5 || k == 7
    {
      assert k % 2 == 0 || k % 2 == 1;
    }
  }

  // ---- getting shards back ----

  // fetch_shard: a payload that fails the recorded digest is a failure.
  method FetchShard(c: Chunk, response: Option<Bytes>, digest: Bytes -> string) returns (payload: Option<Bytes>)
    ensures payload.Some? ==> c.peer.Some? && payload == response
    ensures payload.Some? && c.digest.Some? && c.digest.value != "" ==> digest(payload.value) == c.digest.value
    ensures c.peer.Some? && response.Some? && (c.digest.None? || c.digest.value == digest(response.value)) ==>
      payload == response
  {
    if c.peer == None || response == None {
      return None;
    }
    if c.digest.Some? && c.digest.value != "" && digest(response.value) != c.digest.value {
      return None;
    }
    return response;
  }

  // What is here is intact, and a recorded peer comes with the digest of the original; what the peers still hold
  // is another question.
  ghost predicate Recognised(w: World, shards: seq<Chunk>, originals: seq<Bytes>, digest: Bytes -> string)
    requires |shards| == |originals|
    reads w, shards
  {
    forall k :: 0 <= k < |shards| ==>
      (shards[k].path in w.files ==> w.files[shards[k].path] == originals[k]) &&
      (shards[k].peer.Some? ==> shards[k].digest == Some(digest(originals[k])) && digest(originals[k]) != "")
  }

  // A shard can be had: it is here, or its recorded peer gives it back.
  predicate Gathered(w: World, c: Chunk, response: Option<Bytes>, original: Bytes)
    reads w, c
  {
    c.path in w.files || (c.peer.Some? && response == Some(original))
  }

  /** gather_shards, whatever the peers answer: only what the original shards decrypt to is staged, and all of
      it that is here or that its peer gives back.  `decrypt` gives a payload back as it is for a shard that is
      not encrypted. */
  method GatherShards(w: World, shards: seq<Chunk>, responses: nat -> Option<Bytes>, digest: Bytes -> string,
                      decrypt: (nat, Bytes) -> Option<Bytes>, ghost originals: seq<Bytes>)
    returns (staged: map<nat, Bytes>, problems: seq<nat>)
    requires Apart(shards) && |shards| == |originals| && Recognised(w, shards, originals, digest)
    requires forall k :: 0 <= k < |shards| && responses(shards[k].index.value).Some? ==>
      Told(digest, responses(shards[k].index.value).value, originals[k])
    ensures forall k :: 0 <= k < |shards| && shards[k].index.value in staged ==>
      decrypt(shards[k].index.value, originals[k]) == Some(staged[shards[k].index.value])
    ensures forall i :: i in staged ==> i in Indices(shards)
    ensures forall k :: 0 <= k < |shards| ==>
      (shards[k].index.value in staged <==>
       Gathered(w, shards[k], responses(shards[k].index.value), originals[k]) &&
       decrypt(shards[k].index.value, originals[k]).Some?)
    ensures forall k :: 0 <= k < |shards| ==> (shards[k].index.value in problems <==> shards[k].index.value !in staged)
  {
    hide Gathered, Indices, Told;
    IndicesOfApart(shards);
    staged, problems := map[], [];
    for k := 0 to |shards|
      invariant forall j :: k <= j < |shards| ==>
        shards[j].index.value !in staged && shards[j].index.value !in problems
      invariant forall i :: i in staged ==> i in Indices(shards)
      invariant forall j :: 0 <= j < k ==> Staged(w, shards[j], responses, decrypt, originals[j], staged, problems)
    {
      var index := shards[k].index.value;
      assert index == Indices(shards)[k];
      var payload := PayloadOf(w, shards[k], responses(index), digest, originals[k]);
      var plain := if payload.Some? then decrypt(index, payload.value) else None;
      if plain.Some? {
        staged := staged[index := plain.value];
      } else {
        problems := problems + [index];
      }
    }
  }

  // What has become of one shard.
  ghost predicate Staged(w: World, c: Chunk, responses: nat -> Option<Bytes>, decrypt: (nat, Bytes) -> Option<Bytes>,
                         original: Bytes, staged: map<nat, Bytes>, problems: seq<nat>)
    reads w, c
  {
    c.index.Some? &&
    var i := c.index.value;
    var plain := if Gathered(w, c, responses(i), original) then decrypt(i, original) else None;
    (i in staged <==> plain.Some?) && (i in staged ==> plain == Some(staged[i])) && (i in problems <==> plain == None)
  }

  // The payload of a shard, from here or from its peer.
  method PayloadOf(w: World, c: Chunk, response: Option<Bytes>, digest: Bytes -> string, ghost original: Bytes)
    returns (payload: Option<Bytes>)
    requires c.path in w.files ==> w.files[c.path] == original
    requires c.peer.Some? ==> c.digest == Some(digest(original)) && digest(original) != ""
    requires response.Some? ==> Told(digest, response.value, original)
    ensures payload == if Gathered(w, c, response, original) then Some(original) else None
  {
    if c.path in w.files {
      return Some(w.files[c.path]);
    }
    payload := FetchShard(c, response, digest);
  }

  // As long as every shard is safe, all of it can be had from peers that give back what they hold.
  lemma SafeIsGathered(w: World, shards: seq<Chunk>, responses: nat -> Option<Bytes>, digest: Bytes -> string,
                       originals: seq<Bytes>)
    requires |shards| == |originals| && AllSafe(w, shards, originals, digest)
    requires forall k :: 0 <= k < |shards| && shards[k].index.Some? && HeldBy(w, shards[k], originals[k]) ==>
      responses(shards[k].index.value) == Some(w.stores[(shards[k].peer.value, shards[k].index.value)])
    ensures Recognised(w, shards, originals, digest)
    ensures forall k :: 0 <= k < |shards| && shards[k].index.Some? ==>
      Gathered(w, shards[k], responses(shards[k].index.value), originals[k])
  {
    forall k | 0 <= k < |shards|
      ensures Safe(w, shards[k], originals[k])
    {}
  }
}
