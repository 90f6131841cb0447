/** What is still retrievable of a file (api/repair.py): peers are asked, not trusted, and a peer that
    does not answer counts as unknown rather than empty. */
module Repair {
  import opened Wrappers

  type Peer = string

  // A shard's entry in the chunk list: the index from its path, if there is one, whether the path
  // exists here, and the recorded peer.
  datatype Entry = Entry(index: Option<nat>, here: bool, peer: Option<Peer>)

  // A probe's answer: the indices held, or nothing from an unreachable peer.
  type Probe = Peer -> Option<set<nat>>

  datatype Health = Orphaned | Unrecoverable | Degraded | Intact

  datatype Report = Report(
    id: string, name: string, status: Health, dataShards: nat, total: nat, local: set<nat>, confirmed: set<nat>,
    available: set<nat>, missing: nat, missingIndices: set<nat>, lostPeers: seq<Peer>, unreachable: seq<Peer>,
    repairable: bool)

  // ---- what the report should say ----

  ghost function IndicesOf(chunks: seq<Entry>): set<nat> { set c | c in chunks && c.index.Some? :: c.index.value }

  ghost function Local(chunks: seq<Entry>): set<nat> { set c | c in chunks && c.index.Some? && c.here :: c.index.value }

  // The shards recorded at p and not here.
  ghost function Claimed(chunks: seq<Entry>, p: Peer): set<nat> {
    set c | c in chunks && c.index.Some? && !c.here && c.peer == Some(p) :: c.index.value
  }

  ghost predicate Claims(chunks: seq<Entry>, p: Peer) {
    exists c :: c in chunks && c.index.Some? && !c.here && c.peer == Some(p)
  }

  // The claimed shards a peer still has, or may still have.
  function Vouched(claimed: set<nat>, answer: Option<set<nat>>): set<nat> {
    if answer == None then claimed else claimed * answer.value
  }

  // Shard i is here, or a recorded peer has it, or did not answer.
  ghost predicate Available(chunks: seq<Entry>, probe: Probe, i: nat) {
    i in Local(chunks) || exists p :: Claims(chunks, p) && i in Vouched(Claimed(chunks, p), probe(p))
  }

  function Classify(available: nat, dataShards: nat, total: nat): Health {
    if available == 0 then Orphaned
    else if available < dataShards then Unrecoverable
    else if available < total then Degraded
    else Intact
  }

  /** What the four words mean, for the indices of a file and those that are available. */
  lemma StatusMeans(available: set<nat>, indices: set<nat>, dataShards: nat)
    requires available <= indices
    ensures var status := Classify(|available|, dataShards, |indices|);
      && (status == Orphaned <==> available == {})
      && (status == Unrecoverable <==> available != {} && |available| < dataShards)
      && (status == Intact <==> available != {} && |available| >= dataShards && available == indices)
      && (status == Degraded <==> available != {} && |available| >= dataShards && indices - available != {})
  {
    SubsetSize(available, indices);
    if |available| == |indices| {
      SameSize(available, indices);
    }
    if available == {} {
      assert |available| == 0;
    }
    if indices - available == {} {
      assert available == indices by {
        forall i | i in indices
          ensures i in available
        {
          assert i !in indices - available;
        }
      }
    }
  }

  function Rank(h: Health): nat {
    match h
    case Orphaned => 0
    case Unrecoverable => 1
    case Degraded => 2
    case Intact => 3
  }

  // ---- assess ----

  // The first loop: what is here, and what the peers are said to hold, in order of first mention.
  method Sort(chunks: seq<Entry>) returns (local: set<nat>, claimed: map<Peer, set<nat>>, order: seq<Peer>)
    ensures local == Local(chunks)
    ensures forall p :: p in claimed <==> Claims(chunks, p)
    ensures forall p :: p in claimed ==> claimed[p] == Claimed(chunks, p)
    ensures forall p :: p in order <==> p in claimed
  {
    local, claimed, order := {}, map[], [];
    for k := 0 to |chunks|
      invariant local == Local(chunks[..k])
      invariant forall p :: p in claimed <==> Claims(chunks[..k], p)
      invariant forall p :: p in claimed ==> claimed[p] == Claimed(chunks[..k], p)
      invariant forall p :: p in order <==> p in claimed
    {
      var c := chunks[k];
      assert chunks[..k + 1] == chunks[..k] + [c];
      if c.index == None {
        continue;
      }
      if c.here {
        local := local + {c.index.value};
      } else if c.peer.Some? {
        var p := c.peer.value;
        if p !in claimed {
          order := order + [p];
          claimed := claimed[p := {}];
        }
        claimed := claimed[p := claimed[p] + {c.index.value}];
      }
    }
    assert chunks[..|chunks|] == chunks;
  }

  lemma NothingLost(claimed: set<nat>, held: set<nat>)
    ensures claimed - claimed * held == {} <==> claimed <= held
  {
    if claimed - claimed * held == {} {
      forall i | i in claimed
        ensures i in held
      {
        assert i !in claimed - claimed * held;
      }
    } else {
      var i :| i in claimed - claimed * held;
    }
  }

  // The second loop: what the peers vouch for.
  method Ask(claimed: map<Peer, set<nat>>, order: seq<Peer>, probe: Probe)
    returns (confirmed: set<nat>, unreachable: seq<Peer>, lostPeers: seq<Peer>)
    requires forall p :: p in order ==> p in claimed
    ensures forall i :: i in confirmed <==> exists p :: p in order && i in Vouched(claimed[p], probe(p))
    ensures forall p :: p in unreachable <==> p in order && probe(p) == None
    ensures forall p :: p in lostPeers <==> p in order && probe(p).Some? && !(claimed[p] <= probe(p).value)
  {
    confirmed, unreachable, lostPeers := {}, [], [];
    for k := 0 to |order|
      invariant forall i :: i in confirmed <==> exists p :: p in order[..k] && i in Vouched(claimed[p], probe(p))
      invariant forall p :: p in unreachable <==> p in order[..k] && probe(p) == None
      invariant forall p :: p in lostPeers <==> p in order[..k] && probe(p).Some? && !(claimed[p] <= probe(p).value)
    {
      var p := order[k];
      assert order[..k + 1] == order[..k] + [p];
      var held := probe(p);
      if held == None {
        unreachable := unreachable + [p];
        confirmed := confirmed + claimed[p];
        continue;
      }
      var present := claimed[p] * held.value;
      confirmed := confirmed + present;
      NothingLost(claimed[p], held.value);
      if claimed[p] - present != {} {
        lostPeers := lostPeers + [p];
      }
    }
    assert order[..|order|] == order;
  }

  /** assess. */
  method Assess(id: string, name: string, chunks: seq<Entry>, recordedDataShards: nat, defaultDataShards: nat,
                probe: Probe)
    returns (r: Report)
    ensures forall i :: i in r.available <==> Available(chunks, probe, i)
    ensures r.available <= IndicesOf(chunks) && r.total == |IndicesOf(chunks)|
    ensures r.dataShards == if recordedDataShards != 0 then recordedDataShards else defaultDataShards
    ensures r.status == Classify(|r.available|, r.dataShards, r.total)
    ensures r.status == Orphaned <==> r.available == {}
    ensures r.status == Unrecoverable <==> r.available != {} && |r.available| < r.dataShards
    ensures r.status == Intact <==>
      r.available != {} && |r.available| >= r.dataShards && r.available == IndicesOf(chunks)
    ensures r.status == Degraded <==>
      r.available != {} && |r.available| >= r.dataShards && IndicesOf(chunks) - r.available != {}
    ensures r.id == id && r.name == name && r.local == Local(chunks) && (r.repairable <==> r.status == Degraded)
    ensures r.missing == r.total - |r.available|
    ensures r.missingIndices == Below(r.total) - r.available
    ensures forall p :: p in r.unreachable <==> Claims(chunks, p) && probe(p) == None
    ensures forall p :: p in r.lostPeers <==>
      Claims(chunks, p) && probe(p).Some? && !(Claimed(chunks, p) <= probe(p).value)
    ensures r.available == r.local + r.confirmed
    ensures r.missingIndices == IndicesOf(chunks) - r.available <==> IndicesOf(chunks) == Below(r.total)
  {
    var local, claimed, order := Sort(chunks);
    var confirmed, unreachable, lostPeers := Ask(claimed, order, probe);
    var available := local + confirmed;
    var total := Total(chunks);
    var dataShards := if recordedDataShards != 0 then recordedDataShards else defaultDataShards;
    forall i
      ensures i in available <==> Available(chunks, probe, i)
    {
      if exists p :: Claims(chunks, p) && i in Vouched(Claimed(chunks, p), probe(p)) {
        var p :| Claims(chunks, p) && i in Vouched(Claimed(chunks, p), probe(p));
        assert p in order && i in Vouched(claimed[p], probe(p));
      }
    }
    SubsetSize(available, IndicesOf(chunks));
    MissingListed(IndicesOf(chunks), available);
    var status := Classify(|available|, dataShards, total);
    StatusMeans(available, IndicesOf(chunks), dataShards);
    r := Report(
      id, name, status, dataShards, total, local, confirmed, available, total - |available|, Below(total) - available,
      lostPeers, unreachable, status == Degraded);
  }

  // The number of distinct indices.
  method Total(chunks: seq<Entry>) returns (n: nat)
    ensures n == |IndicesOf(chunks)|
  {
    var seen: set<nat> := {};
    for k := 0 to |chunks|
      invariant seen == IndicesOf(chunks[..k])
    {
      assert chunks[..k + 1] == chunks[..k] + [chunks[k]];
      if chunks[k].index.Some? {
        seen := seen + {chunks[k].index.value};
      }
    }
    assert chunks[..|chunks|] == chunks;
    n := |seen|;
  }

  // ---- what the verdict is worth ----

  // A recorded peer answers that it holds shard i.
  ghost predicate Confirmed(chunks: seq<Entry>, probe: Probe, i: nat) {
    exists p :: Claims(chunks, p) && i in Claimed(chunks, p) && probe(p).Some? && i in probe(p).value
  }

  // What really can be had: here, or held by a recorded peer that answers.
  ghost function Retrievable(chunks: seq<Entry>, probe: Probe): set<nat> {
    set i | i in IndicesOf(chunks) && (i in Local(chunks) || Confirmed(chunks, probe, i))
  }

  /** With every recorded peer reachable, a file called intact or degraded has enough shards to be
      reconstructed, and one called repairable is; a file with enough shards is called so. */
  lemma Sound(chunks: seq<Entry>, probe: Probe, available: set<nat>, dataShards: nat, total: nat)
    requires (forall i :: i in available <==> Available(chunks, probe, i)) && total == |IndicesOf(chunks)|
    requires forall p :: Claims(chunks, p) ==> probe(p).Some?
    ensures available == Retrievable(chunks, probe)
    ensures dataShards > 0 ==>
      (Classify(|available|, dataShards, total) in {Intact, Degraded} <==> |Retrievable(chunks, probe)| >= dataShards)
    ensures Classify(|available|, dataShards, total) == Orphaned <==> Retrievable(chunks, probe) == {}
  {
    forall i
      ensures i in available <==> i in Retrievable(chunks, probe)
    {
    }
  }

  // The same answers, except that some peers do not answer.
  ghost predicate Quieter(chunks: seq<Entry>, loud: Probe, quiet: Probe) {
    forall p :: Claims(chunks, p) ==> quiet(p) == loud(p) || quiet(p) == None
  }

  /** Peers that become unreachable never shrink what counts as available and never worsen the verdict. */
  lemma Monotone(chunks: seq<Entry>, loud: Probe, quiet: Probe, before: set<nat>, after: set<nat>, dataShards: nat,
                 total: nat)
    requires (forall i :: i in before <==> Available(chunks, loud, i)) &&
      (forall i :: i in after <==> Available(chunks, quiet, i))
    requires Quieter(chunks, loud, quiet)
    ensures before <= after
    ensures Rank(Classify(|before|, dataShards, total)) <= Rank(Classify(|after|, dataShards, total))
  {
    forall i | i in before
      ensures i in after
    {
      if i !in Local(chunks) {
        var p :| Claims(chunks, p) && i in Vouched(Claimed(chunks, p), loud(p));
        assert i in Vouched(Claimed(chunks, p), quiet(p));
      }
    }
    SubsetSize(before, after);
  }

  /** The list of missing indices is that of the missing shards exactly if the indices are 0 to total - 1. */
  lemma MissingListed(indices: set<nat>, available: set<nat>)
    requires available <= indices
    ensures Below(|indices|) - available == indices - available <==> indices == Below(|indices|)
  {
    var n := |indices|;
    if Below(n) - available == indices - available {
      forall i | i in Below(n)
        ensures i in indices
      {
        assert i in available || i in indices - available;
      }
      SameSize(Below(n), indices);
    }
  }

  /** Shards 0 and 2, with shard 2 lost: the report says that one shard is missing, and lists shard 1. */
  method MissingMislisted(probe: Probe) returns (chunks: seq<Entry>, r: Report)
    ensures IndicesOf(chunks) == {0, 2} && r.available == {0} && r.missing == 1
    ensures r.missingIndices == {1}
  {
    hide Available, IndicesOf, Below;
    chunks := [Entry(Some(0), true, None), Entry(Some(2), false, None)];
    OneLost(chunks, probe);
    r := Assess("", "", chunks, 1, 1, probe);
    assert r.available == {0};
  }

  lemma OneLost(chunks: seq<Entry>, probe: Probe)
    requires chunks == [Entry(Some(0), true, None), Entry(Some(2), false, None)]
    ensures IndicesOf(chunks) == {0, 2} && |IndicesOf(chunks)| == 2 && Below(2) == {0, 1}
    ensures forall i :: Available(chunks, probe, i) <==> i == 0
  {
    assert chunks[0] in chunks && chunks[1] in chunks;
    assert IndicesOf(chunks) == {0, 2};
  }

  // ---- summarise ----

  function Sum(reports: seq<Report>): nat {
    if |reports| == 0 then 0 else Sum(reports[..|reports| - 1]) + reports[|reports| - 1].missing
  }

  function With(reports: seq<Report>, h: Health): nat {
    if |reports| == 0 then 0 else With(reports[..|reports| - 1], h) + if reports[|reports| - 1].status == h then 1
      else 0
  }

  /** Every file has one status. */
  lemma {:induction false} CountedOnce(reports: seq<Report>)
    ensures With(reports, Orphaned) + With(reports, Unrecoverable) + With(reports, Degraded) + With(reports, Intact) ==
      |reports|
  {
    if |reports| > 0 {
      CountedOnce(reports[..|reports| - 1]);
    }
  }

  datatype Shortage = Shortage(id: string, name: string, have: nat, need: nat)
  datatype Listed = Listed(id: string, name: string)

  /** summarise: every file is counted once, under its status, and listed if it can be repaired, or not, or is
      orphaned. */
  method Summarise(reports: seq<Report>)
    returns (byStatus: map<Health, nat>, missing: nat, repairable: seq<string>, unrecoverable: seq<Shortage>,
      orphaned: seq<Listed>)
    ensures forall h :: (h in byStatus <==> With(reports, h) > 0) && (h in byStatus ==> byStatus[h] == With(reports, h))
    ensures missing == Sum(reports)
    ensures forall id :: id in repairable <==>
      exists k :: 0 <= k < |reports| && reports[k].repairable && reports[k].id == id
    ensures |unrecoverable| == With(reports, Unrecoverable) && |orphaned| == With(reports, Orphaned)
    ensures forall k :: 0 <= k < |reports| && reports[k].status == Unrecoverable ==>
      Shortage(reports[k].id, reports[k].name, |reports[k].available|, reports[k].dataShards) in unrecoverable
    ensures forall k :: 0 <= k < |reports| && reports[k].status == Orphaned ==>
      Listed(reports[k].id, reports[k].name) in orphaned
  {
    byStatus, missing, repairable := map[], 0, [];
    for k := 0 to |reports|
      invariant forall h ::
        (h in byStatus <==> With(reports[..k], h) > 0) && (h in byStatus ==> byStatus[h] == With(reports[..k], h))
      invariant missing == Sum(reports[..k])
      invariant forall id :: id in repairable <==>
        exists j :: 0 <= j < k && reports[j].repairable && reports[j].id == id
    {
      var r := reports[k];
      assert reports[..k + 1][..k] == reports[..k];
      byStatus := byStatus[r.status := (if r.status in byStatus then byStatus[r.status] else 0) + 1];
      missing := missing + r.missing;
      if r.repairable {
        repairable := repairable + [r.id];
      }
    }
    assert reports[..|reports|] == reports;
    unrecoverable, orphaned := Hopeless(reports);
  }

  method Hopeless(reports: seq<Report>) returns (unrecoverable: seq<Shortage>, orphaned: seq<Listed>)
    ensures |unrecoverable| == With(reports, Unrecoverable) && |orphaned| == With(reports, Orphaned)
    ensures forall k :: 0 <= k < |reports| && reports[k].status == Unrecoverable ==>
      Shortage(reports[k].id, reports[k].name, |reports[k].available|, reports[k].dataShards) in unrecoverable
    ensures forall k :: 0 <= k < |reports| && reports[k].status == Orphaned ==>
      Listed(reports[k].id, reports[k].name) in orphaned
  {
    unrecoverable, orphaned := [], [];
    for k := 0 to |reports|
      invariant |unrecoverable| == With(reports[..k], Unrecoverable) && |orphaned| == With(reports[..k], Orphaned)
      invariant forall j :: 0 <= j < k && reports[j].status == Unrecoverable ==>
        Shortage(reports[j].id, reports[j].name, |reports[j].available|, reports[j].dataShards) in unrecoverable
      invariant forall j :: 0 <= j < k && reports[j].status == Orphaned ==>
        Listed(reports[j].id, reports[j].name) in orphaned
    {
      var r := reports[k];
      assert reports[..k + 1][..k] == reports[..k];
      if r.status == Unrecoverable {
        unrecoverable := unrecoverable + [Shortage(r.id, r.name, |r.available|, r.dataShards)];
      }
      if r.status == Orphaned {
        orphaned := orphaned + [Listed(r.id, r.name)];
      }
    }
    assert reports[..|reports|] == reports;
  }
}
