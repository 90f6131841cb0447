/** Scan, gather and decode (api/main.py, the repair of a file): what the scan of a file says is what the decoder
    can do with the shards that are gathered. */
module FileRecovery {
  import opened Wrappers
  import opened Galois
  import opened LinearAlgebra
  import opened Kernels
  import opened TableUse
  import opened ObjectCode
  import Rep = Replication
  import Repair
  import FC = FileCodec
  import SJ = SplitJoin

  // What a peer holds of the file; None if it cannot be reached.
  type Holdings = string -> Option<map<nat, Vec>>

  // The shards as entries of the scan.
  method EntriesOf(w: Rep.World, shards: seq<Rep.Chunk>) returns (r: seq<Repair.Entry>)
    ensures r == Entries(w, shards)
  {
    r := [];
    for k := 0 to |shards|
      invariant |r| == k && forall j :: 0 <= j < k ==> r[j] == EntryOf(w, shards[j])
    {
      r := r + [EntryOf(w, shards[k])];
    }
  }

  function EntryOf(w: Rep.World, c: Rep.Chunk): Repair.Entry
    reads w, c
  {
    Repair.Entry(c.index, c.path in w.files, c.peer)
  }

  ghost function Entries(w: Rep.World, shards: seq<Rep.Chunk>): (r: seq<Repair.Entry>)
    reads w, shards
    ensures |r| == |shards| && forall k :: 0 <= k < |shards| ==> r[k] == EntryOf(w, shards[k])
  {
    seq(|shards|, k requires 0 <= k < |shards| reads w, shards => EntryOf(w, shards[k]))
  }

  // What the recorded peer of a shard gives back.
  function Answer(c: Rep.Chunk, holdings: Holdings): Option<Vec>
    reads c
  {
    if c.index.Some? && c.peer.Some? && holdings(c.peer.value).Some? && c.index.value in holdings(c.peer.value).value
    then Some(holdings(c.peer.value).value[c.index.value])
    else None
  }

  // The answers, by index.
  method AnswersOf(shards: seq<Rep.Chunk>, holdings: Holdings) returns (r: map<nat, Vec>)
    requires Rep.Apart(shards)
    ensures forall k :: 0 <= k < |shards| ==>
      Answer(shards[k], holdings) == if shards[k].index.value in r then Some(r[shards[k].index.value]) else None
  {
    r := map[];
    for k := 0 to |shards|
      invariant forall i :: i in r ==> exists j :: 0 <= j < k && shards[j].index.value == i
      invariant forall j :: 0 <= j < k ==>
        Answer(shards[j], holdings) == if shards[j].index.value in r then Some(r[shards[j].index.value]) else None
    {
      var answer := Answer(shards[k], holdings);
      if answer.Some? {
        r := r[shards[k].index.value := answer.value];
      }
    }
  }

  // Every shard's recorded peer can be reached, and what it holds of the shard is what was stored.
  ghost predicate Reached(shards: seq<Rep.Chunk>, holdings: Holdings, stored: seq<Vec>)
    reads shards
  {
    forall k :: 0 <= k < |shards| && shards[k].peer.Some? ==>
      holdings(shards[k].peer.value).Some? &&
      (Answer(shards[k], holdings).Some? && shards[k].index.Some? && shards[k].index.value < |stored| ==>
        Answer(shards[k], holdings) == Some(stored[shards[k].index.value]))
  }

  // The payloads by the shards' indices.
  ghost function Originals(shards: seq<Rep.Chunk>, stored: seq<Vec>): (r: seq<Vec>)
    requires Rep.Apart(shards) && forall k :: 0 <= k < |shards| ==> shards[k].index.value < |stored|
    ensures |r| == |shards| && forall k :: 0 <= k < |shards| ==> r[k] == stored[shards[k].index.value]
  {
    seq(|shards|, k requires 0 <= k < |shards| => stored[shards[k].index.value])
  }

  // A shard is available exactly if it is here, or its peer gives it back.
  lemma AvailableIsGathered(w: Rep.World, shards: seq<Rep.Chunk>, holdings: Holdings, stored: seq<Vec>, k: nat)
    requires Rep.Apart(shards) && k < |shards| && Reached(shards, holdings, stored)
    requires forall k :: 0 <= k < |shards| ==> shards[k].index.value < |stored|
    ensures Repair.Available(Entries(w, shards), Probe(holdings), shards[k].index.value) <==>
      Rep.Gathered(w, shards[k], Answer(shards[k], holdings), stored[shards[k].index.value])
  {
    var chunks, probe, c := Entries(w, shards), Probe(holdings), shards[k];
    var i := c.index.value;
    assert chunks[k] == EntryOf(w, c);
    forall e | e in chunks && e.index == Some(i)
      ensures e == chunks[k]
    {
      var j :| 0 <= j < |chunks| && chunks[j] == e;
      assert e == EntryOf(w, shards[j]) && shards[j].index == c.index;
      assert j < k || k < j || j == k;
    }
    if !chunks[k].here && chunks[k].peer.Some? {
      var p := chunks[k].peer.value;
      assert Repair.Claims(chunks, p) && i in Repair.Claimed(chunks, p);
    }
  }

  // A peer lists what it holds.
  function Probe(holdings: Holdings): Repair.Probe {
    p => if holdings(p).None? then None else Some(holdings(p).value.Keys)
  }

  // What was stored decrypts to the shards.
  ghost predicate Opens(decrypt: (nat, Vec) -> Option<Vec>, stored: seq<Vec>, V: Mat) {
    |stored| == |V| && forall i :: 0 <= i < |V| ==> decrypt(i, stored[i]) == Some(V[i])
  }

  // What the decoder writes: the file, or without the size file all of the data shards, which start with it.
  ghost function Written(V: Mat, content: Vec, dataShards: nat, sizeFile: Option<int>): Vec
    requires dataShards <= |V|
  {
    if sizeFile.Some? then content else SJ.Flat(V[..dataShards])
  }

  // The rows that can be had.
  ghost function Gatherable(w: Rep.World, shards: seq<Rep.Chunk>, holdings: Holdings, stored: seq<Vec>): set<nat>
    requires Rep.Apart(shards) && forall k :: 0 <= k < |shards| ==> shards[k].index.value < |stored|
    reads w, shards
  {
    set k: nat | k < |shards| && Rep.Gathered(w, shards[k], Answer(shards[k], holdings),
      stored[shards[k].index.value]) ::
      shards[k].index.value
  }

  // The digest tells what the peers give back from the shards.
  ghost predicate AllTold(shards: seq<Rep.Chunk>, holdings: Holdings, stored: seq<Vec>, digest: Vec -> string)
    requires Rep.Apart(shards) && forall k :: 0 <= k < |shards| ==> shards[k].index.value < |stored|
    reads shards
  {
    forall k :: 0 <= k < |shards| && Answer(shards[k], holdings).Some? ==>
      Rep.Told(digest, Answer(shards[k], holdings).value, stored[shards[k].index.value])
  }

  /** Gather and decode: with as many shards gathered as there are data shards the file comes out, with fewer
      nothing; only an encoder of a fragile shape can panic instead. */
  method GatherAndDecode(w: Rep.World, shards: seq<Rep.Chunk>, holdings: Holdings, dataShards: nat, parityShards: nat,
                         sizeFile: Option<int>, digest: Vec -> string, decrypt: (nat, Vec) -> Option<Vec>, o: Options,
                         ghost stored: seq<Vec>, ghost m: Mat, ghost V: Mat, ghost content: Vec)
    returns (out: Option<Vec>)
    requires Tuned(o) && Rep.Apart(shards) && Encodes(m, V, content, dataShards, parityShards)
    requires (forall k :: 0 <= k < |shards| ==> shards[k].index.value < |V|) && |V| == dataShards + parityShards
    requires Opens(decrypt, stored, V)
    requires Rep.Recognised(w, shards, Originals(shards, stored), digest) && AllTold(shards, holdings, stored, digest)
    requires sizeFile.Some? ==> sizeFile.value == |content|
    ensures if |Gatherable(w, shards, holdings, stored)| < dataShards then out == None
      else if out.Some? then out.value == Written(V, content, dataShards, sizeFile)
      else Fragile(o, dataShards, parityShards)
  {
    hide Encodes, Fragile, SJ.FlatTo, Rep.Gathered, FC.Restored, Rep.Apart;
    var answers := AnswersOf(shards, holdings);
    ghost var originals := Originals(shards, stored);
    var staged, problems := Rep.GatherShards(w, shards, i => if i in answers then Some(answers[i]) else None, digest,
      decrypt, originals);
    StagedRows(w, shards, holdings, stored, V, staged);
    ghost var used, U;
    out, used, U := FC.DecodeFile(dataShards, parityShards, staged, sizeFile, o, m, V, content);
    FC.SizeFileCuts(m, V, content, dataShards, parityShards);
    SomeRows(m, V, content, dataShards, parityShards);
  }

  lemma SomeRows(m: Mat, V: Mat, content: Vec, dataShards: nat, parityShards: nat)
    requires Encodes(m, V, content, dataShards, parityShards)
    ensures FC.Numbered(dataShards, parityShards)
  {}

  // What is staged, by rows.
  lemma StagedRows(w: Rep.World, shards: seq<Rep.Chunk>, holdings: Holdings, stored: seq<Vec>, V: Mat,
                   staged: map<nat, Vec>)
    requires Rep.Apart(shards) && |stored| == |V| && forall k :: 0 <= k < |shards| ==> shards[k].index.value < |V|
    requires forall k :: 0 <= k < |shards| && shards[k].index.value in staged ==>
      staged[shards[k].index.value] == V[shards[k].index.value]
    requires forall i :: i in staged ==> i in Rep.Indices(shards)
    requires forall k :: 0 <= k < |shards| ==>
      (shards[k].index.value in staged <==>
        Rep.Gathered(w, shards[k], Answer(shards[k], holdings), stored[shards[k].index.value]))
    ensures FC.Match(staged, V) && FC.Staged(staged, |V|) == Gatherable(w, shards, holdings, stored)
  {
    hide Rep.Gathered;
    Rep.IndicesOfApart(shards);
    forall i | i in staged
      ensures exists k :: 0 <= k < |shards| && shards[k].index.value == i
    {
      var k :| 0 <= k < |shards| && Rep.Indices(shards)[k] == i;
    }
  }

  /** Scan, gather and decode.  With every recorded peer reachable and honest about its shards, a file that the
      scan calls intact or degraded comes out, and one that it calls unrecoverable or orphaned does not. */
  method RecoverFile(w: Rep.World, shards: seq<Rep.Chunk>, holdings: Holdings, dataShards: nat, parityShards: nat,
                     sizeFile: Option<int>, digest: Vec -> string, decrypt: (nat, Vec) -> Option<Vec>, o: Options,
                     ghost stored: seq<Vec>, ghost m: Mat, ghost V: Mat, ghost content: Vec)
    returns (report: Repair.Report, out: Option<Vec>)
    requires Tuned(o) && Rep.Apart(shards) && Encodes(m, V, content, dataShards, parityShards)
    requires (forall k :: 0 <= k < |shards| ==> shards[k].index.value < |V|) && |V| == dataShards + parityShards
    requires Opens(decrypt, stored, V)
    requires Rep.Recognised(w, shards, Originals(shards, stored), digest) && Reached(shards, holdings, stored)
    requires sizeFile.Some? ==> sizeFile.value == |content|
    ensures report.status in {Repair.Unrecoverable, Repair.Orphaned} ==> out == None
    ensures report.status in {Repair.Intact, Repair.Degraded} ==>
      out == Some(Written(V, content, dataShards, sizeFile)) || (out == None && Fragile(o, dataShards, parityShards))
  {
    hide Encodes, Fragile, SJ.FlatTo, Rep.Gathered, Rep.Recognised, Repair.Available, Repair.IndicesOf, Repair.Local,
      Reached, AllTold, Gatherable;
    SomeRows(m, V, content, dataShards, parityShards);
    var chunks := EntriesOf(w, shards);
    report := Repair.Assess("", "", chunks, dataShards, dataShards, Probe(holdings));
    AvailableRows(w, shards, holdings, stored, report.available);
    ReachedIsTold(shards, holdings, stored, digest);
    out := GatherAndDecode(w, shards, holdings, dataShards, parityShards, sizeFile, digest, decrypt, o, stored, m, V,
      content);
  }

  lemma ReachedIsTold(shards: seq<Rep.Chunk>, holdings: Holdings, stored: seq<Vec>, digest: Vec -> string)
    requires Rep.Apart(shards) && (forall k :: 0 <= k < |shards| ==> shards[k].index.value < |stored|)
    requires Reached(shards, holdings, stored)
    ensures AllTold(shards, holdings, stored, digest)
  {}

  // What the scan finds available is what can be gathered.
  lemma AvailableRows(w: Rep.World, shards: seq<Rep.Chunk>, holdings: Holdings, stored: seq<Vec>, available: set<nat>)
    requires Rep.Apart(shards) && (forall k :: 0 <= k < |shards| ==> shards[k].index.value < |stored|)
    requires Reached(shards, holdings, stored) && available <= Repair.IndicesOf(Entries(w, shards))
    requires forall i :: i in available <==> Repair.Available(Entries(w, shards), Probe(holdings), i)
    ensures available == Gatherable(w, shards, holdings, stored)
  {
    hide Rep.Gathered, Repair.Available;
    var chunks := Entries(w, shards);
    forall k: nat | k < |shards|
      ensures shards[k].index.value in available <==>
        Rep.Gathered(w, shards[k], Answer(shards[k], holdings), stored[shards[k].index.value])
    {
      AvailableIsGathered(w, shards, holdings, stored, k);
    }
    forall i | i in available
      ensures exists k: nat :: k < |shards| && shards[k].index.value == i
    {
      var k :| 0 <= k < |chunks| && chunks[k].index == Some(i);
      assert shards[k].index.value == i;
    }
  }
}
