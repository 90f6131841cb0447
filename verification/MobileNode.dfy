/** The mobile node (lib/mobile/node.go): an object is split into eight data and four parity shards, each
    sealed and stored on its own; reading turns every shard that is missing or altered into an erasure. */
module MobileNode {
  import opened Wrappers
  import opened Galois
  import opened LinearAlgebra
  import opened Kernels
  import opened Coding
  import opened Generator
  import opened Shards
  import opened Recovery
  import opened Streams
  import SJ = SplitJoin
  import opened MobileMetadata
  import opened ObjectCode
  import RS = ReedSolomon

  type Bytes = seq<byte>

  const DATA: nat := 8
  const PARITY: nat := 4
  const MAX_OBJECT: nat := 12 * 1024 * 1024
  const NONCE: nat := 12

  // Hashing and sealing, as functions; the last argument of seal and open ties a shard to its place.
  datatype Crypto = Crypto(hash: Bytes -> string, seal: (Bytes, Bytes, (string, nat)) -> Bytes,
    open: (Bytes, Bytes, (string, nat)) -> Option<Bytes>)

  // Hashes have 64 plain characters; opening inverts sealing, which adds 16 bytes.
  ghost predicate Lawful(c: Crypto) {
    && (forall x :: |c.hash(x)| == 64 && AllPlain(c.hash(x)))
    && (forall n, p, a :: c.open(n, c.seal(n, p, a), a) == Some(p) && |c.seal(n, p, a)| == |p| + 16)
  }

  // The simplest functions of this kind: one hash for all, and sixteen zeros as a seal.
  ghost function Simplest(): Crypto {
    Crypto(x => seq(64, k => '0'), (n, p, a) => p + seq(16, k => 0),
      (n, b, a) => if |b| < 16 then None else Some(b[..|b| - 16]))
  }

  lemma SimplestIsLawful()
    ensures Lawful(Simplest())
  {
    var c := Simplest();
    forall n: Bytes, p: Bytes, a: (string, nat)
      ensures c.open(n, c.seal(n, p, a), a) == Some(p)
    {
      assert (p + seq(16, k => 0))[..|p|] == p;
    }
  }

  // The hash tells x from y.  No hash of a fixed length tells all byte strings apart, so this is asked only of
  // byte strings that are compared.
  ghost predicate Told(c: Crypto, x: Bytes, y: Bytes) { c.hash(x) == c.hash(y) ==> x == y }

  // ---- the disk ----

  datatype Stored = ShardFile(dir: string, num: nat, content: Bytes) | MetaFile(dir: string, text: string)

  function SizeOnDisk(s: Stored): nat {
    match s
    case ShardFile(_, _, content) => |content|
    case MetaFile(_, text) => |text|
  }

  // usage: the sizes of all files.
  function Usage(disk: seq<Stored>): nat {
    if |disk| == 0 then 0 else Usage(disk[..|disk| - 1]) + SizeOnDisk(disk[|disk| - 1])
  }

  lemma {:induction false} UsageSum(a: seq<Stored>, b: seq<Stored>)
    ensures Usage(a + b) == Usage(a) + Usage(b)
  {
    if |b| == 0 {
      assert a + b == a;
    } else {
      assert (a + b)[..|a + b| - 1] == a + b[..|b| - 1];
      UsageSum(a, b[..|b| - 1]);
    }
  }

  lemma UsageNext(disk: seq<Stored>, next: Stored)
    ensures Usage(disk + [next]) == Usage(disk) + SizeOnDisk(next)
  {
    assert (disk + [next])[..|disk|] == disk;
  }

  // The file of a shard, if there is one.
  function ShardAt(disk: seq<Stored>, dir: string, num: nat): Option<Bytes> {
    if |disk| == 0 then None
    else
      var last := disk[|disk| - 1];
      if last.ShardFile? && last.dir == dir && last.num == num then Some(last.content)
        else ShardAt(disk[..|disk| - 1], dir, num)
  }

  // RemoveAll of a directory.
  function Without(disk: seq<Stored>, dir: string): seq<Stored> {
    if |disk| == 0 then []
    else Without(disk[..|disk| - 1], dir) + if disk[|disk| - 1].dir == dir then [] else [disk[|disk| - 1]]
  }

  predicate HasDir(disk: seq<Stored>, dir: string) { exists k :: 0 <= k < |disk| && disk[k].dir == dir }

  lemma {:induction false} RemovedAgain(disk: seq<Stored>, added: seq<Stored>, dir: string)
    requires !HasDir(disk, dir) && forall k :: 0 <= k < |added| ==> added[k].dir == dir
    ensures Without(disk + added, dir) == disk
  {
    if |added| > 0 {
      assert (disk + added)[..|disk + added| - 1] == disk + added[..|added| - 1];
      RemovedAgain(disk, added[..|added| - 1], dir);
    } else if |disk| > 0 {
      assert disk + added == disk;
      assert forall k :: 0 <= k < |disk| - 1 ==> disk[..|disk| - 1][k] == disk[k];
      RemovedAgain(disk[..|disk| - 1], [], dir);
      assert disk[..|disk| - 1] + [] == disk[..|disk| - 1];
      assert disk[|disk| - 1].dir != dir;
    }
  }

  // ---- what an object comes to ----

  // The object, its shards and their sealed files.
  datatype Origin = Origin(data: Bytes, m: Mat, V: Mat, payloads: seq<Bytes>, w: nat)

  // V are the twelve shards of the object.
  ghost predicate IsCoded(o: Origin) {
    && 0 < |o.data| <= MAX_OBJECT && o.w == SJ.PerShard(|o.data|, DATA)
    && Recoverable(o.m, DATA, DATA + PARITY) && IsBuilt(o.m, DATA, DATA + PARITY)
    && Codeword(o.m, DATA, o.V, o.w) && |o.V| == DATA + PARITY
    && |o.data| <= |SJ.Flat(o.V[..DATA])| && SJ.Flat(o.V[..DATA])[..|o.data|] == o.data
  }

  // Payload i is shard i, sealed for its place.
  ghost predicate IsSealed(c: Crypto, payload: Bytes, plain: Bytes, id: string, i: nat) {
    |payload| == NONCE + |plain| + 16 && payload == payload[..NONCE] + c.seal(payload[..NONCE], plain, (id, i))
  }

  // The metadata describes the object.
  ghost predicate Describes(c: Crypto, f: File, o: Origin) {
    && IsCoded(o) && f.sha == c.hash(o.data) && f.size == |o.data| &&
      |f.chunks| == |o.payloads| == |o.V| == DATA + PARITY
    && forall i :: 0 <= i < DATA + PARITY ==>
      f.chunks[i].num == i && f.chunks[i].sha == c.hash(o.payloads[i]) && IsSealed(c, o.payloads[i], o.V[i], f.id, i)
  }

  // The hash tells the shard files that are there from those that were stored.
  ghost predicate Unmistaken(c: Crypto, disk: seq<Stored>, f: File, o: Origin) {
    forall i: nat :: i < |o.payloads| && ShardAt(disk, f.id, i).Some? ==>
      Told(c, ShardAt(disk, f.id, i).value, o.payloads[i])
  }

  // Which of the first k shard files are as they were stored.
  ghost function IntactCount(disk: seq<Stored>, f: File, o: Origin, k: nat): nat
    requires k <= |o.payloads|
  {
    if k == 0 then 0 else IntactCount(disk, f, o, k - 1) + if Intact(disk, f, o, k - 1) then 1 else 0
  }

  // ---- put ----

  // Split and Encode: the twelve shards of an object, or the index error of Split.
  method CodeTwelve(data: array<byte>, dataLen: nat, o: Options) returns (r: Option<seq<Bytes>>, ghost m: Mat)
    requires Tuned(o) && 0 < dataLen <= data.Length && dataLen <= MAX_OBJECT
    modifies data
    ensures data[..dataLen] == old(data[..dataLen])
    ensures r == None <==> SJ.Panics(data.Length, dataLen, DATA, DATA + PARITY)
    ensures r.Some? ==> IsCoded(Origin(old(data[..dataLen]), m, r.value, [], SJ.PerShard(dataLen, DATA)))
  {
    hide Recoverable, IsBuilt, Codeword, SJ.Flat, SJ.PerShard, SJ.Panics;
    r, m := CodeObject(data, dataLen, DATA, PARITY, o);
  }

  // What a put draws from outside: identifiers, nonces, the time, how JSON escapes a byte, and which of
  // the thirteen writes fail.
  datatype Env = Env(id: string, nonces: seq<Bytes>, chunkIds: seq<string>, now: string, escape: Escape,
    fails: nat -> bool)

  ghost predicate EnvOk(env: Env) {
    && |env.id| == 36 && AllPlain(env.id) && |env.now| <= 30 && AllPlain(env.now)
    && |env.nonces| == |env.chunkIds| == DATA + PARITY
    && forall i :: 0 <= i < DATA + PARITY ==>
      |env.nonces[i]| == NONCE && |env.chunkIds[i]| == 36 && AllPlain(env.chunkIds[i])
  }

  // Sealed shard i as a file.
  function Payload(c: Crypto, env: Env, V: seq<Bytes>, i: nat): Bytes
    requires i < |env.nonces| && i < |V|
  {
    env.nonces[i] + c.seal(env.nonces[i], V[i], (env.id, i))
  }

  function ShardFiles(c: Crypto, env: Env, V: seq<Bytes>, k: nat): (r: seq<Stored>)
    requires k <= |env.nonces| && k <= |V|
    ensures |r| == k && forall i :: 0 <= i < k ==> r[i] == ShardFile(env.id, i, Payload(c, env, V, i))
  {
    seq(k, i requires 0 <= i < k => ShardFile(env.id, i, Payload(c, env, V, i)))
  }

  function ChunkList(c: Crypto, env: Env, V: seq<Bytes>, k: nat): (r: seq<MobileMetadata.Chunk>)
    requires k <= |env.nonces| && k <= |env.chunkIds| && k <= |V|
    ensures |r| == k
  {
    seq(k, i requires 0 <= i < k => MobileMetadata.Chunk(i, env.chunkIds[i], c.hash(Payload(c, env, V, i)),
      |Payload(c, env, V, i)|))
  }

  datatype PutError = BadName | BadSize | QuotaReached | WriteFailed
  datatype PutResult = Put(file: File) | NotPut(error: PutError) | Stopped

  predicate HasAny(s: string, chars: string) { exists k :: 0 <= k < |s| && s[k] in chars }

  predicate DotsAt(s: string, k: nat) { k + 1 < |s| && s[k] == '.' && s[k + 1] == '.' }

  predicate HasDots(s: string) { exists k :: 0 <= k < |s| && DotsAt(s, k) }

  predicate Acceptable(token: string, name: string, folder: string) {
    Limited(token, name, folder) && !HasAny(name, "/\\\0") && !HasDots(folder) && !HasAny(folder, "\\\0")
  }

  // Two dots in a row.
  ghost predicate TwoDots(s: string) { exists a, b :: s == a + ".." + b }

  lemma DotsAreTwo(s: string)
    ensures HasDots(s) <==> TwoDots(s)
  {
    if HasDots(s) {
      var k :| 0 <= k < |s| && DotsAt(s, k);
      assert s == s[..k] + ".." + s[k + 2..];
    }
    if TwoDots(s) {
      var a, b :| s == a + ".." + b;
      assert DotsAt(s, |a|);
    }
  }

  // Which names put takes, spelled out.
  lemma AcceptableMeans(token: string, name: string, folder: string)
    ensures Acceptable(token, name, folder) <==>
      && 0 < |token| <= 256 && 0 < |name| <= 200 && |folder| <= 200
      && '/' !in name && '\\' !in name && '\0' !in name && '\\' !in folder && '\0' !in folder && !TwoDots(folder)
  {
    DotsAreTwo(folder);
    hide HasDots, TwoDots;
    HasOf(name, "/\\\0");
    HasOf(folder, "\\\0");
  }

  lemma HasOf(s: string, chars: string)
    ensures HasAny(s, chars) <==> exists c :: c in chars && c in s
  {}

  // None of the thirteen writes fails.
  ghost predicate AllWritten(env: Env) { forall i :: 0 <= i <= DATA + PARITY ==> !env.fails(i) }

  class Node {
    var files: map<string, File>
    var disk: seq<Stored>
    const quota: nat
    const crypto: Crypto
    ghost var origins: map<string, Origin>

    // The metadata kept in memory describes what was put.
    ghost predicate Valid()
      reads this
    {
      Lawful(crypto) && files.Keys == origins.Keys &&
      forall id :: id in files ==> files[id].id == id && Describes(crypto, files[id], origins[id])
    }

    constructor (quota: nat, crypto: Crypto)
      requires Lawful(crypto)
      ensures Valid() && files == map[] && disk == [] && this.quota == quota && this.crypto == crypto
    {
      files, disk, origins := map[], [], map[];
      this.quota, this.crypto := quota, crypto;
    }

    // The twelve sealed shards; a failing write takes the whole directory away again.
    method StoreShards(V: seq<Bytes>, env: Env) returns (ok: bool, chunks: seq<MobileMetadata.Chunk>)
      requires EnvOk(env) && |V| == DATA + PARITY && !HasDir(disk, env.id)
      modifies this`disk
      ensures ok <==> forall i :: 0 <= i < DATA + PARITY ==> !env.fails(i)
      ensures ok ==>
        disk == old(disk) + ShardFiles(crypto, env, V, DATA + PARITY) &&
        chunks == ChunkList(crypto, env, V, DATA + PARITY)
      ensures !ok ==> disk == old(disk)
    {
      ghost var before := disk;
      chunks := [];
      for i := 0 to DATA + PARITY
        invariant disk == before + ShardFiles(crypto, env, V, i) && chunks == ChunkList(crypto, env, V, i)
        invariant forall k :: 0 <= k < i ==> !env.fails(k)
      {
        var payload := env.nonces[i] + crypto.seal(env.nonces[i], V[i], (env.id, i));
        if env.fails(i) {
          RemovedAgain(before, ShardFiles(crypto, env, V, i), env.id);
          disk := Without(disk, env.id);
          return false, [];
        }
        disk := disk + [ShardFile(env.id, i, payload)];
        chunks := chunks + [MobileMetadata.Chunk(i, env.chunkIds[i], crypto.hash(payload), |payload|)];
        assert ShardFiles(crypto, env, V, i + 1) == ShardFiles(crypto, env, V, i) + [ShardFile(env.id, i, payload)];
      }
      return true, chunks;
    }

    // put, from the writing on.
    method StoreObject(token: string, name: string, folder: string, size: nat, digest: string, V: seq<Bytes>, env: Env,
                       ghost coded: Origin) returns (r: PutResult)
      requires Valid() && EnvOk(env) && Limited(token, name, folder) && IsCoded(coded) && coded.V == V &&
        |V| == DATA + PARITY && size == |coded.data|
      requires digest == crypto.hash(coded.data) && !HasDir(disk, env.id) && Usage(disk) + 2 * size + 8192 <= quota
      modifies this
      ensures Valid() && (r.Put? || r == NotPut(WriteFailed)) && (r.Put? <==> AllWritten(env))
      ensures !r.Put? ==> files == old(files) && disk == old(disk) && origins == old(origins)
      ensures r.Put? ==> r.file.token == token && r.file.name == name && r.file.folder == folder
      ensures r.Put? ==> files == old(files)[r.file.id := r.file] && origins[r.file.id].data == coded.data
      ensures r.Put? ==> Added(old(disk), disk, r.file, origins[r.file.id]) && Usage(disk) <= quota
    {
      hide IsCoded, Codeword, Recoverable, IsBuilt, Describes, Added, Payload, Json, ShardFiles, ChunkList, Usage,
        ShardAt, Without;
      ghost var before := disk;
      var ok, chunks := StoreShards(V, env);
      if !ok {
        return NotPut(WriteFailed);
      }
      var f := File(env.id, name, folder, token, size, env.now, digest, chunks);
      NumbersInList(crypto, env, V);
      var text := Json(f, env.escape);
      if env.fails(DATA + PARITY) {
        RemovedAgain(before, ShardFiles(crypto, env, V, DATA + PARITY), env.id);
        disk := Without(disk, env.id);
        return NotPut(WriteFailed);
      }
      disk := disk + [MetaFile(env.id, text)];
      files := files[env.id := f];
      ghost var o := coded.(payloads := Payloads(crypto, env, V));
      FileDescribed(crypto, env, V, coded, f);
      FilesAdded(crypto, env, V, before, f, o, text);
      StaysWithin(crypto, env, V, coded, before, f);
      origins := origins[env.id := o];
      return Put(f);
    }

    // The object is stored already.
    ghost predicate There(token: string, name: string, folder: string, data: Bytes)
      reads this
    {
      exists id :: id in files && files[id].token == token && files[id].name == name &&
        files[id].folder == folder && files[id].sha == crypto.hash(data)
    }

    // The hash tells the data from every object that is stored.
    ghost predicate Known(data: Bytes)
      reads this
    {
      forall id :: id in origins ==> Told(crypto, origins[id].data, data)
    }

    // Why a put does not succeed; None if it does.
    ghost function Refusal(token: string, name: string, folder: string, data: Bytes, capacity: nat,
                           env: Env): Option<PutResult>
      reads this
    {
      if !Acceptable(token, name, folder) then Some(NotPut(BadName))
      else if |data| == 0 || |data| > MAX_OBJECT then Some(NotPut(BadSize))
      else if There(token, name, folder, data) then None
      else if Usage(disk) + 2 * |data| + 8192 > quota then Some(NotPut(QuotaReached))
      else if HasDir(disk, env.id) then Some(NotPut(WriteFailed))
      else if SJ.Panics(capacity, |data|, DATA, DATA + PARITY) then Some(Stopped)
      else if !AllWritten(env) then Some(NotPut(WriteFailed))
      else None
    }

    /** put: on success the object is stored and described, within the quota; on failure nothing has
        changed; an object that is already there is not stored again.  It succeeds whenever nothing
        speaks against it. */
    method PutObject(token: string, name: string, folder: string, data: array<byte>, dataLen: nat, env: Env, o: Options)
      returns (r: PutResult)
      requires Valid() && EnvOk(env) && Tuned(o) && dataLen <= data.Length
      modifies this, data
      ensures Valid() && data[..dataLen] == old(data[..dataLen])
      ensures old(Refusal(token, name, folder, data[..dataLen], data.Length, env)) == if r.Put? then None else Some(r)
      ensures r == NotPut(BadName) <==>
        |token| == 0 || |token| > 256 || |name| == 0 || |name| > 200 || |folder| > 200 ||
        '/' in name || '\\' in name || '\0' in name || '\\' in folder || '\0' in folder || TwoDots(folder)
      ensures r == NotPut(BadSize) ==> dataLen == 0 || dataLen > 12 * 1024 * 1024
      ensures dataLen == 0 || dataLen > 12 * 1024 * 1024 ==> r in {NotPut(BadName), NotPut(BadSize)}
      ensures r !in {NotPut(BadName), NotPut(BadSize)} && !old(There(token, name, folder, data[..dataLen])) ==>
        (r == NotPut(QuotaReached) <==> old(Usage(disk)) + 2 * dataLen + 8192 > quota)
      ensures r == NotPut(QuotaReached) ==> !old(There(token, name, folder, data[..dataLen]))
      ensures old(There(token, name, folder, data[..dataLen])) && r !in {NotPut(BadName), NotPut(BadSize)} ==>
        r.Put? && files == old(files) && disk == old(disk)
      ensures !r.Put? ==> files == old(files) && disk == old(disk)
      ensures r.Put? ==> Acceptable(token, name, folder) && 0 < dataLen <= MAX_OBJECT
      ensures r.Put? ==> r.file.id in files && files[r.file.id] == r.file
      ensures r.Put? ==> crypto.hash(origins[r.file.id].data) == crypto.hash(data[..dataLen])
      ensures r.Put? && (old(Known(data[..dataLen])) || !old(There(token, name, folder, data[..dataLen]))) ==>
        origins[r.file.id].data == data[..dataLen]
      ensures r.Put? ==> r.file.token == token && r.file.name == name && r.file.folder == folder
      ensures r.Put? ==>
        (files == old(files) && disk == old(disk) && origins == old(origins)) ||
        Added(old(disk), disk, r.file, origins[r.file.id])
      ensures r.Put? ==> files == old(files)[r.file.id := r.file]
      ensures old(Usage(disk)) <= quota ==> Usage(disk) <= quota
    {
      hide IsCoded, Codeword, Recoverable, IsBuilt, Added, EnvOk, Usage, HasDir, HasAny, HasDots, SJ.Panics,
        SJ.PerShard, Lawful, AllWritten;
      assert |data[..dataLen]| == dataLen;
      AcceptableMeans(token, name, folder);
      if !Acceptable(token, name, folder) {
        return NotPut(BadName);
      }
      if dataLen == 0 || dataLen > MAX_OBJECT {
        return NotPut(BadSize);
      }
      var digest := crypto.hash(data[..dataLen]);
      if exists id :: id in files && Same(files[id], token, name, folder, digest) {
        var id :| id in files && Same(files[id], token, name, folder, digest);
        assert Describes(crypto, files[id], origins[id]);
        return Put(files[id]);
      }
      if Usage(disk) + 2 * dataLen + 8192 > quota {
        return NotPut(QuotaReached);
      }
      if HasDir(disk, env.id) {
        return NotPut(WriteFailed);
      }
      ghost var input := data[..dataLen];
      var coded;
      ghost var m;
      coded, m := CodeTwelve(data, dataLen, o);
      if coded == None {
        return Stopped;
      }
      ghost var origin := Origin(input, m, coded.value, [], SJ.PerShard(dataLen, DATA));
      TwelveShards(origin);
      r := StoreObject(token, name, folder, dataLen, digest, coded.value, env, origin);
    }
  }

  lemma TwelveShards(o: Origin)
    requires IsCoded(o)
    ensures |o.V| == DATA + PARITY
  {}

  // The entry put looks for before it stores again.
  predicate Same(f: File, token: string, name: string, folder: string, digest: string) {
    f.token == token && f.name == name && f.folder == folder && f.sha == digest
  }

  // The new files of an object: its sealed shards, and something that is no shard.
  ghost predicate Added(before: seq<Stored>, after: seq<Stored>, f: File, o: Origin) {
    && |o.payloads| == DATA + PARITY && !HasDir(before, f.id)
    && (forall i :: 0 <= i < DATA + PARITY ==> ShardAt(after, f.id, i) == Some(o.payloads[i]))
    && forall dir, i: nat :: dir != f.id ==> ShardAt(after, dir, i) == ShardAt(before, dir, i)
  }

  ghost function Payloads(c: Crypto, env: Env, V: seq<Bytes>): (r: seq<Bytes>)
    requires |V| == |env.nonces|
    ensures |r| == |V| && forall i :: 0 <= i < |V| ==> r[i] == Payload(c, env, V, i)
  {
    seq(|V|, i requires 0 <= i < |V| => Payload(c, env, V, i))
  }

  lemma NumbersInList(c: Crypto, env: Env, V: seq<Bytes>)
    requires EnvOk(env) && |V| == DATA + PARITY
    ensures var list := ChunkList(c, env, V, DATA + PARITY); forall k :: 0 <= k < |list| ==> list[k].num == k
    ensures var shards := ShardFiles(c, env, V, DATA + PARITY); forall k :: 0 <= k < |shards| ==>
      shards[k].dir == env.id
  {}

  lemma FileDescribed(c: Crypto, env: Env, V: seq<Bytes>, coded: Origin, f: File)
    requires Lawful(c) && EnvOk(env) && IsCoded(coded) && coded.V == V && f.id == env.id && f.size == |coded.data| &&
      f.sha == c.hash(coded.data)
    requires f.chunks == ChunkList(c, env, V, DATA + PARITY)
    ensures Describes(c, f, coded.(payloads := Payloads(c, env, V)))
  {
    hide Codeword, Recoverable, IsBuilt;
    var o := coded.(payloads := Payloads(c, env, V));
    forall i | 0 <= i < DATA + PARITY
      ensures IsSealed(c, o.payloads[i], o.V[i], f.id, i)
    {
      assert o.payloads[i][..NONCE] == env.nonces[i];
    }
  }

  lemma {:induction false} ShardInFiles(c: Crypto, env: Env, V: seq<Bytes>, k: nat, before: seq<Stored>, dir: string,
                                        i: nat)
    requires EnvOk(env) && k <= |V| == DATA + PARITY
    ensures ShardAt(before + ShardFiles(c, env, V, k), dir, i) ==
      if dir == env.id && i < k then Some(Payload(c, env, V, i)) else ShardAt(before, dir, i)
  {
    hide Payload;
    var all := before + ShardFiles(c, env, V, k);
    if k == 0 {
      assert all == before;
    } else {
      assert all[..|all| - 1] == before + ShardFiles(c, env, V, k - 1);
      ShardInFiles(c, env, V, k - 1, before, dir, i);
    }
  }

  lemma FilesAdded(c: Crypto, env: Env, V: seq<Bytes>, before: seq<Stored>, f: File, o: Origin, text: string)
    requires EnvOk(env) && |V| == DATA + PARITY && !HasDir(before, env.id) && f.id == env.id &&
      o.payloads == Payloads(c, env, V)
    ensures Added(before, before + ShardFiles(c, env, V, DATA + PARITY) + [MetaFile(env.id, text)], f, o)
  {
    hide Payload;
    var shards := before + ShardFiles(c, env, V, DATA + PARITY);
    var after := shards + [MetaFile(env.id, text)];
    assert after[..|after| - 1] == shards;
    forall dir, i: nat
      ensures ShardAt(after, dir, i) == if dir == env.id && i < DATA + PARITY then Some(Payload(c, env, V, i))
        else ShardAt(before, dir, i)
    {
      ShardInFiles(c, env, V, DATA + PARITY, before, dir, i);
    }
  }

  lemma {:induction false} ShardUsage(c: Crypto, env: Env, V: seq<Bytes>, k: nat, w: nat)
    requires Lawful(c) && EnvOk(env) && k <= |V| == DATA + PARITY && forall i :: 0 <= i < |V| ==> |V[i]| == w
    ensures Usage(ShardFiles(c, env, V, k)) == k * (w + 28)
    ensures forall i :: 0 <= i < |V| ==> |Payload(c, env, V, i)| == w + 28
  {
    hide Payload, Lawful;
    forall i | 0 <= i < |V|
      ensures |Payload(c, env, V, i)| == w + 28
    {
      PayloadLength(c, env, V, i, w);
    }
    if k > 0 {
      ShardUsage(c, env, V, k - 1, w);
      assert ShardFiles(c, env, V, k)[..k - 1] == ShardFiles(c, env, V, k - 1);
    }
  }

  lemma PayloadLength(c: Crypto, env: Env, V: seq<Bytes>, i: nat, w: nat)
    requires Lawful(c) && EnvOk(env) && i < |V| == DATA + PARITY && |V[i]| == w
    ensures |Payload(c, env, V, i)| == w + 28
  {}

  // The metadata of a stored object.
  lemma MetadataSmall(c: Crypto, env: Env, coded: Origin, f: File)
    requires Lawful(c) && EnvOk(env) && IsCoded(coded) && f.id == env.id && f.size == |coded.data| &&
      f.sha == c.hash(coded.data)
    requires Limited(f.token, f.name, f.folder) && f.createdAt == env.now && coded.w <= f.size + 8
    requires f.chunks == ChunkList(c, env, coded.V, DATA + PARITY) &&
      forall k :: 0 <= k < |f.chunks| ==> f.chunks[k].num >= 0
    ensures |Json(f, env.escape)| < 7000
  {
    hide Json, Recoverable, IsBuilt, SJ.PerShard, SJ.Flat;
    forall k | 0 <= k < DATA + PARITY
      ensures Shaped(f.chunks[k].id, f.chunks[k].sha) && f.chunks[k].size == coded.w + 28
    {
      ListEntry(c, env, coded.V, k);
    }
    MetadataLength(f, env.escape);
  }

  // Storing takes no more than what put set aside.
  lemma StaysWithin(c: Crypto, env: Env, V: seq<Bytes>, coded: Origin, before: seq<Stored>, f: File)
    requires Lawful(c) && EnvOk(env) && IsCoded(coded) && coded.V == V && f.id == env.id && f.size == |coded.data| &&
      f.sha == c.hash(coded.data)
    requires Limited(f.token, f.name, f.folder) && f.createdAt == env.now
    requires f.chunks == ChunkList(c, env, V, DATA + PARITY) && forall k :: 0 <= k < |f.chunks| ==> f.chunks[k].num >= 0
    ensures Usage(before + ShardFiles(c, env, V, DATA + PARITY) + [MetaFile(env.id, Json(f, env.escape))]) <=
      Usage(before) + 2 * f.size + 8192
  {
    hide Json, Recoverable, IsBuilt, SJ.PerShard, SJ.Flat;
    var shards, meta := ShardFiles(c, env, V, DATA + PARITY), MetaFile(env.id, Json(f, env.escape));
    UsageSum(before, shards);
    UsageNext(before + shards, meta);
    ShardUsage(c, env, V, DATA + PARITY, coded.w);
    PerShardSmall(f.size, coded.w);
    MetadataSmall(c, env, coded, f);
    WithinReserve(f.size, coded.w, Usage(shards), |Json(f, env.escape)|);
  }

  lemma ListEntry(c: Crypto, env: Env, V: seq<Bytes>, k: nat)
    requires Lawful(c) && EnvOk(env) && |V| == DATA + PARITY && k < DATA + PARITY
    ensures var chunk := ChunkList(c, env, V, DATA + PARITY)[k];
      chunk.num == k && Shaped(chunk.id, chunk.sha) && chunk.size == |Payload(c, env, V, k)|
  {
    hide Payload;
    var p := Payload(c, env, V, k);
    assert |c.hash(p)| == 64 && AllPlain(c.hash(p));
    assert |env.chunkIds[k]| == 36 && AllPlain(env.chunkIds[k]);
    assert ChunkList(c, env, V, DATA + PARITY)[k] == MobileMetadata.Chunk(k, env.chunkIds[k], c.hash(p), |p|);
  }

  lemma PerShardSmall(size: nat, w: nat)
    requires 0 < size <= MAX_OBJECT && w == SJ.PerShard(size, DATA)
    ensures 8 * w < size + 8
  {
    assert SJ.At(DATA, w) == 8 * w;
  }

  // ---- read ----

  datatype ReadResult = Read(bytes: Bytes) | NotRead

  // Shard file i is exactly as it was stored.
  ghost predicate Intact(disk: seq<Stored>, f: File, o: Origin, i: nat)
    requires i < |o.payloads|
  {
    ShardAt(disk, f.id, i) == Some(o.payloads[i])
  }

  // One shard file: its plain content, unless it is missing, altered or cannot be opened.
  method OpenShard(c: Crypto, disk: seq<Stored>, f: File, i: nat) returns (plain: Option<Bytes>)
    requires i < |f.chunks|
    ensures forall o: Origin :: Lawful(c) && Describes(c, f, o) && Unmistaken(c, disk, f, o) && i < DATA + PARITY ==>
      plain == (if Intact(disk, f, o, i) then Some(o.V[i]) else None)
  {
    var b := ShardAt(disk, f.id, i);
    if b == None || c.hash(b.value) != f.chunks[i].sha || |b.value| < NONCE {
      MissingOrAltered(c, disk, f, i);
      return None;
    }
    forall o: Origin | Lawful(c) && Describes(c, f, o) && Unmistaken(c, disk, f, o) && i < DATA + PARITY
      ensures Intact(disk, f, o, i) && c.open(b.value[..NONCE], b.value[NONCE..], (f.id, i)) == Some(o.V[i])
    {
      SealedOpens(c, b.value, f, o, i);
    }
    return c.open(b.value[..NONCE], b.value[NONCE..], (f.id, i));
  }

  lemma MissingOrAltered(c: Crypto, disk: seq<Stored>, f: File, i: nat)
    requires i < |f.chunks|
    requires var b := ShardAt(disk, f.id, i); b == None || c.hash(b.value) != f.chunks[i].sha || |b.value| < NONCE
    ensures forall o: Origin :: Describes(c, f, o) && i < DATA + PARITY ==> !Intact(disk, f, o, i)
  {
    hide IsCoded;
  }

  lemma SealedOpens(c: Crypto, b: Bytes, f: File, o: Origin, i: nat)
    requires Lawful(c) && Describes(c, f, o) && i < DATA + PARITY && c.hash(b) == f.chunks[i].sha && |b| >= NONCE
    requires Told(c, b, o.payloads[i])
    ensures b == o.payloads[i] && c.open(b[..NONCE], b[NONCE..], (f.id, i)) == Some(o.V[i])
  {
    hide IsCoded;
    var n, a := b[..NONCE], (f.id, i);
    assert b == o.payloads[i];
    assert b[NONCE..] == c.seal(n, o.V[i], a);
    assert c.open(n, c.seal(n, o.V[i], a), a) == Some(o.V[i]);
  }

  // The loop of read: intact shards as they were coded, everything else missing.
  method LoadShards(c: Crypto, disk: seq<Stored>, f: File, ghost o: Origin, ghost outside: set<object>)
    returns (ok: bool, shards: array<Shard>)
    requires |f.chunks| == DATA + PARITY && Lawful(c)
    ensures fresh(shards) && shards.Length == DATA + PARITY && Apart(shards) && shards !in outside
    ensures forall i :: 0 <= i < shards.Length && shards[i] != null ==> fresh(shards[i]) && shards[i] !in outside
    ensures Describes(c, f, o) && Unmistaken(c, disk, f, o) ==> ok && forall i :: 0 <= i < DATA + PARITY ==>
      Shards.Bytes(shards[i]) == if Intact(disk, f, o, i) then o.V[i] else []
  {
    hide IsCoded, Intact, IsSealed, Lawful, Unmistaken;
    shards := new Shard[DATA + PARITY](_ => null);
    ok := true;
    for i := 0 to DATA + PARITY
      invariant forall k :: 0 <= k < shards.Length && shards[k] != null ==>
        fresh(shards[k]) && shards[k] !in outside && shards[k] as object != shards
      invariant forall j, k :: 0 <= j < k < shards.Length && shards[j] != null ==> shards[j] != shards[k]
      invariant forall k :: i <= k < shards.Length ==> shards[k] == null
      invariant Describes(c, f, o) && Unmistaken(c, disk, f, o) ==> forall k :: 0 <= k < i ==>
        Shards.Bytes(shards[k]) == if Intact(disk, f, o, k) then o.V[k] else []
    {
      if f.chunks[i].num != i {
        return false, shards;
      }
      var loaded := LoadShard(c, disk, f, i, o);
      shards[i] := loaded;
    }
  }

  // The shard, if it can be opened, in a buffer of its own.
  method LoadShard(c: Crypto, disk: seq<Stored>, f: File, i: nat, ghost o: Origin) returns (shard: Shard)
    requires i < |f.chunks| == DATA + PARITY && Lawful(c) && f.chunks[i].num == i
    ensures shard != null ==> fresh(shard)
    ensures Describes(c, f, o) && Unmistaken(c, disk, f, o) ==>
      Shards.Bytes(shard) == if Intact(disk, f, o, i) then o.V[i] else []
  {
    hide IsCoded, Intact, IsSealed;
    var plain := OpenShard(c, disk, f, i);
    if plain == None {
      return null;
    }
    var bytes := plain.value;
    shard := new byte[|bytes|](k requires 0 <= k < |bytes| => bytes[k]);
    assert shard[..] == bytes;
  }

  lemma {:induction false} IntactPresent(disk: seq<Stored>, f: File, o: Origin, lens: seq<nat>, k: nat)
    requires k <= |lens| == |o.payloads| && forall i :: 0 <= i < |lens| ==> (lens[i] != 0 <==> Intact(disk, f, o, i))
    ensures RS.ReedSolomon.Present(lens, k) == IntactCount(disk, f, o, k)
    ensures IntactCount(disk, f, o, k) > 0 ==> exists i :: 0 <= i < k && lens[i] != 0
  {
    hide Intact;
    if k > 0 {
      IntactPresent(disk, f, o, lens, k - 1);
    }
  }

  // reconstruct can do its work exactly if eight shards are there.
  lemma EnoughIntact(enc: RS.ReedSolomon, disk: seq<Stored>, f: File, o: Origin, lens: seq<nat>)
    requires enc.dataShards == DATA && enc.shards == DATA + PARITY == |lens| == |o.payloads| && o.w > 0
    requires forall i :: 0 <= i < |lens| ==> lens[i] == if Intact(disk, f, o, i) then o.w else 0
    ensures enc.Verdict(lens, false) == None <==> IntactCount(disk, f, o, DATA + PARITY) >= DATA
    ensures IntactCount(disk, f, o, DATA + PARITY) >= DATA ==> SizeOf(lens) == o.w
  {
    hide Intact;
    IntactPresent(disk, f, o, lens, DATA + PARITY);
    SizeOfSome(lens, o.w);
  }

  // New and Reconstruct: with eight intact shards, all twelve are as they were coded; with fewer, an error.
  method RebuildObject(shards: array<Shard>, enc: RS.ReedSolomon, ghost c: Crypto, ghost disk: seq<Stored>,
                       ghost f: File, ghost o: Origin)
    returns (ok: bool)
    requires enc.Valid() && enc.dataShards == DATA && enc.parityShards == PARITY &&
      IsBuilt(enc.m, DATA, DATA + PARITY) && enc.Outside(shards)
    requires shards.Length == DATA + PARITY && Apart(shards)
    modifies shards, enc.pool, if enc.tree == null then {} else enc.tree.root.Repr
    ensures Describes(c, f, o) && old(Held(shards, disk, f, o)) ==>
      (ok <==> IntactCount(disk, f, o, DATA + PARITY) >= DATA)
    ensures Describes(c, f, o) && old(Held(shards, disk, f, o)) && ok ==>
      (forall i :: 0 <= i < shards.Length ==> shards[i] != null) && Values(shards) == o.V
  {
    hide Comb, Recoverable, IsBuilt, CacheOk, Intact, IsSealed, Codeword, SJ.Flat, SJ.PerShard, Check, SizeOf;
    ghost var lens, values, described := Lens(shards[..]), Values(shards), Describes(c, f, o) &&
      Held(shards, disk, f, o);
    if described {
      OneMatrix(enc.m, o);
      EnoughIntact(enc, disk, f, o, lens);
    }
    var err, _ := enc.Reconstruct(shards, false);
    if described && err == None {
      assert RS.ReedSolomon.Agrees(o.V, values);
      assert forall i :: 0 <= i < shards.Length ==> Len(shards[i]) == o.w;
    }
    return err == None;
  }

  // What LoadShards leaves: the intact shards, and nothing else.
  ghost predicate Held(shards: array<Shard>, disk: seq<Stored>, f: File, o: Origin)
    reads shards, shards[..]
  {
    && shards.Length == |o.payloads| == |o.V|
    && forall i :: 0 <= i < shards.Length ==>
         Shards.Bytes(shards[i]) == if Intact(disk, f, o, i) then o.V[i] else []
  }

  lemma OneMatrix(m: Mat, o: Origin)
    requires IsBuilt(m, DATA, DATA + PARITY) && IsCoded(o)
    ensures m == o.m && o.w > 0 && forall i :: 0 <= i < |o.V| ==> |o.V[i]| == o.w
  {
    hide IsBuilt, Recoverable, Comb;
    BuiltOnce(m, o.m, DATA, DATA + PARITY);
  }

  /** read: whatever has happened to the disk, what it returns has the recorded hash; and it returns exactly
      the object exactly if at least eight of the twelve shard files are intact. */
  method ReadObject(c: Crypto, disk: seq<Stored>, f: File, opts: Options, ghost o: Origin) returns (r: ReadResult)
    requires Lawful(c) && Tuned(opts) && |f.chunks| == DATA + PARITY
    ensures r.Read? ==> c.hash(r.bytes) == f.sha
    ensures Describes(c, f, o) && Unmistaken(c, disk, f, o) ==>
      (r == Read(o.data) <==> IntactCount(disk, f, o, DATA + PARITY) >= DATA)
    ensures Describes(c, f, o) && Unmistaken(c, disk, f, o) && r.Read? ==> r.bytes == o.data
  {
    hide Comb, Recoverable, IsBuilt, CacheOk, Intact, IsSealed, Codeword, SJ.FlatTo, SJ.PerShard, IntactCount;
    var made := RS.ReedSolomon.New(DATA, PARITY, RS.VandermondeMatrix, false, opts, true);
    var enc := made.value;
    var loaded, shards := LoadShards(c, disk, f, o, enc.Repr());
    if !loaded {
      return NotRead;
    }
    var rebuilt := RebuildObject(shards, enc, c, disk, f, o);
    if !rebuilt {
      return NotRead;
    }
    var joined := JoinShards(shards, DATA, f.size);
    if joined == None || c.hash(joined.value) != f.sha {
      return NotRead;
    }
    return Read(joined.value);
  }

  /** All shard files are intact after a put; */
  lemma {:induction false} IntactAfterPut(before: seq<Stored>, after: seq<Stored>, f: File, o: Origin, k: nat)
    requires Added(before, after, f, o) && k <= |o.payloads|
    ensures IntactCount(after, f, o, k) == k
  {
    if k > 0 {
      IntactAfterPut(before, after, f, o, k - 1);
    }
  }

  // and the hash need not tell them from anything else;
  lemma UnmistakenAfterPut(c: Crypto, before: seq<Stored>, after: seq<Stored>, f: File, o: Origin)
    requires Added(before, after, f, o)
    ensures Unmistaken(c, after, f, o)
  {}

  /** a later put does not touch them; */
  lemma {:induction false} IntactAfterOthers(before: seq<Stored>, after: seq<Stored>, g: File, other: Origin, f: File,
                                             o: Origin, k: nat)
    requires Added(before, after, g, other) && f.id != g.id && k <= |o.payloads|
    ensures IntactCount(after, f, o, k) == IntactCount(before, f, o, k)
  {
    if k > 0 {
      IntactAfterOthers(before, after, g, other, f, o, k - 1);
    }
  }

  /** and whatever happens to some of them, the others still count. */
  lemma {:induction false} IntactAfterDamage(before: seq<Stored>, after: seq<Stored>, f: File, o: Origin,
                                             damaged: set<nat>, k: nat)
    requires k <= |o.payloads| && forall i: nat :: i < |o.payloads| && i !in damaged ==>
      ShardAt(after, f.id, i) == ShardAt(before, f.id, i)
    ensures IntactCount(after, f, o, k) + |set i | i in damaged && i < k| >= IntactCount(before, f, o, k)
  {
    if k > 0 {
      IntactAfterDamage(before, after, f, o, damaged, k - 1);
      var small, large := set i | i in damaged && i < k - 1, set i | i in damaged && i < k;
      assert large == if k - 1 in damaged then small + {k - 1} else small;
    }
  }
}
