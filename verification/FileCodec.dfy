/** The commands that encode a file into shard files and decode it again (lib/cmd/encoder/encoder.go,
    lib/cmd/decoder/decoder.go).  None stands for an exit with an error, a panic included. */
module FileCodec {
  import opened Wrappers
  import opened Galois
  import opened LinearAlgebra
  import opened Kernels
  import opened Coding
  import opened Generator
  import opened Shards
  import opened TableUse
  import opened ObjectCode
  import SJ = SplitJoin
  import RS = ReedSolomon

  // The numbers of shards that New takes.
  predicate Numbered(dataShards: int, parityShards: int) {
    0 < dataShards && 0 <= parityShards && dataShards + parityShards <= 256
  }

  /** encoder: the shards of the file; no exit with an error unless the shard numbers are out of range, the
      file is empty, or Split panics over the capacity of the buffer. */
  method EncodeFile(b: array<byte>, size: nat, dataShards: int, parityShards: int, o: Options)
    returns (out: Option<seq<Vec>>, ghost m: Mat)
    requires Tuned(o) && size <= b.Length
    modifies b
    ensures out.Some? <==> 0 < dataShards && 0 <= parityShards && dataShards + parityShards <= 256 && size > 0 &&
                           !SJ.Panics(b.Length, size, dataShards, dataShards + parityShards)
    ensures out.Some? ==> Encodes(m, out.value, old(b[..size]), dataShards, parityShards)
    ensures out.Some? ==> |out.value| == dataShards + parityShards
  {
    hide Codeword, Recoverable, IsBuilt, SJ.Flat, SJ.Panics;
    m := [];
    if !Numbered(dataShards, parityShards) || size == 0 {
      return None, m;
    }
    out, m := CodeObject(b, size, dataShards, parityShards, o);
  }

  // ---- the decoder ----

  // The shard files that are there are those of V.
  ghost predicate Match(files: map<nat, Vec>, V: Mat) { forall i: nat :: i in files && i < |V| ==> files[i] == V[i] }

  function Staged(files: map<nat, Vec>, total: nat): set<nat> { set i: nat | i < total && i in files }

  // How many bytes to write: what the size file says, if that is possible.
  function OutputSize(whole: nat, sizeFile: Option<int>): nat {
    if sizeFile.Some? && 0 < sizeFile.value <= whole then sizeFile.value else whole
  }

  // The shards as far as their files are there.
  method ReadFiles(files: map<nat, Vec>, total: nat, ghost outside: set<object>) returns (shards: array<Shard>)
    ensures fresh(shards) && shards.Length == total && Apart(shards) && shards !in outside
    ensures forall i :: 0 <= i < total ==>
      if i in files then shards[i] != null && fresh(shards[i]) && shards[i] !in outside && shards[i][..] == files[i]
      else shards[i] == null
  {
    shards := new Shard[total](_ => null);
    for i := 0 to total
      invariant shards !in outside
      invariant forall k :: i <= k < total ==> shards[k] == null
      invariant forall k :: 0 <= k < i ==>
        if k in files then
          shards[k] != null && fresh(shards[k]) && shards[k] !in outside && shards[k] as object != shards &&
          shards[k][..] == files[k]
        else shards[k] == null
      invariant forall j, k :: 0 <= j < k < i && shards[j] != null ==> shards[j] != shards[k]
    {
      if i in files {
        var content := files[i];
        var buffer := new byte[|content|](k requires 0 <= k < |content| => content[k]);
        assert buffer[..] == content;
        shards[i] := buffer;
      }
    }
  }

  lemma {:induction false} FlatLength(p: seq<Vec>, w: nat, k: nat)
    requires k <= |p| && forall i :: 0 <= i < |p| ==> |p[i]| == w
    ensures |SJ.FlatTo(p, k)| == SJ.At(k, w)
  {
    hide SJ.At;
    SJ.AtNext(0, w);
    if k > 0 {
      FlatLength(p, w, k - 1);
      SJ.AtNext(k - 1, w);
    }
  }

  lemma StagedNext(files: map<nat, Vec>, k: nat)
    ensures |Staged(files, k + 1)| == |Staged(files, k)| + if k in files then 1 else 0
  {
    if k in files {
      assert Staged(files, k + 1) == Staged(files, k) + {k};
    } else {
      assert Staged(files, k + 1) == Staged(files, k);
    }
  }

  lemma {:induction false} CountStaged(files: map<nat, Vec>, lens: seq<nat>, k: nat)
    requires k <= |lens| && forall i :: 0 <= i < |lens| ==> (lens[i] != 0 <==> i in files)
    ensures RS.ReedSolomon.Present(lens, k) == |Staged(files, k)|
  {
    if k > 0 {
      CountStaged(files, lens, k - 1);
      StagedNext(files, k - 1);
    } else {
      assert Staged(files, 0) == {};
    }
  }

  // `before` is what is left of V, whose rows have w bytes and are an encoding.
  ghost predicate Left(enc: RS.ReedSolomon, V: Mat, before: Mat, w: nat) {
    && w > 0 && |V| == |before| == enc.shards && (forall i :: 0 <= i < |V| ==> |V[i]| == w)
    && (enc.parityShards > 0 ==> Codeword(enc.m, enc.dataShards, V, w))
    && forall i :: 0 <= i < |V| ==> before[i] == [] || before[i] == V[i]
  }

  // The shards that are there are no longer than a row, or all of them are.
  lemma LeftShape(enc: RS.ReedSolomon, V: Mat, before: Mat, lens: seq<nat>, w: nat)
    requires Left(enc, V, before, w) && |lens| == |before| && 0 < enc.dataShards <= enc.shards
    requires enc.shards == enc.dataShards + enc.parityShards
    requires forall i :: 0 <= i < |lens| ==> lens[i] == |before[i]|
    ensures enc.Verdict(lens, false) == None <==> RS.ReedSolomon.Present(lens, |lens|) >= enc.dataShards
    ensures RS.ReedSolomon.Present(lens, |lens|) >= enc.dataShards ==> SizeOf(lens) == w
    ensures Check(lens, false) == None <==> RS.ReedSolomon.Present(lens, |lens|) == |lens|
    ensures Check(lens, false) == None ==> before == V
    ensures RS.ReedSolomon.Agrees(V, before)
  {
    hide Codeword;
    SizeOfSome(lens, w);
    CheckStrict(lens, w);
    if RS.ReedSolomon.Present(lens, |lens|) > 0 {
      RS.ReedSolomon.OnePresent(lens, |lens|);
    }
    AllPresent(lens, |lens|);
  }

  lemma {:induction false} AllPresent(lens: seq<nat>, k: nat)
    requires k <= |lens|
    ensures RS.ReedSolomon.Present(lens, k) == k <==> forall i :: 0 <= i < k ==> lens[i] != 0
  {
    if k > 0 {
      AllPresent(lens, k - 1);
    }
  }

  // Reconstruct.
  method Rebuild(enc: RS.ReedSolomon, shards: array<Shard>, ghost V: Mat, ghost w: nat) returns (done: bool)
    requires enc.Valid() && Apart(shards) && enc.Outside(shards) && shards.Length == enc.shards
    modifies shards, enc.Repr()
    ensures enc.Valid() && Apart(shards) && enc.Outside(shards)
    ensures forall i :: 0 <= i < shards.Length && old(Len(shards[i])) != 0 ==>
      Bytes(shards[i]) == old(Bytes(shards[i]))
    ensures old(Left(enc, V, Values(shards), w)) ==>
      if old(RS.ReedSolomon.Present(Lens(shards[..]), enc.shards)) < enc.dataShards then !done
      else if done then enc.parityShards == 0 || Values(shards) == V
      else enc.Breakable()
  {
    hide Codeword, Check, SizeOf, Stocked, Fragile, Recoverable, Run, Left;
    ghost var lens, before := Lens(shards[..]), Values(shards);
    ghost var good := Left(enc, V, before, w);
    if good {
      LeftShape(enc, V, before, lens, w);
      LeftRows(enc, V, before, w);
    }
    enc.AnswerIs(lens, false);
    var err;
    ghost var rebuilt;
    err, rebuilt := enc.Reconstruct(shards, false);
    done := err == None;
    if done && good && enc.parityShards > 0 {
      assert forall i :: 0 <= i < enc.shards ==> Bytes(shards[i]) == V[i];
      assert Values(shards) == V;
    }
  }

  lemma LeftRows(enc: RS.ReedSolomon, V: Mat, before: Mat, w: nat)
    requires Left(enc, V, before, w)
    ensures |V| == enc.shards && (enc.parityShards > 0 ==> Codeword(enc.m, enc.dataShards, V, w))
    ensures w > 0 && forall i :: 0 <= i < |V| ==> |V[i]| == w
  {
    hide Codeword;
  }

  // V with nothing missing.
  lemma NothingMissing(enc: RS.ReedSolomon, V: Mat, before: Mat, lens: seq<nat>, w: nat)
    requires Left(enc, V, before, w) && |lens| == |V| && forall i :: 0 <= i < |V| ==> lens[i] == |V[i]|
    ensures Left(enc, V, V, w) && RS.ReedSolomon.Present(lens, |lens|) == |lens|
  {
    hide Codeword;
    AllPresent(lens, |lens|);
  }

  // Verify.
  method Complete(enc: RS.ReedSolomon, shards: array<Shard>, ghost V: Mat, ghost w: nat)
    returns (ok: bool, panics: bool)
    requires enc.Valid() && Apart(shards) && enc.Outside(shards) && shards.Length == enc.shards
    modifies enc.pool
    ensures enc.Valid() && enc.Repr() == old(enc.Repr()) && (panics ==> !ok && enc.Breakable())
    ensures ok ==> Check(Lens(shards[..]), false) == None
    ensures ok && enc.parityShards > 0 ==>
      Codeword(enc.m, enc.dataShards, Values(shards), SizeOf(Lens(shards[..])))
    ensures Left(enc, V, Values(shards), w) ==>
      (ok ==> Values(shards) == V) &&
      (!panics ==> (ok <==> RS.ReedSolomon.Present(Lens(shards[..]), enc.shards) == enc.shards)) &&
      (ok ==> RS.ReedSolomon.Present(Lens(shards[..]), enc.shards) == enc.shards)
  {
    hide Codeword, SizeOf, Check, Stocked, Fragile, Recoverable, Run, Left;
    ghost var lens := Lens(shards[..]);
    if Left(enc, V, Values(shards), w) {
      LeftShape(enc, V, Values(shards), lens, w);
      LeftRows(enc, V, Values(shards), w);
    }
    enc.VerdictIs(lens);
    var err;
    ok, err := enc.Verify(shards);
    panics := err == Some(Panicked);
  }

  /** Verify, and if the shards are not an encoding as they are, Reconstruct and Verify again. */
  method Restore(enc: RS.ReedSolomon, shards: array<Shard>, ghost V: Mat, ghost w: nat) returns (ok: bool)
    requires enc.Valid() && Apart(shards) && enc.Outside(shards) && shards.Length == enc.shards
    modifies shards, enc.Repr()
    ensures ok ==> Check(Lens(shards[..]), false) == None
    ensures ok && enc.parityShards > 0 ==>
      Codeword(enc.m, enc.dataShards, Values(shards), SizeOf(Lens(shards[..])))
    ensures forall i :: 0 <= i < shards.Length && old(Len(shards[i])) != 0 ==>
      Bytes(shards[i]) == old(Bytes(shards[i]))
    ensures old(Left(enc, V, Values(shards), w)) ==>
      if old(RS.ReedSolomon.Present(Lens(shards[..]), enc.shards)) < enc.dataShards then !ok
      else if ok then Values(shards) == V
      else enc.Breakable()
  {
    hide Codeword, Check, SizeOf, Stocked, Fragile, Recoverable, Run, Left;
    ghost var before := Values(shards);
    var panics, done;
    ok, panics := Complete(enc, shards, V, w);
    if ok || panics {
      return;
    }
    done := Rebuild(enc, shards, V, w);
    if !done {
      return;
    }
    if Left(enc, V, before, w) && Values(shards) == V {
      NothingMissing(enc, V, before, Lens(shards[..]), w);
    }
    ok, panics := Complete(enc, shards, V, w);
  }

  // The rows of U, all of one length, have every shard that was there.
  ghost predicate Restored(files: map<nat, Vec>, U: Mat) {
    && |U| > 0 && 0 < |U[0]| && (forall i :: 0 <= i < |U| ==> |U[i]| == |U[0]|)
    && forall i: nat :: i in files && i < |U| && files[i] != [] ==> U[i] == files[i]
  }

  // The shards, read and restored.
  method RestoreFiles(enc: RS.ReedSolomon, files: map<nat, Vec>, ghost m: Mat, ghost V: Mat, ghost content: Vec)
    returns (ok: bool, shards: array<Shard>)
    requires enc.Valid() && (enc.parityShards > 0 ==> IsBuilt(enc.m, enc.dataShards, enc.shards))
    modifies enc.Repr()
    ensures fresh(shards) && shards.Length == enc.shards
    ensures ok ==> AllThere(shards) && Restored(files, Values(shards))
    ensures ok && enc.parityShards > 0 ==> Codeword(enc.m, enc.dataShards, Values(shards), |Values(shards)[0]|)
    ensures Encodes(m, V, content, enc.dataShards, enc.parityShards) && Match(files, V) ==>
      if |Staged(files, enc.shards)| < enc.dataShards then !ok
      else if ok then Values(shards) == V
      else enc.Breakable()
  {
    hide Codeword, Check, SizeOf, Stocked, Recoverable, IsBuilt, Left, Encodes, Fragile, Restored, AllThere;
    shards := ReadFiles(files, enc.shards, enc.Repr());
    ghost var w := if |content| > 0 then SJ.PerShard(|content|, enc.dataShards) else 1;
    ghost var before := Values(shards);
    if Encodes(m, V, content, enc.dataShards, enc.parityShards) && Match(files, V) {
      SomeContent(m, V, content, enc.dataShards, enc.parityShards);
      StagedIsLeft(enc, files, before, m, V, content, w);
      CountStaged(files, Lens(shards[..]), enc.shards);
    }
    ok := Restore(enc, shards, V, w);
    if ok {
      RestoredOf(files, before, shards);
    }
  }

  lemma RestoredOf(files: map<nat, Vec>, before: Mat, shards: array<Shard>)
    requires Check(Lens(shards[..]), false) == None && |before| == shards.Length
    requires forall i :: 0 <= i < |before| && i in files ==> before[i] == files[i]
    requires forall i :: 0 <= i < |before| && before[i] != [] ==> Bytes(shards[i]) == before[i]
    ensures AllThere(shards) && Restored(files, Values(shards)) && |Values(shards)[0]| == SizeOf(Lens(shards[..]))
  {
    AllOfSize(shards);
  }

  lemma SomeContent(m: Mat, V: Mat, content: Vec, dataShards: nat, parityShards: nat)
    requires Encodes(m, V, content, dataShards, parityShards)
    ensures |content| > 0
  {
    hide Codeword, Recoverable, IsBuilt, SJ.Flat;
  }

  /** decoder.  Whatever is staged, what it writes is the data of an encoding that has every shard that was
      there.  If these are shards of a file, it writes the file as soon as there are as many of them as data
      shards, and nothing with fewer; only an encoder of a fragile shape can panic instead. */
  method DecodeFile(dataShards: int, parityShards: int, files: map<nat, Vec>, sizeFile: Option<int>, o: Options,
                    ghost m: Mat, ghost V: Mat, ghost content: Vec)
    returns (out: Option<Vec>, ghost used: Mat, ghost U: Mat)
    requires Tuned(o)
    ensures dataShards <= 0 || parityShards < 0 || dataShards + parityShards > 256 ==> out == None
    ensures out.Some? ==> |U| == dataShards + parityShards && Restored(files, U)
    ensures out.Some? ==>
      var whole := SJ.Flat(U[..dataShards]);
      if sizeFile.Some? && 0 < sizeFile.value <= |whole| then out == Some(whole[..sizeFile.value])
      else out == Some(whole)
    ensures out.Some? && parityShards > 0 ==>
      IsBuilt(used, dataShards, dataShards + parityShards) && Codeword(used, dataShards, U, |U[0]|)
    ensures Numbered(dataShards, parityShards) && Match(files, V) &&
            Encodes(m, V, content, dataShards, parityShards) ==>
      if |Staged(files, dataShards + parityShards)| < dataShards then out == None
      else if out.Some? then U == V
      else Fragile(o, dataShards, parityShards)
  {
    hide Codeword, Recoverable, IsBuilt, Encodes, Fragile, Stocked, SJ.FlatTo;
    used, U := [], [];
    if !Numbered(dataShards, parityShards) {
      return None, used, U;
    }
    var made := RS.ReedSolomon.New(dataShards, parityShards, RS.VandermondeMatrix, false, o, true);
    var enc := made.value;
    used := enc.m;
    var ok, shards := RestoreFiles(enc, files, m, V, content);
    if !ok {
      return None, used, U;
    }
    U := Values(shards);
    FlatLength(U[..dataShards], |U[0]|, dataShards);
    var whole := SJ.At(dataShards, shards[0].Length);
    out := JoinShards(shards, dataShards, OutputSize(whole, sizeFile));
    assert SJ.Flat(U[..dataShards])[..whole] == SJ.Flat(U[..dataShards]);
  }

  // What is staged of an encoding is what is left of it.
  lemma StagedIsLeft(enc: RS.ReedSolomon, files: map<nat, Vec>, before: Mat, m: Mat, V: Mat, content: Vec, w: nat)
    requires 0 < enc.dataShards && enc.shards == enc.dataShards + enc.parityShards <= 256
    requires enc.parityShards > 0 ==> IsBuilt(enc.m, enc.dataShards, enc.shards)
    requires Encodes(m, V, content, enc.dataShards, enc.parityShards) && Match(files, V)
    requires w == SJ.PerShard(|content|, enc.dataShards)
    requires |before| == enc.shards && forall i :: 0 <= i < |before| ==> before[i] == if i in files then files[i]
      else []
    ensures Left(enc, V, before, w)
    ensures forall i :: 0 <= i < |before| ==> (|before[i]| != 0 <==> i in files)
  {
    hide Codeword, Recoverable, IsBuilt, SJ.Flat;
    if enc.parityShards > 0 {
      BuiltOnce(enc.m, m, enc.dataShards, enc.shards);
    }
  }

  // With the size file, the bytes of the file are what comes out.
  lemma SizeFileCuts(m: Mat, V: Mat, content: Vec, dataShards: nat, parityShards: nat)
    requires Encodes(m, V, content, dataShards, parityShards)
    ensures var whole := SJ.Flat(V[..dataShards]);
      whole[..OutputSize(|whole|, Some(|content|))] == content
  {
    hide Codeword, Recoverable, IsBuilt, SJ.FlatTo;
  }

  /** Encode a file, lose any of its shard files, as many as there is parity, and decode: the file is back. */
  method EncodeLoseDecode(b: array<byte>, size: nat, dataShards: int, parityShards: int, lost: set<nat>, o: Options)
    returns (out: Option<Vec>)
    requires Tuned(o) && size <= b.Length
    modifies b
    ensures Numbered(dataShards, parityShards) && |lost| <= parityShards && size > 0 &&
            !SJ.Panics(b.Length, size, dataShards, dataShards + parityShards) ==>
            out == Some(old(b[..size])) || (out == None && Fragile(o, dataShards, parityShards))
  {
    hide Encodes, Fragile, SJ.Panics, SJ.FlatTo;
    ghost var content := b[..size];
    var coded;
    ghost var m;
    coded, m := EncodeFile(b, size, dataShards, parityShards, o);
    if coded == None {
      return None;
    }
    var V := coded.value;
    var files := map i: nat | i < |V| && i !in lost :: V[i];
    ghost var used, U;
    out, used, U := DecodeFile(dataShards, parityShards, files, Some(size), o, m, V, content);
    SizeFileCuts(m, V, content, dataShards, parityShards);
    EnoughLeft(files, lost, dataShards + parityShards);
  }

  lemma EnoughLeft(files: map<nat, Vec>, lost: set<nat>, total: nat)
    requires forall i: nat :: i < total && i !in lost ==> i in files
    ensures |Staged(files, total)| + |lost| >= total
  {
    var there := Staged(files, total);
    SubsetSize(Below(total), there + lost);
  }
}
