/** The encoder (reedsolomon.go): Encode, EncodeIdx, Update, Verify and Reconstruct over shards in
    the heap, with the cache of inverted matrices. */
module ReedSolomon {
  import opened Wrappers
  import opened Galois
  import opened LinearAlgebra
  import opened Kernels
  import opened Coding
  import opened CodeShards
  import opened Elimination
  import opened Matrix
  import opened Generator
  import opened Interpolation
  import opened Cauchy
  import opened Xor
  import opened InversionTree
  import opened Shards
  import opened Recovery
  import opened Avx2
  import opened TablePool
  import opened TableUse

  datatype MatrixKind = VandermondeMatrix | CauchyMatrix

  class ReedSolomon {
    const dataShards: nat
    const parityShards: nat
    const shards: nat
    const m: Mat
    const o: Options
    const tree: InversionTree?
    const pool: Pool

    // The rows that produce the parity shards.
    function Parity(): (r: seq<Vec>)
      requires |m| == shards == dataShards + parityShards
      ensures |r| == parityShards && forall i :: 0 <= i < parityShards ==> r[i] == m[dataShards + i]
    {
      m[dataShards..]
    }

    ghost function Repr(): set<object>
      reads tree, if tree == null then {} else {tree.root}
    {
      {pool} + if tree == null then {} else {tree, tree.root} + tree.root.Repr
    }

    ghost predicate Valid()
      reads Repr(), tree, if tree == null then {} else {tree.root}
    {
      && 0 < dataShards && shards == dataShards + parityShards <= 256
      && (parityShards > 0 ==> Tuned(o) && Recoverable(m, dataShards, shards))
      && Stocked(pool.shelf, dataShards, parityShards)
      && (tree != null ==>
            parityShards > 0 && pool !in tree.root.Repr && tree.Valid() && tree.shards == shards &&
            CacheOk(tree.Cached(), m, dataShards, shards))
    }

    constructor (dataShards: nat, parityShards: nat, m: Mat, o: Options, inversionCache: bool,
                 reuse: nat -> Option<nat>)
      requires 0 < dataShards && dataShards + parityShards <= 256
      requires parityShards > 0 ==> Tuned(o) && Recoverable(m, dataShards, dataShards + parityShards)
      ensures Valid() && fresh(Repr())
      ensures this.dataShards == dataShards && this.parityShards == parityShards && this.m == m && this.o == o
      ensures pool.shelf == Shelf(TableBytes(dataShards, parityShards), reuse, 0, [])
    {
      this.dataShards, this.parityShards, this.shards := dataShards, parityShards, dataShards + parityShards;
      this.m, this.o := m, o;
      if inversionCache && parityShards > 0 {
        var t := new InversionTree(dataShards, parityShards);
        CacheStart(m, dataShards, dataShards + parityShards);
        tree := t;
      } else {
        tree := null;
      }
      pool := new Pool(TableBytes(dataShards, parityShards), reuse);
    }

    // New, for the kinds of matrix that any choice of rows determines; o holds the tuned options.
    static method New(dataShards: int, parityShards: int, kind: MatrixKind, fastOneParity: bool, o: Options,
                      inversionCache: bool)
      returns (r: Result<ReedSolomon>)
      requires Tuned(o)
      ensures dataShards <= 0 || parityShards < 0 ==> r == Err(InvShardNum)
      ensures dataShards > 0 && parityShards >= 0 && dataShards + parityShards > 256 ==> r == Err(MaxShardNum)
      ensures dataShards > 0 && parityShards >= 0 && dataShards + parityShards <= 256 ==>
        r.Ok? && r.value.Valid() && fresh(r.value) && fresh(r.value.Repr()) &&
        r.value.dataShards == dataShards && r.value.parityShards == parityShards && r.value.o == o
      ensures r.Ok? && kind == VandermondeMatrix && parityShards > (if fastOneParity then 1 else 0) ==>
        IsBuilt(r.value.m, dataShards, dataShards + parityShards)
      ensures r.Ok? && kind == VandermondeMatrix && parityShards > (if fastOneParity then 1 else 0) ==>
        CodesValues(r.value.m, dataShards, dataShards + parityShards)
      ensures r.Ok? && kind == CauchyMatrix && parityShards > (if fastOneParity then 1 else 0) ==>
        IsMat(r.value.m, dataShards + parityShards, dataShards) &&
        InvertsSums(r.value.m, dataShards, dataShards + parityShards)
      ensures r.Ok? && fastOneParity && parityShards == 1 ==> CodesXor(r.value.m, dataShards)
      ensures r.Ok? ==> r.value.NothingHeld()
    {
      hide Recoverable, IsBuilt, CodesValues, CodesXor, InvertsSums, CauchyMat;
      if dataShards <= 0 || parityShards < 0 {
        return Err(InvShardNum);
      }
      if dataShards + parityShards > 256 {
        return Err(MaxShardNum);
      }
      var m: Mat := [];
      if parityShards > 0 {
        var built: Result<Mat>;
        if fastOneParity && parityShards == 1 {
          built := BuildXorMatrix(dataShards, dataShards + parityShards);
          XorCodesXor(dataShards);
        } else {
          match kind {
            case CauchyMatrix =>
              built := BuildMatrixCauchy(dataShards, dataShards + parityShards);
              CauchyInvertsSums(dataShards, dataShards + parityShards);
            case VandermondeMatrix =>
              built := BuildMatrix(dataShards, dataShards + parityShards);
              BuiltCodesValues(built.value, dataShards, dataShards + parityShards);
          }
        }
        m := built.value;
      }
      var reuse: nat -> Option<nat> := *;
      var enc := new ReedSolomon(dataShards, parityShards, m, o, inversionCache, reuse);
      return Ok(enc);
    }

    // The caller's buffers are not part of the cache.
    ghost predicate Outside(shards: array<Shard>)
      reads shards, tree, if tree == null then {} else {tree.root}
    {
      shards !in Repr() && forall i :: 0 <= i < shards.Length ==> shards[i] !in Repr()
    }

    // The parity shards are the products, given that the data shards are themselves.
    lemma EncodedIsCodeword(values: Mat, w: nat)
      requires parityShards > 0 && Recoverable(m, dataShards, shards) && shards == dataShards + parityShards &&
        IsMat(values, shards, w)
      requires forall i :: dataShards <= i < shards ==> values[i] == Comb(m[i], values[..dataShards], w)
      ensures Codeword(m, dataShards, values, w)
    {
      hide Comb, NoKernel;
      forall i | 0 <= i < dataShards
        ensures values[i] == Comb(m[i], values[..dataShards], w)
      {
        CombUnit(dataShards, i, values[..dataShards], w);
      }
    }

    // Every shard is the combination of the data with its row.
    static ghost predicate AllCoded(rows: seq<Vec>, data: Mat, shards: Mat, w: nat)
      requires Rowed(rows, |shards|, |data|) && IsMat(data, |data|, w)
    {
      forall i :: 0 <= i < |shards| ==> shards[i] == Comb(rows[i], data, w)
    }

    // Computed parity is right exactly if the shards are a codeword.
    lemma ParityDecides(values: Mat, rows: Mat, parity: Mat, w: nat)
      requires parityShards > 0 && Recoverable(m, dataShards, shards) && shards == dataShards + parityShards &&
        IsMat(values, shards, w)
      requires |rows| == |parity| == parityShards && IsMat(rows, parityShards, dataShards)
      requires forall i :: 0 <= i < parityShards ==> parity[i] == values[dataShards + i] && rows[i] == m[dataShards + i]
      ensures Codeword(m, dataShards, values, w) <==> AllCoded(rows, values[..dataShards], parity, w)
    {
      hide Comb, NoKernel;
      if AllCoded(rows, values[..dataShards], parity, w) {
        forall i | dataShards <= i < shards
          ensures values[i] == Comb(m[i], values[..dataShards], w)
        {
          assert parity[i - dataShards] == Comb(rows[i - dataShards], values[..dataShards], w);
        }
        EncodedIsCodeword(values, w);
      }
    }

    // Some sequence of calls panics with an encoder like this.
    ghost predicate Breakable() { Fragile(o, dataShards, parityShards) }

    // Whether the checks of Encode and Verify lead to coding, and with which call.
    ghost predicate Codes(lens: seq<nat>) { |lens| == shards && Check(lens, false) == None && parityShards > 0 }

    ghost function CodingCall(lens: seq<nat>): Call { Call(SizeOf(lens), parityShards) }

    // What Encode and Verify answer, from the lengths and the state of the pool.
    ghost function CodingVerdict(lens: seq<nat>): Option<Error>
      reads pool
    {
      if |lens| != shards then Some(TooFewShards)
      else if Check(lens, false) != None then Check(lens, false)
      else if parityShards > 0 && Run(pool.shelf, o, dataShards, [CodingCall(lens)]) == None then Some(Panicked)
      else None
    }

    // The pool after Encode or Verify.
    ghost function ShelfThen(lens: seq<nat>): Shelf
      reads pool
    {
      if Codes(lens) then ShelfAfter(pool.shelf, o, SizeOf(lens), dataShards, parityShards) else pool.shelf
    }

    lemma OneCall(s: Shelf, c: Call)
      ensures Run(s, o, dataShards, [c]) ==
        if PoolPanics(s, o, c.byteCount, dataShards, c.outputs) then None
          else Some(ShelfAfter(s, o, c.byteCount, dataShards, c.outputs))
    {
      hide PoolPanics, ShelfAfter;
      assert [c][1..] == [];
    }

    // No buffer has been put back yet.
    ghost predicate NothingHeld()
      reads pool
    {
      pool.shelf.held == [] && pool.shelf.size == TableBytes(dataShards, parityShards)
    }

    // A new encoder's first call, if it is Encode or Verify, does not panic.
    lemma NewDoesNotPanic(lens: seq<nat>)
      requires NothingHeld()
      ensures CodingVerdict(lens) != Some(Panicked) &&
        (Check(lens, false) == None && |lens| == shards ==> CodingVerdict(lens) == None)
    {
      OneCall(pool.shelf, CodingCall(lens));
    }

    // The call ended in a panic, as it may with such an encoder.
    ghost predicate Breaks(err: Option<Error>) { err == Some(Panicked) && Breakable() }

    lemma VerdictIs(lens: seq<nat>)
      requires Valid()
      ensures CodingVerdict(lens) != None && |lens| == shards ==>
        CodingVerdict(lens) == Check(lens, false) || Breaks(CodingVerdict(lens))
      ensures CodingVerdict(lens) == None ==> Check(lens, false) == None
    {
      OnlyBreakable(lens);
      hide Check, Stocked, Fragile, Run;
    }

    // Encode and Verify end in a panic only with a breakable encoder.
    lemma OnlyBreakable(lens: seq<nat>)
      requires Valid()
      ensures CodingVerdict(lens) == Some(Panicked) ==> Breakable()
      ensures Stocked(ShelfThen(lens), dataShards, parityShards)
    {
      hide PoolPanics, ShelfAfter, Stocked, Fragile;
      var c := CodingCall(lens);
      OneCall(pool.shelf, c);
      StaysStocked(pool.shelf, o, c.byteCount, dataShards, parityShards, c.outputs);
      CheckErrors(lens, false);
      if PoolPanics(pool.shelf, o, c.byteCount, dataShards, c.outputs) {
        OnlyFragile(pool.shelf, o, c.byteCount, dataShards, parityShards, c.outputs);
      }
    }

    /** Encode: a panic comes with a breakable encoder only, exactly if its slice from the pool is too short,
        and before any shard changes. */
    method Encode(shards: array<Shard>) returns (err: Option<Error>)
      requires Valid() && Apart(shards) && Outside(shards)
      modifies pool, set i | dataShards <= i < shards.Length && shards[i] != null :: shards[i]
      ensures Valid() && Repr() == old(Repr()) && shards[..] == old(shards[..])
      ensures err == old(CodingVerdict(Lens(shards[..]))) && (err == Some(Panicked) ==> Breakable())
      ensures pool.shelf == old(ShelfThen(Lens(shards[..])))
      ensures forall i :: 0 <= i < shards.Length && (err != None || i < dataShards) ==>
        Bytes(shards[i]) == old(Bytes(shards[i]))
      ensures err == None && parityShards > 0 ==> Codeword(m, dataShards, Values(shards), SizeOf(Lens(shards[..])))
    {
      hide Comb, Recoverable, CacheOk, Stocked, PoolPanics, ShelfAfter, Fragile;
      OnlyBreakable(Lens(shards[..]));
      StockedSound(pool.shelf, dataShards, parityShards);
      if shards.Length != this.shards {
        return Some(TooFewShards);
      }
      err := CheckShards(shards[..], false);
      if err != None {
        return;
      }
      ghost var w := SizeOf(Lens(shards[..]));
      AllOfSize(shards);
      if parityShards == 0 {
        return;
      }
      OneCall(pool.shelf, Call(w, parityShards));
      ghost var before := Values(shards);
      var panics := CodeParity(shards, w);
      forall i | 0 <= i < shards.Length && (panics || i < dataShards)
        ensures Bytes(shards[i]) == before[i]
      {
        assert Bytes(shards[i]) == Values(shards)[i];
        assert i < dataShards ==> Values(shards)[..dataShards][i] == before[..dataShards][i];
      }
      if panics {
        return Some(Panicked);
      }
    }

    // Codes the data shards into the parity shards.
    method CodeParity(shards: array<Shard>, ghost w: nat) returns (panics: bool)
      requires 0 < dataShards && shards.Length == this.shards == dataShards + parityShards && parityShards > 0
      requires Tuned(o) && Recoverable(m, dataShards, this.shards) && Apart(shards)
      requires forall i :: 0 <= i < shards.Length ==> shards[i] != null && shards[i].Length == w
      requires pool.shelf.Sound()
      modifies pool, set i | dataShards <= i < shards.Length :: shards[i]
      ensures panics <==> old(PoolPanics(pool.shelf, o, w, dataShards, parityShards))
      ensures pool.shelf == ShelfAfter(old(pool.shelf), o, w, dataShards, parityShards)
      ensures Values(shards)[..dataShards] == old(Values(shards))[..dataShards] &&
        (panics ==> Values(shards) == old(Values(shards)))
      ensures !panics ==> Codeword(m, dataShards, Values(shards), w)
    {
      hide Comb, Recoverable, CacheOk, Codeword, PoolPanics, ShelfAfter, TableBytes;
      var inputs := Collect(shards, 0, dataShards);
      var outputs := Collect(shards, dataShards, this.shards);
      RecoverableShape();
      ValuesSplit(shards, inputs, outputs);
      panics := CodeSomeShards(Parity(), inputs, outputs, shards[0].Length, o, pool);
      ValuesSplit(shards, inputs, outputs);
      if !panics {
        ParityDecides(Values(shards), Parity(), Contents(outputs), w);
      }
    }

    lemma ValuesSplit(shards: array<Shard>, inputs: seq<array<byte>>, outputs: seq<array<byte>>)
      requires dataShards + parityShards == shards.Length == this.shards && |inputs| == dataShards &&
        |outputs| == parityShards
      requires forall i :: 0 <= i < dataShards ==> inputs[i] == shards[i]
      requires forall i :: 0 <= i < parityShards ==> outputs[i] == shards[dataShards + i]
      ensures Values(shards) == Contents(inputs) + Contents(outputs) && Values(shards)[..dataShards] == Contents(inputs)
      ensures forall i :: 0 <= i < parityShards ==> Contents(outputs)[i] == Values(shards)[dataShards + i]
    {}

    lemma RecoverableShape()
      requires Recoverable(m, dataShards, shards)
      ensures IsMat(m, shards, dataShards) && dataShards > 0
    {}

    method Verify(shards: array<Shard>) returns (ok: bool, err: Option<Error>)
      requires Valid() && Apart(shards)
      modifies pool
      ensures Valid() && Repr() == old(Repr())
      ensures err == old(CodingVerdict(Lens(shards[..]))) && (err == Some(Panicked) ==> Breakable())
      ensures pool.shelf == old(ShelfThen(Lens(shards[..])))
      ensures err != None ==> !ok
      ensures err == None && parityShards == 0 ==> ok
      ensures err == None && parityShards > 0 ==>
        (ok <==> Codeword(m, dataShards, Values(shards), SizeOf(Lens(shards[..]))))
    {
      hide Comb, Recoverable, CacheOk, Stocked, PoolPanics, ShelfAfter, Fragile;
      OnlyBreakable(Lens(shards[..]));
      StockedSound(pool.shelf, dataShards, parityShards);
      if shards.Length != this.shards {
        return false, Some(TooFewShards);
      }
      err := CheckShards(shards[..], false);
      if err != None {
        return false, err;
      }
      ghost var w := SizeOf(Lens(shards[..]));
      AllOfSize(shards);
      if parityShards == 0 {
        return true, None;
      }
      OneCall(pool.shelf, Call(w, parityShards));
      var panics;
      ok, panics := VerifyParity(shards, w);
      if panics {
        return false, Some(Panicked);
      }
    }

    method VerifyParity(shards: array<Shard>, ghost w: nat) returns (ok: bool, panics: bool)
      requires 0 < dataShards && shards.Length == this.shards == dataShards + parityShards && parityShards > 0
      requires Tuned(o) && Recoverable(m, dataShards, this.shards) && Apart(shards)
      requires forall i :: 0 <= i < shards.Length ==> shards[i] != null && shards[i].Length == w
      requires pool.shelf.Sound()
      modifies pool
      ensures panics <==> old(PoolPanics(pool.shelf, o, w, dataShards, parityShards))
      ensures pool.shelf == ShelfAfter(old(pool.shelf), o, w, dataShards, parityShards)
      ensures !panics ==> (ok <==> Codeword(m, dataShards, Values(shards), w))
    {
      hide Comb, Recoverable, CacheOk, Codeword, PoolPanics, ShelfAfter, TableBytes, AllCoded;
      var inputs := Collect(shards, 0, dataShards);
      var toCheck := Collect(shards, dataShards, this.shards);
      RecoverableShape();
      ValuesSplit(shards, inputs, toCheck);
      ok, panics := CheckSomeShards(Parity(), inputs, toCheck, shards[0].Length, o, pool);
      ParityDecides(Values(shards), Parity(), Contents(toCheck), w);
    }

    // Computes the parity again and compares.
    static method CheckSomeShards(rows: seq<Vec>, inputs: seq<array<byte>>, toCheck: seq<array<byte>>, byteCount: nat,
                                  o: Options,
                                  pool: Pool) returns (ok: bool, panics: bool)
      requires |inputs| > 0 && (forall c :: 0 <= c < |inputs| ==> inputs[c].Length == byteCount)
      requires Rowed(rows, |toCheck|, |inputs|) && Tuned(o) && pool.shelf.Sound()
      modifies pool
      ensures panics <==> PoolPanics(old(pool.shelf), o, byteCount, |inputs|, |toCheck|)
      ensures pool.shelf == ShelfAfter(old(pool.shelf), o, byteCount, |inputs|, |toCheck|)
      ensures !panics ==> (ok <==> AllCoded(rows, Contents(inputs), Contents(toCheck), byteCount))
    {
      hide Comb, TableBytes;
      if |toCheck| == 0 {
        return true, false;
      }
      hide PoolPanics, ShelfAfter;
      var outputs: seq<array<byte>> := [];
      for i := 0 to |toCheck|
        invariant pool.shelf == old(pool.shelf)
        invariant |outputs| == i && fresh(outputs) && (forall k :: 0 <= k < i ==> outputs[k].Length == byteCount)
        invariant forall k, l :: 0 <= k < l < i ==> outputs[k] != outputs[l]
      {
        var row := new byte[byteCount];
        outputs := outputs + [row];
      }
      panics := CodeSomeShards(rows, inputs, outputs, byteCount, o, pool);
      if panics {
        return false, true;
      }
      for i := 0 to |outputs|
        invariant pool.shelf == ShelfAfter(old(pool.shelf), o, byteCount, |inputs|, |toCheck|)
        invariant forall k :: 0 <= k < i ==> toCheck[k][..] == Comb(rows[k], Contents(inputs), byteCount)
      {
        if outputs[i][..] != toCheck[i][..] {
          return false, false;
        }
      }
      return true, false;
    }

    // ---- Reconstruct ----

    // How many of the first k shards are present.
    static function Present(lens: seq<nat>, k: nat): (n: nat)
      requires k <= |lens|
      ensures n <= k
    {
      if k == 0 then 0 else Present(lens, k - 1) + (if lens[k - 1] != 0 then 1 else 0)
    }

    // The first dataShards present rows, the missing ones before the last of them, and the shards.
    method ChooseRows(shards: array<Shard>) returns (valid: seq<nat>, invalid: seq<nat>, sub: seq<array<byte>>)
      requires shards.Length == this.shards && Present(Lens(shards[..]), shards.Length) >= dataShards > 0
      ensures |valid| == |sub| == dataShards && Divided(valid, invalid, this.shards)
      ensures |valid| + |invalid| <= shards.Length && Present(Lens(shards[..]), |valid| + |invalid|) == dataShards
      ensures forall j :: 0 <= j < dataShards ==>
        valid[j] < shards.Length && shards[valid[j]] == sub[j] && sub[j].Length > 0
      ensures forall r :: r in invalid ==> Len(shards[r]) == 0
    {
      hide Divided;
      valid, invalid, sub := [], [], [];
      assert Divided([], [], this.shards) by { NothingDivided(this.shards); }
      var matrixRow := 0;
      while matrixRow < this.shards && |valid| < dataShards
        invariant matrixRow <= this.shards && |valid| + |invalid| == matrixRow && |sub| == |valid| <= dataShards
        invariant |valid| == Present(Lens(shards[..]), matrixRow)
        invariant Divided(valid, invalid, this.shards)
        invariant forall j :: 0 <= j < |valid| ==>
          valid[j] < matrixRow && shards[valid[j]] == sub[j] && sub[j].Length > 0
        invariant forall r :: r in invalid ==> r < matrixRow && Len(shards[r]) == 0
      {
        DivideNext(valid, invalid, matrixRow, this.shards);
        if Len(shards[matrixRow]) != 0 {
          sub := sub + [shards[matrixRow]];
          valid := valid + [matrixRow];
        } else {
          invalid := invalid + [matrixRow];
        }
        matrixRow := matrixRow + 1;
      }
    }

    lemma ChosenIsChoice(valid: seq<nat>, invalid: seq<nat>)
      requires Divided(valid, invalid, shards) && |valid| == dataShards
      ensures Choice(valid, dataShards, shards)
    {}

    // Copies the chosen rows of the encoding matrix, one cell at a time.
    method SubMatrixOf(valid: seq<nat>) returns (r: Mat)
      requires IsMat(m, shards, dataShards) && forall j :: 0 <= j < |valid| ==> valid[j] < shards
      ensures r == Select(m, valid)
    {
      r := [];
      for k := 0 to |valid|
        invariant |r| == k && forall j :: 0 <= j < k ==> r[j] == m[valid[j]]
      {
        var row := new byte[dataShards];
        for c := 0 to dataShards
          invariant forall i :: 0 <= i < c ==> row[i] == m[valid[k]][i]
        {
          row[c] := m[valid[k]][c];
        }
        assert row[..] == m[valid[k]];
        r := r + [row[..]];
      }
    }

    /** The inverse of the chosen rows, from the cache or computed and cached.  Never an error. */
    method DecodeMatrix(valid: seq<nat>, invalid: seq<nat>) returns (r: Result<Mat>)
      requires Valid() && parityShards > 0 && Divided(valid, invalid, shards) && |valid| == dataShards
      modifies if tree == null then {} else tree.root.Repr
      ensures Valid() && (tree != null ==> fresh(Repr() - old(Repr()))) && pool.shelf == old(pool.shelf)
      ensures r.Ok? && (forall j :: 0 <= j < |valid| ==> valid[j] < |m|) &&
        IsInverse(Select(m, valid), r.value, dataShards)
    {
      hide Comb, Recoverable, IsInverse, Kills, NonZero, Stocked;
      RecoverableShape();
      ChosenIsChoice(valid, invalid);
      if tree != null {
        var cached := tree.GetInvertedMatrix(invalid);
        if cached.Some? {
          return Ok(cached.value);
        }
      }
      var subMatrix := SubMatrixOf(valid);
      r := InvertChoice(subMatrix, m, dataShards, shards, valid);
      if tree != null {
        InverseIsMat(Select(m, valid), r.value, dataShards);
        ghost var before := tree.Cached();
        var err := tree.InsertInvertedMatrix(invalid, r.value, shards);
        CacheInsert(before, m, dataShards, shards, valid, invalid, r.value);
        match err {
          case Some(e) => return Err(e);
          case None =>
        }
      }
    }

    static lemma InverseIsMat(A: Mat, B: Mat, n: nat)
      requires IsInverse(A, B, n)
      ensures IsMat(B, n, n)
    {}

    method AllocateOne(shards: array<Shard>, i: nat, size: nat) returns (buffer: array<byte>)
      requires Apart(shards) && i < shards.Length
      modifies shards
      ensures Apart(shards) && shards[i] == buffer && fresh(buffer) && buffer.Length == size
      ensures forall k :: 0 <= k < shards.Length && k != i ==> shards[k] == old(shards[k])
    {
      buffer := new byte[size];
      shards[i] := buffer;
    }

    // Allocates every missing shard among rows lo..hi and pairs it with its coding row.
    method Allocate(shards: array<Shard>, lo: nat, hi: nat, rowOf: seq<Vec>, size: nat)
      returns (outputs: seq<array<byte>>, rows: seq<Vec>, ghost at: seq<nat>)
      requires Apart(shards) && lo <= hi <= shards.Length && |rowOf| == hi - lo
      modifies shards
      ensures Apart(shards) && |outputs| == |rows| == |at|
      ensures forall k :: 0 <= k < |at| ==>
        lo <= at[k] < hi && outputs[k] == shards[at[k]] && rows[k] == rowOf[at[k] - lo]
      ensures forall k :: 0 <= k < |at| ==> fresh(outputs[k]) && outputs[k].Length == size
      ensures forall k, l :: 0 <= k < l < |at| ==> outputs[k] != outputs[l]
      ensures forall i :: 0 <= i < shards.Length && !(lo <= i < hi && old(Len(shards[i])) == 0) ==>
        shards[i] == old(shards[i])
      ensures forall i :: lo <= i < hi && old(Len(shards[i])) == 0 ==> i in at
      ensures forall i :: i in at ==> old(Len(shards[i])) == 0
      ensures forall k, l :: 0 <= k < l < |at| ==> at[k] < at[l]
    {
      outputs, rows, at := [], [], [];
      for iShard := lo to hi
        invariant Apart(shards) && |outputs| == |rows| == |at|
        invariant forall k :: 0 <= k < |at| ==>
          lo <= at[k] < iShard && outputs[k] == shards[at[k]] && rows[k] == rowOf[at[k] - lo]
        invariant forall k :: 0 <= k < |at| ==> fresh(outputs[k]) && outputs[k].Length == size
        invariant forall i :: 0 <= i < shards.Length && !(lo <= i < iShard && old(Len(shards[i])) == 0) ==>
          shards[i] == old(shards[i])
        invariant forall i :: lo <= i < iShard && old(Len(shards[i])) == 0 ==> i in at
        invariant forall i :: i in at ==> old(Len(shards[i])) == 0
        invariant forall k, l :: 0 <= k < l < |at| ==> at[k] < at[l]
      {
        assert iShard !in at;
        if Len(shards[iShard]) == 0 {
          var buffer := AllocateOne(shards, iShard, size);
          outputs := outputs + [buffer];
          rows := rows + [rowOf[iShard - lo]];
          at := at + [iShard];
        }
      }
      forall k, l | 0 <= k < l < |at|
        ensures outputs[k] != outputs[l]
      {
        assert at[k] < at[l];
      }
    }

    // An increasing list of exactly the missing rows lo..hi.
    static lemma {:induction false} CountMissing(lens: seq<nat>, lo: nat, hi: nat, at: seq<nat>)
      requires lo <= hi <= |lens| && (forall k, l :: 0 <= k < l < |at| ==> at[k] < at[l])
      requires forall i :: i in at <==> lo <= i < hi && lens[i] == 0
      ensures |at| + Present(lens, hi) == hi - lo + Present(lens, lo)
      decreases hi
    {
      assert |at| > 0 ==> at[0] in at;
      if lo == hi {
      } else if lens[hi - 1] == 0 {
        assert hi - 1 in at;
        var last := |at| - 1;
        assert at[last] in at;
        assert forall i :: i in at[..last] <==> i in at && i != at[last];
        CountMissing(lens, lo, hi - 1, at[..last]);
      } else {
        CountMissing(lens, lo, hi - 1, at);
      }
    }

    static lemma LensAt(shards: seq<Shard>)
      ensures forall i :: 0 <= i < |shards| ==> Lens(shards)[i] == Len(shards[i])
    {}

    // Re-creates the missing data shards from the chosen ones.
    method FillData(shards: array<Shard>, inv: Mat, sub: seq<array<byte>>, size: nat) returns (panics: bool)
      requires Apart(shards) && dataShards <= shards.Length && Tuned(o) && dataShards > 0 && pool.shelf.Sound()
      requires IsMat(inv, dataShards, dataShards) && |sub| == dataShards &&
        forall j :: 0 <= j < dataShards ==> sub[j].Length == size
      modifies shards, pool
      ensures Apart(shards)
      ensures panics <==> PoolPanics(old(pool.shelf), o, size, dataShards, MissingData(old(Lens(shards[..]))))
      ensures pool.shelf == ShelfAfter(old(pool.shelf), o, size, dataShards, MissingData(old(Lens(shards[..]))))
      ensures forall i :: 0 <= i < shards.Length && !(i < dataShards && old(Len(shards[i])) == 0) ==>
        shards[i] == old(shards[i])
      ensures forall i :: 0 <= i < shards.Length ==> shards[i] == old(shards[i]) || fresh(shards[i])
      ensures !panics ==> forall i :: 0 <= i < dataShards && old(Len(shards[i])) == 0 ==>
        fresh(shards[i]) && Bytes(shards[i]) == Comb(inv[i], Contents(sub), size)
    {
      hide Comb, PoolPanics, ShelfAfter, TableBytes, Present;
      LensAt(shards[..]);
      var outputs, rows, at := Allocate(shards, 0, dataShards, inv, size);
      CountMissing(old(Lens(shards[..])), 0, dataShards, at);
      NonePresent(old(Lens(shards[..])));
      ghost var data := Contents(sub);
      panics := CodeSomeShards(rows, sub, outputs, size, o, pool);
      if panics {
        return;
      }
      forall i | 0 <= i < dataShards && old(Len(shards[i])) == 0
        ensures fresh(shards[i]) && Bytes(shards[i]) == Comb(inv[i], data, size)
      {
        var k :| 0 <= k < |at| && at[k] == i;
        assert outputs[k] == shards[i] && rows[k] == inv[i];
      }
      assert data == Contents(sub);
    }

    // Re-creates the missing parity shards from all the data shards.
    method FillParity(shards: array<Shard>, size: nat) returns (panics: bool)
      requires Apart(shards) && shards.Length == this.shards == dataShards + parityShards && Tuned(o) &&
        dataShards > 0 && pool.shelf.Sound()
      requires IsMat(m, this.shards, dataShards) &&
        forall j :: 0 <= j < dataShards ==> shards[j] != null && shards[j].Length == size
      modifies shards, pool
      ensures Apart(shards)
      ensures panics <==> PoolPanics(old(pool.shelf), o, size, dataShards, MissingParity(old(Lens(shards[..]))))
      ensures pool.shelf == ShelfAfter(old(pool.shelf), o, size, dataShards, MissingParity(old(Lens(shards[..]))))
      ensures forall i :: 0 <= i < shards.Length && (i < dataShards || old(Len(shards[i])) != 0) ==>
        shards[i] == old(shards[i])
      ensures forall i :: 0 <= i < shards.Length ==> shards[i] == old(shards[i]) || fresh(shards[i])
      ensures !panics ==> forall i :: dataShards <= i < shards.Length && old(Len(shards[i])) == 0 ==>
        fresh(shards[i]) && Len(shards[i]) == size &&
        Bytes(shards[i]) == Comb(m[i], old(Values(shards))[..dataShards], size)
    {
      hide Comb, PoolPanics, ShelfAfter, TableBytes, Present;
      var inputs := Collect(shards, 0, dataShards);
      ghost var data := Contents(inputs);
      assert data == Values(shards)[..dataShards];
      LensAt(shards[..]);
      var outputs, rows, at := Allocate(shards, dataShards, this.shards, Parity(), size);
      CountMissing(old(Lens(shards[..])), dataShards, this.shards, at);
      panics := CodeSomeShards(rows, inputs, outputs, size, o, pool);
      if panics {
        return;
      }
      forall i | dataShards <= i < shards.Length && old(Len(shards[i])) == 0
        ensures fresh(shards[i]) && Len(shards[i]) == size && Bytes(shards[i]) == Comb(m[i], data, size)
      {
        var k :| 0 <= k < |at| && at[k] == i;
        assert outputs[k] == shards[i] && rows[k] == m[i];
      }
      assert data == old(Values(shards))[..dataShards];
    }

    // How many data shards, and how many parity shards, are missing.
    ghost function MissingData(lens: seq<nat>): nat
      requires dataShards <= |lens|
    {
      dataShards - Present(lens, dataShards)
    }

    ghost function MissingParity(lens: seq<nat>): nat
      requires |lens| == shards == dataShards + parityShards
    {
      PresentSpan(lens, dataShards, shards);
      parityShards + Present(lens, dataShards) - Present(lens, shards)
    }

    static lemma {:induction false} PresentSpan(lens: seq<nat>, j: nat, k: nat)
      requires j <= k <= |lens|
      ensures Present(lens, j) <= Present(lens, k) <= Present(lens, j) + k - j
      decreases k
    {
      if j < k {
        PresentSpan(lens, j, k - 1);
      }
    }

    static lemma NonePresent(lens: seq<nat>)
      ensures Present(lens, 0) == 0
    {}

    lemma NoCalls(s: Shelf)
      ensures Run(s, o, dataShards, []) == Some(s)
    {}

    lemma FirstCall(s: Shelf, c: Call, more: seq<Call>)
      ensures Run(s, o, dataShards, [c] + more) ==
        if PoolPanics(s, o, c.byteCount, dataShards, c.outputs) then None
        else Run(ShelfAfter(s, o, c.byteCount, dataShards, c.outputs), o, dataShards, more)
    {
      hide PoolPanics, ShelfAfter;
      assert ([c] + more)[1..] == more;
    }

    static lemma {:induction false} SamePresent(before: seq<nat>, after: seq<nat>, j: nat, k: nat)
      requires j <= k <= |before| == |after| && forall i :: j <= i < k ==> before[i] == after[i]
      ensures Present(before, k) - Present(before, j) == Present(after, k) - Present(after, j)
      decreases k
    {
      if j < k {
        SamePresent(before, after, j, k - 1);
      }
    }

    // The coding calls of reconstruct, in order.
    ghost function Calls(lens: seq<nat>, dataOnly: bool): seq<Call>
      requires dataShards + parityShards == shards
    {
      if Verdict(lens, dataOnly) != None || Nothing(lens, dataOnly) then []
        else RebuildCalls(lens, dataOnly, SizeOf(lens))
    }

    ghost function RebuildCalls(lens: seq<nat>, dataOnly: bool, size: nat): seq<Call>
      requires |lens| == shards == dataShards + parityShards
    {
      [Call(size, MissingData(lens))] + if dataOnly then [] else [Call(size, MissingParity(lens))]
    }

    // What reconstruct answers; its checks look at the lengths alone.
    function Verdict(lens: seq<nat>, dataOnly: bool): Option<Error> {
      if |lens| != shards then Some(TooFewShards)
      else if Check(lens, true) != None then Check(lens, true)
      else if Nothing(lens, dataOnly) then None
      else if Present(lens, |lens|) < dataShards then Some(TooFewShards)
      else None
    }

    static lemma {:induction false} PresentCounts(lens: seq<nat>, k: nat)
      requires k <= |lens|
      ensures Present(lens, k) == |set i | 0 <= i < k && lens[i] != 0|
    {
      if k > 0 {
        PresentCounts(lens, k - 1);
        var before, after := set i | 0 <= i < k - 1 && lens[i] != 0, set i | 0 <= i < k && lens[i] != 0;
        assert after == before + if lens[k - 1] != 0 then {k - 1} else {};
      }
    }

    // There must be as many shards as the encoder has, all that are given of one size, and enough of them.
    lemma VerdictMeans(lens: seq<nat>, dataOnly: bool)
      requires 0 < dataShards <= shards
      ensures var given := set i | 0 <= i < |lens| && lens[i] != 0;
        var alike := given != {} && forall i, k :: i in given && k in given ==> lens[i] == lens[k];
        && (Verdict(lens, dataOnly) == None <==> |lens| == shards && alike && |given| >= dataShards)
        && (Verdict(lens, dataOnly) == Some(TooFewShards) <==> |lens| != shards || (alike && |given| < dataShards))
        && (Verdict(lens, dataOnly) == Some(ShardNoData) <==> |lens| == shards && given == {})
        && (Verdict(lens, dataOnly) == Some(ShardSize) <==> |lens| == shards && given != {} && !alike)
    {
      hide Check;
      CheckMeans(lens, true);
      PresentCounts(lens, |lens|);
      var given := set i | 0 <= i < |lens| && lens[i] != 0;
      assert forall i :: 0 <= i < |lens| ==> (i in given <==> lens[i] != 0);
      if |lens| == shards {
        PresentSpan(lens, dataShards, |lens|);
      }
    }

    // Nothing to do: all shards, or all that were asked for, are present.
    predicate Nothing(lens: seq<nat>, dataOnly: bool) {
      Present(lens, |lens|) == shards || (dataOnly && dataShards <= |lens| && Present(lens, dataShards) == dataShards)
    }

    static lemma {:induction false} AllPresent(lens: seq<nat>, k: nat)
      requires k <= |lens| && Present(lens, k) == k
      ensures forall i :: 0 <= i < k ==> lens[i] != 0
    {
      if k > 0 {
        AllPresent(lens, k - 1);
      }
    }

    // The data rows after filling are the decoded data.
    lemma FilledData(before: Mat, after: Mat, valid: seq<nat>, invalid: seq<nat>, inv: Mat, w: nat)
      requires parityShards > 0 && Recoverable(m, dataShards, shards) && Divided(valid, invalid, shards) &&
        |valid| == dataShards
      requires w > 0 && |before| == |after| == shards
      requires (forall j :: 0 <= j < dataShards ==> valid[j] < shards && |before[valid[j]]| == w) &&
        forall r :: r in invalid ==> |before[r]| == 0
      requires IsInverse(Select(m, valid), inv, dataShards)
      requires forall i :: 0 <= i < dataShards && |before[i]| == 0 ==>
        after[i] == Comb(inv[i], Select(before, valid), w)
      requires forall i :: 0 <= i < dataShards && |before[i]| != 0 ==> after[i] == before[i]
      ensures after[..dataShards] == MatMul(inv, Select(before, valid), w)
    {
      hide Comb, NoKernel;
      var chosen := Select(before, valid);
      var D := MatMul(inv, chosen, w);
      DecodeUnique(m, valid, inv, dataShards, D, chosen, w);
      forall i | 0 <= i < dataShards
        ensures after[i] == D[i]
      {
        if |before[i]| != 0 {
          assert i in valid;
          var j :| 0 <= j < dataShards && valid[j] == i;
          assert chosen[j] == MatMul(Select(m, valid), D, w)[j];
          CombUnit(dataShards, i, D, w);
        }
      }
    }

    // ---- the encoding that the present shards decide ----

    static function Lengths(values: Mat): (r: seq<nat>)
      ensures |r| == |values| && forall i :: 0 <= i < |r| ==> r[i] == |values[i]|
    {
      seq(|values|, i requires 0 <= i < |values| => |values[i]|)
    }

    // V has the first dataShards shards that are present in `values`.
    ghost predicate Leads(V: Mat, values: Mat) {
      && |V| == |values|
      && forall i :: 0 <= i < |values| && |values[i]| != 0 && Present(Lengths(values), i) < dataShards ==>
           V[i] == values[i]
    }

    // What was missing among the first `wanted` shards is now as in the encoding V.
    ghost predicate Filled(V: Mat, before: Mat, after: Mat, wanted: nat) {
      |V| == |before| == |after| && forall i :: 0 <= i < wanted && i < |V| && |before[i]| == 0 ==> after[i] == V[i]
    }

    // The first n present rows among the first k.
    static function Chosen(lens: seq<nat>, k: nat, n: nat): (r: seq<nat>)
      requires k <= |lens|
      ensures |r| == if Present(lens, k) < n then Present(lens, k) else n
      ensures forall j :: 0 <= j < |r| ==> r[j] < k && lens[r[j]] != 0 && Present(lens, r[j]) < n
      ensures forall i, j :: 0 <= i < j < |r| ==> r[i] < r[j]
    {
      if k == 0 then []
      else Chosen(lens, k - 1, n) + if lens[k - 1] != 0 && Present(lens, k - 1) < n then [k - 1] else []
    }

    /** No two encodings have the same first dataShards shards. */
    lemma OneEncoding(U: Mat, V: Mat, values: Mat, w: nat)
      requires Recoverable(m, dataShards, shards) && |values| == shards &&
        Present(Lengths(values), shards) >= dataShards
      requires Codeword(m, dataShards, U, w) && Codeword(m, dataShards, V, w) && Leads(U, values) && Leads(V, values)
      ensures U == V
    {
      hide Recoverable, Codeword;
      var valid := Chosen(Lengths(values), shards, dataShards);
      AgreeingCodewords(m, dataShards, shards, valid, U, V, w);
    }

    /** So two runs on the same present shards rebuild the same, whatever each found in its cache. */
    lemma SameRebuilt(U: Mat, V: Mat, before: Mat, after: Mat, after': Mat, w: nat, wanted: nat)
      requires Recoverable(m, dataShards, shards) && |before| == shards &&
        Present(Lengths(before), shards) >= dataShards
      requires Codeword(m, dataShards, U, w) && Leads(U, before) && Filled(U, before, after, wanted)
      requires Codeword(m, dataShards, V, w) && Leads(V, before) && Filled(V, before, after', wanted)
      ensures forall i :: 0 <= i < wanted && i < shards && |before[i]| == 0 ==> after[i] == after'[i]
    {
      hide Recoverable, Codeword, Leads;
      OneEncoding(U, V, before, w);
    }

    // The rows that were chosen are the first dataShards present ones.
    lemma ChosenLead(before: Mat, valid: seq<nat>, invalid: seq<nat>, i: nat)
      requires Divided(valid, invalid, shards) && |before| == shards && |valid| == dataShards && i < shards
      requires forall r :: r in invalid ==> r < shards && |before[r]| == 0
      requires |valid| + |invalid| <= shards && Present(Lengths(before), |valid| + |invalid|) == dataShards
      requires |before[i]| != 0 && Present(Lengths(before), i) < dataShards
      ensures i in valid
    {
      hide Divided, Present, Lengths;
      if i < |valid| + |invalid| {
        ValidOrNot(valid, invalid, shards, i);
      }
      if i >= |valid| + |invalid| {
        PresentSpan(Lengths(before), |valid| + |invalid|, i);
      }
    }

    // Coding the decoded data gives an encoding with the chosen shards.
    lemma Decoded(before: Mat, D: Mat, valid: seq<nat>, invalid: seq<nat>, inv: Mat, w: nat) returns (V: Mat)
      requires 0 < parityShards && shards == dataShards + parityShards && Recoverable(m, dataShards, shards)
      requires Divided(valid, invalid, shards) && |before| == shards && |valid| == dataShards
      requires (forall j :: 0 <= j < dataShards ==> valid[j] < shards && |before[valid[j]]| == w)
      requires forall r :: r in invalid ==> r < shards && |before[r]| == 0
      requires |valid| + |invalid| <= shards && Present(Lengths(before), |valid| + |invalid|) == dataShards
      requires IsInverse(Select(m, valid), inv, dataShards) && D == MatMul(inv, Select(before, valid), w)
      ensures Codeword(m, dataShards, V, w) && |V| == shards && Leads(V, before) && V[..dataShards] == D
    {
      hide Comb, NoKernel, Divided, Present;
      DecodeUnique(m, valid, inv, dataShards, D, Select(before, valid), w);
      V := MatMul(m, D, w);
      forall i | 0 <= i < dataShards
        ensures V[i] == D[i]
      {
        CombUnit(dataShards, i, D, w);
      }
      assert V[..dataShards] == D;
      forall i | 0 <= i < shards && |before[i]| != 0 && Present(Lengths(before), i) < dataShards
        ensures V[i] == before[i]
      {
        ChosenLead(before, valid, invalid, i);
        var j :| 0 <= j < |valid| && valid[j] == i;
        assert Select(before, valid)[j] == MatMul(Select(m, valid), D, w)[j];
      }
    }

    // An encoding that has all the present shards is the one; then nothing differs from it.
    lemma FilledAgrees(U: Mat, V: Mat, before: Mat, after: Mat, w: nat, wanted: nat)
      requires Recoverable(m, dataShards, shards) && |before| == |after| == shards &&
        Present(Lengths(before), shards) >= dataShards
      requires Codeword(m, dataShards, U, w) && Leads(U, before) && Filled(U, before, after, wanted)
      requires Codeword(m, dataShards, V, w) && Agrees(V, before)
      requires forall i :: 0 <= i < shards && |before[i]| != 0 ==> after[i] == before[i]
      ensures forall i :: 0 <= i < wanted && i < shards ==> after[i] == V[i]
    {
      hide Recoverable, Codeword;
      OneEncoding(U, V, before, w);
    }

    method CountPresent(shards: array<Shard>) returns (numberPresent: nat, dataPresent: nat)
      requires shards.Length == this.shards && dataShards <= this.shards
      ensures numberPresent == Present(Lens(shards[..]), shards.Length) &&
        dataPresent == Present(Lens(shards[..]), dataShards)
    {
      numberPresent, dataPresent := 0, 0;
      for i := 0 to this.shards
        invariant numberPresent == Present(Lens(shards[..]), i)
        invariant dataPresent == Present(Lens(shards[..]), if i < dataShards then i else dataShards)
      {
        if Len(shards[i]) != 0 {
          numberPresent := numberPresent + 1;
          if i < dataShards {
            dataPresent := dataPresent + 1;
          }
        }
      }
    }

    // How far the caller asked for shards to be rebuilt.
    function Wanted(dataOnly: bool): nat { if dataOnly then dataShards else shards }

    // The encoding V agrees with every shard that is present in `values`.
    static ghost predicate Agrees(V: Mat, values: Mat) {
      |V| == |values| && forall i :: 0 <= i < |values| && |values[i]| != 0 ==> V[i] == values[i]
    }

    // The checks before any work: an answer, or the shard size if there is something to rebuild.
    method CheckArguments(shards: array<Shard>, dataOnly: bool) returns (answer: Option<Option<Error>>, size: nat)
      requires Valid()
      ensures answer.Some? ==> answer.value == Verdict(Lens(shards[..]), dataOnly)
      ensures answer == Some(None) ==> Nothing(Lens(shards[..]), dataOnly)
      ensures answer == Some(None) ==>
        shards.Length == this.shards && forall i :: 0 <= i < Wanted(dataOnly) ==> Len(shards[i]) != 0
      ensures answer == None ==> !Nothing(Lens(shards[..]), dataOnly)
      ensures answer == None ==>
        Verdict(Lens(shards[..]), dataOnly) == None && shards.Length == this.shards && parityShards > 0
      ensures answer == None ==> Present(Lens(shards[..]), shards.Length) >= dataShards
      ensures answer == None || answer == Some(None) ==> size == SizeOf(Lens(shards[..])) > 0
      ensures answer == None || answer == Some(None) ==>
        forall i :: 0 <= i < shards.Length ==> Len(shards[i]) == size || Len(shards[i]) == 0
    {
      hide Recoverable, CacheOk;
      ghost var lens := Lens(shards[..]);
      size := 0;
      if shards.Length != this.shards {
        return Some(Some(TooFewShards)), 0;
      }
      var err := CheckShards(shards[..], true);
      if err != None {
        return Some(err), 0;
      }
      size := ShardSizeOf(shards[..]);
      CheckPassed(lens, true);
      assert forall i :: 0 <= i < shards.Length ==> lens[i] == Len(shards[i]);
      var numberPresent, dataPresent := CountPresent(shards);
      if numberPresent == this.shards || (dataOnly && dataPresent == dataShards) {
        AllPresent(lens, if numberPresent == this.shards then this.shards else dataShards);
        return Some(None), size;
      }
      if numberPresent < dataShards {
        return Some(Some(TooFewShards)), size;
      }
      return None, size;
    }

    // What reconstruct answers, from the lengths and the state of the pool.
    ghost function Answer(lens: seq<nat>, dataOnly: bool): Option<Error>
      requires dataShards + parityShards == shards
      reads pool
    {
      if Verdict(lens, dataOnly) != None then Verdict(lens, dataOnly)
      else if Run(pool.shelf, o, dataShards, Calls(lens, dataOnly)) == None then Some(Panicked)
      else None
    }

    lemma NoSuchVerdict(lens: seq<nat>, dataOnly: bool)
      ensures Verdict(lens, dataOnly) != Some(Panicked)
    {
      CheckErrors(lens, true);
    }

    lemma AnswerIs(lens: seq<nat>, dataOnly: bool)
      requires Valid()
      ensures Answer(lens, dataOnly) == Verdict(lens, dataOnly) ||
        (Breaks(Answer(lens, dataOnly)) && Verdict(lens, dataOnly) == None)
    {
      hide Verdict, Calls, Run, Stocked, Recoverable, CacheOk, Fragile;
      FewOutputs(lens, dataOnly);
      RunsOn(Calls(lens, dataOnly));
    }

    // Calls with no more outputs than there is parity break nothing but a breakable encoder.
    lemma RunsOn(calls: seq<Call>)
      requires Valid() && forall c :: c in calls ==> c.outputs <= parityShards
      ensures Run(pool.shelf, o, dataShards, calls) == None ==> Breakable()
    {
      hide Stocked;
      if !Breakable() {
        NoRunPanics(pool.shelf, o, dataShards, parityShards, calls);
      }
    }

    lemma FewOutputs(lens: seq<nat>, dataOnly: bool)
      requires 0 < dataShards && dataShards + parityShards == shards
      ensures forall c :: c in Calls(lens, dataOnly) ==> c.outputs <= parityShards
    {
      if Verdict(lens, dataOnly) == None {
        PresentSpan(lens, dataShards, shards);
      }
    }

    /** reconstruct: the answer depends on the lengths alone, up to a panic of a breakable encoder, and is
        never the singular error.  Every missing shard asked for becomes that of the one encoding with the
        first dataShards present shards; if all the present shards belong to an encoding, every shard is as
        in that one. */
    method Reconstruct(shards: array<Shard>, dataOnly: bool) returns (err: Option<Error>, ghost V: Mat)
      requires Valid() && Apart(shards) && Outside(shards)
      modifies shards, pool, if tree == null then {} else tree.root.Repr
      ensures Valid() && Apart(shards) && Outside(shards) && fresh(Repr() - old(Repr()))
      ensures err == old(Answer(Lens(shards[..]), dataOnly)) && (err == Some(Panicked) ==> Breakable())
      ensures err == None ==> Some(pool.shelf) == old(Run(pool.shelf, o, dataShards, Calls(Lens(shards[..]), dataOnly)))
      ensures err != None && err != Some(Panicked) ==> shards[..] == old(shards[..])
      ensures forall i :: 0 <= i < shards.Length && old(Len(shards[i])) != 0 ==> shards[i] == old(shards[i])
      ensures forall i :: 0 <= i < shards.Length ==> shards[i] == old(shards[i]) || fresh(shards[i])
      ensures err == None ==> shards.Length == this.shards
      ensures err == None ==> forall i :: 0 <= i < Wanted(dataOnly) ==> Len(shards[i]) == old(SizeOf(Lens(shards[..])))
      ensures err == None && !old(Nothing(Lens(shards[..]), dataOnly)) ==>
        Codeword(m, dataShards, V, old(SizeOf(Lens(shards[..])))) && Leads(V, old(Values(shards))) &&
        Filled(V, old(Values(shards)), Values(shards), Wanted(dataOnly))
      ensures err == None && parityShards > 0 ==>
        forall V: Mat :: Codeword(m, dataShards, V, old(SizeOf(Lens(shards[..])))) && Agrees(V, old(Values(shards))) ==>
          forall i :: 0 <= i < Wanted(dataOnly) ==> Bytes(shards[i]) == V[i]
    {
      hide Comb, Recoverable, CacheOk, IsInverse, Verdict, Divided, Present, Codeword, Leads, Nothing, Filled, Stocked,
        Run, Fragile;
      ghost var lens := Lens(shards[..]);
      V := [];
      FewOutputs(lens, dataOnly);
      RunsOn(Calls(lens, dataOnly));
      NoSuchVerdict(lens, dataOnly);
      NoCalls(pool.shelf);
      var answer, size := CheckArguments(shards, dataOnly);
      if answer.Some? {
        assert answer == Some(None) ==> forall i :: 0 <= i < Wanted(dataOnly) ==> Bytes(shards[i]) == Values(shards)[i];
        return answer.value, V;
      }
      err, V := RebuildMissing(shards, dataOnly, size);
    }

    // Some shard is missing and enough are there.
    method RebuildMissing(shards: array<Shard>, dataOnly: bool, size: nat) returns (err: Option<Error>, ghost V: Mat)
      requires Valid() && Apart(shards) && Outside(shards) && shards.Length == this.shards && parityShards > 0 &&
        size > 0
      requires forall i :: 0 <= i < shards.Length ==> Len(shards[i]) == size || Len(shards[i]) == 0
      requires Present(Lens(shards[..]), shards.Length) >= dataShards
      modifies shards, pool, if tree == null then {} else tree.root.Repr
      ensures Valid() && Apart(shards) && Outside(shards) && fresh(Repr() - old(Repr()))
      ensures err in {None, Some(Panicked)}
      ensures err == None <==>
        old(Run(pool.shelf, o, dataShards, RebuildCalls(Lens(shards[..]), dataOnly, size))).Some?
      ensures err == None ==>
        Some(pool.shelf) == old(Run(pool.shelf, o, dataShards, RebuildCalls(Lens(shards[..]), dataOnly, size)))
      ensures forall i :: 0 <= i < shards.Length && old(Len(shards[i])) != 0 ==> shards[i] == old(shards[i])
      ensures forall i :: 0 <= i < shards.Length ==> shards[i] == old(shards[i]) || fresh(shards[i])
      ensures err == None ==> forall i :: 0 <= i < Wanted(dataOnly) ==> Len(shards[i]) == size
      ensures err == None ==>
        Codeword(m, dataShards, V, size) && Leads(V, old(Values(shards))) &&
        Filled(V, old(Values(shards)), Values(shards), Wanted(dataOnly))
      ensures err == None ==> forall V: Mat :: Codeword(m, dataShards, V, size) && Agrees(V, old(Values(shards))) ==>
        forall i :: 0 <= i < Wanted(dataOnly) ==> Bytes(shards[i]) == V[i]
    {
      hide Comb, Recoverable, CacheOk, IsInverse, Divided, Present, Codeword, Leads, Filled, Agrees, Stocked, Run,
        RebuildCalls;
      StockedSound(pool.shelf, dataShards, parityShards);
      V := [];
      var valid, invalid, sub := ChooseRows(shards);
      var decode := DecodeMatrix(valid, invalid);
      match decode {
        case Err(e) => return Some(e), V;
        case Ok(inv) =>
          var panics;
          panics, V := Rebuild(shards, dataOnly, valid, invalid, sub, inv, size);
          return if panics then Some(Panicked) else None, V;
      }
    }

    // The pool of an encoder that has coded nothing yet.
    ghost predicate Unused()
      reads pool
    {
      pool.shelf == Shelf(TableBytes(dataShards, parityShards), Eager(), 0, [])
    }

    /** Every breakable encoder can panic: repair ten parity shards, then encode. */
    lemma RepairThenEncode(lens: seq<nat>, w: nat)
      requires Valid() && Unused() && Breakable() && |lens| == shards && 256 <= w < PLAN_LIMIT && w > o.minSplitSize
      requires forall i :: 0 <= i < shards ==> lens[i] == if dataShards <= i < dataShards + 10 then 0 else w
      ensures Run(pool.shelf, o, dataShards, Calls(lens, false) + [Call(w, parityShards)]) == None
    {
      hide Stocked, Recoverable, CacheOk, RouteOf;
      TenMissing(lens, w);
      TwoCallsPanic(o, dataShards, parityShards, w, parityShards);
      NothingToCode(pool.shelf, w);
      assert Calls(lens, false) + [Call(w, parityShards)] == [Call(w, 0)] + [Call(w, 10), Call(w, parityShards)];
      FirstCall(pool.shelf, Call(w, 0), [Call(w, 10), Call(w, parityShards)]);
    }

    lemma NothingToCode(s: Shelf, w: nat)
      ensures !PoolPanics(s, o, w, dataShards, 0) && ShelfAfter(s, o, w, dataShards, 0) == s
    {}

    lemma TenMissing(lens: seq<nat>, w: nat)
      requires 0 < dataShards && 10 < parityShards && |lens| == shards == dataShards + parityShards && w > 0
      requires forall i :: 0 <= i < shards ==> lens[i] == if dataShards <= i < dataShards + 10 then 0 else w
      ensures Calls(lens, false) == [Call(w, 0), Call(w, 10)]
    {
      PresentIn(lens, 0, dataShards, true);
      PresentIn(lens, dataShards, dataShards + 10, false);
      PresentIn(lens, dataShards + 10, shards, true);
      NonePresent(lens);
      SizeOfRest(lens, w);
    }

    static lemma {:induction false} PresentIn(lens: seq<nat>, j: nat, k: nat, there: bool)
      requires j <= k <= |lens| && forall i :: j <= i < k ==> (lens[i] != 0 <==> there)
      ensures Present(lens, k) == Present(lens, j) + if there then k - j else 0
      decreases k
    {
      if j < k {
        PresentIn(lens, j, k - 1, there);
      }
    }

    /** One repair can be enough: of 3 data and 20 parity shards of 4096 bytes, data shard 0 and fifteen parity
        shards are lost. */
    lemma RepairCanPanic(lens: seq<nat>)
      requires dataShards == 3 && parityShards == 20 && shards == 23 && o.useAVX2 && o.minSplitSize < 4096 && Unused()
      requires |lens| == 23 && forall i :: 0 <= i < 23 ==> lens[i] == if i == 0 || 8 <= i then 0 else 4096
      ensures Answer(lens, false) == Some(Panicked)
    {
      PresentIn(lens, 0, 1, false);
      PresentIn(lens, 1, 3, true);
      PresentIn(lens, 3, 8, true);
      PresentIn(lens, 8, 23, false);
      NonePresent(lens);
      assert lens[1] != 0;
      SizeOfRest(lens, 4096);
      assert Calls(lens, false) == [Call(4096, 1), Call(4096, 15)];
      FirstCall(pool.shelf, Call(4096, 1), [Call(4096, 15)]);
      OneCall(ShelfAfter(pool.shelf, o, 4096, 3, 1), Call(4096, 15));
      assert RouteOf(o, 4096, 3, 1) == OneBlock && RouteOf(o, 4096, 3, 15) == Route.Planned;
    }

    /** Whatever the data, and whichever shards are lost, as long as they are no more than the parity
        shards: after Encode and the loss, Reconstruct succeeds and every shard is back, unless a breakable
        encoder panics. */
    method EncodeLoseReconstruct(shards: array<Shard>, lost: set<nat>) returns (err: Option<Error>)
      requires Valid() && Apart(shards) && Outside(shards) && shards.Length == this.shards &&
        Check(Lens(shards[..]), false) == None
      requires |lost| <= parityShards && forall i :: i in lost ==> i < shards.Length
      modifies shards, pool, if tree == null then {} else tree.root.Repr
      modifies set i | dataShards <= i < shards.Length && shards[i] != null :: shards[i]
      ensures Valid() && (err == None || (err == Some(Panicked) && Breakable()))
      ensures err == None ==> forall i :: 0 <= i < dataShards ==> Bytes(shards[i]) == old(Bytes(shards[i]))
      ensures err == None && parityShards > 0 ==> Codeword(m, dataShards, Values(shards), old(SizeOf(Lens(shards[..]))))
    {
      hide Comb, Recoverable, CacheOk, Codeword, Leads, Filled, Check, SizeOf, Stocked, Run, Fragile;
      ghost var V, w;
      err, V, w := EncodeAndLose(shards, lost);
      if err != None {
        return;
      }
      AfterLoss(Lens(shards[..]), lost, w);
      assert Agrees(V, Values(shards));
      ghost var rebuilt;
      err, rebuilt := Reconstruct(shards, false);
      if err == None {
        assert forall i :: 0 <= i < shards.Length ==> Bytes(shards[i]) == V[i];
        assert Values(shards) == V;
      }
    }

    // What is left of the encoding V of shards of w bytes.
    method EncodeAndLose(shards: array<Shard>, lost: set<nat>) returns (err: Option<Error>, ghost V: Mat, ghost w: nat)
      requires Valid() && Apart(shards) && Outside(shards) && shards.Length == this.shards &&
        Check(Lens(shards[..]), false) == None
      modifies pool, shards, set i | dataShards <= i < shards.Length && shards[i] != null :: shards[i]
      ensures Valid() && Repr() == old(Repr()) && Apart(shards) && Outside(shards) && (err == None || Breaks(err))
      ensures |V| == shards.Length && w == old(SizeOf(Lens(shards[..]))) > 0 && forall i :: 0 <= i < |V| ==> |V[i]| == w
      ensures forall i :: 0 <= i < dataShards ==> V[i] == old(Bytes(shards[i]))
      ensures err != None ==> forall i :: 0 <= i < dataShards ==> Bytes(shards[i]) == V[i]
      ensures err == None && parityShards > 0 ==> Codeword(m, dataShards, V, w)
      ensures err == None ==> forall i :: 0 <= i < shards.Length ==> Bytes(shards[i]) == if i in lost then [] else V[i]
    {
      hide Comb, Recoverable, CacheOk, Codeword, Check, SizeOf, Stocked, Run, Fragile;
      w := SizeOf(Lens(shards[..]));
      AllOfSize(shards);
      err := Encode(shards);
      V := Values(shards);
      if err != None {
        return;
      }
      assert Lens(shards[..]) == old(Lens(shards[..]));
      Lose(shards, lost);
    }

    method Lose(shards: array<Shard>, lost: set<nat>)
      modifies shards
      ensures forall k :: 0 <= k < shards.Length ==> shards[k] == if k in lost then null else old(shards[k])
    {
      for i := 0 to shards.Length
        invariant forall k :: 0 <= k < shards.Length ==> shards[k] == if k < i && k in lost then null
          else old(shards[k])
      {
        if i in lost {
          shards[i] := null;
        }
      }
    }

    // No more than the parity is missing: enough for reconstruct.
    lemma AfterLoss(lens: seq<nat>, lost: set<nat>, w: nat)
      requires |lens| == shards == dataShards + parityShards && 0 < dataShards && 0 < w && |lost| <= parityShards
      requires forall i :: 0 <= i < |lens| ==> lens[i] == if i in lost then 0 else w
      ensures Verdict(lens, false) == None && SizeOf(lens) == w
    {
      StillPresent(lens, lost, |lens|);
      OneMoreLost(lost, |lens|);
      OnePresent(lens, |lens|);
      SizeOfRest(lens, w);
    }

    static ghost function LostBelow(lost: set<nat>, k: nat): set<nat> { set i | i in lost && i < k }

    static lemma OneMoreLost(lost: set<nat>, k: nat)
      requires k > 0
      ensures |LostBelow(lost, k)| == |LostBelow(lost, k - 1)| + if k - 1 in lost then 1 else 0
      ensures |LostBelow(lost, k)| <= |lost|
    {
      var small, large := LostBelow(lost, k - 1), LostBelow(lost, k);
      assert large == if k - 1 in lost then small + {k - 1} else small;
      assert lost == large + (lost - large) && |lost| == |large| + |lost - large|;
    }

    static lemma {:induction false} StillPresent(lens: seq<nat>, lost: set<nat>, k: nat)
      requires k <= |lens| && forall i :: 0 <= i < |lens| && i !in lost ==> lens[i] != 0
      ensures Present(lens, k) + |LostBelow(lost, k)| >= k
    {
      hide LostBelow;
      if k > 0 {
        StillPresent(lens, lost, k - 1);
        OneMoreLost(lost, k);
      }
    }

    static lemma {:induction false} OnePresent(lens: seq<nat>, k: nat)
      requires k <= |lens| && Present(lens, k) > 0
      ensures exists i :: 0 <= i < k && lens[i] != 0
    {
      if lens[k - 1] == 0 {
        OnePresent(lens, k - 1);
      }
    }

    static lemma SizeOfRest(lens: seq<nat>, w: nat)
      requires w > 0 && (forall i :: 0 <= i < |lens| ==> lens[i] == 0 || lens[i] == w) &&
        exists i :: 0 <= i < |lens| && lens[i] != 0
      ensures SizeOf(lens) == w && Check(lens, true) == None
    {
      SizeOfSome(lens, w);
    }

    // The data shards, decoded: V is the encoding with the chosen shards.
    method RebuildData(shards: array<Shard>, valid: seq<nat>, invalid: seq<nat>, sub: seq<array<byte>>, inv: Mat,
                       size: nat) returns (panics: bool, ghost V: Mat)
      requires Apart(shards) && shards.Length == this.shards == dataShards + parityShards && parityShards > 0 &&
        size > 0 && pool.shelf.Sound()
      requires Recoverable(m, dataShards, this.shards) && Tuned(o)
      requires forall i :: 0 <= i < shards.Length ==> Len(shards[i]) == size || Len(shards[i]) == 0
      requires Divided(valid, invalid, this.shards) && |valid| == |sub| == dataShards
      requires forall j :: 0 <= j < dataShards ==>
        valid[j] < shards.Length && shards[valid[j]] == sub[j] && sub[j].Length > 0
      requires forall r :: r in invalid ==> Len(shards[r]) == 0
      requires |valid| + |invalid| <= shards.Length && Present(Lens(shards[..]), |valid| + |invalid|) == dataShards
      requires IsInverse(Select(m, valid), inv, dataShards)
      modifies shards, pool
      ensures Apart(shards)
      ensures forall i :: 0 <= i < shards.Length && (dataShards <= i || old(Len(shards[i])) != 0) ==>
        shards[i] == old(shards[i])
      ensures forall i :: 0 <= i < shards.Length ==> shards[i] == old(shards[i]) || fresh(shards[i])
      ensures panics <==> old(PoolPanics(pool.shelf, o, size, dataShards, MissingData(Lens(shards[..]))))
      ensures pool.shelf == old(ShelfAfter(pool.shelf, o, size, dataShards, MissingData(Lens(shards[..]))))
      ensures !panics ==> forall i :: 0 <= i < dataShards ==> Len(shards[i]) == size
      ensures !panics ==> Codeword(m, dataShards, V, size) && |V| == this.shards && Leads(V, old(Values(shards)))
      ensures !panics ==> V[..dataShards] == Values(shards)[..dataShards]
    {
      hide Comb, IsInverse, NoKernel, Codeword, Leads, Present, PoolPanics, ShelfAfter, MissingData;
      V := [];
      ghost var before, chosen := Values(shards), Contents(sub);
      InverseIsMat(Select(m, valid), inv, dataShards);
      RecoverableShape();
      assert chosen == Select(before, valid);
      assert Lengths(before) == Lens(shards[..]);
      panics := FillData(shards, inv, sub, size);
      if panics {
        return;
      }
      ghost var D := Values(shards)[..dataShards];
      FilledData(before, Values(shards), valid, invalid, inv, size);
      assert forall i :: 0 <= i < dataShards ==> |D[i]| == Len(shards[i]);
      V := Decoded(before, D, valid, invalid, inv, size);
    }

    // The part after the decode matrix is known.
    method Rebuild(shards: array<Shard>, dataOnly: bool, valid: seq<nat>, invalid: seq<nat>, sub: seq<array<byte>>,
                   inv: Mat, size: nat) returns (panics: bool, ghost V: Mat)
      requires Apart(shards) && shards.Length == this.shards == dataShards + parityShards && parityShards > 0 &&
        size > 0 && pool.shelf.Sound()
      requires Recoverable(m, dataShards, this.shards) && Tuned(o)
      requires forall i :: 0 <= i < shards.Length ==> Len(shards[i]) == size || Len(shards[i]) == 0
      requires Divided(valid, invalid, this.shards) && |valid| == |sub| == dataShards
      requires forall j :: 0 <= j < dataShards ==>
        valid[j] < shards.Length && shards[valid[j]] == sub[j] && sub[j].Length > 0
      requires forall r :: r in invalid ==> Len(shards[r]) == 0
      requires |valid| + |invalid| <= shards.Length && Present(Lens(shards[..]), |valid| + |invalid|) == dataShards
      requires Present(Lens(shards[..]), shards.Length) >= dataShards
      requires IsInverse(Select(m, valid), inv, dataShards)
      modifies shards, pool
      ensures Apart(shards)
      ensures forall i :: 0 <= i < shards.Length && old(Len(shards[i])) != 0 ==> shards[i] == old(shards[i])
      ensures forall i :: 0 <= i < shards.Length ==> shards[i] == old(shards[i]) || fresh(shards[i])
      ensures panics <==> old(Run(pool.shelf, o, dataShards, RebuildCalls(Lens(shards[..]), dataOnly, size))) == None
      ensures !panics ==>
        Some(pool.shelf) == old(Run(pool.shelf, o, dataShards, RebuildCalls(Lens(shards[..]), dataOnly, size)))
      ensures Stocked(old(pool.shelf), dataShards, parityShards) ==> Stocked(pool.shelf, dataShards, parityShards)
      ensures !panics ==> forall i :: 0 <= i < Wanted(dataOnly) ==> Len(shards[i]) == size
      ensures !panics ==>
        Codeword(m, dataShards, V, size) && Leads(V, old(Values(shards))) &&
        Filled(V, old(Values(shards)), Values(shards), Wanted(dataOnly))
      ensures !panics ==> forall V: Mat :: Codeword(m, dataShards, V, size) && Agrees(V, old(Values(shards))) ==>
        forall i :: 0 <= i < Wanted(dataOnly) ==> Bytes(shards[i]) == V[i]
    {
      hide Comb, IsInverse, NoKernel, Divided, Codeword, Leads, Present, Recoverable, Stocked, Run, RebuildCalls;
      ghost var before := Values(shards);
      assert Lengths(before) == Lens(shards[..]);
      panics, V := RebuildBoth(shards, dataOnly, valid, invalid, sub, inv, size);
      if panics {
        return;
      }
      ghost var after := Values(shards);
      forall W: Mat | Codeword(m, dataShards, W, size) && Agrees(W, before)
        ensures forall i :: 0 <= i < Wanted(dataOnly) ==> Bytes(shards[i]) == W[i]
      {
        FilledAgrees(V, W, before, after, size, Wanted(dataOnly));
        assert forall i :: 0 <= i < Wanted(dataOnly) ==> Bytes(shards[i]) == after[i];
      }
    }

    // First the data shards, then, unless only they were asked for, the parity shards.
    method RebuildBoth(shards: array<Shard>, dataOnly: bool, valid: seq<nat>, invalid: seq<nat>, sub: seq<array<byte>>,
                       inv: Mat, size: nat) returns (panics: bool, ghost V: Mat)
      requires Apart(shards) && shards.Length == this.shards == dataShards + parityShards && parityShards > 0 &&
        size > 0 && pool.shelf.Sound()
      requires Recoverable(m, dataShards, this.shards) && Tuned(o)
      requires forall i :: 0 <= i < shards.Length ==> Len(shards[i]) == size || Len(shards[i]) == 0
      requires Divided(valid, invalid, this.shards) && |valid| == |sub| == dataShards
      requires forall j :: 0 <= j < dataShards ==>
        valid[j] < shards.Length && shards[valid[j]] == sub[j] && sub[j].Length > 0
      requires forall r :: r in invalid ==> Len(shards[r]) == 0
      requires |valid| + |invalid| <= shards.Length && Present(Lens(shards[..]), |valid| + |invalid|) == dataShards
      requires IsInverse(Select(m, valid), inv, dataShards)
      modifies shards, pool
      ensures Apart(shards)
      ensures forall i :: 0 <= i < shards.Length && old(Len(shards[i])) != 0 ==> shards[i] == old(shards[i])
      ensures forall i :: 0 <= i < shards.Length ==> shards[i] == old(shards[i]) || fresh(shards[i])
      ensures panics <==> old(Run(pool.shelf, o, dataShards, RebuildCalls(Lens(shards[..]), dataOnly, size))) == None
      ensures !panics ==>
        Some(pool.shelf) == old(Run(pool.shelf, o, dataShards, RebuildCalls(Lens(shards[..]), dataOnly, size)))
      ensures Stocked(old(pool.shelf), dataShards, parityShards) ==> Stocked(pool.shelf, dataShards, parityShards)
      ensures !panics ==> forall i :: 0 <= i < Wanted(dataOnly) ==> Len(shards[i]) == size
      ensures !panics ==>
        Codeword(m, dataShards, V, size) && Leads(V, old(Values(shards))) &&
        Filled(V, old(Values(shards)), Values(shards), Wanted(dataOnly))
    {
      hide Comb, IsInverse, NoKernel, Divided, Codeword, Leads, Present, Recoverable, Stocked, Run, PoolPanics,
        ShelfAfter, MissingData;
      RecoverableShape();
      ghost var before, lens, s := Values(shards), Lens(shards[..]), pool.shelf;
      ghost var first := Call(size, MissingData(lens));
      ghost var more := if dataOnly then [] else [Call(size, MissingParity(lens))];
      FirstCall(s, first, more);
      StaysIfStocked(s, first);
      panics, V := RebuildData(shards, valid, invalid, sub, inv, size);
      if panics {
        return;
      }
      NoCalls(pool.shelf);
      assert forall i :: 0 <= i < dataShards ==> Bytes(shards[i]) == V[..dataShards][i] == V[i];
      if dataOnly {
        return;
      }
      assert Values(shards)[..dataShards] == V[..dataShards];
      SameParityMissing(lens, Lens(shards[..]));
      OneCall(pool.shelf, Call(size, MissingParity(lens)));
      StaysIfStocked(pool.shelf, Call(size, MissingParity(lens)));
      panics := FillParity(shards, size);
      if panics {
        return;
      }
      forall i | 0 <= i < this.shards && |before[i]| == 0
        ensures Bytes(shards[i]) == V[i]
      {
        if dataShards <= i {
          ParityOf(V, i, size);
        }
      }
    }

    lemma StaysIfStocked(s: Shelf, c: Call)
      requires s.Sound()
      ensures ShelfAfter(s, o, c.byteCount, dataShards, c.outputs).Sound()
      ensures Stocked(s, dataShards, parityShards) ==>
        Stocked(ShelfAfter(s, o, c.byteCount, dataShards, c.outputs), dataShards, parityShards)
    {
      hide TableBytes;
    }

    lemma SameParityMissing(before: seq<nat>, after: seq<nat>)
      requires |before| == |after| == shards == dataShards + parityShards
      requires forall i :: dataShards <= i < shards ==> before[i] == after[i]
      ensures MissingParity(before) == MissingParity(after)
    {
      SamePresent(before, after, dataShards, shards);
    }

    lemma ParityOf(V: Mat, i: nat, w: nat)
      requires Codeword(m, dataShards, V, w) && i < |V|
      ensures |m[i]| == dataShards && IsMat(V[..dataShards], dataShards, w) && V[i] == Comb(m[i], V[..dataShards], w)
    {}
  }
}
