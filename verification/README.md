# Models and proofs for the storage core

Files are cut into shards, coded with a Reed-Solomon erasure code, spread over peers, repaired, and read
back in pieces. This project models that path in Dafny and proves what each step keeps.

**The codec.** The field of 256 elements is defined by shift and xor; the tables and table-driven operations
are proved equal to it. Matrices over the field rest on one notion, the linear combination of rows. In-place
Gaussian elimination is proved sound and complete. Both generator matrices (Vandermonde times the inverse of
its top square, and identity over Cauchy) are proved to determine the data from *any* choice of as many rows
as there are data shards: the first by counting roots of polynomials, the second by eliminating poles and
zeros of a sum of simple fractions. What is encoded is said without the matrix too: the shards of the default
encoder are exactly those whose columns are the values of one polynomial, with as many coefficients as there
are data shards, at the bytes 0, 1, 2 and so on (`Interpolation.EncodingsAreValues`). Every coding loop
(tiles, AVX2 blocks and plans, AVX512 batches, goroutine splits in any order or interleaved call by call) is
proved to compute the same combinations, or to panic over a pooled buffer that is too short, with the exact
condition. The inversion cache refines a finite map. `ReedSolomon.ReedSolomon.EncodeLoseReconstruct` puts this
together: any data, any lost set no larger than the parity, everything is back; only an encoder of the shapes
named below can panic instead.

**Around it.** Incremental coding agrees with coding everything again. Split and Join, in memory and over
streams, give the input back. The stream encoder works block by block, independently of the block size. The
mobile node's `put` keeps the quota, and its `read` returns the object exactly if eight of twelve shard files
are intact. Spreading shards over peers loses none in any run, whatever the peers answer.
`FileRecovery.RecoverFile` runs scan, gather and decoder after each other: with the peers reachable, what the scan
calls intact or degraded comes out as the file, and the rest does not come out. Ranges served from shards equal
the slice of the file, both block caches serve what the file holds, and the folder roll-up equals the sum over
subtrees.

A hash of a fixed length must have collisions. Where a hash or a digest is compared, the claims ask only that it
tells apart the byte strings that are compared there (`MobileNode.Unmistaken`, `MobileNode.Node.Known`,
`Replication.Faithful`).

Go slices that are overwritten are arrays; objects with fields that change are classes with `modifies`
clauses; what the loops compute is proved against functions on sequences, and the laws are lemmas about
these. `byte` is `bv8`. A panic is the error `Panicked`.

**Where the code falls short of what one would expect.** These are stated as lemmas with a concrete input,
next to the exact condition under which the code is right:

- `Split` panics when the capacity of its argument holds all shards but not `dataShards` bytes behind the data
  (`SplitJoin.Panics`, `SplitJoin.SplitCanPanic`), and with spare capacity the padding can be old bytes
  (`SplitJoin.PaddingIsZero`, `SplitJoin.PaddingCanBeGarbage`).
- The buffers for coefficient tables go back to their pool as short as the last table. The planned parallel path
  cuts its buffer by length and panics when it draws such a one. Some sequence of calls on a new encoder panics
  exactly if it has at most ten data shards and more than ten parity shards, uses AVX2 where AVX512 does not take
  over, and splits sizes that the planned path handles (`TableUse.FragileExactly`). Repairing 3 + 20 shards once is
  enough (`ReedSolomon.ReedSolomon.RepairCanPanic`), as is repairing ten shards and encoding again
  (`ReedSolomon.ReedSolomon.RepairThenEncode`).
- `Update` does not compare the sizes of new data shards with those of the old ones. In the serial form a shorter one
  counts as filled up with zeros, a longer one is cut off or panics; split over goroutines, what lies in the memory of
  a new shard up to the common size is coded, whatever its length, and too small a capacity panics. The contents are
  taken for what they are exactly if all sizes agree (`Updating.Breaks`, `Updating.TakenAsGiven`,
  `Updating.StaleTaken`, `Updating.LongerTaken`).
- The stream `Reconstruct` cuts every block to the length of the first stream that is there. Unequal streams can
  then be rebuilt without an error, cut off or stretched over old bytes of the buffers; the exact condition is
  `Streaming.Rebuilds` (`Streaming.WholeExactly`, `Streaming.UnequalCut`, `Streaming.UnequalStretched`,
  `Streaming.StaleByteShows`).
- The stream `readShards` reports the end of all streams when some end exactly there and others still deliver
  a full block; unequal streams can then be encoded without an error (`Streaming.UnequalAccepted`).
- The stream `Split` accepts an input that is shorter than announced as long as the padding fills the data
  shards (`StreamSplit.ShortInput`, `StreamSplit.ShortInputAccepted`).
- A suffix range such as `bytes=-500` is read as the first bytes (`RangeServe.SuffixMisread`).
- `missing_indices` counts from zero to the number of shards, so it lists the shards that are missing exactly if the
  file's indices have no gap; with indices zero and two it lists one (`Repair.MissingListed`,
  `Repair.MissingMislisted`).
- A read through the mount is cut short when fetching evicts a block it needs; this happens exactly if the
  blocks from its oldest cached one on do not fit the budget (`MountCache.Cache.ReadAt`,
  `MountCache.FullCacheCutsShort`).
- The cap of `parity_shards` shards per peer holds for one run of the placement; a later run over other peers
  can put one peer above it. A run keeps a peer within the cap, whatever is answered, exactly if the shards recorded
  there before and those here that are planned for it number at most the cap (`Replication.BudgetExactly`,
  `Replication.TwoRunsExceedBudget`).

## Model

| member | source | states |
|---|---|---|
| Galois.MulAdd | reedsolomon/gentables.go:10-57 | multiplication distributes over xor, on both sides |
| Galois.MulComm | reedsolomon/gentables.go:10-57 | multiplication is commutative |
| Galois.MulAssoc | reedsolomon/gentables.go:10-57 | multiplication is associative |
| Galois.MulInv | reedsolomon/galois.go:869-883 | every non-zero element has a non-zero inverse |
| Galois.NoZeroDivisors | reedsolomon/gentables.go:10-57 | a product is zero exactly if a factor is |
| Galois.LogOfExp | reedsolomon/gentables.go:10-43 | the log table undoes the powers of the generator 2, whose order is 255 |
| Galois.ExpOfLog | reedsolomon/gentables.go:10-43 | every non-zero element is the power of 2 that the log table gives |
| Galois.MulExp | reedsolomon/gentables.go:83-97 | the shift-and-xor product modulo 0x11D of two powers of 2 is the power of the sum |
| Galois.MulNibbles | reedsolomon/gentables.go:115-133 | a product is the xor of the products with the two halves of a byte |
| GaloisTables.GenerateExpTable | reedsolomon/gentables.go:73-81 | inverting the log table twice over fills all 510 powers of 2 |
| GaloisTables.GenerateMulTable | reedsolomon/gentables.go:83-97 | every entry of the flat table is the field product of its row and column |
| GaloisTables.TableProduct | reedsolomon/gentables.go:85-95 | adding logs and looking up, or zero, is the field product |
| GaloisTables.GenerateMulTableHalf | reedsolomon/gentables.go:115-133 | the low table holds products with 0 to 15, the high one with the multiples of 16 |
| GaloisTables.NibbleLookup | reedsolomon/gentables.go:115-133 | low-nibble entry xor high-nibble entry is the full product, for every coefficient and byte |
| GaloisTables.GalMultiply | reedsolomon/galois.go:858-865 | the table look-up is the field product |
| GaloisTables.GalDivide | reedsolomon/galois.go:869-883 | the quotient times the divisor is the dividend |
| GaloisTables.PowOfExp | reedsolomon/galois.go:888-902 | repeated multiplication is the power of 2 with the logarithm times the exponent |
| GaloisTables.GalExp | reedsolomon/galois.go:888-902 | logarithms reduced modulo 255 give the n-fold product, with anything to the power 0 being 1 |
| LinearAlgebra.CombAssoc | reedsolomon/matrix.go:103-118 | combining with combined coefficients is combining the combinations |
| LinearAlgebra.MatMulAssoc | reedsolomon/matrix.go:103-118 | the matrix product is associative |
| LinearAlgebra.CombCols | reedsolomon/reedsolomon.go:659-675 | combining commutes with cutting out a range of columns, which is why tiles may be coded one by one |
| Elimination.GaussianElimination | reedsolomon/matrix.go:210-266 | in place, the rows stay row-equivalent to the start; success leaves the identity on the left, failure has a null vector |
| Elimination.SingularWitness | reedsolomon/matrix.go:217-230 | a column without a pivot gives a non-zero vector that the matrix kills |
| Elimination.ReducedIsId | reedsolomon/matrix.go:213-265 | one diagonal, zeros below and zeros above make the identity |
| Elimination.KillsRowEq | reedsolomon/matrix.go:210-266 | row operations do not change what a matrix kills |
| Matrix.Multiply | reedsolomon/matrix.go:103-118 | the triple loop is the matrix product; a size mismatch is an error |
| Matrix.Augment | reedsolomon/matrix.go:121-137 | the right rows behind the left ones, for equal heights only |
| Matrix.SubMatrix | reedsolomon/matrix.go:155-167 | the given rows and columns; an empty selection is an error |
| Matrix.IdentityMatrix | reedsolomon/matrix.go:48-57 | the identity of the given size; a size below one is an error |
| Matrix.Invert | reedsolomon/matrix.go:193-208 | success is a two-sided inverse; the singular error comes exactly when no inverse exists |
| Matrix.ReducedGivesInverse | reedsolomon/matrix.go:193-208 | what stands right of a reduced identity is the inverse of what stood left at the start |
| Matrix.NullVectorNoInverse | reedsolomon/matrix.go:193-208 | a matrix with an inverse kills only the zero vector |
| Polynomials.Division | reedsolomon/matrix.go:271-282 | a polynomial minus its value at a point has that point's linear factor |
| Polynomials.ManyRoots | reedsolomon/matrix.go:271-282 | a polynomial with as many distinct roots as coefficients is zero |
| Generator.Vandermonde | reedsolomon/matrix.go:271-282 | row r, column c holds the c-fold power of r modulo 256, for any number of rows; sizes below one are errors |
| Generator.VandermondeChoice | reedsolomon/matrix.go:271-282 | any choice of as many rows as columns is without a kernel |
| Generator.BuiltIsRecoverable | reedsolomon/reedsolomon.go:150-174 | Vandermonde times the inverse of its top starts with the identity, and any choice of rows is still without a kernel |
| Generator.BuildMatrix | reedsolomon/reedsolomon.go:150-174 | building never fails for 1 to 256 shards and gives such a matrix |
| Generator.BuiltOnce | reedsolomon/reedsolomon.go:150-174 | there is only one such product: two encoders of the same shape have the same matrix |
| Interpolation.EncodingsAreValues | reedsolomon/reedsolomon.go:150-174 | shards are an encoding of the default matrix exactly if every column consists of the values of one polynomial, with as many coefficients as data shards, at the bytes 0 to total - 1 |
| Cauchy.CauchyEntryNonZero | reedsolomon/reedsolomon.go:215-221 | no coefficient is the inverse of zero |
| Cauchy.PartialFraction | reedsolomon/reedsolomon.go:206-224 | the identity that removes one pole and one zero from a sum of simple fractions |
| Cauchy.EnoughZeros | reedsolomon/reedsolomon.go:206-224 | a sum of simple fractions with as many zeros as poles is zero |
| Cauchy.CauchyChoice | reedsolomon/reedsolomon.go:206-224 | any choice of as many rows of identity over Cauchy as data shards kills only zero |
| Cauchy.CauchyRecoverable | reedsolomon/reedsolomon.go:206-224 | the Cauchy matrix has the same any-rows property as the default one |
| Cauchy.BuildMatrixCauchy | reedsolomon/reedsolomon.go:206-224 | the loops fill that matrix; sizes below one are errors |
| Cauchy.CauchyInvertsSums | reedsolomon/reedsolomon.go:215-221 | every parity coefficient times the xor of its row and column numbers is 1 |
| Xor.BuildXorMatrix | reedsolomon/reedsolomon.go:228-251 | identity over a row of ones, which is recoverable; the internal error for any other number of shards |
| Xor.XorChoice | reedsolomon/reedsolomon.go:226-251 | any choice of all rows but one kills only zero |
| Xor.XorRows | reedsolomon/reedsolomon.go:226-251 | shards are an encoding exactly if every byte of the last is the xor of the bytes of the others |
| Kernels.GalMulSlice | reedsolomon/galois_amd64.go:54-83 | whichever kernels take the prefix, every byte of the range is the product and no other byte changes |
| Kernels.GalMulSliceXor | reedsolomon/galois_amd64.go:85-118 | every byte of the range has the product added once, and no other byte changes |
| Kernels.SliceXor | reedsolomon/galois_amd64.go:121-140 | every byte of the range has the input added once, and no other byte changes |
| Kernels.SliceXorUnrolled | reedsolomon/galois_noasm.go:37-54 | so does the unrolled form with its tail |
| Coding.CodeTile | reedsolomon/reedsolomon.go:660-669 | setting with the first input and adding the others leaves the full combination in the tile only |
| Coding.CodeRange | reedsolomon/reedsolomon.go:659-675 | tiles of any size cover the range exactly once |
| Avx2.SlotSeparate | reedsolomon/galois.go:904-931 | the 64-byte slots of two different coefficients do not overlap |
| Avx2.GenAvx2Matrix | reedsolomon/galois.go:904-931 | every slot holds the doubled nibble tables of its coefficient; a buffer with the capacity is reused and left as long as the tables, and its other bytes stay |
| Avx2.KernelProductIs | reedsolomon/galois.go:904-931 | looking both nibbles up in a slot gives the product with its coefficient |
| Avx2.Avx2Kernel | reedsolomon/reedsolomon.go:642-648 | a block of up to ten by ten moves its outputs from the inputs before it to the inputs after it, over whole 64 bytes |
| TablePool.Pool.Get | reedsolomon/reedsolomon.go:385-391 | a slice that was put back comes as long as it was then; without one, a new slice of the full size |
| TablePool.Pool.Put | reedsolomon/reedsolomon.go:620-622 | the length and the capacity of the slice stay in the pool |
| Plan.MakePlan | reedsolomon/reedsolomon.go:763-835 | it panics exactly if the pooled slice is shorter than all tables; else, in either loop order, the tables lie side by side in it, every step finds its outputs where the steps before left them, and in the end all inputs are in all outputs |
| Plan.ExecutePlan | reedsolomon/reedsolomon.go:850-856 | running the plan leaves the full combinations in the whole blocks and nothing else changed |
| TableUse.OnlyFragile | reedsolomon/reedsolomon.go:753-835 | a coding call panics only for at most ten data and more than ten parity shards, with AVX2 and without AVX512 |
| TableUse.NoRunPanics | reedsolomon/reedsolomon.go:598-904 | no sequence of coding calls panics on any other encoder |
| TableUse.TwoCallsPanic | reedsolomon/reedsolomon.go:614-835 | on every such encoder two calls panic: ten outputs, then more |
| TableUse.FragileExactly | reedsolomon/reedsolomon.go:598-904 | some sequence of calls on a new encoder panics exactly if it is such an encoder |
| Avx512.SetupMatrix | reedsolomon/galoisAvx512_amd64.go:33-102 | with the moving offset, entry (column, row) is the table of that coefficient, zero beyond the last input |
| Avx512.Product512Is | reedsolomon/galoisAvx512_amd64.go:33-102 | looking both nibbles up in an entry gives the product with its coefficient |
| Avx512.Kernel512 | reedsolomon/galoisAvx512_amd64.go:105-207 | eight inputs are taken into four, two or one outputs, set or added as the first or a later batch |
| Avx512.LastInput | reedsolomon/galoisAvx512_amd64.go:209-224 | the scalar tail does the same byte by byte |
| Avx512.Round512 | reedsolomon/galoisAvx512_amd64.go:240-264 | batches of four rows, one of two and one of one reach every output row exactly once |
| Avx512.CodeRange512 | reedsolomon/galoisAvx512_amd64.go:228-272 | all rounds leave the full combinations in the range only |
| Parallel.SplitJobs | reedsolomon/reedsolomon.go:736-747 | the goroutines' intervals partition the bytes |
| Parallel.StepWorker | reedsolomon/reedsolomon.go:702-729 | one kernel call of one goroutine keeps what it has done, touches only its interval, and leaves less to do |
| Parallel.RunInterleaved | reedsolomon/reedsolomon.go:680-749 | whichever goroutine moves next, all calls end with the full combinations |
| CodeShards.CodeSerial | reedsolomon/reedsolomon.go:614-676 | the serial paths, vector prefix or blocks and then tiles, give the full combinations, and what they leave in the pool |
| CodeShards.CodeOneBlock | reedsolomon/reedsolomon.go:642-648 | building the tables and running the kernel takes one block of inputs into one block of outputs; the slice is left as long as these tables |
| CodeShards.RunAnyOrder | reedsolomon/reedsolomon.go:885-903 | the goroutines may run in any order |
| CodeShards.CodeSomeShardsAvxP | reedsolomon/reedsolomon.go:753-904 | it panics, with nothing coded, exactly if the slice it draws is shorter than the tables; otherwise it gives the full combinations |
| CodeShards.CodeSomeShardsP | reedsolomon/reedsolomon.go:680-749 | so does the parallel form, which takes the planned one for some sizes, and what it leaves in the pool |
| CodeShards.CodeSomeShards | reedsolomon/reedsolomon.go:598-676 | for every option, size, number of shards and pool: when it panics, and otherwise that each output is the combination of the inputs with its row |
| InversionTree.InversionNode.ChildAt | reedsolomon/inversion_tree.go:136-148 | the child for an index is always in bounds, and making it changes no stored matrix |
| InversionTree.InversionNode.GetInvertedMatrix | reedsolomon/inversion_tree.go:93-122 | the walk finds what is stored for the increasing list, or nothing |
| InversionTree.InversionNode.InsertInvertedMatrix | reedsolomon/inversion_tree.go:124-164 | the map changes at that list and nowhere else |
| InversionTree.InversionTree.GetInvertedMatrix | reedsolomon/inversion_tree.go:41-58 | the tree answers as a finite map; the empty list has the identity |
| InversionTree.InversionTree.InsertInvertedMatrix | reedsolomon/inversion_tree.go:67-91 | inserting updates that map; the empty list and non-square matrices are refused without a change |
| Recovery.KeyDecides | reedsolomon/reedsolomon.go:1054-1070 | the invalid rows before the last chosen one determine the chosen rows, so they may be the cache's key |
| Recovery.CacheInsert | reedsolomon/reedsolomon.go:1096-1101 | the cache keeps holding inverses of the rows its keys stand for |
| Recovery.DecodeUnique | reedsolomon/reedsolomon.go:1104-1125 | data gives the chosen shards exactly if it is what the inverse makes of them |
| Recovery.AgreeingCodewords | reedsolomon/reedsolomon.go:1012-1153 | two encodings that agree on any choice of as many shards as data shards are equal |
| Recovery.InvertChoice | reedsolomon/reedsolomon.go:1091-1094 | any choice of as many rows as data shards has an inverse, and elimination finds it |
| Shards.CheckShards | reedsolomon/reedsolomon.go:939-952 | the size check, with its two errors, from the lengths alone |
| Shards.AllOfSize | reedsolomon/reedsolomon.go:939-964 | a strict check that passes means no shard is missing and all have the same positive size |
| Shards.CheckMeans | reedsolomon/reedsolomon.go:939-952 | no-data comes exactly if all shards are empty; the size error exactly if one differs from a non-empty one, empty ones counting unless they are allowed |
| ReedSolomon.ReedSolomon.New | reedsolomon/reedsolomon.go:257-393 | sizes out of range give their errors; otherwise an encoder with cache and pool right, whose encodings are the values of polynomials (default), whose coefficients invert the sums (Cauchy), or whose parity is the xor of the data (one parity shard, on request) |
| ReedSolomon.ReedSolomon.Encode | reedsolomon/reedsolomon.go:406-422 | the errors from the lengths and the pool alone; a panic only if the encoder is breakable; otherwise the data is untouched and all shards form an encoding |
| ReedSolomon.ReedSolomon.OnlyBreakable | reedsolomon/reedsolomon.go:406-422 | an encoder that is not breakable never panics, whatever was called before |
| ReedSolomon.ReedSolomon.ParityDecides | reedsolomon/reedsolomon.go:909-926 | shards form an encoding exactly if the parity computed from the data equals theirs |
| ReedSolomon.ReedSolomon.Verify | reedsolomon/reedsolomon.go:567-581 | errors and panic as for Encode; otherwise true exactly if the shards form an encoding |
| ReedSolomon.ReedSolomon.CheckSomeShards | reedsolomon/reedsolomon.go:909-926 | when it panics; otherwise true exactly if every checked shard is its combination |
| ReedSolomon.ReedSolomon.ChooseRows | reedsolomon/reedsolomon.go:1054-1066 | the first present rows, as many as data shards, and the missing ones before the last of them |
| ReedSolomon.ReedSolomon.DecodeMatrix | reedsolomon/reedsolomon.go:1068-1102 | from the cache or computed, it is the inverse of the chosen rows, never an error, and the cache stays right |
| ReedSolomon.ReedSolomon.FilledData | reedsolomon/reedsolomon.go:1104-1125 | present data shards and rebuilt ones together are what the inverse makes of the chosen shards |
| ReedSolomon.ReedSolomon.OneEncoding | reedsolomon/reedsolomon.go:1012-1153 | no two encodings have the same first dataShards present shards |
| ReedSolomon.ReedSolomon.SameRebuilt | reedsolomon/reedsolomon.go:1068-1102 | two runs on the same present shards rebuild the same bytes, whatever was in their caches |
| ReedSolomon.ReedSolomon.Reconstruct | reedsolomon/reedsolomon.go:1012-1153 | the answer follows from the lengths and the pool and is never the singular error; present shards stay; missing ones become those of the encoding the present ones decide |
| ReedSolomon.ReedSolomon.VerdictMeans | reedsolomon/reedsolomon.go:1012-1045 | which error comes when: by the number of shards, the sizes of those that are given, and how many are |
| ReedSolomon.ReedSolomon.AnswerIs | reedsolomon/reedsolomon.go:1012-1153 | Reconstruct answers as the lengths alone demand, but for a panic of a breakable encoder |
| ReedSolomon.ReedSolomon.RepairCanPanic | reedsolomon/reedsolomon.go:1012-1153 | a new encoder of 3 + 20 shards panics when a data shard and fifteen parity shards of 4096 bytes are rebuilt |
| ReedSolomon.ReedSolomon.RepairThenEncode | reedsolomon/reedsolomon.go:1012-1153 | on every breakable encoder, rebuilding ten parity shards and encoding again panics |
| ReedSolomon.ReedSolomon.AfterLoss | reedsolomon/reedsolomon.go:1012-1045 | with no more shards missing than there is parity, reconstruct does not refuse |
| ReedSolomon.ReedSolomon.EncodeLoseReconstruct | reedsolomon/reedsolomon.go:406-422 | after Encode and the loss of any set no larger than the parity, every shard is back, unless a breakable encoder panics |
| Incremental.EncodeIdx | reedsolomon/reedsolomon.go:428-464 | the errors in their order; otherwise every parity shard has its coefficient times the data shard added |
| Incremental.DeliverIsComb | reedsolomon/reedsolomon.go:428-464 | zeroed parity after some deliveries is the combination of the delivered shards |
| Incremental.AnyOrderEncodes | reedsolomon/reedsolomon.go:428-464 | after each data shard came once, in any order, it is the parity that Encode computes |
| Incremental.DeliverAll | reedsolomon/reedsolomon.go:428-464 | calling EncodeIdx for every data shard once, in any order, on zeroed parity ends in an encoding |
| Updating.XorInto | reedsolomon/galois_amd64.go:121-140 | for slices of different lengths: when it panics, and otherwise that what comes in is added once |
| Updating.MulXorInto | reedsolomon/galois_amd64.go:85-118 | the same for the product |
| Updating.UpdateRange | reedsolomon/reedsolomon.go:519-556 | one goroutine's loop, or the serial one: when it panics, and otherwise that its bytes of the differences and of the parity are done and the others are as they were |
| Updating.UpdatedParity | reedsolomon/reedsolomon.go:509-531 | old parity plus the coded differences is the parity of the new data |
| Updating.UpdateParityShardsP | reedsolomon/reedsolomon.go:533-563 | split over goroutines in any order, it panics exactly if some slice expression up to the common size does, and otherwise every byte of the differences and of the parity is done |
| Updating.Update | reedsolomon/reedsolomon.go:469-507 | the errors in their order and the exact panic, for any lengths and capacities; otherwise changed old shards hold old xor new, and every parity row of the old data that is there becomes that of the data the new shards are taken for |
| Updating.TakenAsGiven | reedsolomon/reedsolomon.go:509-563 | old and new shards are taken for what they are exactly if every new one and the one it replaces have the common size |
| Updating.SerialTakes | reedsolomon/reedsolomon.go:509-531 | in the serial form a new shard is cut off, or filled up with zeros |
| Updating.SplitTakes | reedsolomon/reedsolomon.go:533-563 | split over goroutines it is taken for what lies in its memory |
| Updating.StaleTaken | reedsolomon/reedsolomon.go:548-556 | with 2 + 1 shards of 4096 bytes, an empty new shard of that capacity is accepted and its memory is coded |
| Updating.LongerTaken | reedsolomon/reedsolomon.go:519-531 | 110 bytes for 100 bytes of capacity 200 are accepted and cut off |
| SplitJoin.Split | reedsolomon/reedsolomon.go:1171-1211 | when it panics, and otherwise that all shards are equal windows of the input and of fresh padding |
| SplitJoin.ImageHoldsData | reedsolomon/reedsolomon.go:1171-1211 | the data shards together start with the input |
| SplitJoin.PaddingIsZero | reedsolomon/reedsolomon.go:1179-1195 | the padding is zero exactly if the capacity holds all shards or has only zeros behind the data |
| SplitJoin.ExactCapacity | reedsolomon/reedsolomon.go:1185-1195 | without spare capacity the padding is zero, and the panic comes exactly without parity at a length that divides evenly |
| SplitJoin.SplitCanPanic | reedsolomon/reedsolomon.go:1191-1195 | four bytes into four data shards without parity panic |
| SplitJoin.PaddingCanBeGarbage | reedsolomon/reedsolomon.go:1185-1190 | three bytes in a buffer of four leave the fourth byte as padding |
| SplitJoin.Join | reedsolomon/reedsolomon.go:1225-1263 | every error, and otherwise the first bytes of the data shards, as many as asked for or as the writer takes |
| SplitJoin.SplitJoin | reedsolomon/reedsolomon.go:1171-1263 | joining what Split made writes exactly the input |
| StreamSplit.MultiReader | reedsolomon/streaming.go:584-589 | readers one after the other deliver their bytes up to the first that fails |
| StreamSplit.Split | reedsolomon/streaming.go:570-603 | every error, for negative sizes too, and on success each writer got its equal piece of input and padding |
| StreamSplit.ShortInput | reedsolomon/streaming.go:580-603 | an input that ends early is refused exactly if even the padding cannot make up for it |
| StreamSplit.ShortInputAccepted | reedsolomon/streaming.go:580-603 | three bytes announced as four are accepted |
| StreamSplit.Join | reedsolomon/streaming.go:531-559 | every error, and the bytes of the data streams in order, as many as asked for |
| StreamSplit.SplitThenJoin | reedsolomon/streaming.go:531-603 | the pieces of an input that has its announced size, read one after the other, start with the input |
| StreamSplit.RoundTrip | reedsolomon/streaming.go:531-603 | splitting into writers and joining from readers gives the input |
| Streaming.ReadShards | reedsolomon/streaming.go:274-307 | what each buffer got, what each stream has left, and when all ended together; a failure is that of the first reader that breaks or ends elsewhere than one before it, with its number |
| Streaming.TrimShards | reedsolomon/streaming.go:262-272 | non-empty buffers get the given size, empty ones stay empty |
| Streaming.WriteShards | reedsolomon/streaming.go:309-327 | each writer got its shard, or some writer had no room; the error names the first without room, and those before it got their shards |
| Streaming.CombBlocks | reedsolomon/streaming.go:236-258 | coding a prefix and the next block is coding both together |
| Streaming.Encode | reedsolomon/streaming.go:221-259 | on success the writers got the coding of what was read, whatever the block size; it succeeds on every accepted input with room unless a breakable encoder panics, and no data is an error; an error names no stream but one that can cause it |
| Streaming.EqualStreams | reedsolomon/streaming.go:221-259 | streams of one length are accepted to their end for every block size |
| Streaming.UnequalAccepted | reedsolomon/streaming.go:278-306 | streams of lengths two and four with blocks of two are accepted after two bytes |
| Streaming.CodewordBlocks | reedsolomon/streaming.go:427-452 | streams are an encoding over two adjacent ranges exactly if over both together |
| Streaming.Verify | reedsolomon/streaming.go:427-452 | true means an encoding up to the end, false a mismatch, and on accepted streams the answer is the in-memory one; an error names no stream but one that can cause it |
| Streaming.EncodesBlock | reedsolomon/streaming.go:488-521 | cut into blocks, an encoding of what the streams begin with gives an encoding of each block |
| Streaming.HeadDecided | reedsolomon/streaming.go:506-516 | the first bytes of a rebuilt block are those of the encoding that the first bytes of the present shards decide, even if the block was stretched |
| Streaming.Reconstruct | reedsolomon/streaming.go:474-522 | it succeeds exactly on the streams of `Rebuilds` with room and enough streams; every writer gets as many bytes as that says, and up to the shortest stream they are those of the encoding; an error names no stream but one that can cause it |
| Streaming.EqualRebuilds | reedsolomon/streaming.go:474-522 | streams of one length are rebuilt to their end for every block size |
| Streaming.WholeExactly | reedsolomon/streaming.go:474-522 | what comes out is as long as every stream exactly if all are of one length |
| Streaming.UnequalCut | reedsolomon/streaming.go:262-272 | streams of three and four bytes are accepted and three come out |
| Streaming.UnequalStretched | reedsolomon/streaming.go:262-272 | streams of four and three bytes are accepted and four come out |
| Streaming.StaleByteShows | reedsolomon/streaming.go:262-272 | the byte a short parity stream was stretched by decides the byte that is rebuilt |
| Replication.PlanPlacement | api/replication.py:59-95 | an index is planned exactly if an entry that is no sidecar has it; the t-th of these goes to the t-th seat of the ring, round after round, while there is room; no peer gets more than parity_shards, a shard stays only if no peer has room, loads differ by at most one |
| Replication.DataShardsAt | api/replication.py:48-49 | what is planned is every entry that is no sidecar, in order and each exactly once |
| Replication.Ranked | api/replication.py:71-95 | an entry is planned at the place that counts the shards before it |
| Replication.Walk | api/replication.py:87-93 | one turn around the ring finds a peer with room or there is none |
| Replication.PushShard | api/replication.py:110-147 | whatever the peer does, no shard is lost; a digest is reported exactly if the peer stored something and it is its digest |
| Replication.HandOff | api/replication.py:184-229 | a shard counts as placed exactly if it was here and the peer answered with its bytes; the local copy goes only then |
| Replication.Distribute | api/replication.py:150-235 | every entry of the list that is no sidecar is here or intact at its recorded peer at every step; it ends at its planned peer exactly if it was here and was answered rightly, otherwise where it was; `placed` counts the former |
| Replication.Budget | api/replication.py:64-68 | one run can add at most parity_shards shards to a peer, and none to a peer it was not given |
| Replication.AllReached | api/replication.py:171-229 | some replies put every shard on a peer that can get there |
| Replication.BudgetExactly | api/replication.py:64-68 | a run leaves a peer within parity_shards, for all replies, exactly if the shards recorded there before and those here and planned for it are no more than that |
| Replication.SurvivesPeerLoss | api/replication.py:64-68 | if a peer has no more than parity_shards, losing it leaves data_shards shards |
| Replication.TwoRunsExceedBudget | api/replication.py:171-235 | two runs for twelve shards, over peer a and then over b and a, end with six shards recorded at a |
| Replication.FetchShard | api/replication.py:241-261 | a payload is returned only if it has the recorded digest |
| Replication.GatherShards | api/replication.py:264-333 | what is staged is what an original shard decrypts to; a shard is staged exactly if it is here or was returned correctly, and decrypts, and every other one is a problem |
| Replication.SafeIsGathered | api/replication.py:264-333 | as long as no shard is lost, all can be gathered from peers that give back what they hold |
| Repair.Assess | api/repair.py:56-130 | available is exactly what is here, confirmed, or at a peer that did not answer; intact exactly if that is every index and enough, degraded and repairable exactly if it is enough but not every index; missing_indices is right exactly if the indices have no gap |
| Repair.StatusMeans | api/repair.py:104-114 | orphaned, unrecoverable, intact and degraded, each in terms of which indices are available |
| Repair.Sound | api/repair.py:104-114 | with all peers reachable, intact or degraded means exactly that data_shards shards can be fetched |
| Repair.Monotone | api/repair.py:93-98 | a peer falling silent never shrinks what is available nor worsens the verdict |
| Repair.MissingListed | api/repair.py:105-126 | counting up to the number of shards gives the missing shards exactly if the indices are the first numbers |
| Repair.MissingMislisted | api/repair.py:126 | for shards zero and two with only zero here, the report lists shard one, whatever the peers answer |
| Repair.Summarise | api/repair.py:133-151 | the counts by status, the sum of missing shards, and the repairable, unrecoverable and orphaned files with their names |
| Repair.CountedOnce | api/repair.py:134-136 | every report is counted under exactly one status |
| FileCodec.EncodeFile | lib/cmd/encoder/encoder.go:59-110 | it gives the shards of the file unless the numbers are out of range, the file is empty, or Split panics; nothing else can go wrong |
| FileCodec.Restore | lib/cmd/decoder/decoder.go:58-75 | verify, reconstruct and verify again: success leaves an encoding with every shard that was there; of an encoding, everything is back as soon as enough shards are there |
| FileCodec.DecodeFile | lib/cmd/decoder/decoder.go:36-102 | what is written is the data of an encoding that has every staged shard; for shards of a file, the file, exactly with as many as data shards, unless a fragile encoder panics |
| FileCodec.EncodeLoseDecode | lib/cmd/decoder/decoder.go:36-102 | encoding a file, losing any shard files up to the parity and decoding gives the file, unless a fragile encoder panics |
| FileRecovery.AvailableIsGathered | api/repair.py:93-104 | with reachable and honest peers, a shard is available to the scan exactly if it can be gathered |
| FileRecovery.GatherAndDecode | api/main.py:2122-2153 | the file comes out as soon as as many shards can be gathered as there are data shards, nothing with fewer |
| FileRecovery.RecoverFile | api/main.py:2122-2153 | with reachable and honest peers, a file that the scan calls intact or degraded comes out, and one that it calls unrecoverable or orphaned does not |
| RangeServe.Resolve | api/main.py:989-992 | a satisfiable range lies within the file |
| RangeServe.ExplicitRange | api/main.py:984-992 | a range with a first byte means what section 14.1.2 of RFC 9110 says |
| RangeServe.SuffixMisread | api/main.py:984-986 | a suffix range is right exactly if it asks for the whole file |
| RangeServe.OtherRanges | api/main.py:975-992 | an unreadable or empty range counts as the whole file; a range with a last byte only means the first bytes up to it |
| RangeServe.RangedFileResponse | api/main.py:968-1027 | 200 with the file, 206 with exactly the bytes of the range, or 416, each with its Content-Length and Content-Range |
| RangeServe.IndexInBounds | api/main.py:1132-1170 | the shard a byte lies in is never beyond the last data shard |
| RangeServe.Stream | api/main.py:1167-1185 | the generator ends, never yields padding, and yields exactly the range of the file |
| RangeServe.ServeRangeFromShards | api/main.py:1107-1185 | when it answers, it answers as the whole-file path; with all data shards at hand it answers |
| ServedFiles.EncodedAreStored | api/main.py:1132-1170 | the shards the encoder makes of a file are those that its ranges may be served from |
| BlockCache.FitIsSuffix | cfs_mount.py:396-398 | dropping the oldest until the rest fits keeps exactly the entries from which on the sum fits |
| BlockCache.FitAppend | cfs_mount.py:388-398 | evicting after every store or once at the end leaves the same entries |
| MountCache.Runs | cfs_mount.py:98-107 | the runs spell the indexes in order and no two neighbours can be joined |
| MountCache.Cache.StoreBlock | cfs_mount.py:388-398 | the newest entry is last, the byte counter is the sum, and the oldest are evicted down to the budget |
| MountCache.Cache.Invalidate | cfs_mount.py:400-402 | exactly the entries of that file go, and the byte counter follows |
| MountCache.Cache.FetchRun | cfs_mount.py:362-375 | one request brings in exactly the blocks of its run that the file has |
| MountCache.Cache.ReadAt | cfs_mount.py:331-386 | always a prefix of the slice, and the whole slice exactly if the needed blocks fit the budget, whether the file size is known or not; the order of the entries afterwards, those read last being the newest |
| MountCache.RoomDecides | cfs_mount.py:358-386 | after fetching, all needed blocks are cached exactly if the entries from the oldest needed one on and the fetched ones fit |
| MountCache.RoomAsked | cfs_mount.py:331-386 | asking beyond the end of the file makes no difference to that |
| MountCache.FullCacheCutsShort | cfs_mount.py:358-386 | a cache with one needed block and other files' blocks that fill its budget, whatever it is, answers a read of two bytes with fewer |
| DesktopCache.Mount.BlockOf | desktop/scripts/cfs_mount.py:307-334 | hit or miss, with or without range support, the block is that of the file; a cached one is given even if the node does not answer |
| DesktopCache.Mount.StoreAhead | desktop/scripts/cfs_mount.py:326-334 | exactly which blocks are stored ahead, in which order and what is evicted; they are right, and the one asked for survives |
| DesktopCache.Mount.Read | desktop/scripts/cfs_mount.py:276-295 | the whole slice, given that the node answers |
| FolderTree.FolderStore.Add | api/files_service.py:94-105 | afterwards the folder and each of its ancestors is in the set, with what was there before and nothing else; the root is refused |
| FolderTree.FolderStore.Remove | api/files_service.py:107-115 | the folder and everything below it go; a set without gaps stays without gaps |
| FolderTree.CollectFolders | api/files_service.py:171-184 | explicit folders and all ancestors of files' folders, without gaps if the explicit ones are |
| FolderTree.RollUp | api/files_service.py:227-239 | deepest first, in place, every folder ends with the sum and count over its subtree, the root included |
| FolderTree.BuildTree | api/files_service.py:187-239 | the folders that exist, their subtree sums, and the grand total at the root |
| FolderTree.GrandTotal | api/files_service.py:227-239 | the subtree sum at the root is the sum over all files |
| FolderPaths.NormalizeFolder | api/files_service.py:27-48 | the loop returns the joined clean segments or the first complaint |
| FolderPaths.KeptIs | api/files_service.py:31-45 | the trimmed segments that are neither empty nor a dot are kept, in order and all of them; the first that is two dots, too long or has an illegal character refuses the path |
| FolderPaths.StripIs | api/files_service.py:30-33 | only characters to be dropped go, and only from both ends |
| FolderPaths.CleanIsGood | api/files_service.py:27-48 | accepted folders have at most 24 clean segments |
| FolderPaths.CleanTwice | api/files_service.py:27-48 | cleaning a clean folder changes nothing |
| FolderPaths.SplitJoin | api/files_service.py:99-102 | joining segments and splitting at the slashes gives them back |
| FolderPaths.DepthIsSlashes | api/files_service.py:232 | the sort key of the roll-up is the depth less one, with the root beside the top-level folders |
| FolderPaths.StartsWithIsBelow | api/files_service.py:112-114 | starting with a folder and a slash means lying below it |
| MobileMetadata.MetadataLength | lib/mobile/node.go:266-331 | names within their limits keep the metadata below 7000 bytes, whatever needs escaping |
| MobileMetadata.WithinReserve | lib/mobile/node.go:278 | twelve sealed shards and the metadata fit in twice the length plus 8192 |
| MetadataReading.MetadataDecides | lib/mobile/node.go:315-331 | with an encoder whose escapes tell characters apart, two objects with the same metadata are the same, in every field and chunk |
| ObjectCode.CodeObject | lib/mobile/node.go:295-305 | the shards are an encoding whose data shards start with the object; only the index error of Split can stop it |
| MobileNode.SimplestIsLawful | lib/mobile/node.go:307-321 | there are hash, seal and open functions that obey the laws asked for |
| MobileNode.ShardUsage | lib/mobile/node.go:307-321 | the sealed shards take twelve times the shard size plus 28 bytes |
| MobileNode.StaysWithin | lib/mobile/node.go:278-331 | what put stores never exceeds what its quota check set aside |
| MobileNode.Node.StoreShards | lib/mobile/node.go:307-321 | all twelve files are stored, or the directory is removed again |
| MobileNode.Node.PutObject | lib/mobile/node.go:263-332 | a bad name exactly if a length limit is broken, the name has a slash, backslash or zero character, or the folder a backslash, zero character or two dots in a row; the other refusals from size, quota, capacity and failing writes alone; a failed put changes nothing, a successful one stores the object or finds one with its hash, and a node within its quota stays within it |
| MobileNode.OpenShard | lib/mobile/node.go:339-347 | a shard file that the hash can tell from the stored one opens to the shard exactly if it is the stored one; anything else is an erasure |
| MobileNode.RebuildObject | lib/mobile/node.go:349-355 | exactly with eight intact shards, all twelve are back |
| MobileNode.ReadObject | lib/mobile/node.go:333-364 | what is returned has the recorded hash; unless the hash mistakes a shard file, it is the object exactly if at least eight shard files are intact |
| MobileNode.IntactAfterPut | lib/mobile/node.go:263-332 | after put all twelve files are intact |
| MobileNode.UnmistakenAfterPut | lib/mobile/node.go:263-332 | after put the hash mistakes none of them |
| MobileNode.IntactAfterOthers | lib/mobile/node.go:263-332 | putting another object does not touch them |
| MobileNode.IntactAfterDamage | lib/mobile/node.go:333-348 | damaging some files costs no more than those |

## Left out

- Assembly: the amd64 kernels are reference loops with the contract their callers rely on (whole blocks of the range, the rest untouched); the machine code is not modelled, nor are the generated kernels for each shape, nor arm64 and ppc64le.
- Kernels.SliceXorUnrolled: the four 64-bit words of a turn are sequences of eight bytes, read before any is written.
- `generateMulTableSplit`: the same loops as the flat table, with another index.
- ReedSolomon.ReedSolomon.New: PAR1 (the code says that recovery can fail), the option that supplies a matrix, CPU detection and the tuning of round and split sizes. The sizes are arbitrary positive numbers, the CPU flags arbitrary booleans.
- TablePool.Pool.Get: the pool is used by one caller at a time; which of its slices comes is an arbitrary function, and the bytes in it are arbitrary. The stream encoder's own pool holds buffers whose bytes beyond what was read are arbitrary.
- ReedSolomon.ReedSolomon.Reconstruct: an empty shard with spare capacity is reused by the code; the model always allocates.
- Goroutines: codeSomeShardsP is interleaved at the grain of one kernel call, the other parallel forms at the grain of one goroutine. Tree operations are atomic, as the mutex makes them. `NewStreamC`'s concurrent reads and writes are not modelled.
- InversionTree.InversionNode.InsertInvertedMatrix: the children slice is a sequence that is replaced, not written in place.
- Updating.Update: the slices do not share memory, not even behind their lengths. What was already changed when a slice expression panics is not stated. The amd64 form is modelled; the portable `sliceXor` differs for unequal lengths.
- SplitJoin.Split: lengths are unbounded; the slices' own capacities after cutting are not modelled.
- StreamSplit.MultiReader: the bytes and the ending of the concatenation are modelled, not how far each given reader has advanced.
- Replication.Distribute: an HTTP exchange is one value (failed, rejected, or stored with a reported digest); shard indexes are not negative, digests are not empty.
- Replication.GatherShards: decryption is a function; the staging directory with its file names, the size sidecar and the wording of the problems are not modelled.
- FileRecovery.RecoverFile: the size sidecar is at hand or not; encoding and spreading the rebuilt file again, and a scan with unreachable peers (`Repair.Monotone` says what it reports), are not part of it.
- FileCodec.DecodeFile: files are byte strings that are there or not; writing the output file does not fail.
- Repair.Assess: the display counts; the order in which peers are asked is that of first mention.
- RangeServe.ServeRangeFromShards: parsing of the header text, decryption and its cache; a shard file is its bytes or unavailable.
- MountCache.Cache.ReadAt: single-threaded; a download returns exactly the bytes of the range. Other operations of the mounts, and the two variants with a simpler cache.
- DesktopCache.Mount.Read: the lock is not modelled; a failed request ends the read.
- FolderTree.BuildTree: a folder is its list of segments (FolderPaths relates the two), `folders.json` is a set, the nested display form and sort orders are not modelled.
- MobileNode.Node.PutObject: hash, seal and open are functions that obey their laws (64 plain characters, opening undoes sealing, 16 bytes of tag), random draws and write failures are parameters, and removing the directory does not fail. Loading from disk, the HTTP handlers and locks are not modelled.
- HTTP routes, discovery, gossip, user interface, telemetry, contracts and configuration: plumbing or single-branch facts.
