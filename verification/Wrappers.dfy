/** Error values and results shared by the codec modules. */
module Wrappers {

  datatype Option<+T> = None | Some(value: T)

  // The error values of matrix.go, inversion_tree.go, reedsolomon.go and streaming.go.
  datatype Error =
    | InternalError
    | InvalidRowSize
    | InvalidColSize
    | MatrixSize
    | Singular
    | NotSquare
    | AlreadySet
    | InvShardNum
    | MaxShardNum
    | TooFewShards
    | ShardNoData
    | ShardSize
    | ShortData
    | ReconstructRequired
    | InvalidInput
    | StreamReadError(stream: nat)
    | StreamWriteError(stream: nat)
    | ReconstructMismatch
    | IoError // the error of a caller's own reader or writer
    | Panicked // not a value: the call ends in a run-time panic, which its callers pass on like an error

  datatype Result<+T> = Ok(value: T) | Err(error: Error)

  // {0, ..., n - 1}
  function Below(n: nat): (r: set<nat>)
    ensures |r| == n && forall k: nat :: k in r <==> k < n
  {
    if n == 0 then {} else Below(n - 1) + {n - 1}
  }

  lemma {:induction false} SubsetSize<T>(a: set<T>, b: set<T>)
    requires a <= b
    ensures |a| <= |b|
    decreases |a|
  {
    if a != {} {
      var x :| x in a;
      SubsetSize(a - {x}, b - {x});
    }
  }

  lemma SameSize<T>(a: set<T>, b: set<T>)
    requires a <= b && |a| == |b|
    ensures a == b
  {
    assert b == a + (b - a) && |b| == |a| + |b - a|;
  }

  // A slice of a slice is a slice.
  lemma SliceOfSlice<T>(s: seq<T>, lo: int, hi: int, a: int, b: int)
    requires 0 <= lo <= hi <= |s| && 0 <= a <= b <= hi - lo
    ensures s[lo..hi][a..b] == s[lo + a..lo + b]
  {
    forall k | 0 <= k < b - a
      ensures s[lo..hi][a..b][k] == s[lo + a..lo + b][k]
    {
      assert s[lo..hi][a..b][k] == s[lo..hi][a + k] == s[lo + a + k];
    }
  }
}
