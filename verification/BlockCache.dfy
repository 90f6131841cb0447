/** Ordered dictionaries of file blocks, as the two mounts cache them. */
module BlockCache {
  type Bytes = seq<bv8>
  type Key = (string, nat)

  const BLOCK: nat := 1048576

  datatype Entry = Entry(key: Key, payload: Bytes)

  function Min(a: int, b: int): int { if a < b then a else b }

  // The bytes from start on, at most length of them, as far as the file goes.
  function Clip(file: Bytes, start: nat, length: nat): (r: Bytes)
    ensures |r| <= length
  {
    if start >= |file| then [] else file[start..Min(start + length, |file|)]
  }

  // Every byte from start on, until the length or the file is used up.
  lemma ClipMeans(file: Bytes, start: nat, length: nat)
    ensures start <= |file| ==> |Clip(file, start, length)| == Min(length, |file| - start)
    ensures start > |file| ==> Clip(file, start, length) == []
    ensures forall i :: 0 <= i < |Clip(file, start, length)| ==>
      start + i < |file| && Clip(file, start, length)[i] == file[start + i]
    ensures forall i :: start <= i < start + length && i < |file| ==>
      i - start < |Clip(file, start, length)| && Clip(file, start, length)[i - start] == file[i]
  {}

  // Block i of a file; the last one may be short, and those behind it are empty.
  function Block(file: Bytes, i: nat): Bytes { Clip(file, i * BLOCK, BLOCK) }

  // ---- entries in order of use, oldest first ----

  predicate Distinct(s: seq<Entry>) { forall i, k :: 0 <= i < k < |s| ==> s[i].key != s[k].key }

  predicate Has(s: seq<Entry>, key: Key) { exists i :: 0 <= i < |s| && s[i].key == key }

  // The position of a key, or the length.
  function Find(s: seq<Entry>, key: Key): (i: nat)
    ensures i <= |s| && (i < |s| <==> Has(s, key)) && (i < |s| ==> s[i].key == key)
  {
    if |s| == 0 then 0
    else if s[0].key == key then 0
    else
      assert Has(s, key) ==> Has(s[1..], key) by {
        if Has(s, key) {
          var i :| 0 <= i < |s| && s[i].key == key;
          assert s[1..][i - 1].key == key;
        }
      }
      assert forall i :: 0 <= i < |s| - 1 ==> s[1..][i] == s[i + 1];
      Find(s[1..], key) + 1
  }

  function Total(s: seq<Entry>): nat {
    if |s| == 0 then 0 else |s[0].payload| + Total(s[1..])
  }

  lemma {:induction false} TotalSum(s: seq<Entry>, t: seq<Entry>)
    ensures Total(s + t) == Total(s) + Total(t)
  {
    if |s| == 0 {
      assert s + t == t;
    } else {
      assert (s + t)[1..] == s[1..] + t;
      TotalSum(s[1..], t);
    }
  }

  // Without the entry of a key.
  function Without(s: seq<Entry>, key: Key): (r: seq<Entry>) {
    var i := Find(s, key);
    if i < |s| then s[..i] + s[i + 1..] else s
  }

  lemma WithoutTotal(s: seq<Entry>, key: Key)
    ensures Total(s) == Total(Without(s, key)) + if Has(s, key) then |s[Find(s, key)].payload| else 0
  {
    var i := Find(s, key);
    if i < |s| {
      var x := [s[i]];
      assert s == s[..i] + x + s[i + 1..];
      TotalSum(s[..i], x);
      TotalSum(s[..i] + x, s[i + 1..]);
      TotalSum(s[..i], s[i + 1..]);
      assert Total(x) == |x[0].payload| + Total(x[1..]);
    }
  }

  lemma WithoutKeys(s: seq<Entry>, key: Key)
    requires Distinct(s)
    ensures Distinct(Without(s, key)) && !Has(Without(s, key), key)
    ensures forall e :: e in Without(s, key) <==> e in s && e.key != key
  {
    hide Find;
    var i, r := Find(s, key), Without(s, key);
    if i < |s| {
      forall k | 0 <= k < |r|
        ensures r[k] == s[if k < i then k else k + 1] && r[k].key != key
      {
        assert r[k] == (s[..i] + s[i + 1..])[k];
      }
      forall e | e in s && e.key != key
        ensures e in r
      {
        var k :| 0 <= k < |s| && s[k] == e;
        assert r[if k < i then k else k - 1] == e;
      }
    }
  }

  // ---- keeping within a budget of bytes: the oldest go first ----

  function Fit(s: seq<Entry>, budget: nat): (r: seq<Entry>)
    ensures Total(r) <= budget && |r| <= |s|
  {
    if Total(s) <= budget then s else Fit(s[1..], budget)
  }

  /** What is kept is the longest ending that fits: entry p stays exactly if it and all behind it fit. */
  lemma {:induction false} FitIsSuffix(s: seq<Entry>, budget: nat)
    ensures Fit(s, budget) == s[|s| - |Fit(s, budget)|..]
    ensures forall p :: 0 <= p <= |s| ==> (p >= |s| - |Fit(s, budget)| <==> Total(s[p..]) <= budget)
  {
    if Total(s) <= budget {
      assert s[0..] == s;
      forall p | 0 <= p <= |s|
        ensures Total(s[p..]) <= budget
      {
        assert s == s[..p] + s[p..];
        TotalSum(s[..p], s[p..]);
      }
    } else {
      FitIsSuffix(s[1..], budget);
      assert s[0..] == s;
      forall p | 1 <= p <= |s|
        ensures s[p..] == s[1..][p - 1..]
      {}
    }
  }

  /** Storing one at a time and trimming each time keeps the same as storing all and trimming once. */
  lemma {:induction false} FitAppend(s: seq<Entry>, t: seq<Entry>, budget: nat)
    ensures Fit(Fit(s, budget) + t, budget) == Fit(s + t, budget)
  {
    if Total(s) > budget {
      TotalSum(s, t);
      assert (s + t)[1..] == s[1..] + t;
      FitAppend(s[1..], t, budget);
    }
  }
}
