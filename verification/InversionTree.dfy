/** The cache of inverted matrices (inversion_tree.go): a tree of nodes, keyed by the increasing
    list of invalid row indices.  It refines a finite map from such lists to matrices. */
module InversionTree {
  import opened Wrappers
  import opened LinearAlgebra

  // Strictly increasing indices in parent..shards.
  ghost predicate KeyOk(key: seq<nat>, parent: nat, shards: nat) {
    && (forall i :: 0 <= i < |key| ==> parent <= key[i] < shards)
    && (forall i, j :: 0 <= i < j < |key| ==> key[i] < key[j])
  }

  function Find<K, V>(m: map<K, V>, key: K): Option<V> {
    if key in m then Some(m[key]) else None
  }

  class InversionNode {
    var matrix: Option<Mat>
    var children: seq<InversionNode?>

    // The matrices below this node, keyed by the indices still to follow.
    ghost var Cached: map<seq<nat>, Mat>
    ghost var Repr: set<object>

    // Children live inside Repr, apart from each other and from this node.
    ghost predicate Separate()
      reads this, Repr
    {
      && this in Repr
      && (forall i :: 0 <= i < |children| && children[i] != null ==>
            children[i] in Repr && children[i].Repr <= Repr && this !in children[i].Repr)
      && (forall i, j :: 0 <= i < j < |children| && children[i] != null && children[j] != null ==>
            children[i].Repr !! children[j].Repr)
    }

    ghost predicate Linked(parent: nat)
      reads this, set i | 0 <= i < |children| :: children[i]
    {
      forall key :: Stored(key, parent) == Find(Cached, key)
    }

    ghost predicate Valid(parent: nat, shards: nat)
      reads this, Repr
      ensures Valid(parent, shards) ==> this in Repr
      decreases Repr
    {
      && Separate() && parent <= shards && |children| >= shards - parent
      && (forall i :: 0 <= i < |children| && children[i] != null ==>
            parent + i < shards && children[i].Valid(parent + i + 1, shards))
      && Linked(parent)
    }

    // What the node itself or one of its children says about a key.
    ghost function Stored(key: seq<nat>, parent: nat): Option<Mat>
      reads this, set i | 0 <= i < |children| :: children[i]
    {
      if key == [] then matrix
      else if parent <= key[0] < parent + |children| && children[key[0] - parent] != null then
        var child := children[key[0] - parent];
        Find(child.Cached, key[1..])
      else None
    }

    constructor (size: nat, m: Option<Mat>, ghost parent: nat, ghost shards: nat)
      requires parent <= shards <= parent + size
      ensures Valid(parent, shards) && Repr == {this} && matrix == m
      ensures Cached == if m.Some? then map[[] := m.value] else map[]
    {
      matrix := m;
      children := seq(size, _ => null);
      Cached := if m.Some? then map[[] := m.value] else map[];
      Repr := {this};
    }

    method GetInvertedMatrix(invalidIndices: seq<nat>, parent: nat, ghost shards: nat) returns (r: Option<Mat>)
      requires Valid(parent, shards) && KeyOk(invalidIndices, parent, shards) && |invalidIndices| > 0
      ensures r == Find(Cached, invalidIndices)
      decreases |invalidIndices|
    {
      var firstIndex := invalidIndices[0];
      var node := children[firstIndex - parent];
      assert Stored(invalidIndices, parent) == Find(Cached, invalidIndices);
      if node == null {
        return None;
      }
      if |invalidIndices| > 1 {
        r := node.GetInvertedMatrix(invalidIndices[1..], firstIndex + 1, shards);
      } else {
        assert invalidIndices[1..] == [];
        assert node.Stored([], firstIndex + 1) == Find(node.Cached, []);
        r := node.matrix;
      }
    }

    // Caches a matrix in this very node.
    method SetMatrix(m: Mat, ghost parent: nat, ghost shards: nat)
      requires Valid(parent, shards)
      modifies this
      ensures Valid(parent, shards) && Repr == old(Repr) && matrix == Some(m)
      ensures Cached == old(Cached)[[] := m]
    {
      matrix := Some(m);
      Cached := Cached[[] := m];
      assert forall key :: key != [] ==> Stored(key, parent) == old(Stored(key, parent));
    }

    // The child for an index, created empty if it does not exist yet.
    method ChildAt(firstIndex: nat, parent: nat, shards: nat) returns (node: InversionNode)
      requires Valid(parent, shards) && parent <= firstIndex < shards
      modifies Repr
      ensures Valid(parent, shards) && fresh(Repr - old(Repr)) && matrix == old(matrix) && Cached == old(Cached)
      ensures node == children[firstIndex - parent]
    {
      if children[firstIndex - parent] == null {
        ghost var stored := imap key | true :: Stored(key, parent);
        node := new InversionNode(shards - firstIndex, None, firstIndex + 1, shards);
        children := children[firstIndex - parent := node];
        Repr := Repr + node.Repr;
        forall i | 0 <= i < |children| && children[i] != null
          ensures children[i] in Repr && children[i].Repr <= Repr && this !in children[i].Repr
          ensures parent + i < shards && children[i].Valid(parent + i + 1, shards)
          ensures i != firstIndex - parent ==>
            children[i] == old(children[i]) && children[i].Cached == old(children[i].Cached)
        {
          hide Linked, Stored;
        }
        forall key
          ensures Stored(key, parent) == stored[key]
        {
          hide Linked, Valid;
        }
        assert forall key :: stored[key] == Find(Cached, key);
      } else {
        node := children[firstIndex - parent];
      }
    }

    // Below the child for the first index: recurse with that index popped, or store here.
    method InsertTail(invalidIndices: seq<nat>, m: Mat, shards: nat)
      requires |invalidIndices| > 0 && Valid(invalidIndices[0] + 1, shards) &&
        KeyOk(invalidIndices, invalidIndices[0], shards)
      modifies Repr
      ensures Valid(invalidIndices[0] + 1, shards) && fresh(Repr - old(Repr))
      ensures Cached == old(Cached)[invalidIndices[1..] := m]
      decreases |invalidIndices|, 0
    {
      if |invalidIndices| > 1 {
        InsertInvertedMatrix(invalidIndices[1..], m, shards, invalidIndices[0] + 1);
      } else {
        SetMatrix(m, invalidIndices[0] + 1, shards);
        assert invalidIndices[1..] == [];
      }
    }

    method InsertInvertedMatrix(invalidIndices: seq<nat>, m: Mat, shards: nat, parent: nat)
      requires Valid(parent, shards) && KeyOk(invalidIndices, parent, shards) && |invalidIndices| > 0
      modifies Repr
      ensures Valid(parent, shards) && fresh(Repr - old(Repr)) && matrix == old(matrix)
      ensures Cached == old(Cached)[invalidIndices := m]
      decreases |invalidIndices|, 2
    {
      var node := ChildAt(invalidIndices[0], parent, shards);
      InsertBelow(node, invalidIndices, m, shards, parent);
    }

    method InsertBelow(node: InversionNode, invalidIndices: seq<nat>, m: Mat, shards: nat, parent: nat)
      requires Valid(parent, shards) && KeyOk(invalidIndices, parent, shards) && |invalidIndices| > 0
      requires node == children[invalidIndices[0] - parent]
      modifies Repr
      ensures Valid(parent, shards) && fresh(Repr - old(Repr)) && matrix == old(matrix)
      ensures Cached == old(Cached)[invalidIndices := m]
      decreases |invalidIndices|, 1
    {
      ghost var i0 := invalidIndices[0] - parent;
      ghost var stored := imap key | true :: Stored(key, parent);
      node.InsertTail(invalidIndices, m, shards);
      forall i | 0 <= i < |children| && i != i0 && children[i] != null
        ensures children[i].Repr == old(children[i].Repr) && children[i].Cached == old(children[i].Cached) &&
          children[i].Valid(parent + i + 1, shards)
      {
        hide Linked, Stored;
        assert children[i] in children[i].Repr && children[i].Repr !! old(node.Repr);
      }
      forall i, j | 0 <= i < j < |children| && children[i] != null && children[j] != null
        ensures children[i].Repr !! children[j].Repr
      {
        hide Linked, Stored, Valid;
      }
      assert forall key :: stored[key] == Find(Cached, key);
      forall key
        ensures Stored(key, parent) == if key == invalidIndices then Some(m) else stored[key]
      {
        hide Linked, Valid, Separate;
        KeyTails(key, invalidIndices);
      }
      Absorb(i0, invalidIndices, m, parent, shards);
    }

    // Book-keeping: everything is as it should be but for this node's own summary.
    ghost method Absorb(i0: nat, invalidIndices: seq<nat>, m: Mat, parent: nat, shards: nat)
      requires this in Repr && parent <= shards && |children| >= shards - parent
      requires i0 < |children| && children[i0] != null && children[i0] in Repr
      requires forall i :: 0 <= i < |children| && children[i] != null ==>
        parent + i < shards && children[i].Valid(parent + i + 1, shards) && this !in children[i].Repr
      requires forall i :: 0 <= i < |children| && i != i0 && children[i] != null ==>
        children[i] in Repr && children[i].Repr <= Repr
      requires forall i, j :: 0 <= i < j < |children| && children[i] != null && children[j] != null ==>
        children[i].Repr !! children[j].Repr
      requires forall key :: Stored(key, parent) == if key == invalidIndices then Some(m) else Find(Cached, key)
      modifies this
      ensures Valid(parent, shards) && matrix == old(matrix) && Repr == old(Repr) + children[i0].Repr
      ensures children == old(children) && Cached == old(Cached)[invalidIndices := m]
    {
      Repr := Repr + children[i0].Repr;
      Cached := Cached[invalidIndices := m];
      forall key
        ensures Stored(key, parent) == Find(Cached, key)
      {
        assert Stored(key, parent) == old(Stored(key, parent));
      }
      assert Linked(parent);
    }
  }

  // Keys with the same head are the same exactly when their tails are.
  lemma KeyTails(a: seq<nat>, b: seq<nat>)
    requires |b| > 0
    ensures a == b <==> |a| > 0 && a[0] == b[0] && a[1..] == b[1..]
  {
    if |a| > 0 && a[0] == b[0] && a[1..] == b[1..] {
      assert a == [a[0]] + a[1..];
      assert b == [b[0]] + b[1..];
    }
  }

  // inversionTree: the root holds the identity, for no invalid row at all.
  class InversionTree {
    var root: InversionNode
    const shards: nat

    ghost predicate Valid()
      reads this, root, root.Repr
    {
      root.Valid(0, shards) && this !in root.Repr && root.matrix.Some?
    }

    // The finite map the tree stands for.
    ghost function Cached(): map<seq<nat>, Mat>
      reads this, root
    {
      root.Cached
    }

    constructor (dataShards: nat, parityShards: nat)
      ensures Valid() && fresh(root) && fresh(root.Repr) && shards == dataShards + parityShards
      ensures Cached() == map[[] := Id(dataShards)]
    {
      shards := dataShards + parityShards;
      root := new InversionNode(dataShards + parityShards, Some(Id(dataShards)), 0, dataShards + parityShards);
    }

    method GetInvertedMatrix(invalidIndices: seq<nat>) returns (r: Option<Mat>)
      requires Valid() && KeyOk(invalidIndices, 0, shards)
      ensures r == Find(Cached(), invalidIndices)
    {
      if |invalidIndices| == 0 {
        assert root.Stored([], 0) == Find(root.Cached, []);
        return root.matrix;
      }
      r := root.GetInvertedMatrix(invalidIndices, 0, shards);
    }

    method InsertInvertedMatrix(invalidIndices: seq<nat>, m: Mat, total: nat) returns (err: Option<Error>)
      requires Valid() && KeyOk(invalidIndices, 0, shards) && total == shards && |m| > 0
      modifies root.Repr
      ensures Valid() && root == old(root) && fresh(root.Repr - old(root.Repr))
      ensures err == if |invalidIndices| == 0 then Some(AlreadySet) else if |m| != |m[0]| then Some(NotSquare) else None
      ensures Cached() == if err == None then old(Cached())[invalidIndices := m] else old(Cached())
    {
      if |invalidIndices| == 0 {
        return Some(AlreadySet);
      }
      if |m| != |m[0]| {
        return Some(NotSquare);
      }
      root.InsertInvertedMatrix(invalidIndices, m, total, 0);
      return None;
    }
  }
}
