/** The folder tree over the flat file list (api/files_service.py): folder sets without gaps, and sizes
    rolled up from the deepest folders to the root.  A folder is the list of its segments; the root is
    the empty list. */
module FolderTree {
  import opened Wrappers

  type Path = seq<string>

  // ---- folder sets ----

  // Every ancestor but the root is there, too.
  ghost predicate Closed(folders: set<Path>) {
    forall f, n: nat :: f in folders && 0 < n <= |f| ==> f[..n] in folders
  }

  ghost function Prefixes(f: Path): set<Path> { set n: nat | 0 < n <= |f| :: f[..n] }

  function ParentOf(f: Path): Path
    requires f != []
  {
    f[..|f| - 1]
  }

  // How many slashes the joined path has: none for the root and for top-level folders.
  function Depth(f: Path): nat { if |f| == 0 then 0 else |f| - 1 }

  lemma PrefixesAre(folder: Path)
    ensures forall f :: f in Prefixes(folder) <==> f != [] && f <= folder
  {
    forall f | f != [] && f <= folder
      ensures f in Prefixes(folder)
    {
      assert f == folder[..|f|];
    }
  }

  /** The explicit folders, kept between runs. */
  class FolderStore {
    var folders: set<Path>

    constructor ()
      ensures folders == {} && Closed(folders)
    {
      folders := {};
    }

    /** add: the folder and every ancestor. */
    method Add(folder: Path) returns (ok: bool)
      modifies this
      ensures ok <==> folder != []
      ensures folders == old(folders) + (if ok then Prefixes(folder) else {})
      ensures forall f :: f in folders <==> f in old(folders) || (f != [] && f <= folder)
      ensures old(Closed(folders)) ==> Closed(folders)
    {
      if folder == [] {
        return false;
      }
      var current := folders;
      for index := 1 to |folder| + 1
        invariant current == folders + (set n: nat | 0 < n < index :: folder[..n])
      {
        current := current + {folder[..index]};
      }
      assert current == folders + Prefixes(folder);
      PrefixesAre(folder);
      folders := current;
      return true;
    }

    /** remove: the folder and everything below it. */
    method Remove(folder: Path) returns (ok: bool)
      modifies this
      ensures ok <==> folder != []
      ensures folders == if ok then (set f | f in old(folders) && !(folder <= f)) else old(folders)
      ensures old(Closed(folders)) ==> Closed(folders)
    {
      if folder == [] {
        return false;
      }
      folders := set f | f in folders && f != folder && !(folder < f);
      return true;
    }
  }

  datatype File = File(folder: Path, size: int)

  /** collect_folders: the explicit folders and those the files lie in, with their ancestors. */
  method CollectFolders(files: seq<File>, explicit: set<Path>) returns (folders: set<Path>)
    ensures forall f :: f in folders <==>
      f in explicit || (f != [] && exists k :: 0 <= k < |files| && f <= files[k].folder)
    ensures Closed(explicit) ==> Closed(folders)
  {
    folders := explicit;
    for k := 0 to |files|
      invariant forall f :: f in folders <==>
        f in explicit || (f != [] && exists j :: 0 <= j < k && f <= files[j].folder)
    {
      var parts := files[k].folder;
      ghost var before := folders;
      for index := 1 to |parts| + 1
        invariant forall f :: f in folders <==> f in before || (0 < |f| < index && f <= parts)
      {
        folders := folders + {parts[..index]};
        assert forall f: Path :: |f| == index && f <= parts ==> f == parts[..index];
      }
    }
  }

  // ---- sums over files ----

  function SumIf(files: seq<File>, c: Path -> bool): int {
    if |files| == 0 then 0
    else
      var last := files[|files| - 1];
      SumIf(files[..|files| - 1], c) + if c(last.folder) then last.size else 0
  }

  function CountIf(files: seq<File>, c: Path -> bool): nat {
    if |files| == 0 then 0 else CountIf(files[..|files| - 1], c) + if c(files[|files| - 1].folder) then 1 else 0
  }

  lemma {:induction false} SumSplit(files: seq<File>, c: Path -> bool, a: Path -> bool, b: Path -> bool)
    requires forall k :: 0 <= k < |files| ==> (c(files[k].folder) <==> a(files[k].folder) || b(files[k].folder))
    requires forall k :: 0 <= k < |files| ==> !(a(files[k].folder) && b(files[k].folder))
    ensures SumIf(files, c) == SumIf(files, a) + SumIf(files, b) &&
      CountIf(files, c) == CountIf(files, a) + CountIf(files, b)
  {
    if |files| > 0 {
      SumSplit(files[..|files| - 1], c, a, b);
    }
  }

  lemma {:induction false} SumSame(files: seq<File>, a: Path -> bool, b: Path -> bool)
    requires forall k :: 0 <= k < |files| ==> (a(files[k].folder) <==> b(files[k].folder))
    ensures SumIf(files, a) == SumIf(files, b) && CountIf(files, a) == CountIf(files, b)
  {
    if |files| > 0 {
      SumSame(files[..|files| - 1], a, b);
    }
  }

  // ---- the tree ----

  class Node {
    const path: Path
    var files: seq<File>
    var size: int
    var fileCount: nat

    constructor (path: Path)
      ensures this.path == path && files == [] && size == 0 && fileCount == 0
    {
      this.path, files, size, fileCount := path, [], 0, 0;
    }
  }

  // One node per folder and one for the root.
  ghost predicate Indexed(index: map<Path, Node>) {
    [] in index && (forall p, q :: p in index && q in index && p != q ==> index[p] != index[q])
  }

  // The files that lie in f itself.
  function In(f: Path): Path -> bool { g => g == f }

  // The files that lie in f or below it.
  function Under(f: Path): Path -> bool { g => f <= g }

  // The child of f on the way to g.
  function Toward(f: Path, g: Path): Path
    requires f < g
  {
    g[..|f| + 1]
  }

  // The files that node f counts when the folders in `rolled` have been rolled up.
  function Counted(f: Path, rolled: set<Path>): Path -> bool {
    g => (f == g && f in rolled) || (f < g && Toward(f, g) in rolled)
  }

  // Every node counts exactly that.
  ghost predicate RolledUp(index: map<Path, Node>, files: seq<File>, rolled: set<Path>)
    reads index.Values
  {
    forall f :: f in index ==>
      index[f].size == SumIf(files, Counted(f, rolled)) && index[f].fileCount == CountIf(files, Counted(f, rolled))
  }

  function SizeOf(files: seq<File>): int {
    if |files| == 0 then 0 else SizeOf(files[..|files| - 1]) + files[|files| - 1].size
  }

  // A folder is rolled up after everything below it.
  ghost predicate DeepestFirst(order: seq<Path>) {
    forall i, k :: 0 <= i < k < |order| ==> order[i] != order[k] && Depth(order[i]) >= Depth(order[k])
  }

  lemma OwnStep(files: seq<File>, f: Path, rolled: set<Path>)
    requires f !in rolled
    ensures SumIf(files, Counted(f, rolled + {f})) == SumIf(files, Counted(f, rolled)) + SumIf(files, In(f))
    ensures CountIf(files, Counted(f, rolled + {f})) == CountIf(files, Counted(f, rolled)) + CountIf(files, In(f))
  {
    SumSplit(files, Counted(f, rolled + {f}), Counted(f, rolled), In(f));
  }

  // A folder whose whole subtree is rolled up counts all files under it.
  lemma WholeSubtree(files: seq<File>, f: Path, rolled: set<Path>)
    requires f in rolled && forall k :: 0 <= k < |files| && f < files[k].folder ==> Toward(f, files[k].folder) in rolled
    ensures SumIf(files, Counted(f, rolled)) == SumIf(files, Under(f)) &&
      CountIf(files, Counted(f, rolled)) == CountIf(files, Under(f))
  {
    SumSame(files, Counted(f, rolled), Under(f));
  }

  lemma ParentStep(files: seq<File>, f: Path, rolled: set<Path>)
    requires f != [] && f !in rolled
    ensures var p := ParentOf(f);
      SumIf(files, Counted(p, rolled + {f})) == SumIf(files, Counted(p, rolled)) + SumIf(files, Under(f)) &&
      CountIf(files, Counted(p, rolled + {f})) == CountIf(files, Counted(p, rolled)) + CountIf(files, Under(f))
  {
    var p := ParentOf(f);
    forall k | 0 <= k < |files|
      ensures Counted(p, rolled + {f})(files[k].folder) <==>
        Counted(p, rolled)(files[k].folder) || Under(f)(files[k].folder)
      ensures !(Counted(p, rolled)(files[k].folder) && Under(f)(files[k].folder))
    {
      var g := files[k].folder;
      assert f <= g <==> p < g && Toward(p, g) == f;
    }
    SumSplit(files, Counted(p, rolled + {f}), Counted(p, rolled), Under(f));
  }

  lemma OtherStep(files: seq<File>, f: Path, q: Path, rolled: set<Path>)
    requires q != f && (f != [] ==> q != ParentOf(f))
    ensures SumIf(files, Counted(q, rolled + {f})) == SumIf(files, Counted(q, rolled)) &&
      CountIf(files, Counted(q, rolled + {f})) == CountIf(files, Counted(q, rolled))
  {
    SumSame(files, Counted(q, rolled + {f}), Counted(q, rolled));
  }

  // Before f, everything in the index below f is rolled up.
  lemma BelowRolled(index: set<Path>, order: seq<Path>, k: nat, g: Path)
    requires k < |order| && DeepestFirst(order) && (forall f :: f in index <==> f in order)
    requires order[k] != [] && order[k] < g && g in index
    ensures g in order[..k]
  {
    var i :| 0 <= i < |order| && order[i] == g;
    assert Depth(g) > Depth(order[k]);
    assert order[..k][i] == g;
  }

  // The folder of every file is in the index, with all its ancestors.
  ghost predicate Fitting(index: map<Path, Node>, order: seq<Path>, files: seq<File>) {
    && Indexed(index) && DeepestFirst(order) && (forall f :: f in index <==> f in order)
    && forall k, f :: 0 <= k < |files| && f <= files[k].folder ==> f in index
  }

  // The own files of every folder.
  ghost predicate Filed(index: map<Path, Node>, files: seq<File>)
    reads index.Values
  {
    forall f :: f in index ==>
      SizeOf(index[f].files) == SumIf(files, In(f)) && |index[f].files| == CountIf(files, In(f))
  }

  lemma {:induction false} NothingCounted(files: seq<File>, f: Path)
    ensures SumIf(files, Counted(f, {})) == 0 && CountIf(files, Counted(f, {})) == 0
  {
    if |files| > 0 {
      NothingCounted(files[..|files| - 1], f);
    }
  }

  // After the own files of f are added, f counts all files under it.
  lemma OwnWhole(index: map<Path, Node>, order: seq<Path>, k: nat, files: seq<File>, rolled: set<Path>)
    requires Fitting(index, order, files) && k < |order| && order[k] != [] &&
      forall f :: f in rolled <==> f in order[..k]
    ensures var f := order[k];
      SumIf(files, Counted(f, rolled + {f})) == SumIf(files, Under(f)) &&
      CountIf(files, Counted(f, rolled + {f})) == CountIf(files, Under(f))
  {
    var f := order[k];
    forall j | 0 <= j < |files| && f < files[j].folder
      ensures Toward(f, files[j].folder) in rolled + {f}
    {
      var g := Toward(f, files[j].folder);
      assert g <= files[j].folder && g in index;
      BelowRolled(index.Keys, order, k, g);
    }
    WholeSubtree(files, f, rolled + {f});
  }

  // One turn of the roll-up loop.
  method RollOne(index: map<Path, Node>, order: seq<Path>, k: nat, files: seq<File>, ghost rolled: set<Path>)
    requires Fitting(index, order, files) && Filed(index, files) && k < |order| &&
      (forall f :: f in rolled <==> f in order[..k])
    requires RolledUp(index, files, rolled)
    modifies index.Values
    ensures forall f :: f in index ==> index[f].files == old(index[f].files)
    ensures RolledUp(index, files, rolled + {order[k]})
  {
    hide Closed, SumIf, CountIf, Counted, Under, In, SizeOf;
    var f := order[k];
    assert f !in rolled;
    var node := index[f];
    OwnStep(files, f, rolled);
    var own := TotalSize(node.files);
    node.size := node.size + own;
    node.fileCount := node.fileCount + |node.files|;
    forall q | q in index && q != f && (f != [] ==> q != ParentOf(f))
      ensures SumIf(files, Counted(q, rolled + {f})) == SumIf(files, Counted(q, rolled)) &&
        CountIf(files, Counted(q, rolled + {f})) == CountIf(files, Counted(q, rolled))
    {
      OtherStep(files, f, q, rolled);
    }
    if f != [] {
      OwnWhole(index, order, k, files, rolled);
      ParentStep(files, f, rolled);
      if ParentOf(f) in index {
        var parent := index[ParentOf(f)];
        parent.size := parent.size + node.size;
        parent.fileCount := parent.fileCount + node.fileCount;
      }
    }
    forall q | q in index
      ensures index[q].size == SumIf(files, Counted(q, rolled + {f})) &&
        index[q].fileCount == CountIf(files, Counted(q, rolled + {f}))
    {
      assert f != [] ==> f != ParentOf(f);
      assert q != f ==> index[q] != node;
    }
  }

  // sum(...) over the files of a folder.
  method TotalSize(files: seq<File>) returns (n: int)
    ensures n == SizeOf(files)
  {
    n := 0;
    for k := 0 to |files|
      invariant n == SizeOf(files[..k])
    {
      assert files[..k + 1][..k] == files[..k];
      n := n + files[k].size;
    }
    assert files[..|files|] == files;
  }

  /** The roll-up loop: in place, own files first, then one addition to the parent.  Every folder ends up
      with the files in it and below it. */
  method RollUp(index: map<Path, Node>, order: seq<Path>, files: seq<File>)
    requires Fitting(index, order, files) && Filed(index, files) &&
      forall f :: f in index ==> index[f].size == 0 && index[f].fileCount == 0
    modifies index.Values
    ensures forall f :: f in index ==> index[f].files == old(index[f].files)
    ensures forall f :: f in index ==>
      index[f].size == SumIf(files, Under(f)) && index[f].fileCount == CountIf(files, Under(f))
  {
    hide Closed, SumIf, CountIf, Counted, Under, In, SizeOf;
    ghost var rolled: set<Path> := {};
    forall f | f in index
      ensures SumIf(files, Counted(f, {})) == 0 && CountIf(files, Counted(f, {})) == 0
    {
      NothingCounted(files, f);
    }
    for k := 0 to |order|
      invariant forall f :: f in rolled <==> f in order[..k]
      invariant forall f :: f in index ==> index[f].files == old(index[f].files)
      invariant RolledUp(index, files, rolled)
    {
      RollOne(index, order, k, files, rolled);
      rolled := rolled + {order[k]};
      assert order[..k + 1] == order[..k] + [order[k]];
    }
    assert order[..|order|] == order;
    forall f | f in index
      ensures SumIf(files, Counted(f, rolled)) == SumIf(files, Under(f)) &&
        CountIf(files, Counted(f, rolled)) == CountIf(files, Under(f))
    {
      AllRolled(index, order, files, f, rolled);
    }
  }

  lemma AllRolled(index: map<Path, Node>, order: seq<Path>, files: seq<File>, f: Path, rolled: set<Path>)
    requires Fitting(index, order, files) && f in index && forall g :: g in rolled <==> g in index
    ensures SumIf(files, Counted(f, rolled)) == SumIf(files, Under(f)) &&
      CountIf(files, Counted(f, rolled)) == CountIf(files, Under(f))
  {
    forall j | 0 <= j < |files| && f < files[j].folder
      ensures Toward(f, files[j].folder) in rolled
    {
      var g := Toward(f, files[j].folder);
      assert g <= files[j].folder && g in index;
    }
    WholeSubtree(files, f, rolled);
  }

  // A node for the root and every folder.
  method MakeIndex(folders: set<Path>) returns (index: map<Path, Node>)
    requires [] !in folders
    ensures (forall f :: f in index <==> f in folders || f == []) && Indexed(index) &&
      (forall f :: f in index ==> fresh(index[f]))
    ensures forall f :: f in index ==>
      index[f].path == f && index[f].files == [] && index[f].size == 0 && index[f].fileCount == 0
  {
    var root := new Node([]);
    index := map[[] := root];
    var todo := folders;
    while todo != {}
      invariant todo <= folders && Indexed(index) && forall f :: f in index <==> (f in folders && f !in todo) || f == []
      invariant forall f :: f in index ==> fresh(index[f])
      invariant forall f :: f in index ==>
        index[f].path == f && index[f].files == [] && index[f].size == 0 && index[f].fileCount == 0
      decreases |todo|
    {
      var f :| f in todo;
      var node := new Node(f);
      index := index[f := node];
      todo := todo - {f};
    }
  }

  // Every file into the node of its folder.
  method FileAll(index: map<Path, Node>, files: seq<File>)
    requires Indexed(index) && (forall k :: 0 <= k < |files| ==> files[k].folder in index) &&
      forall f :: f in index ==> index[f].files == []
    modifies index.Values
    ensures Filed(index, files)
    ensures forall f :: f in index ==>
      index[f].size == old(index[f].size) && index[f].fileCount == old(index[f].fileCount)
  {
    hide SizeOf, SumIf, CountIf;
    assert Filed(index, files[..0]) by { NothingFiled(index); }
    for k := 0 to |files|
      invariant Filed(index, files[..k])
      invariant forall f :: f in index ==>
        index[f].size == old(index[f].size) && index[f].fileCount == old(index[f].fileCount)
    {
      var node := index[files[k].folder];
      FileOne(node.files, files, k);
      node.files := node.files + [files[k]];
    }
    assert files[..|files|] == files;
  }

  lemma NothingFiled(index: map<Path, Node>)
    requires forall f :: f in index ==> index[f].files == []
    ensures Filed(index, [])
  {}

  lemma FileOne(here: seq<File>, files: seq<File>, k: nat)
    requires k < |files|
    ensures SizeOf(here + [files[k]]) == SizeOf(here) + files[k].size
    ensures forall f ::
      SumIf(files[..k + 1], In(f)) == SumIf(files[..k], In(f)) + if files[k].folder == f then files[k].size else 0
    ensures forall f :: CountIf(files[..k + 1], In(f)) == CountIf(files[..k], In(f)) + if files[k].folder == f then 1
      else 0
  {
    assert (here + [files[k]])[..|here|] == here && files[..k + 1][..k] == files[..k];
  }

  // Some order with the deepest folders first.
  method ByDepth(keys: set<Path>) returns (order: seq<Path>)
    ensures DeepestFirst(order) && forall f :: f in keys <==> f in order
  {
    order := [];
    var todo := keys;
    while todo != {}
      invariant todo <= keys && DeepestFirst(order) && (forall f :: f in keys <==> f in order || f in todo)
      invariant forall i, f :: 0 <= i < |order| && f in todo ==> order[i] != f && Depth(order[i]) >= Depth(f)
      decreases |todo|
    {
      ghost var deepest := Deepest(todo);
      var f :| f in todo && forall g :: g in todo ==> Depth(f) >= Depth(g);
      order := order + [f];
      todo := todo - {f};
    }
  }

  lemma {:induction false} Deepest(s: set<Path>) returns (f: Path)
    requires s != {}
    ensures f in s && forall g :: g in s ==> Depth(f) >= Depth(g)
    decreases |s|
  {
    f :| f in s;
    var rest := s - {f};
    if rest == {} {
      assert s == {f};
    } else {
      var g := Deepest(rest);
      assert s == rest + {f};
      if Depth(g) > Depth(f) {
        f := g;
      }
    }
  }

  /** build_tree: whatever the explicit folders, every folder's size and count are those of the files in it
      and below it, and the root has the grand total. */
  method BuildTree(files: seq<File>, explicit: set<Path>) returns (index: map<Path, Node>)
    requires [] !in explicit
    ensures forall f :: f in index <==> f == [] || f in explicit || exists k :: 0 <= k < |files| && f <= files[k].folder
    ensures forall f :: f in index ==>
      index[f].size == SumIf(files, Under(f)) && index[f].fileCount == CountIf(files, Under(f))
    ensures [] in index && index[[]].size == SizeOf(files) && index[[]].fileCount == |files|
  {
    hide SumIf, CountIf, Counted, Under, In, SizeOf;
    var folders := CollectFolders(files, explicit);
    index := MakeIndex(folders);
    assert forall k, f :: 0 <= k < |files| && f <= files[k].folder ==> f in index;
    assert forall k :: 0 <= k < |files| ==> files[k].folder <= files[k].folder;
    FileAll(index, files);
    var order := ByDepth(index.Keys);
    RollUp(index, order, files);
    GrandTotal(files);
  }

  lemma {:induction false} GrandTotal(files: seq<File>)
    ensures SumIf(files, Under([])) == SizeOf(files) && CountIf(files, Under([])) == |files|
  {
    if |files| > 0 {
      GrandTotal(files[..|files| - 1]);
    }
  }
}
