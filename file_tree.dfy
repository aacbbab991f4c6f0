/**
 * The project file tree: a flat list of file rows, each naming its parent
 * folder by id, turned into nested nodes level by level, folders first and
 * then by lower-cased name.
 *
 * The recursion only ever descends from a file to the files that name it
 * as their parent. File ids are unique (they are the table's primary key),
 * so the folders on the way down from the root form a chain of distinct
 * rows, and no row can join that chain twice: that is what bounds the
 * recursion. The chain is carried as a ghost argument.
 */
module FileTree {
  import opened Wrappers
  import opened Text
  import Sorting

  /** A row of the project files table. */
  datatype FileRow = FileRow(
    id: string,
    name: string,
    isFolder: bool,
    fileType: Option<string>,
    size: Option<int>,
    parentId: Option<string>)

  /** A node of the tree the endpoint returns. */
  datatype Node = Node(
    id: string,
    name: string,
    isFolder: bool,
    fileType: Option<string>,
    size: Option<int>,
    children: seq<Node>)

  /** No two rows share an id. */
  predicate UniqueIds(files: seq<FileRow>) {
    forall a, b :: 0 <= a < b < |files| ==> IdsDiffer(files, a, b)
  }

  /** Rows `a` and `b` exist and have different ids. */
  predicate IdsDiffer(files: seq<FileRow>, a: int, b: int) {
    0 <= a < |files| && 0 <= b < |files| && files[a].id != files[b].id
  }

  /**
   * `chain` lists, by position in `files`, the folders from the root down
   * to `parent`: the first has no parent, each next one names the one
   * before it, and no id repeats.
   */
  ghost predicate Chain(files: seq<FileRow>, chain: seq<nat>, parent: Option<string>) {
    |chain| <= |files|
    && (forall k :: 0 <= k < |chain| ==> chain[k] < |files|)
    && (forall a, b :: 0 <= a < b < |chain| ==> IdsDiffer(files, chain[a], chain[b]))
    && (chain != [] ==> files[chain[0]].parentId.None?)
    && (forall k :: 0 < k < |chain| ==> LinkedAt(files, chain, k))
    && parent == (if chain == [] then None else Some(files[chain[|chain| - 1]].id))
  }

  /** Row `chain[k]` names row `chain[k - 1]` as its parent. */
  ghost predicate LinkedAt(files: seq<FileRow>, chain: seq<nat>, k: nat) {
    0 < k < |chain| && chain[k] < |files| && chain[k - 1] < |files|
    && files[chain[k]].parentId == Some(files[chain[k - 1]].id)
  }

  /** Distinct positions below `n` number at most `n`. */
  lemma {:induction false} Pigeonhole(s: seq<nat>, n: nat)
    requires forall k :: 0 <= k < |s| ==> s[k] < n
    requires forall a, b :: 0 <= a < b < |s| ==> s[a] != s[b]
    ensures |s| <= n
    decreases n
  {
    if s != [] {
      assert s[0] < n;
      if j :| 0 <= j < |s| && s[j] == n - 1 {
        var t := s[..j] + s[j + 1..];
        assert forall k :: 0 <= k < |t| ==> t[k] == (if k < j then s[k] else s[k + 1]);
        forall k | 0 <= k < |t|
          ensures t[k] < n - 1
        {
          if k < j { assert s[k] != s[j]; } else { assert s[j] != s[k + 1]; }
        }
        Pigeonhole(t, n - 1);
      } else {
        Pigeonhole(s, n - 1);
      }
    }
  }

  /** A row whose parent is the end of the chain is not itself on the chain. */
  lemma ChildOffChain(files: seq<FileRow>, chain: seq<nat>, parent: Option<string>, i: nat)
    requires UniqueIds(files) && Chain(files, chain, parent)
    requires i < |files| && files[i].parentId == parent
    ensures forall k :: 0 <= k < |chain| ==> files[chain[k]].id != files[i].id
  {
    forall k | 0 <= k < |chain|
      ensures files[chain[k]].id != files[i].id
    {
      // The chain row's parent is not the chain's end, so it is another row.
      assert files[chain[k]].parentId != parent by {
        if k > 0 {
          assert LinkedAt(files, chain, k);
          assert IdsDiffer(files, chain[k - 1], chain[|chain| - 1]);
        }
      }
      if chain[k] < i {
        assert IdsDiffer(files, chain[k], i);
      } else {
        assert IdsDiffer(files, i, chain[k]);
      }
    }
  }

  /** Descending into a child folder extends the chain by one row, which still fits in `files`. */
  lemma ExtendChain(files: seq<FileRow>, chain: seq<nat>, parent: Option<string>, i: nat)
    requires UniqueIds(files) && Chain(files, chain, parent)
    requires i < |files| && files[i].parentId == parent
    ensures Chain(files, chain + [i], Some(files[i].id))
    ensures |chain| < |files|
  {
    ChildOffChain(files, chain, parent, i);
    var c := chain + [i];
    assert forall k :: 0 <= k < |chain| ==> c[k] == chain[k];
    forall k | 0 < k < |c|
      ensures LinkedAt(files, c, k)
    {
      if k < |chain| {
        assert LinkedAt(files, chain, k);
      }
    }
    Pigeonhole(c, |files|);
  }

  /** Python's key `(not x.is_folder, x.name.lower())`: folders first, then by lower-cased name. */
  predicate FolderFirst(a: Node, b: Node) {
    (a.isFolder && !b.isFolder) || (a.isFolder == b.isFolder && LexLe(Lower(a.name), Lower(b.name)))
  }

  lemma FolderFirstTotal()
    ensures Sorting.Total(FolderFirst)
  {
    forall a: Node, b: Node
      ensures FolderFirst(a, b) || FolderFirst(b, a)
    {
      LexLeTotal(Lower(a.name), Lower(b.name));
    }
  }

  /** The tree under `parent`: its children's nodes, sorted. */
  function Forest(files: seq<FileRow>, parent: Option<string>, ghost chain: seq<nat>): (r: seq<Node>)
    requires UniqueIds(files) && Chain(files, chain, parent)
    ensures multiset(r) == multiset(Level(files, parent, chain, |files|))
    ensures Sorting.SortedBy(r, FolderFirst)
    decreases |files| - |chain|, 1, 0
  {
    FolderFirstTotal();
    Sorting.SortBy(Level(files, parent, chain, |files|), FolderFirst)
  }

  /** The nodes of the first `n` rows whose parent is `parent`, in row order. */
  function Level(files: seq<FileRow>, parent: Option<string>, ghost chain: seq<nat>, n: nat): seq<Node>
    requires UniqueIds(files) && Chain(files, chain, parent) && n <= |files|
    decreases |files| - |chain|, 0, n
  {
    if n == 0 then []
    else
      Level(files, parent, chain, n - 1)
      + (if files[n - 1].parentId == parent then [NodeOf(files, parent, chain, n - 1)] else [])
  }

  /** The node of row `i`: a folder carries the tree under it, anything else no children. */
  function NodeOf(files: seq<FileRow>, parent: Option<string>, ghost chain: seq<nat>, i: nat): Node
    requires UniqueIds(files) && Chain(files, chain, parent)
    requires i < |files| && files[i].parentId == parent
    decreases |files| - |chain|, 0, i
  {
    var f := files[i];
    Node(f.id, f.name, f.isFolder, f.fileType, f.size,
         if f.isFolder then ExtendChain(files, chain, parent, i); Forest(files, Some(f.id), chain + [i]) else [])
  }

  /** `build_file_tree(files)`: the tree from the root. */
  function Tree(files: seq<FileRow>): seq<Node>
    requires UniqueIds(files)
  {
    Forest(files, None, [])
  }

  /** Row `i` has a node in level `n` exactly when it is among the first `n` rows and its parent is `parent`. */
  lemma {:induction false} LevelHas(files: seq<FileRow>, parent: Option<string>, chain: seq<nat>, n: nat, i: nat)
    requires UniqueIds(files) && Chain(files, chain, parent) && n <= |files|
    requires i < |files| && files[i].parentId == parent
    ensures NodeOf(files, parent, chain, i) in Level(files, parent, chain, n) <==> i < n
    decreases n
  {
    if n > 0 {
      LevelHas(files, parent, chain, n - 1, i);
      if i != n - 1 {
        // Distinct rows have distinct ids, hence distinct nodes.
        assert files[i].id != files[n - 1].id by {
          if i < n - 1 {
            assert IdsDiffer(files, i, n - 1);
          } else {
            assert IdsDiffer(files, n - 1, i);
          }
        }
      }
    }
  }

  /** Every node of level `n` is the node of one of the first `n` rows whose parent is `parent`. */
  lemma {:induction false} LevelOnly(files: seq<FileRow>, parent: Option<string>, chain: seq<nat>, n: nat, x: Node)
    requires UniqueIds(files) && Chain(files, chain, parent) && n <= |files|
    requires x in Level(files, parent, chain, n)
    ensures exists i :: 0 <= i < n && files[i].parentId == parent && x == NodeOf(files, parent, chain, i)
    decreases n
  {
    if x in Level(files, parent, chain, n - 1) {
      LevelOnly(files, parent, chain, n - 1, x);
    } else {
      assert x == NodeOf(files, parent, chain, n - 1);
    }
  }

  /** How many of the first `n` rows have `parent` as their parent. */
  function CountChildren(files: seq<FileRow>, parent: Option<string>, n: nat): nat
    requires n <= |files|
  {
    if n == 0 then 0
    else CountChildren(files, parent, n - 1) + (if files[n - 1].parentId == parent then 1 else 0)
  }

  lemma {:induction false} LevelCount(files: seq<FileRow>, parent: Option<string>, chain: seq<nat>, n: nat)
    requires UniqueIds(files) && Chain(files, chain, parent) && n <= |files|
    ensures |Level(files, parent, chain, n)| == CountChildren(files, parent, n)
    decreases n
  {
    if n > 0 {
      LevelCount(files, parent, chain, n - 1);
    }
  }

  /**
   * The tree under `parent` holds one node per row whose parent is
   * `parent` and nothing else: as many nodes as there are such rows, each
   * such row's node, and only such rows' nodes.
   */
  lemma ForestNodes(files: seq<FileRow>, parent: Option<string>, chain: seq<nat>)
    requires UniqueIds(files) && Chain(files, chain, parent)
    ensures |Forest(files, parent, chain)| == CountChildren(files, parent, |files|)
    ensures forall i :: 0 <= i < |files| && files[i].parentId == parent ==>
      NodeOf(files, parent, chain, i) in Forest(files, parent, chain)
    ensures forall x :: x in Forest(files, parent, chain) ==>
      exists i :: 0 <= i < |files| && files[i].parentId == parent && x == NodeOf(files, parent, chain, i)
  {
    var level := Level(files, parent, chain, |files|);
    var forest := Forest(files, parent, chain);
    LevelCount(files, parent, chain, |files|);
    assert |forest| == |multiset(forest)| == |multiset(level)| == |level|;
    forall i | 0 <= i < |files| && files[i].parentId == parent
      ensures NodeOf(files, parent, chain, i) in forest
    {
      LevelHas(files, parent, chain, |files|, i);
      assert NodeOf(files, parent, chain, i) in multiset(level);
    }
    forall x | x in forest
      ensures exists i :: 0 <= i < |files| && files[i].parentId == parent && x == NodeOf(files, parent, chain, i)
    {
      assert x in multiset(forest);
      LevelOnly(files, parent, chain, |files|, x);
    }
  }

  /**
   * A node copies its row; a folder's children are the tree under the
   * folder, and anything else has no children.
   */
  lemma NodeShape(files: seq<FileRow>, parent: Option<string>, chain: seq<nat>, i: nat)
    requires UniqueIds(files) && Chain(files, chain, parent)
    requires i < |files| && files[i].parentId == parent
    ensures var x := NodeOf(files, parent, chain, i);
      x.id == files[i].id && x.name == files[i].name && x.isFolder == files[i].isFolder
      && x.fileType == files[i].fileType && x.size == files[i].size
      && (!x.isFolder ==> x.children == [])
      && (x.isFolder ==> Chain(files, chain + [i], Some(x.id)) && x.children == Forest(files, Some(x.id), chain + [i]))
  {
    if files[i].isFolder {
      ExtendChain(files, chain, parent, i);
    }
  }

  /** The ids of a list of nodes and of everything under them, each node before its children. */
  function Ids(ns: seq<Node>): seq<string>
    decreases ns
  {
    if ns == [] then [] else [ns[0].id] + Ids(ns[0].children) + Ids(ns[1..])
  }

  /** The same ids, counted: how often each occurs in `Ids(ns)`. */
  ghost function IdBag(ns: seq<Node>): multiset<string>
    decreases ns
  {
    if ns == [] then multiset{} else multiset{ns[0].id} + IdBag(ns[0].children) + IdBag(ns[1..])
  }

  lemma {:induction false} IdsBag(ns: seq<Node>)
    ensures multiset(Ids(ns)) == IdBag(ns)
    decreases ns
  {
    if ns != [] {
      IdsBag(ns[0].children);
      IdsBag(ns[1..]);
      assert Ids(ns) == [ns[0].id] + Ids(ns[0].children) + Ids(ns[1..]);
    }
  }

  lemma {:induction false} BagAppend(a: seq<Node>, b: seq<Node>)
    ensures IdBag(a + b) == IdBag(a) + IdBag(b)
    decreases |a|
  {
    if a != [] {
      assert (a + b)[0] == a[0] && (a + b)[1..] == a[1..] + b;
      BagAppend(a[1..], b);
    } else {
      assert a + b == b;
    }
  }

  /** The ids under a single node: its own, then those under its children. */
  lemma BagSingle(x: Node)
    ensures IdBag([x]) == multiset{x.id} + IdBag(x.children)
  {
    assert [x][1..] == [];
  }

  /** The ids under the nodes of a list, with one node taken out and counted on its own. */
  lemma BagRemove(b: seq<Node>, j: nat)
    requires j < |b|
    ensures IdBag(b) == IdBag([b[j]]) + IdBag(b[..j] + b[j + 1..])
  {
    var l, m, r := b[..j], [b[j]], b[j + 1..];
    assert b == l + (m + r);
    BagAppend(l, m + r);
    BagAppend(m, r);
    BagAppend(l, r);
  }

  /** Taking the same element out of two permutations of each other leaves permutations. */
  lemma TakeOut<T>(a: seq<T>, b: seq<T>, j: nat)
    requires multiset(a) == multiset(b) && a != [] && j < |b| && b[j] == a[0]
    ensures multiset(a[1..]) == multiset(b[..j] + b[j + 1..])
  {
    assert a == [a[0]] + a[1..];
    assert multiset(a) == multiset{a[0]} + multiset(a[1..]);
    assert b == b[..j] + [b[j]] + b[j + 1..];
    assert multiset(b) == multiset(b[..j]) + multiset{b[j]} + multiset(b[j + 1..]);
    assert multiset(b[..j] + b[j + 1..]) == multiset(b[..j]) + multiset(b[j + 1..]);
    assert forall x :: multiset(a[1..])[x] == multiset(b[..j] + b[j + 1..])[x] by {
      forall x
        ensures multiset(a[1..])[x] == multiset(b[..j] + b[j + 1..])[x]
      {
        assert multiset(a)[x] == multiset(b)[x];
      }
    }
  }

  /** The ids under a list of nodes depend only on which nodes it holds, not on their order. */
  lemma {:induction false} BagPermutation(a: seq<Node>, b: seq<Node>)
    requires multiset(a) == multiset(b)
    ensures IdBag(a) == IdBag(b)
    decreases |a|
  {
    if a != [] {
      assert a[0] in multiset(b);
      var j :| 0 <= j < |b| && b[j] == a[0];
      var rest := b[..j] + b[j + 1..];
      TakeOut(a, b, j);
      BagPermutation(a[1..], rest);
      BagRemove(a, 0);
      assert a[..0] + a[1..] == a[1..];
      BagRemove(b, j);
    }
  }

  /** `q` continues the chain from its end down to a row with id `x`. */
  ghost predicate Reaches(files: seq<FileRow>, chain: seq<nat>, q: seq<nat>, x: string) {
    q != [] && Chain(files, chain + q, Some(x))
  }

  /** `x` is reached from the chain's end through one of the rows `lo .. hi - 1`. */
  ghost predicate Below(files: seq<FileRow>, chain: seq<nat>, x: string, lo: nat, hi: nat) {
    exists q :: Reaches(files, chain, q, x) && lo <= q[0] < hi
  }

  ghost predicate AllBelow(files: seq<FileRow>, chain: seq<nat>, m: multiset<string>, lo: nat, hi: nat) {
    forall x {:trigger Below(files, chain, x, lo, hi)} :: x in m ==> Below(files, chain, x, lo, hi)
  }

  predicate AtMostOnce(m: multiset<string>) {
    forall x :: x in m ==> m[x] <= 1
  }

  /** Dropping the last row of a chain leaves a chain ending at its parent. */
  lemma ChainPrefix(files: seq<FileRow>, c: seq<nat>, parent: Option<string>)
    requires Chain(files, c, parent) && |c| >= 2
    ensures Chain(files, c[..|c| - 1], Some(files[c[|c| - 2]].id))
    ensures files[c[|c| - 1]].parentId == Some(files[c[|c| - 2]].id)
  {
    var p := c[..|c| - 1];
    forall k | 0 < k < |p|
      ensures LinkedAt(files, p, k)
    {
      assert LinkedAt(files, c, k);
    }
    assert LinkedAt(files, c, |c| - 1);
  }

  /** Two rows with the same id are the same row. */
  lemma SameRow(files: seq<FileRow>, a: nat, b: nat)
    requires UniqueIds(files) && a < |files| && b < |files| && files[a].id == files[b].id
    ensures a == b
  {
    assert a < b ==> IdsDiffer(files, a, b);
    assert b < a ==> IdsDiffer(files, b, a);
  }

  /** Parent links determine the way down: two chains to the same id are the same chain. */
  lemma {:induction false} ChainUnique(files: seq<FileRow>, c1: seq<nat>, c2: seq<nat>, x: string)
    requires UniqueIds(files) && Chain(files, c1, Some(x)) && Chain(files, c2, Some(x))
    ensures c1 == c2
    decreases |c1|
  {
    ChainLast(files, c1, x);
    ChainLast(files, c2, x);
    var r1, r2 := c1[|c1| - 1], c2[|c2| - 1];
    SameRow(files, r1, r2);
    // The last row has a parent on a chain of two or more and is a root on a chain of one.
    if |c1| >= 2 {
      ChainPrefix(files, c1, Some(x));
      ChainPrefix(files, c2, Some(x));
      var y := files[c1[|c1| - 2]].id;
      ChainUnique(files, c1[..|c1| - 1], c2[..|c2| - 1], y);
      assert c1 == c1[..|c1| - 1] + [r1];
      assert c2 == c2[..|c2| - 1] + [r2];
    } else {
      assert c1 == [r1] && c2 == [r2];
    }
  }

  /** The last row of a chain to `x` has id `x`, and a parent exactly when the chain has two rows or more. */
  lemma ChainLast(files: seq<FileRow>, c: seq<nat>, x: string)
    requires Chain(files, c, Some(x))
    ensures c != [] && c[|c| - 1] < |files| && files[c[|c| - 1]].id == x
    ensures |c| >= 2 <==> files[c[|c| - 1]].parentId.Some?
  {
    if |c| >= 2 {
      assert LinkedAt(files, c, |c| - 1);
    }
  }

  /** An id is reached through one row only, so two ranges that both reach it overlap. */
  lemma BelowOverlap(files: seq<FileRow>, chain: seq<nat>, x: string, lo: nat, hi: nat, lo': nat, hi': nat)
    requires UniqueIds(files)
    requires Below(files, chain, x, lo, hi) && Below(files, chain, x, lo', hi')
    ensures lo < hi' && lo' < hi
  {
    var q :| Reaches(files, chain, q, x) && lo <= q[0] < hi;
    var q' :| Reaches(files, chain, q', x) && lo' <= q'[0] < hi';
    ChainUnique(files, chain + q, chain + q', x);
    assert (chain + q)[|chain|] == q[0] && (chain + q')[|chain|] == q'[0];
  }

  lemma BelowWiden(files: seq<FileRow>, chain: seq<nat>, x: string, lo: nat, hi: nat, lo': nat, hi': nat)
    requires Below(files, chain, x, lo, hi) && lo' <= lo && hi <= hi'
    ensures Below(files, chain, x, lo', hi')
  {
    var q :| Reaches(files, chain, q, x) && lo <= q[0] < hi;
    assert Reaches(files, chain, q, x) && lo' <= q[0] < hi';
  }

  lemma AllBelowWiden(files: seq<FileRow>, chain: seq<nat>, m: multiset<string>, hi: nat, hi': nat)
    requires AllBelow(files, chain, m, 0, hi) && hi <= hi'
    ensures AllBelow(files, chain, m, 0, hi')
  {
    forall x | x in m
      ensures Below(files, chain, x, 0, hi')
    {
      BelowWiden(files, chain, x, 0, hi, 0, hi');
    }
  }

  /** Ids reached through disjoint ranges of rows are distinct. */
  lemma BelowDisjoint(files: seq<FileRow>, chain: seq<nat>,
                      a: multiset<string>, b: multiset<string>, c: multiset<string>, lo: nat, mid: nat, hi: nat)
    requires UniqueIds(files) && lo <= mid <= hi && c == a + b
    requires AtMostOnce(a) && AllBelow(files, chain, a, lo, mid)
    requires AtMostOnce(b) && AllBelow(files, chain, b, mid, hi)
    ensures AtMostOnce(c) && AllBelow(files, chain, c, lo, hi)
  {
    forall x | x in c
      ensures c[x] <= 1 && Below(files, chain, x, lo, hi)
    {
      if x in a && x in b {
        BelowOverlap(files, chain, x, lo, mid, mid, hi);
      }
      if x in a {
        BelowWiden(files, chain, x, lo, mid, lo, hi);
      } else {
        BelowWiden(files, chain, x, mid, hi, lo, hi);
      }
    }
  }

  /** Adding one more id, reached through the same rows and not yet counted, keeps the ids distinct. */
  lemma BelowAdd(files: seq<FileRow>, chain: seq<nat>, x: string, m: multiset<string>, lo: nat, hi: nat)
    requires AtMostOnce(m) && AllBelow(files, chain, m, lo, hi)
    requires x !in m && Below(files, chain, x, lo, hi)
    ensures AtMostOnce(multiset{x} + m) && AllBelow(files, chain, multiset{x} + m, lo, hi)
  {
  }

  /** What is reached from a child folder is reached through that child, and is not the child itself. */
  lemma BelowChild(files: seq<FileRow>, chain: seq<nat>, i: nat, m: multiset<string>)
    requires UniqueIds(files) && i < |files| && Chain(files, chain + [i], Some(files[i].id))
    requires AllBelow(files, chain + [i], m, 0, |files|)
    ensures AllBelow(files, chain, m, i, i + 1) && files[i].id !in m
  {
    var c := chain + [i];
    forall y | y in m
      ensures Below(files, chain, y, i, i + 1) && y != files[i].id
    {
      assert Below(files, c, y, 0, |files|);
      var q :| Reaches(files, c, q, y) && 0 <= q[0] < |files|;
      assert chain + ([i] + q) == c + q;
      assert Reaches(files, chain, [i] + q, y);
      if y == files[i].id {
        ChainUnique(files, c, c + q, y);
      }
    }
  }

  /**
   * The ids the tree under `parent` holds, counted, built the way the tree
   * is but without nodes or sorting; `depth` bounds how many folder levels
   * are still followed.
   */
  ghost function LevelBag(files: seq<FileRow>, parent: Option<string>, depth: nat, n: nat): multiset<string>
    requires n <= |files|
    decreases depth, 1, n
  {
    if n == 0 then multiset{}
    else
      LevelBag(files, parent, depth, n - 1)
      + (if files[n - 1].parentId == parent then NodeBag(files, depth, n - 1) else multiset{})
  }

  ghost function NodeBag(files: seq<FileRow>, depth: nat, i: nat): multiset<string>
    requires i < |files|
    decreases depth, 0, i
  {
    multiset{files[i].id}
    + if files[i].isFolder && depth > 0 then LevelBag(files, Some(files[i].id), depth - 1, |files|) else multiset{}
  }

  /** The ids under the first `n` rows are pairwise distinct, and each comes down through one of those rows. */
  lemma {:induction false} LevelBagIds(files: seq<FileRow>, parent: Option<string>, chain: seq<nat>, n: nat)
    requires UniqueIds(files) && Chain(files, chain, parent) && n <= |files|
    ensures AtMostOnce(LevelBag(files, parent, |files| - |chain|, n))
    ensures AllBelow(files, chain, LevelBag(files, parent, |files| - |chain|, n), 0, n)
    decreases |files| - |chain|, 2, n
  {
    if n > 0 {
      LevelBagIds(files, parent, chain, n - 1);
      if files[n - 1].parentId == parent {
        LevelChildStep(files, parent, chain, n);
      } else {
        LevelSkipStep(files, parent, chain, n);
      }
    }
  }

  /** A row outside the level adds no ids. */
  lemma LevelSkipStep(files: seq<FileRow>, parent: Option<string>, chain: seq<nat>, n: nat)
    requires UniqueIds(files) && Chain(files, chain, parent) && 0 < n <= |files|
    requires files[n - 1].parentId != parent
    requires AtMostOnce(LevelBag(files, parent, |files| - |chain|, n - 1))
    requires AllBelow(files, chain, LevelBag(files, parent, |files| - |chain|, n - 1), 0, n - 1)
    ensures AtMostOnce(LevelBag(files, parent, |files| - |chain|, n))
    ensures AllBelow(files, chain, LevelBag(files, parent, |files| - |chain|, n), 0, n)
  {
    var a := LevelBag(files, parent, |files| - |chain|, n - 1);
    assert LevelBag(files, parent, |files| - |chain|, n) == a;
    AllBelowWiden(files, chain, a, n - 1, n);
  }

  /** A row of the level adds the ids under it, which come down through it and so differ from the earlier ones. */
  lemma {:induction false} LevelChildStep(files: seq<FileRow>, parent: Option<string>, chain: seq<nat>, n: nat)
    requires UniqueIds(files) && Chain(files, chain, parent) && 0 < n <= |files|
    requires files[n - 1].parentId == parent
    requires AtMostOnce(LevelBag(files, parent, |files| - |chain|, n - 1))
    requires AllBelow(files, chain, LevelBag(files, parent, |files| - |chain|, n - 1), 0, n - 1)
    ensures AtMostOnce(LevelBag(files, parent, |files| - |chain|, n))
    ensures AllBelow(files, chain, LevelBag(files, parent, |files| - |chain|, n), 0, n)
    decreases |files| - |chain|, 1, n
  {
    var depth := |files| - |chain|;
    var a := LevelBag(files, parent, depth, n - 1);
    var b := NodeBag(files, depth, n - 1);
    NodeBagIds(files, parent, chain, n - 1);
    assert LevelBag(files, parent, depth, n) == a + b;
    BelowDisjoint(files, chain, a, b, LevelBag(files, parent, depth, n), 0, n - 1, n);
  }

  /** The ids under row `i`: its own, then distinct ones further down, all reached through row `i`. */
  lemma {:induction false} NodeBagIds(files: seq<FileRow>, parent: Option<string>, chain: seq<nat>, i: nat)
    requires UniqueIds(files) && Chain(files, chain, parent)
    requires i < |files| && files[i].parentId == parent
    ensures AtMostOnce(NodeBag(files, |files| - |chain|, i))
    ensures AllBelow(files, chain, NodeBag(files, |files| - |chain|, i), i, i + 1)
    decreases |files| - |chain|, 0, i
  {
    OwnBelow(files, chain, parent, i);
    var own := multiset{files[i].id};
    var c := chain + [i];
    var bag := NodeBag(files, |files| - |chain|, i);
    if files[i].isFolder {
      var below := LevelBag(files, Some(files[i].id), |files| - |c|, |files|);
      assert bag == own + below;
      LevelBagIds(files, Some(files[i].id), c, |files|);
      BelowChild(files, chain, i, below);
      BelowAdd(files, chain, files[i].id, below, i, i + 1);
    } else {
      assert bag == own;
    }
  }

  /** A child of the chain's end is reached through itself. */
  lemma OwnBelow(files: seq<FileRow>, chain: seq<nat>, parent: Option<string>, i: nat)
    requires UniqueIds(files) && Chain(files, chain, parent)
    requires i < |files| && files[i].parentId == parent
    ensures Chain(files, chain + [i], Some(files[i].id)) && |chain| < |files|
    ensures Below(files, chain, files[i].id, i, i + 1)
    ensures AllBelow(files, chain, multiset{files[i].id}, i, i + 1)
  {
    ExtendChain(files, chain, parent, i);
    assert Reaches(files, chain, [i], files[i].id);
  }

  /** The ids of level `n` are the ones its mirror counts. */
  lemma {:induction false} LevelAgrees(files: seq<FileRow>, parent: Option<string>, chain: seq<nat>, n: nat)
    requires UniqueIds(files) && Chain(files, chain, parent) && n <= |files|
    ensures IdBag(Level(files, parent, chain, n)) == LevelBag(files, parent, |files| - |chain|, n)
    decreases |files| - |chain|, 0, n
  {
    if n > 0 {
      var prev := Level(files, parent, chain, n - 1);
      var depth := |files| - |chain|;
      LevelAgrees(files, parent, chain, n - 1);
      if files[n - 1].parentId == parent {
        var node := NodeOf(files, parent, chain, n - 1);
        NodeAgrees(files, parent, chain, n - 1);
        assert Level(files, parent, chain, n) == prev + [node];
        BagAppend(prev, [node]);
        assert LevelBag(files, parent, depth, n) == LevelBag(files, parent, depth, n - 1) + NodeBag(files, depth, n - 1);
      } else {
        assert Level(files, parent, chain, n) == prev;
        assert LevelBag(files, parent, depth, n) == LevelBag(files, parent, depth, n - 1);
      }
    }
  }

  lemma {:induction false} NodeAgrees(files: seq<FileRow>, parent: Option<string>, chain: seq<nat>, i: nat)
    requires UniqueIds(files) && Chain(files, chain, parent)
    requires i < |files| && files[i].parentId == parent
    ensures IdBag([NodeOf(files, parent, chain, i)]) == NodeBag(files, |files| - |chain|, i)
    decreases |files| - |chain|, 0, i
  {
    var x := NodeOf(files, parent, chain, i);
    BagSingle(x);
    NodeShape(files, parent, chain, i);
    ExtendChain(files, chain, parent, i);
    if files[i].isFolder {
      ForestAgrees(files, Some(files[i].id), chain + [i]);
    }
  }

  /** Sorting a level keeps its ids, so the tree under `parent` counts the ids its mirror does. */
  lemma {:induction false} ForestAgrees(files: seq<FileRow>, parent: Option<string>, chain: seq<nat>)
    requires UniqueIds(files) && Chain(files, chain, parent)
    ensures IdBag(Forest(files, parent, chain)) == LevelBag(files, parent, |files| - |chain|, |files|)
    decreases |files| - |chain|, 1, 0
  {
    BagPermutation(Forest(files, parent, chain), Level(files, parent, chain, |files|));
    LevelAgrees(files, parent, chain, |files|);
  }

  /** Every row appears at most once in the tree from the root, and only rows appear in it. */
  lemma TreeIdsUnique(files: seq<FileRow>)
    requires UniqueIds(files)
    ensures forall a, b :: 0 <= a < b < |Ids(Tree(files))| ==> Ids(Tree(files))[a] != Ids(Tree(files))[b]
    ensures forall x :: x in Ids(Tree(files)) ==> exists i :: 0 <= i < |files| && files[i].id == x
  {
    var ids := Ids(Tree(files));
    TreeBag(files);
    DistinctOfAtMostOnce(ids);
    forall x | x in ids
      ensures exists i :: 0 <= i < |files| && files[i].id == x
    {
      assert x in multiset(ids);
      assert Below(files, [], x, 0, |files|);
      var q :| Reaches(files, [], q, x) && 0 <= q[0] < |files|;
      assert [] + q == q;
    }
  }

  /** The ids of the tree from the root, counted: each at most once, each reached from the root. */
  lemma TreeBag(files: seq<FileRow>)
    requires UniqueIds(files)
    ensures AtMostOnce(multiset(Ids(Tree(files))))
    ensures AllBelow(files, [], multiset(Ids(Tree(files))), 0, |files|)
  {
    TreeMirror(files);
    LevelBagIds(files, None, [], |files|);
  }

  /** The ids of the tree from the root are the ones the mirror counts. */
  lemma TreeMirror(files: seq<FileRow>)
    requires UniqueIds(files)
    ensures multiset(Ids(Tree(files))) == LevelBag(files, None, |files|, |files|)
  {
    ForestAgrees(files, None, []);
    IdsBag(Tree(files));
  }

  /** A list whose multiset holds each value at most once has no repeats. */
  lemma DistinctOfAtMostOnce(s: seq<string>)
    requires AtMostOnce(multiset(s))
    ensures forall a, b :: 0 <= a < b < |s| ==> s[a] != s[b]
  {
    forall a, b | 0 <= a < b < |s|
      ensures s[a] != s[b]
    {
      var pre := s[..b];
      assert s == pre + [s[b]] + s[b + 1..];
      assert s[a] == pre[a];
      assert multiset(s)[s[b]] >= multiset(pre)[s[b]] + 1;
    }
  }

  /** `build_file_tree`, with its loop over the rows and its recursive calls for folders. */
  method BuildFileTree(files: seq<FileRow>, parent: Option<string>, ghost chain: seq<nat>) returns (tree: seq<Node>)
    requires UniqueIds(files) && Chain(files, chain, parent)
    ensures tree == Forest(files, parent, chain)
    decreases |files| - |chain|
  {
    var level: seq<Node> := [];
    for i := 0 to |files|
      invariant level == Level(files, parent, chain, i)
    {
      var f := files[i];
      if f.parentId == parent {
        var children: seq<Node> := [];
        if f.isFolder {
          ExtendChain(files, chain, parent, i);
          children := BuildFileTree(files, Some(f.id), chain + [i]);
        }
        level := level + [Node(f.id, f.name, f.isFolder, f.fileType, f.size, children)];
      }
    }
    FolderFirstTotal();
    tree := Sorting.SortBy(level, FolderFirst);
  }

  /** `get_project_file_tree`'s call: the tree from the root. */
  method BuildRootTree(files: seq<FileRow>) returns (tree: seq<Node>)
    requires UniqueIds(files)
    ensures tree == Tree(files)
  {
    tree := BuildFileTree(files, None, []);
  }
}
