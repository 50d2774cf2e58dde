/**
 * Directory listing and recursive size calculation (filesystem/directory/directory.go).
 *
 * `Size(path)` lists `path`, adds up the sizes of its non-directory children
 * and recurses into its directory children; a listing that fails contributes
 * nothing. `Entries(path)` lists `path` once and builds one `Entry` per child
 * whose size is `Size(path + "/" + name)`. Both are methods with loops, as in
 * the source, and are proved against the pure definitions `SizeAt` and
 * `EntriesAt` over the abstract filesystem of module FileTree.
 */
module Directory {
  import opened Optional
  import opened FileTree

  /** One child of the listed directory and the size shown for it. */
  datatype Entry = Entry(name: string, size: int)

  // ---------------------------------------------------------------------
  // Specification: sizes over the tree

  /** What `Size` computes for a path resolving to `n`: only a listable directory has a size. */
  function TreeSize(n: Node): int
    decreases n
  {
    if n.Dir? then ListingSize(n.children) else 0
  }

  /** The total of a listing: the loop of `Size`, one child at a time. */
  function ListingSize(cs: seq<Child>): int
    decreases cs
  {
    if cs == [] then 0 else ListingSize(cs[..|cs| - 1]) + Contribution(cs[|cs| - 1])
  }

  /** A directory child adds its own recursive total; any other child adds its reported size. */
  function Contribution(c: Child): int
    decreases c
  {
    if c.node.IsDirectory() then TreeSize(c.node) else c.node.size
  }

  /** `Size(path)` on the filesystem `fs`; a failed listing counts as empty. */
  function SizeAt(fs: Node, path: string): int {
    match ReadDir(fs, path)
    case None => 0
    case Some(cs) => ListingSize(cs)
  }

  /** The node `path` names, or Unreadable when it names nothing; the recursion of `Size` descends it. */
  ghost function NodeAt(fs: Node, path: string): Node {
    match Resolve(fs, path)
    case Some(n) => n
    case None => Unreadable
  }

  /** `Entries(path)`: one entry per listed child, named after it, sized by its subtree. */
  function EntriesAt(fs: Node, path: string): seq<Entry> {
    match ReadDir(fs, path)
    case None => []
    case Some(cs) => seq(|cs|, i requires 0 <= i < |cs| => Entry(cs[i].name, TreeSize(cs[i].node)))
  }

  // ---------------------------------------------------------------------
  // Independent reference: the sizes of all regular files at every depth

  function Sum(s: seq<int>): int {
    if s == [] then 0 else s[0] + Sum(s[1..])
  }

  /** The reported sizes of every non-directory strictly below `n`, in listing order, depth first. */
  function FileSizes(n: Node): seq<int>
    decreases n
  {
    if n.Dir? then ListingFiles(n.children) else []
  }

  function ListingFiles(cs: seq<Child>): seq<int>
    decreases cs
  {
    if cs == [] then [] else ListingFiles(cs[..|cs| - 1]) + ChildFiles(cs[|cs| - 1])
  }

  function ChildFiles(c: Child): seq<int>
    decreases c
  {
    if c.node.IsDirectory() then FileSizes(c.node) else [c.node.size]
  }

  // ---------------------------------------------------------------------
  // The operations as written

  /**
   * `Size(path)`: lists `path` (discarding the error), then adds each child's
   * size in listing order, recursing through `path + "/" + name` for
   * directory children.
   */
  method Size(fs: Node, path: string) returns (size: int)
    requires ValidTree(fs)
    ensures size == SizeAt(fs, path)
    decreases NodeAt(fs, path)
  {
    var listing := ReadDir(fs, path);
    var entries := if listing.Some? then listing.value else [];
    ListingOf(fs, path, entries);
    size := 0;
    for i := 0 to |entries|
      invariant size == ListingSize(entries[..i])
    {
      var entry := entries[i];
      var add;
      if entry.node.IsDirectory() {
        ChildSize(fs, path, entries, i);
        add := Size(fs, path + "/" + entry.name);
      } else {
        add := entry.node.size;
      }
      ListingStep(entries, i);
      size := size + add;
    }
    assert entries[..|entries|] == entries;
  }

  /**
   * `Entries(path)`: lists `path` once (discarding the error), allocates one
   * slot per child and fills slot `index` with the child's name and
   * `Size(path + "/" + name)`.
   */
  method Entries(fs: Node, path: string) returns (entries: seq<Entry>)
    requires ValidTree(fs)
    ensures entries == EntriesAt(fs, path)
  {
    var listing := ReadDir(fs, path);
    var dirEntries := if listing.Some? then listing.value else [];
    var slots := new Entry[|dirEntries|];
    for index := 0 to |dirEntries|
      invariant forall k :: 0 <= k < index ==>
        slots[k] == Entry(dirEntries[k].name, TreeSize(dirEntries[k].node))
    {
      var entry := dirEntries[index];
      ChildSize(fs, path, dirEntries, index);
      var size := Size(fs, path + "/" + entry.name);
      slots[index] := Entry(entry.name, size);
    }
    entries := slots[..];
  }

  /** What the loop of `Size` relies on about the listing of `path`. */
  lemma ListingOf(fs: Node, path: string, entries: seq<Child>)
    requires entries == if ReadDir(fs, path).Some? then ReadDir(fs, path).value else []
    ensures SizeAt(fs, path) == ListingSize(entries)
  {
  }

  /** One turn of the loop of `Size` adds the contribution of one more child. */
  lemma ListingStep(entries: seq<Child>, i: int)
    requires 0 <= i < |entries|
    ensures ListingSize(entries[..i + 1]) == ListingSize(entries[..i]) + Contribution(entries[i])
  {
    assert entries[..i + 1][..i] == entries[..i];
  }

  /**
   * The path `Size` builds for a listed child names that child, so its size
   * is the child's subtree total; the child lies below the directory, so the
   * recursion ends.
   */
  lemma ChildSize(fs: Node, path: string, entries: seq<Child>, i: int)
    requires ValidTree(fs)
    requires ReadDir(fs, path) == Some(entries) && 0 <= i < |entries|
    ensures NodeAt(fs, path + "/" + entries[i].name) == entries[i].node
    ensures NodeAt(fs, path) == Dir(entries) && entries[i] in entries
    ensures SizeAt(fs, path + "/" + entries[i].name) == TreeSize(entries[i].node)
  {
    ChildPath(fs, path, i);
    SizeAtNode(fs, path + "/" + entries[i].name);
  }

  // ---------------------------------------------------------------------
  // Properties

  /** The size of a path is the size of the node it resolves to, and 0 when it resolves to nothing. */
  lemma SizeAtNode(fs: Node, path: string)
    ensures SizeAt(fs, path) == TreeSize(NodeAt(fs, path))
  {
  }

  /** A listing that cannot be read (missing path, a file, an unreadable directory) has size 0. */
  lemma UnreadableSizeIsZero(fs: Node, path: string)
    requires ReadDir(fs, path).None?
    ensures SizeAt(fs, path) == 0
    ensures EntriesAt(fs, path) == []
  {
  }

  /** An empty directory has size 0 and no entries. */
  lemma EmptyDirectory(fs: Node, path: string)
    requires ReadDir(fs, path) == Some([])
    ensures SizeAt(fs, path) == 0
    ensures EntriesAt(fs, path) == []
  {
  }

  /** Size is additive over a split of the listing. */
  lemma {:induction false} ListingSizeAppend(a: seq<Child>, b: seq<Child>)
    ensures ListingSize(a + b) == ListingSize(a) + ListingSize(b)
    decreases |b|
  {
    if b == [] {
      assert a + b == a;
    } else {
      var b' := b[..|b| - 1];
      assert (a + b)[..|a + b| - 1] == a + b';
      assert (a + b)[|a + b| - 1] == b[|b| - 1];
      ListingSizeAppend(a, b');
    }
  }

  /** Merging two directories' listings adds their sizes. */
  lemma DirectorySizeAdditive(a: seq<Child>, b: seq<Child>)
    ensures TreeSize(Dir(a + b)) == TreeSize(Dir(a)) + TreeSize(Dir(b))
  {
    ListingSizeAppend(a, b);
  }

  lemma {:induction false} SumAppend(a: seq<int>, b: seq<int>)
    ensures Sum(a + b) == Sum(a) + Sum(b)
    decreases |a|
  {
    if a == [] {
      assert a + b == b;
    } else {
      assert (a + b)[1..] == a[1..] + b;
      SumAppend(a[1..], b);
    }
  }

  lemma {:induction false} SumNonNegative(s: seq<int>)
    requires forall i :: 0 <= i < |s| ==> s[i] >= 0
    ensures Sum(s) >= 0
    decreases |s|
  {
    if s != [] {
      SumNonNegative(s[1..]);
    }
  }

  /** The size of a tree is the total of the file sizes at every depth below it. */
  lemma {:induction false} TreeSizeIsFileTotal(n: Node)
    ensures TreeSize(n) == Sum(FileSizes(n))
    decreases n
  {
    if n.Dir? {
      ListingSizeIsFileTotal(n.children);
    }
  }

  lemma {:induction false} ListingSizeIsFileTotal(cs: seq<Child>)
    ensures ListingSize(cs) == Sum(ListingFiles(cs))
    decreases cs
  {
    if cs != [] {
      var c := cs[|cs| - 1];
      ListingSizeIsFileTotal(cs[..|cs| - 1]);
      SumAppend(ListingFiles(cs[..|cs| - 1]), ChildFiles(c));
      if c.node.IsDirectory() {
        TreeSizeIsFileTotal(c.node);
      } else {
        assert Sum([c.node.size]) == c.node.size;
      }
    }
  }

  /** With no negative file sizes anywhere below it, a tree's size is non-negative. */
  lemma SizeNonNegative(n: Node)
    requires forall i :: 0 <= i < |FileSizes(n)| ==> FileSizes(n)[i] >= 0
    ensures TreeSize(n) >= 0
  {
    TreeSizeIsFileTotal(n);
    SumNonNegative(FileSizes(n));
  }

  /**
   * `Entries` has one entry per listed child, in listing order, with the
   * child's name; a directory child gets its recursive total and any other
   * child gets 0, because listing a file's path fails.
   */
  lemma EntriesShape(fs: Node, path: string)
    requires ReadDir(fs, path).Some?
    ensures |EntriesAt(fs, path)| == |ReadDir(fs, path).value|
    ensures forall i :: 0 <= i < |EntriesAt(fs, path)| ==>
      EntriesAt(fs, path)[i].name == ReadDir(fs, path).value[i].name &&
      EntriesAt(fs, path)[i].size ==
        (match ReadDir(fs, path).value[i].node
         case Dir(children) => ListingSize(children)
         case _ => 0)
  {
  }

  /**
   * Each entry's size is what `Size` gives for `path + "/" + name`, in a
   * filesystem whose listings name children validly.
   */
  lemma EntrySizeIsChildPathSize(fs: Node, path: string, i: int)
    requires ValidTree(fs)
    requires 0 <= i < |EntriesAt(fs, path)|
    ensures EntriesAt(fs, path)[i].size == SizeAt(fs, path + "/" + EntriesAt(fs, path)[i].name)
  {
    ChildPath(fs, path, i);
  }

  /** A small tree in the shape of the sample directory used by the tests, totalling 512020 bytes. */
  function SampleTree(): Node {
    Dir([
      Child("directory", Dir([Child("file", File(512000))])),
      Child("empty_file", File(0)),
      Child("file", File(10)),
      Child("small_file", File(10))
    ])
  }

  lemma SampleTreeSize()
    ensures TreeSize(SampleTree()) == 512020
    ensures Sum(FileSizes(SampleTree())) == 512020
  {
    var cs := SampleTree().children;
    var inner := cs[0].node.children;
    assert inner[..0] == [];
    assert ListingSize(inner) == 512000;
    assert cs[..1][..0] == [] && cs[..2][..1] == cs[..1] && cs[..3][..2] == cs[..2] && cs[..4][..3] == cs[..3];
    assert ListingSize(cs[..1]) == 512000;
    assert ListingSize(cs[..2]) == 512000;
    assert ListingSize(cs[..3]) == 512010;
    assert cs[..4] == cs;
    TreeSizeIsFileTotal(SampleTree());
  }
}
