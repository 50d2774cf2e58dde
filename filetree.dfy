/**
 * An abstract filesystem standing in for `ioutil.ReadDir`.
 *
 * The directory package reads the disk only through `ioutil.ReadDir(path)`,
 * which either fails or lists the children of the directory at `path`, each
 * with a name, a directory flag and (for non-directories) a size. Here the
 * disk is a finite tree of `Node`s and a path string is resolved against it
 * by splitting it at '/' the way the operating system does. The root of the
 * tree stands for `/` and for the working directory alike, and the empty
 * path names nothing, as opening `""` fails.
 */
module FileTree {
  import opened Optional

  /** A filesystem object as a directory listing reports it. */
  datatype Node =
    | File(size: int)            // anything that is not a directory, with its reported size
    | Dir(children: seq<Child>)  // a directory; children in the order the listing returns them
    | Unreadable                 // a directory whose listing fails (permission denied, I/O error)
  {
    /** The directory flag of the listing (`os.FileMode.IsDir`). */
    predicate IsDirectory() { !File? }
  }

  datatype Child = Child(name: string, node: Node)

  /** A non-empty run of characters between separators. */
  predicate Segment(s: string) {
    s != [] && '/' !in s
  }

  /** A name a listing can return: a segment other than the `.` and `..` the operating system adds. */
  predicate ValidName(name: string) {
    Segment(name) && name != "." && name != ".."
  }

  predicate DistinctNames(cs: seq<Child>) {
    forall i, j :: 0 <= i < j < |cs| ==> cs[i].name != cs[j].name
  }

  /** Every directory of the tree lists distinct, valid names. */
  predicate ValidTree(n: Node)
    decreases n
  {
    n.Dir? ==>
      DistinctNames(n.children) &&
      forall i :: 0 <= i < |n.children| ==>
        ValidName(n.children[i].name) && ValidTree(n.children[i].node)
  }

  /** Index of the last separator in `p`, or -1 when there is none. */
  function LastSlash(p: string): (k: int)
    ensures -1 <= k < |p|
    ensures 0 <= k ==> p[k] == '/'
    ensures forall j :: k < j < |p| ==> p[j] != '/'
  {
    if p == [] then -1
    else if p[|p| - 1] == '/' then |p| - 1
    else LastSlash(p[..|p| - 1])
  }

  /**
   * The names a path walks through. Empty segments are skipped, so a doubled
   * or trailing separator does not matter, and neither does a leading one,
   * because the root of the tree stands for `/` and the working directory
   * alike.
   */
  function Components(p: string): (r: seq<string>)
    ensures forall i :: 0 <= i < |r| ==> Segment(r[i])
    decreases |p|
  {
    var k := LastSlash(p);
    var last := p[k + 1..];
    var tail := if last == [] then [] else [last];
    if k < 0 then tail else Components(p[..k]) + tail
  }

  /** The first child called `name`, if any. */
  function Find(cs: seq<Child>, name: string): (r: Option<Child>)
    ensures r.Some? ==> r.value in cs && r.value.name == name
    ensures r.None? <==> forall c :: c in cs ==> c.name != name
  {
    if cs == [] then None
    else if cs[0].name == name then Some(cs[0])
    else Find(cs[1..], name)
  }

  /** The node reached from `n` by following `comps`; None when a step is missing or not a listable directory. */
  function Walk(n: Node, comps: seq<string>): Option<Node>
    decreases |comps|
  {
    if comps == [] then Some(n)
    else match n
      case Dir(cs) =>
        (match Find(cs, comps[0])
         case Some(c) => Walk(c.node, comps[1..])
         case None => None)
      case _ => None
  }

  /** The node `path` names in `fs`; the empty path names nothing. */
  function Resolve(fs: Node, path: string): Option<Node> {
    if path == [] then None else Walk(fs, Components(path))
  }

  /** The listing `ioutil.ReadDir(path)` returns from the filesystem `fs`, or None for its error. */
  function ReadDir(fs: Node, path: string): Option<seq<Child>> {
    match Resolve(fs, path)
    case Some(Dir(cs)) => Some(cs)
    case _ => None
  }

  /** Appending "/" and a valid name to a path appends exactly that name to its components. */
  lemma JoinComponents(p: string, name: string)
    requires Segment(name)
    ensures Components(p + "/" + name) == Components(p) + [name]
  {
    var q := p + "/" + name;
    assert q[|p|] == '/';
    var k := LastSlash(q);
    assert k == |p|;
    assert q[..k] == p;
    assert q[k + 1..] == name;
  }

  /** Walking one more name takes one more step from wherever the walk had got to. */
  lemma {:induction false} WalkAppend(n: Node, comps: seq<string>, name: string)
    ensures Walk(n, comps + [name]) ==
      match Walk(n, comps)
      case Some(Dir(cs)) =>
        (match Find(cs, name) case Some(c) => Some(c.node) case None => None)
      case _ => None
    decreases |comps|
  {
    if comps == [] {
      assert comps + [name] == [name];
      assert [name][1..] == [];
    } else {
      assert (comps + [name])[0] == comps[0];
      assert (comps + [name])[1..] == comps[1..] + [name];
      match n
      case Dir(cs) => {
        match Find(cs, comps[0])
        case Some(c) => WalkAppend(c.node, comps[1..], name);
        case None =>
      }
      case _ =>
    }
  }

  lemma {:induction false} FindDistinct(cs: seq<Child>, i: int)
    requires DistinctNames(cs)
    requires 0 <= i < |cs|
    ensures Find(cs, cs[i].name) == Some(cs[i])
  {
    if i > 0 {
      assert cs[0].name != cs[i].name;
      assert cs[1..][i - 1] == cs[i];
      FindDistinct(cs[1..], i - 1);
    }
  }

  /** Every node reachable in a valid tree is itself a valid tree. */
  lemma {:induction false} WalkValid(n: Node, comps: seq<string>)
    requires ValidTree(n)
    ensures Walk(n, comps).Some? ==> ValidTree(Walk(n, comps).value)
    decreases |comps|
  {
    if comps != [] && n.Dir? {
      match Find(n.children, comps[0])
      case Some(c) =>
        var i :| 0 <= i < |n.children| && n.children[i] == c;
        WalkValid(c.node, comps[1..]);
      case None =>
    }
  }

  /**
   * In a valid filesystem, `path + "/" + name` for a child listed at `path`
   * resolves to exactly that child.
   */
  lemma ChildPath(fs: Node, path: string, i: int)
    requires ValidTree(fs)
    requires ReadDir(fs, path).Some? && 0 <= i < |ReadDir(fs, path).value|
    ensures Resolve(fs, path + "/" + ReadDir(fs, path).value[i].name) ==
      Some(ReadDir(fs, path).value[i].node)
  {
    var cs := ReadDir(fs, path).value;
    assert path != [];
    WalkValid(fs, Components(path));
    assert ValidTree(Dir(cs));
    JoinComponents(path, cs[i].name);
    WalkAppend(fs, Components(path), cs[i].name);
    FindDistinct(cs, i);
  }

  /** Listing the empty path fails, whatever the filesystem. */
  lemma EmptyPathFails(fs: Node)
    ensures ReadDir(fs, "") == None
  {
  }
}
