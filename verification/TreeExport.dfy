/** Complete tree export (scripts/m3_11_frozen_export.py): a directory tree is flattened into a
    manifest and blobs, and can be rebuilt from them. */
module TreeExport {
  import opened Outcomes
  import opened Manifest

  /** A source entry. Names are their UTF-8 encodings, one character per byte. */
  datatype Node =
    | Regular(metadata: Metadata, content: seq<Byte>)
    | Link(metadata: Metadata, target: string)
    | Folder(metadata: Metadata, children: seq<Child>)

  datatype Child = Child(name: Name, node: Node)

  function BodyOf(node: Node): Body {
    match node
    case Regular(_, content) => File(Digest(content))
    case Link(_, target) => Symlink(target)
    case Folder(_, _) => Directory
  }

  function EntryOf(path: Path, node: Node): Entry {
    Entry(path, node.metadata, BodyOf(node))
  }

  /** The rows of one entry and everything below it, in scan order. */
  function Rows(path: Path, node: Node): seq<Entry>
    decreases node, 1
  {
    [EntryOf(path, node)] + if node.Folder? then ChildRows(path, node.children) else []
  }

  function ChildRows(path: Path, children: seq<Child>): seq<Entry>
    decreases children, 0
  {
    if children == [] then []
    else Rows(path + [children[0].name], children[0].node) + ChildRows(path, children[1..])
  }

  function Bytes(node: Node): nat
    decreases node, 1
  {
    match node
    case Regular(_, content) => |content|
    case Link(_, _) => 0
    case Folder(_, children) => ChildBytes(children)
  }

  function ChildBytes(children: seq<Child>): nat
    decreases children, 0
  {
    if children == [] then 0 else Bytes(children[0].node) + ChildBytes(children[1..])
  }

  /** The blobs of the files below `path`, by path: blob names are injective digests of paths. */
  function Blobs(path: Path, node: Node): map<Path, seq<Byte>>
    decreases node, 1
  {
    match node
    case Regular(_, content) => map[path := content]
    case Link(_, _) => map[]
    case Folder(_, children) => ChildBlobs(path, children)
  }

  function ChildBlobs(path: Path, children: seq<Child>): map<Path, seq<Byte>>
    decreases children, 0
  {
    if children == [] then map[]
    else Blobs(path + [children[0].name], children[0].node) + ChildBlobs(path, children[1..])
  }

  /** What a file system guarantees: distinct names in each directory, and sizes that are sizes. */
  predicate Sound(node: Node)
    decreases node, 1
  {
    match node
    case Regular(metadata, content) => metadata.size == |content|
    case Link(_, _) => true
    case Folder(_, children) => SoundAll(children)
  }

  predicate SoundAll(children: seq<Child>)
    decreases children, 0
  {
    children == [] ||
    (&& Sound(children[0].node) && SoundAll(children[1..])
     && forall other <- children[1..] :: other.name != children[0].name)
  }

  /** What a file system guarantees about inodes: a directory has one name, an inode with several
      names counts them, and nothing in a directory is a name of that directory. */
  ghost predicate Inodes(rows: seq<Entry>, top: Metadata) {
    && (forall a <- rows, b <- rows :: Share(a, b) ==> !a.body.Directory? && a.metadata.links >= 2)
    && (forall a <- rows :: a.metadata.identity != top.identity)
  }

  // ---- where rows lie ----

  lemma {:induction false} RowsLie(path: Path, node: Node)
    ensures forall row <- Rows(path, node) :: AtOrUnder(path, row.path)
    decreases node, 1
  {
    if node.Folder? {
      ChildRowsLie(path, node.children);
    }
  }

  lemma {:induction false} ChildRowsLie(path: Path, children: seq<Child>)
    ensures forall row <- ChildRows(path, children) ::
              exists child <- children :: AtOrUnder(path + [child.name], row.path)
    ensures forall row <- ChildRows(path, children) :: Under(path, row.path)
    decreases children, 0
  {
    if children != [] {
      var first := path + [children[0].name];
      RowsLie(first, children[0].node);
      ChildRowsLie(path, children[1..]);
      assert first[..|path|] == path;
    }
  }

  // ---- a scanned manifest is well formed ----

  lemma {:induction false} RowsDistinct(path: Path, node: Node)
    requires Sound(node)
    ensures DistinctPaths(Rows(path, node))
    decreases node, 1
  {
    if node.Folder? {
      ChildRowsDistinct(path, node.children);
      ChildRowsLie(path, node.children);
      JoinDistinct([EntryOf(path, node)], ChildRows(path, node.children));
    }
  }

  lemma {:induction false} ChildRowsDistinct(path: Path, children: seq<Child>)
    requires SoundAll(children)
    ensures DistinctPaths(ChildRows(path, children))
    decreases children, 0
  {
    if children != [] {
      var first := path + [children[0].name];
      RowsDistinct(first, children[0].node);
      ChildRowsDistinct(path, children[1..]);
      RowsLie(first, children[0].node);
      forall row | row in ChildRows(path, children[1..])
        ensures !AtOrUnder(first, row.path)
      {
        OthersApart(path, children, row);
      }
      JoinDistinct(Rows(first, children[0].node), ChildRows(path, children[1..]));
    }
  }

  lemma {:induction false} JoinDistinct(a: seq<Entry>, b: seq<Entry>)
    requires DistinctPaths(a) && DistinctPaths(b)
    requires forall x <- a, y <- b :: x.path != y.path
    ensures DistinctPaths(a + b)
  {
    forall i, j | 0 <= i < |a| <= j < |a + b|
      ensures (a + b)[i].path != (a + b)[j].path
    {
      assert a[i] in a && b[j - |a|] in b;
    }
  }

  /** The rows of later siblings lie outside the first one. */
  lemma {:induction false} OthersApart(path: Path, children: seq<Child>, row: Entry)
    requires children != [] && SoundAll(children) && row in ChildRows(path, children[1..])
    ensures row.path != [] && Under(path, row.path)
    ensures !AtOrUnder(path + [children[0].name], row.path)
    ensures forall q :: AtOrUnder(path + [children[0].name], q) ==> Parent(row.path) != q
  {
    ChildRowsLie(path, children[1..]);
    var other :| other in children[1..] && AtOrUnder(path + [other.name], row.path);
    var first := path + [children[0].name];
    assert row.path[|path|] == other.name;
    assert first[|path|] == children[0].name;
    forall q | AtOrUnder(first, q)
      ensures Parent(row.path) != q
    {
      assert q[|path|] == q[..|first|][|path|];
    }
  }

  /** The parent of every row is the start of the scan or a scanned directory. */
  lemma {:induction false} ParentsScanned(path: Path, children: seq<Child>)
    ensures forall row <- ChildRows(path, children) :: row.path != [] &&
              (Parent(row.path) == path ||
               exists dir <- ChildRows(path, children) :: dir.path == Parent(row.path) && dir.body.Directory?)
    decreases children, 0
  {
    if children != [] {
      var first, node := path + [children[0].name], children[0].node;
      ParentsScanned(path, children[1..]);
      assert Parent(first) == path;
      if node.Folder? {
        ParentsScanned(first, node.children);
        assert EntryOf(first, node) in ChildRows(path, children);
      }
      forall row | row in Rows(first, node)
        ensures row.path != [] && (Parent(row.path) == path ||
                exists dir <- ChildRows(path, children) :: dir.path == Parent(row.path) && dir.body.Directory?)
      {
        if row in Rows(first, node)[1..] && Parent(row.path) != first {
          var dir :| dir in ChildRows(first, node.children) && dir.path == Parent(row.path) && dir.body.Directory?;
          assert dir in ChildRows(path, children);
        }
      }
    }
  }

  /** Every manifest produced by a scan is well formed. */
  lemma {:induction false} ScanIsWellFormed(children: seq<Child>)
    requires SoundAll(children)
    ensures WellFormed(ChildRows([], children))
  {
    ChildRowsDistinct([], children);
    ParentsScanned([], children);
  }

  // ---- rebuilding ----

  /** The tree that a manifest and its blobs describe, directory by directory. */
  function Rebuild(rows: seq<Entry>, blobs: map<Path, seq<Byte>>, path: Path): seq<Child>
    decreases Room(rows, path), |rows| + 1
  {
    RebuildEach(rows, blobs, path, Children(rows, path))
  }

  function RebuildEach(rows: seq<Entry>, blobs: map<Path, seq<Byte>>, path: Path, group: seq<Entry>): seq<Child>
    requires forall row <- group :: row in rows && row.path != [] && Parent(row.path) == path
    decreases Room(rows, path), |group|
  {
    if group == [] then []
    else
      assert group[0] in rows && Parent(group[0].path) == path;
      [Child(group[0].path[|path|], RebuildNode(rows, blobs, group[0]))] + RebuildEach(rows, blobs, path, group[1..])
  }

  function RebuildNode(rows: seq<Entry>, blobs: map<Path, seq<Byte>>, row: Entry): Node
    decreases Room(rows, row.path), |rows| + 2
  {
    match row.body
    case Directory => Folder(row.metadata, Rebuild(rows, blobs, row.path))
    case Symlink(target) => Link(row.metadata, target)
    case File(_) => Regular(row.metadata, if row.path in blobs then blobs[row.path] else [])
  }

  function Heads(path: Path, children: seq<Child>): seq<Entry> {
    if children == [] then []
    else [EntryOf(path + [children[0].name], children[0].node)] + Heads(path, children[1..])
  }

  /** The group of a scanned directory is the list of its entries. */
  lemma {:induction false} GroupAtTop(path: Path, children: seq<Child>)
    ensures Children(ChildRows(path, children), path) == Heads(path, children)
    decreases children
  {
    if children != [] {
      var first, node := path + [children[0].name], children[0].node;
      var deeper := if node.Folder? then ChildRows(first, node.children) else [];
      assert Parent(first) == path;
      assert Children([EntryOf(first, node)], path) == [EntryOf(first, node)];
      if node.Folder? {
        ChildRowsLie(first, node.children);
      }
      ChildrenNone(deeper, path);
      ChildrenConcat([EntryOf(first, node)], deeper, path);
      ChildrenConcat(Rows(first, node), ChildRows(path, children[1..]), path);
      GroupAtTop(path, children[1..]);
    }
  }

  function Inside(node: Node): seq<Child> {
    if node.Folder? then node.children else []
  }

  /** Nothing outside the first child has its parent inside it. */
  lemma {:induction false} NoneFromOthers(path: Path, children: seq<Child>, q: Path)
    requires children != [] && SoundAll(children) && AtOrUnder(path + [children[0].name], q)
    ensures Children(ChildRows(path, children[1..]), q) == []
  {
    var rest := ChildRows(path, children[1..]);
    forall row | row in rest
      ensures row.path != [] && Parent(row.path) != q
    {
      OthersApart(path, children, row);
    }
    ChildrenNone(rest, q);
  }

  /** Nothing of the first child has its parent inside another one. */
  lemma {:induction false} NoneFromFirst(path: Path, first: Child, other: Name, q: Path)
    requires first.name != other && AtOrUnder(path + [other], q)
    ensures Children(Rows(path + [first.name], first.node), q) == []
  {
    var top := path + [first.name];
    var rows := Rows(top, first.node);
    RowsLie(top, first.node);
    assert q[..|path| + 1] == path + [other] && q[|path|] == other;
    forall row | row in rows
      ensures row.path != [] && Parent(row.path) != q
    {
      assert row.path[..|path| + 1] == top && row.path[|path|] == first.name;
    }
    ChildrenNone(rows, q);
  }

  /** Inside one child, the groups are those of that child alone. */
  lemma {:induction false} GroupBelow(path: Path, children: seq<Child>, i: nat, q: Path)
    requires SoundAll(children) && i < |children|
    requires AtOrUnder(path + [children[i].name], q)
    ensures Children(ChildRows(path, children), q)
         == Children(ChildRows(path + [children[i].name], Inside(children[i].node)), q)
    decreases children
  {
    var first, node, rest := path + [children[0].name], children[0].node, ChildRows(path, children[1..]);
    ChildrenConcat(Rows(first, node), rest, q);
    if i == 0 {
      assert Parent(first) == path;
      ChildrenNone([EntryOf(first, node)], q);
      ChildrenConcat([EntryOf(first, node)], ChildRows(first, Inside(node)), q);
      NoneFromOthers(path, children, q);
    } else {
      assert children[i] in children[1..];
      NoneFromFirst(path, children[0], children[i].name, q);
      GroupBelow(path, children[1..], i - 1, q);
    }
  }

  // ---- blobs ----

  lemma {:induction false} BlobsLie(path: Path, node: Node)
    ensures forall q <- Blobs(path, node) :: AtOrUnder(path, q)
    decreases node, 1
  {
    if node.Folder? {
      ChildBlobsLie(path, node.children);
    }
  }

  lemma {:induction false} ChildBlobsLie(path: Path, children: seq<Child>)
    ensures forall q <- ChildBlobs(path, children) ::
              Under(path, q) && exists child <- children :: AtOrUnder(path + [child.name], q)
    decreases children, 0
  {
    if children != [] {
      var first := path + [children[0].name];
      BlobsLie(first, children[0].node);
      ChildBlobsLie(path, children[1..]);
      assert first[..|path|] == path;
    }
  }

  /** The blobs hold the contents of every file below `path`. */
  ghost predicate Holds(blobs: map<Path, seq<Byte>>, part: map<Path, seq<Byte>>) {
    forall q <- part :: q in blobs && blobs[q] == part[q]
  }

  lemma {:induction false} HoldsChild(blobs: map<Path, seq<Byte>>, path: Path, children: seq<Child>, i: nat)
    requires SoundAll(children) && i < |children| && Holds(blobs, ChildBlobs(path, children))
    ensures Holds(blobs, Blobs(path + [children[i].name], children[i].node))
    decreases children
  {
    var first, rest := Blobs(path + [children[0].name], children[0].node), ChildBlobs(path, children[1..]);
    assert Holds(blobs, rest);
    if i == 0 {
      BlobsApart(path, children);
    } else {
      HoldsChild(blobs, path, children[1..], i - 1);
    }
  }

  /** The blobs of later siblings do not replace those of the first one. */
  lemma {:induction false} BlobsApart(path: Path, children: seq<Child>)
    requires children != [] && SoundAll(children)
    ensures Blobs(path + [children[0].name], children[0].node).Keys !! ChildBlobs(path, children[1..]).Keys
  {
    var first := path + [children[0].name];
    BlobsLie(first, children[0].node);
    ChildBlobsLie(path, children[1..]);
    forall q | q in ChildBlobs(path, children[1..])
      ensures !AtOrUnder(first, q)
    {
      var other :| other in children[1..] && AtOrUnder(path + [other.name], q);
      assert q[..|path| + 1] == path + [other.name] && first[|path|] == children[0].name;
      assert (path + [other.name])[|path|] == other.name;
    }
  }

  // ---- the round trip ----

  /** Below `path`, the manifest has exactly the rows of `children`. */
  ghost predicate Local(rows: seq<Entry>, path: Path, children: seq<Child>) {
    forall q :: AtOrUnder(path, q) ==> Children(rows, q) == Children(ChildRows(path, children), q)
  }

  lemma {:induction false} LocalChild(rows: seq<Entry>, path: Path, children: seq<Child>, i: nat)
    requires SoundAll(children) && i < |children| && Local(rows, path, children)
    ensures Local(rows, path + [children[i].name], Inside(children[i].node))
  {
    var first := path + [children[i].name];
    forall q | AtOrUnder(first, q)
      ensures Children(rows, q) == Children(ChildRows(first, Inside(children[i].node)), q)
    {
      assert first[..|path|] == path && q[..|path|] == q[..|first|][..|path|];
      GroupBelow(path, children, i, q);
    }
  }

  lemma {:induction false} SoundChild(children: seq<Child>, i: nat)
    requires SoundAll(children) && i < |children|
    ensures Sound(children[i].node)
  {
    if i > 0 {
      SoundChild(children[1..], i - 1);
    }
  }

  lemma {:induction false} RebuildIs(rows: seq<Entry>, blobs: map<Path, seq<Byte>>, path: Path, children: seq<Child>)
    requires SoundAll(children) && Local(rows, path, children) && Holds(blobs, ChildBlobs(path, children))
    ensures Rebuild(rows, blobs, path) == children
    decreases children, |children| + 1
  {
    assert AtOrUnder(path, path);
    GroupAtTop(path, children);
    assert children[0..] == children;
    RebuildEachIs(rows, blobs, path, children, 0);
  }

  lemma {:induction false} HeadsStep(path: Path, children: seq<Child>, k: nat)
    requires k < |children|
    ensures var group := Heads(path, children[k..]);
            && group == [EntryOf(path + [children[k].name], children[k].node)] + Heads(path, children[k + 1..])
            && group[1..] == Heads(path, children[k + 1..]) && children[k..] == [children[k]] + children[k + 1..]
  {
    assert children[k..][1..] == children[k + 1..];
  }

  lemma {:induction false} RebuildEachStep(rows: seq<Entry>, blobs: map<Path, seq<Byte>>, path: Path,
                                           group: seq<Entry>, child: Child, rest: seq<Child>)
    requires forall row <- group :: row in rows && row.path != [] && Parent(row.path) == path
    requires group != [] && group[0] == EntryOf(path + [child.name], child.node)
    requires RebuildNode(rows, blobs, group[0]) == child.node
    requires RebuildEach(rows, blobs, path, group[1..]) == rest
    ensures RebuildEach(rows, blobs, path, group) == [child] + rest
  {
    assert (path + [child.name])[|path|] == child.name;
  }

  lemma {:induction false} RebuildEachIs(rows: seq<Entry>, blobs: map<Path, seq<Byte>>, path: Path,
                                         children: seq<Child>, k: nat)
    requires SoundAll(children) && Local(rows, path, children) && Holds(blobs, ChildBlobs(path, children))
    requires k <= |children|
    requires forall row <- Heads(path, children[k..]) :: row in rows && row.path != [] && Parent(row.path) == path
    ensures RebuildEach(rows, blobs, path, Heads(path, children[k..])) == children[k..]
    decreases children, |children| - k
  {
    if k < |children| {
      var child, group := children[k], Heads(path, children[k..]);
      HeadsStep(path, children, k);
      assert forall row <- group[1..] :: row in group;
      RebuildNodeIs(rows, blobs, path, children, k);
      RebuildEachIs(rows, blobs, path, children, k + 1);
      RebuildEachStep(rows, blobs, path, group, child, children[k + 1..]);
    }
  }

  lemma {:induction false} RebuildNodeIs(rows: seq<Entry>, blobs: map<Path, seq<Byte>>, path: Path,
                                         children: seq<Child>, k: nat)
    requires SoundAll(children) && Local(rows, path, children) && Holds(blobs, ChildBlobs(path, children))
    requires k < |children|
    ensures RebuildNode(rows, blobs, EntryOf(path + [children[k].name], children[k].node)) == children[k].node
    decreases children, 0
  {
    HoldsChild(blobs, path, children, k);
    SoundChild(children, k);
    var first, node := path + [children[k].name], children[k].node;
    if node.Folder? {
      LocalChild(rows, path, children, k);
      RebuildIs(rows, blobs, first, node.children);
    } else if node.Regular? {
      assert first in Blobs(first, node);
    }
  }

  /** Export is lossless: the manifest and the blobs of a scan rebuild the scanned tree. */
  lemma {:induction false} ExportIsLossless(children: seq<Child>)
    requires SoundAll(children)
    ensures Rebuild(ChildRows([], children), ChildBlobs([], children), []) == children
  {
    RebuildIs(ChildRows([], children), ChildBlobs([], children), [], children);
  }
}
