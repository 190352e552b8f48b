/** The manifest of a complete tree export: its rows, their grouping by parent directory, and
    the order in which a walk over the groups meets them. */
module Manifest {
  /** A file name, one character for each byte. */
  type Name = string

  /** The parts of a path relative to the exported root; the root itself is `[]`. */
  type Path = seq<Name>

  /** `identity` stands for device, inode, mode, uid and gid; `stamp` for mtime and ctime. */
  datatype Metadata = Metadata(identity: nat, links: int, size: nat, stamp: nat)

  type Byte = b: nat | b < 256

  /** An injective digest. */
  datatype Digest = Digest(preimage: seq<Byte>)

  datatype Body = Directory | Symlink(target: string) | File(sha256: Digest)

  datatype Entry = Entry(path: Path, metadata: Metadata, body: Body)

  function Parent(path: Path): Path
    requires path != []
  {
    path[..|path| - 1]
  }

  /** `path` lies strictly below `top`. */
  predicate Under(top: Path, path: Path) {
    |top| < |path| && path[..|top|] == top
  }

  function Paths(rows: seq<Entry>): set<Path> {
    set row | row in rows :: row.path
  }

  ghost predicate DistinctPaths(rows: seq<Entry>) {
    forall i, j :: 0 <= i < j < |rows| ==> rows[i].path != rows[j].path
  }

  /** Paths are distinct, none is the root, and the parent of every row is the root or the path
      of a directory row. */
  ghost predicate WellFormed(rows: seq<Entry>) {
    && DistinctPaths(rows)
    && (forall row <- rows :: row.path != [])
    && (forall row <- rows :: |row.path| > 1 ==>
          exists dir <- rows :: dir.path == Parent(row.path) && dir.body.Directory?)
  }

  /** Two names of one inode. */
  predicate Share(a: Entry, b: Entry) {
    a.path != b.path && a.metadata.identity == b.metadata.identity
  }

  /** Only symbolic links have several names, and the root has no other name. */
  ghost predicate SharedAreLinks(rows: seq<Entry>, top: Metadata) {
    && (forall a <- rows, b <- rows :: Share(a, b) ==> a.body.Symlink?)
    && (forall a <- rows :: a.metadata.identity != top.identity)
  }

  /** No two rows are names of one inode. */
  ghost predicate Unshared(rows: seq<Entry>) {
    forall a <- rows, b <- rows :: !Share(a, b)
  }

  lemma {:induction false} SamePathSameRow(rows: seq<Entry>, a: Entry, b: Entry)
    requires DistinctPaths(rows) && a in rows && b in rows
    ensures a.path == b.path ==> a == b
  {
    var i :| 0 <= i < |rows| && rows[i] == a;
    var j :| 0 <= j < |rows| && rows[j] == b;
  }

  /** `groups[path]`. */
  function Children(rows: seq<Entry>, path: Path): (r: seq<Entry>)
    ensures forall row :: row in r <==> row in rows && row.path != [] && Parent(row.path) == path
    ensures |r| <= |rows|
  {
    if rows == [] then []
    else if rows[0].path != [] && Parent(rows[0].path) == path then [rows[0]] + Children(rows[1..], path)
    else Children(rows[1..], path)
  }

  lemma {:induction false} ChildrenConcat(a: seq<Entry>, b: seq<Entry>, path: Path)
    ensures Children(a + b, path) == Children(a, path) + Children(b, path)
  {
    if a == [] {
      assert a + b == b;
    } else {
      assert (a + b)[1..] == a[1..] + b;
      ChildrenConcat(a[1..], b, path);
    }
  }

  lemma {:induction false} ChildrenNone(rows: seq<Entry>, path: Path)
    requires forall row <- rows :: row.path == [] || Parent(row.path) != path
    ensures Children(rows, path) == []
  {
    if rows != [] {
      ChildrenNone(rows[1..], path);
    }
  }

  function Depth(rows: seq<Entry>): (d: nat)
    ensures forall row <- rows :: |row.path| <= d
  {
    if rows == [] then 0
    else var rest := Depth(rows[1..]); if |rows[0].path| > rest then |rows[0].path| else rest
  }

  /** How many levels can still lie below `path`. */
  function Room(rows: seq<Entry>, path: Path): nat {
    if |path| <= Depth(rows) then Depth(rows) - |path| else 0
  }

  /** Everything strictly below `path`, in the order of a depth-first walk over the groups. */
  function Below(rows: seq<Entry>, path: Path): seq<Path>
    decreases Room(rows, path), |rows| + 1
  {
    BelowEach(rows, path, Children(rows, path))
  }

  function BelowEach(rows: seq<Entry>, path: Path, group: seq<Entry>): seq<Path>
    requires forall row <- group :: row in rows && row.path != [] && Parent(row.path) == path
    decreases Room(rows, path), |group|
  {
    if group == [] then []
    else
      assert group[0] in rows && Parent(group[0].path) == path;
      [group[0].path] + Below(rows, group[0].path) + BelowEach(rows, path, group[1..])
  }

  /** The walk over a group, one more member at the end. */
  lemma {:induction false} BelowEachSnoc(rows: seq<Entry>, path: Path, group: seq<Entry>, last: Entry)
    requires forall row <- group + [last] :: row in rows && row.path != [] && Parent(row.path) == path
    ensures forall row <- group :: row in group + [last]
    ensures BelowEach(rows, path, group + [last])
         == BelowEach(rows, path, group) + ([last.path] + Below(rows, last.path))
    decreases |group|
  {
    if group == [] {
      assert group + [last] == [last] && last in group + [last];
      assert [last][1..] == [];
    } else {
      var longer := group + [last];
      assert longer[0] == group[0] && longer[1..] == group[1..] + [last];
      BelowEachSnoc(rows, path, group[1..], last);
      var head, rest, tail := [group[0].path] + Below(rows, group[0].path), BelowEach(rows, path, group[1..]),
        [last.path] + Below(rows, last.path);
      assert BelowEach(rows, path, longer) == head + (rest + tail);
      assert head + (rest + tail) == (head + rest) + tail;
    }
  }

  /** No element occurs twice. */
  ghost predicate Distinct<T>(s: seq<T>) {
    forall i, j :: 0 <= i < j < |s| ==> s[i] != s[j]
  }

  lemma {:induction false} DistinctConcat<T>(a: seq<T>, b: seq<T>)
    requires Distinct(a) && Distinct(b)
    requires forall x <- a :: x !in b
    ensures Distinct(a + b)
  {
    forall i, j | 0 <= i < |a| <= j < |a + b|
      ensures (a + b)[i] != (a + b)[j]
    {
      assert a[i] in a && b[j - |a|] in b;
    }
  }

  /** The groups of a well-formed manifest keep its order and its distinctness. */
  lemma {:induction false} ChildrenDistinct(rows: seq<Entry>, path: Path)
    requires DistinctPaths(rows)
    ensures DistinctPaths(Children(rows, path))
  {
    if rows != [] {
      ChildrenDistinct(rows[1..], path);
      var rest := Children(rows[1..], path);
      forall j | 0 <= j < |rest|
        ensures rest[j].path != rows[0].path
      {
        assert rest[j] in rows[1..];
      }
      assert Children(rows, path) == rest || Children(rows, path) == [rows[0]] + rest;
    }
  }

  /** Every ancestor of a row is a row. */
  lemma {:induction false} AncestorIsRow(rows: seq<Entry>, path: Path, length: nat)
    requires WellFormed(rows) && path in Paths(rows) && 0 < length <= |path|
    ensures path[..length] in Paths(rows)
    decreases |path|
  {
    if length == |path| {
      assert path[..length] == path;
    } else {
      AncestorIsRow(rows, Parent(path), length);
      assert Parent(path)[..length] == path[..length];
    }
  }

  predicate AtOrUnder(top: Path, path: Path) {
    path == top || Under(top, path)
  }

  ghost predicate Covers(group: seq<Entry>, path: Path) {
    exists row <- group :: AtOrUnder(row.path, path)
  }

  /** A walk meets exactly the rows below its start... */
  lemma {:induction false} BelowMember(rows: seq<Entry>, path: Path, q: Path)
    requires WellFormed(rows)
    ensures q in Below(rows, path) <==> q in Paths(rows) && Under(path, q)
    decreases Room(rows, path), |rows| + 1
  {
    var group := Children(rows, path);
    BelowEachMember(rows, path, group, q);
    if q in Paths(rows) && Under(path, q) {
      ChildrenCover(rows, path, q);
    }
  }

  /** Every row below a directory is in or below one of its children. */
  lemma {:induction false} ChildrenCover(rows: seq<Entry>, path: Path, q: Path)
    requires WellFormed(rows) && q in Paths(rows) && Under(path, q)
    ensures Covers(Children(rows, path), q)
  {
    var step := q[..|path| + 1];
    AncestorIsRow(rows, q, |path| + 1);
    var row :| row in rows && row.path == step;
    assert Parent(step) == path && AtOrUnder(step, q);
    assert row in Children(rows, path);
  }

  /** Only directories have anything below them. */
  lemma {:induction false} AncestorIsDirectory(rows: seq<Entry>, row: Entry, q: Path)
    requires WellFormed(rows) && row in rows && q in Paths(rows) && Under(row.path, q)
    ensures row.body.Directory?
  {
    var length := |row.path|;
    AncestorIsRow(rows, q, length + 1);
    var step := q[..length + 1];
    var child :| child in rows && child.path == step;
    var dir :| dir in rows && dir.path == Parent(step) && dir.body.Directory?;
    assert Parent(step) == row.path;
    var i :| 0 <= i < |rows| && rows[i] == row;
    var j :| 0 <= j < |rows| && rows[j] == dir;
    assert i == j;
  }

  lemma {:induction false} BelowEachMember(rows: seq<Entry>, path: Path, group: seq<Entry>, q: Path)
    requires WellFormed(rows)
    requires forall row <- group :: row in rows && row.path != [] && Parent(row.path) == path
    ensures q in BelowEach(rows, path, group) <==> q in Paths(rows) && Covers(group, q)
    ensures Covers(group, q) ==> Under(path, q)
    decreases Room(rows, path), |group|
  {
    if group != [] {
      var first, rest := group[0], group[1..];
      assert first in rows && Parent(first.path) == path;
      BelowMember(rows, first.path, q);
      BelowEachMember(rows, path, rest, q);
      CoversCons(group, q);
      BelowChild(first, path, q);
    }
  }

  lemma {:induction false} CoversCons(group: seq<Entry>, q: Path)
    requires group != []
    ensures Covers(group, q) <==> AtOrUnder(group[0].path, q) || Covers(group[1..], q)
  {
    assert group == [group[0]] + group[1..];
  }

  lemma {:induction false} BelowChild(child: Entry, path: Path, q: Path)
    requires child.path != [] && Parent(child.path) == path
    ensures AtOrUnder(child.path, q) ==> Under(path, q)
  {
    if AtOrUnder(child.path, q) {
      assert q[..|child.path|][..|path|] == q[..|path|];
    }
  }

  /** ... and meets each of them once. */
  lemma {:induction false} BelowDistinct(rows: seq<Entry>, path: Path)
    requires WellFormed(rows)
    ensures Distinct(Below(rows, path))
    decreases Room(rows, path), |rows| + 1
  {
    ChildrenDistinct(rows, path);
    BelowEachDistinct(rows, path, Children(rows, path));
  }

  lemma {:induction false} BelowEachDistinct(rows: seq<Entry>, path: Path, group: seq<Entry>)
    requires WellFormed(rows)
    requires forall row <- group :: row in rows && row.path != [] && Parent(row.path) == path
    requires DistinctPaths(group)
    ensures Distinct(BelowEach(rows, path, group))
    decreases Room(rows, path), |group|
  {
    if group != [] {
      var first, rest := group[0].path, group[1..];
      assert group[0] in rows && Parent(first) == path;
      BelowDistinct(rows, first);
      BelowEachDistinct(rows, path, rest);
      BelowMember(rows, first, first);
      DistinctConcat([first], Below(rows, first));
      forall q | q in [first] + Below(rows, first)
        ensures q !in BelowEach(rows, path, rest)
      {
        BelowMember(rows, first, q);
        BelowEachMember(rows, path, rest, q);
        SiblingsApart(group, path, q);
      }
      DistinctConcat([first] + Below(rows, first), BelowEach(rows, path, rest));
    }
  }

  /** Siblings have no descendant in common. */
  lemma {:induction false} SiblingsApart(group: seq<Entry>, path: Path, q: Path)
    requires group != [] && DistinctPaths(group)
    requires forall row <- group :: row.path != [] && Parent(row.path) == path
    requires AtOrUnder(group[0].path, q)
    ensures !Covers(group[1..], q)
  {
    forall row | row in group[1..]
      ensures !AtOrUnder(row.path, q)
    {
      assert group[0] in group && row in group;
      assert |row.path| == |group[0].path| && row.path != group[0].path;
    }
  }
}
