/** Disposal of an exported tree, entry by entry, through the single-submission ledger
    (scripts/m3_11_frozen_residual.py). */
module TreeDisposal {
  import opened Outcomes
  import opened Manifest
  import L = Ledger

  /** The directory on disk: its entries (the root is `[]`) with their current metadata, the
      entries whose unlink was ever attempted, and those for which it was attempted twice. */
  datatype Disk = Disk(present: map<Path, Metadata>, attempted: set<Path>, repeated: set<Path>)

  /** The three lists of an observation. */
  datatype Lists = Lists(absent: seq<Path>, pending: seq<Path>, unsubmitted: seq<Path>)

  /** Some row below `path` was submitted, so its unlink may have changed the directory. */
  ghost predicate Touched(rows: seq<Entry>, ledger: L.Ledger<Path>, path: Path) {
    exists q <- Paths(rows) :: ledger.Spent(q) && Under(path, q)
  }

  /** A present directory is the exported one; only the removal of entries below it may have
      changed more than its identity allows. */
  ghost predicate Kept(rows: seq<Entry>, disk: Disk, ledger: L.Ledger<Path>, path: Path, saved: Metadata) {
    path in disk.present ==>
      && disk.present[path].identity == saved.identity
      && (disk.present[path] == saved || Touched(rows, ledger, path))
  }

  /** Another name of the same inode is gone. */
  ghost predicate Severed(rows: seq<Entry>, present: set<Path>, row: Entry) {
    exists other <- rows :: Share(row, other) && other.path !in present
  }

  /** A present file or link is the exported one, unless another name of it is gone: then it has
      fewer links. */
  ghost predicate KeptLeaf(rows: seq<Entry>, disk: Disk, row: Entry) {
    row.path in disk.present ==>
      var found := disk.present[row.path];
      && found.identity == row.metadata.identity
      && (if Severed(rows, disk.present.Keys, row) then found.links < row.metadata.links else found == row.metadata)
  }

  ghost predicate KeptRow(rows: seq<Entry>, disk: Disk, ledger: L.Ledger<Path>, row: Entry) {
    if row.body.Directory? then Kept(rows, disk, ledger, row.path, row.metadata) else KeptLeaf(rows, disk, row)
  }

  /** Some link is present while another name of it is gone. */
  ghost predicate Halved(rows: seq<Entry>, present: set<Path>) {
    exists row <- rows :: row.path in present && Severed(rows, present, row)
  }

  /** No present entry has another exported name. */
  ghost predicate Lone(rows: seq<Entry>, present: set<Path>) {
    forall a <- rows, b <- rows :: Share(a, b) ==> a.path !in present
  }

  /** Whatever was removed in between, its other names are still there. */
  ghost predicate Spared(rows: seq<Entry>, before: set<Path>, after: set<Path>) {
    forall a <- rows, b <- rows :: Share(a, b) && a.path in before && a.path !in after ==> b.path in after
  }

  lemma {:induction false} SparedJoin(rows: seq<Entry>, a: set<Path>, b: set<Path>, c: set<Path>)
    requires c <= b <= a && Spared(rows, a, b) && Spared(rows, b, c)
    ensures Spared(rows, a, c)
  {
    forall x, y | x in rows && y in rows && Share(x, y) && x.path in a && x.path !in c
      ensures y.path in c
    {
      assert Share(y, x);
    }
  }

  /** Only links have other names. */
  lemma {:induction false} DirectoryIsWhole(rows: seq<Entry>, top: Metadata, present: set<Path>, row: Entry)
    requires SharedAreLinks(rows, top) && row in rows
    ensures row.body.Directory? ==> !Severed(rows, present, row)
  {
  }

  /** Removing an entry whose other names are all there. */
  lemma {:induction false} SparedOne(rows: seq<Entry>, before: set<Path>, path: Path)
    requires forall row <- rows :: row.path == path ==> !Severed(rows, before, row)
    ensures Spared(rows, before, before - {path})
  {
  }

  /** If everything could be removed, nothing had another name. */
  lemma {:induction false} SparedAll(rows: seq<Entry>, before: set<Path>)
    requires Spared(rows, before, {})
    ensures Lone(rows, before)
  {
  }

  lemma {:induction false} LoneIsWhole(rows: seq<Entry>, present: set<Path>)
    requires Lone(rows, present)
    ensures !Halved(rows, present)
  {
  }

  /** Nothing submitted is still present. */
  ghost predicate Clear(disk: Disk, ledger: L.Ledger<Path>) {
    forall path <- disk.present :: !ledger.Spent(path)
  }

  /** Only exported entries are present, each in a present directory. */
  ghost predicate Connected(rows: seq<Entry>, disk: Disk) {
    forall path <- disk.present :: path == [] || (path in Paths(rows) && Parent(path) in disk.present)
  }

  /** An absent exported entry was submitted, exactly; no unlink is attempted without its
      submission, or twice. */
  ghost predicate Accounted(rows: seq<Entry>, disk: Disk, ledger: L.Ledger<Path>) {
    && (forall path :: path == [] || path in Paths(rows) ==> path in disk.present || path in disk.attempted)
    && (forall path <- disk.attempted :: ledger.Spent(path) && !ledger.IsTorn(path))
    && disk.repeated == {}
  }

  /** A submitted directory has no descendant left, and at most one entry is submitted yet
      still present. */
  ghost predicate Ordered(disk: Disk, ledger: L.Ledger<Path>) {
    && (forall path, q :: q in disk.present && Under(path, q) ==> !ledger.Spent(path))
    && (forall p, q :: p in disk.present && q in disk.present && ledger.Spent(p) && ledger.Spent(q) ==> p == q)
  }

  ghost predicate AllKept(rows: seq<Entry>, top: Metadata, disk: Disk, ledger: L.Ledger<Path>) {
    && Kept(rows, disk, ledger, [], top)
    && (forall row <- rows :: KeptRow(rows, disk, ledger, row))
  }

  ghost predicate Invariant(rows: seq<Entry>, top: Metadata, disk: Disk, ledger: L.Ledger<Path>) {
    && Connected(rows, disk)
    && Accounted(rows, disk, ledger)
    && Ordered(disk, ledger)
    && AllKept(rows, top, disk, ledger)
  }

  /** What the unlink of `path` does to another entry: its directory changes, and so do the other
      names of the same inode. */
  function Left(disk: Disk, path: Path, q: Path, found: Metadata): Metadata
    requires path in disk.present && q in disk.present
  {
    if path != [] && q == Parent(path) then found.(identity := disk.present[q].identity)
    else if disk.present[q].identity == disk.present[path].identity then
      disk.present[q].(links := disk.present[q].links - 1, stamp := found.stamp)
    else disk.present[q]
  }

  /** One unlink: the entry disappears, or nothing happens. `found` is whatever metadata results. */
  function Unlinked(disk: Disk, path: Path, applied: bool, found: Metadata): Disk
    requires path in disk.present
  {
    Disk(if applied then map q | q in disk.present && q != path :: Left(disk, path, q, found) else disk.present,
         disk.attempted + {path},
         if path in disk.attempted then disk.repeated + {path} else disk.repeated)
  }

  /** What is submitted has nothing below it, so its unlink leaves the tree connected. */
  lemma {:induction false} UnlinkedConnected(rows: seq<Entry>, disk: Disk, ledger: L.Ledger<Path>,
                          path: Path, applied: bool, found: Metadata)
    requires Connected(rows, disk) && Ordered(disk, ledger)
    requires path in disk.present && ledger.Spent(path)
    ensures Connected(rows, Unlinked(disk, path, applied, found))
  {
    var after := Unlinked(disk, path, applied, found);
    forall q | q in after.present && q != []
      ensures q in Paths(rows) && Parent(q) in after.present
    {
      assert q in disk.present && Under(Parent(q), q);
    }
  }

  /** The row of a present path has its identity, and no other entry does but its other names. */
  lemma {:induction false} SameInode(rows: seq<Entry>, top: Metadata, disk: Disk, ledger: L.Ledger<Path>, path: Path,
                                     row: Entry)
    requires WellFormed(rows) && SharedAreLinks(rows, top) && Connected(rows, disk) && AllKept(rows, top, disk, ledger)
    requires path in disk.present && row in rows && row.path in disk.present && row.path != path
    ensures disk.present[row.path].identity == disk.present[path].identity <==>
            exists other <- rows :: other.path == path && Share(row, other)
    ensures disk.present[row.path].identity == disk.present[path].identity ==> row.body.Symlink?
  {
    assert KeptRow(rows, disk, ledger, row);
    if path != [] {
      var other :| other in rows && other.path == path;
      assert KeptRow(rows, disk, ledger, other);
      if Share(row, other) {
        assert row.body.Symlink?;
      }
      forall o | o in rows && o.path == path
        ensures o == other
      {
        SamePathSameRow(rows, o, other);
      }
    }
  }

  /** The parent of a present entry is no file or link. */
  lemma {:induction false} ParentIsDirectory(rows: seq<Entry>, path: Path, row: Entry)
    requires WellFormed(rows) && path in Paths(rows) && row in rows && row.path == Parent(path)
    ensures row.body.Directory?
  {
    assert Under(row.path, path);
    AncestorIsDirectory(rows, row, path);
  }

  lemma {:induction false} UnlinkedKeptLeaf(rows: seq<Entry>, top: Metadata, disk: Disk, ledger: L.Ledger<Path>,
                         path: Path, found: Metadata, row: Entry)
    requires WellFormed(rows) && SharedAreLinks(rows, top) && Connected(rows, disk) && AllKept(rows, top, disk, ledger)
    requires path in disk.present && row in rows && !row.body.Directory?
    ensures KeptLeaf(rows, Unlinked(disk, path, true, found), row)
  {
    var after := Unlinked(disk, path, true, found);
    if row.path in after.present {
      assert KeptRow(rows, disk, ledger, row);
      SameInode(rows, top, disk, ledger, path, row);
      if path != [] && row.path == Parent(path) {
        ParentIsDirectory(rows, path, row);
      }
      if disk.present[row.path].identity == disk.present[path].identity {
        assert Severed(rows, after.present.Keys, row);
      } else {
        assert after.present[row.path] == disk.present[row.path];
        SeveredStays(rows, disk.present.Keys, path, row);
        assert after.present.Keys == disk.present.Keys - {path};
      }
    }
  }

  lemma {:induction false} SeveredStays(rows: seq<Entry>, present: set<Path>, path: Path, row: Entry)
    requires !exists other <- rows :: other.path == path && Share(row, other)
    ensures Severed(rows, present - {path}, row) <==> Severed(rows, present, row)
  {
    if Severed(rows, present - {path}, row) {
      var other :| other in rows && Share(row, other) && other.path !in present - {path};
      assert other.path != path;
    }
    if Severed(rows, present, row) {
      var other :| other in rows && Share(row, other) && other.path !in present;
      assert other.path !in present - {path};
    }
  }

  lemma {:induction false} UnlinkedKeptDirectory(rows: seq<Entry>, top: Metadata, disk: Disk, ledger: L.Ledger<Path>,
                              path: Path, found: Metadata, row: Entry)
    requires WellFormed(rows) && SharedAreLinks(rows, top) && Connected(rows, disk) && AllKept(rows, top, disk, ledger)
    requires path in disk.present && ledger.Spent(path) && row in rows && row.body.Directory?
    ensures Kept(rows, Unlinked(disk, path, true, found), ledger, row.path, row.metadata)
  {
    assert KeptRow(rows, disk, ledger, row);
    if row.path in disk.present && row.path != path {
      SameInode(rows, top, disk, ledger, path, row);
      if path != [] && row.path == Parent(path) {
        assert Under(Parent(path), path);
        assert Touched(rows, ledger, Parent(path));
      }
    }
  }

  /** The unlink touches exactly the directory that lost an entry, and the other names. */
  lemma {:induction false} UnlinkedKept(rows: seq<Entry>, top: Metadata, disk: Disk, ledger: L.Ledger<Path>,
                     path: Path, found: Metadata)
    requires WellFormed(rows) && SharedAreLinks(rows, top) && Connected(rows, disk) && AllKept(rows, top, disk, ledger)
    requires path in disk.present && ledger.Spent(path)
    ensures AllKept(rows, top, Unlinked(disk, path, true, found), ledger)
  {
    var after := Unlinked(disk, path, true, found);
    forall row | row in rows
      ensures KeptRow(rows, after, ledger, row)
    {
      if row.body.Directory? {
        UnlinkedKeptDirectory(rows, top, disk, ledger, path, found, row);
      } else {
        UnlinkedKeptLeaf(rows, top, disk, ledger, path, found, row);
      }
    }
    if path != [] && [] in disk.present {
      var row :| row in rows && row.path == path;
      assert KeptRow(rows, disk, ledger, row);
      assert Under(Parent(path), path);
      if Parent(path) == [] {
        assert Touched(rows, ledger, []);
      }
    }
  }

  lemma {:induction false} UnlinkedAccounted(rows: seq<Entry>, disk: Disk, ledger: L.Ledger<Path>,
                          path: Path, applied: bool, found: Metadata)
    requires Accounted(rows, disk, ledger)
    requires path in disk.present && ledger.Spent(path) && !ledger.IsTorn(path) && path !in disk.attempted
    ensures Accounted(rows, Unlinked(disk, path, applied, found), ledger)
  {
  }

  lemma {:induction false} UnlinkedOrdered(disk: Disk, ledger: L.Ledger<Path>, path: Path, applied: bool,
                                           found: Metadata)
    requires Ordered(disk, ledger) && path in disk.present && ledger.Spent(path)
    ensures Ordered(Unlinked(disk, path, applied, found), ledger)
    ensures applied ==> Clear(Unlinked(disk, path, applied, found), ledger)
    ensures Unlinked(disk, path, applied, found).present.Keys == disk.present.Keys - if applied then {path} else {}
  {
  }

  lemma {:induction false} NotUnlinkedKept(rows: seq<Entry>, top: Metadata, disk: Disk, ledger: L.Ledger<Path>,
                                           path: Path, found: Metadata)
    requires AllKept(rows, top, disk, ledger) && path in disk.present
    ensures AllKept(rows, top, Unlinked(disk, path, false, found), ledger)
  {
    forall row | row in rows
      ensures KeptRow(rows, Unlinked(disk, path, false, found), ledger, row)
    {
      assert KeptRow(rows, disk, ledger, row);
    }
  }

  /** Whatever becomes of a submitted unlink, it keeps the invariant. */
  lemma {:induction false} UnlinkedKeeps(rows: seq<Entry>, top: Metadata, disk: Disk, ledger: L.Ledger<Path>,
                      path: Path, applied: bool, found: Metadata)
    requires WellFormed(rows) && SharedAreLinks(rows, top) && Invariant(rows, top, disk, ledger)
    requires path in disk.present && ledger.Spent(path) && !ledger.IsTorn(path) && path !in disk.attempted
    ensures Invariant(rows, top, Unlinked(disk, path, applied, found), ledger)
    ensures applied ==> Clear(Unlinked(disk, path, applied, found), ledger)
    ensures Unlinked(disk, path, applied, found).present.Keys == disk.present.Keys - if applied then {path} else {}
  {
    UnlinkedConnected(rows, disk, ledger, path, applied, found);
    UnlinkedAccounted(rows, disk, ledger, path, applied, found);
    UnlinkedOrdered(disk, ledger, path, applied, found);
    if applied {
      UnlinkedKept(rows, top, disk, ledger, path, found);
    } else {
      NotUnlinkedKept(rows, top, disk, ledger, path, found);
    }
  }

  /** Reserving an entry that has nothing below it, while nothing submitted is present. */
  lemma {:induction false} ReservedKeeps(rows: seq<Entry>, top: Metadata, disk: Disk, ledger: L.Ledger<Path>,
                                         path: Path, after: L.Ledger<Path>)
    requires Invariant(rows, top, disk, ledger) && Clear(disk, ledger)
    requires path in disk.present && forall q <- disk.present :: !Under(path, q)
    requires L.Extends(ledger, after, path)
    ensures Invariant(rows, top, disk, after)
  {
    forall p | Touched(rows, ledger, p)
      ensures Touched(rows, after, p)
    {
      var q :| q in Paths(rows) && ledger.Spent(q) && Under(p, q);
      assert after.Spent(q);
    }
  }

  // ---- observation ----

  function Place(lists: Lists, path: Path, present: set<Path>, ledger: L.Ledger<Path>): Lists {
    if path !in present then lists.(absent := lists.absent + [path])
    else if ledger.Spent(path) then lists.(pending := lists.pending + [path])
    else lists.(unsubmitted := lists.unsubmitted + [path])
  }

  /** The lists after `walk` was classified in order. */
  function Classify(lists: Lists, walk: seq<Path>, present: set<Path>, ledger: L.Ledger<Path>): Lists
    decreases |walk|
  {
    if walk == [] then lists
    else Classify(Place(lists, walk[0], present, ledger), walk[1..], present, ledger)
  }

  lemma {:induction false} ClassifyConcat(lists: Lists, a: seq<Path>, b: seq<Path>, present: set<Path>,
                                          ledger: L.Ledger<Path>)
    ensures Classify(lists, a + b, present, ledger)
         == Classify(Classify(lists, a, present, ledger), b, present, ledger)
    decreases |a|
  {
    if a == [] {
      assert a + b == b;
    } else {
      assert (a + b)[0] == a[0] && (a + b)[1..] == a[1..] + b;
      ClassifyConcat(Place(lists, a[0], present, ledger), a[1..], b, present, ledger);
    }
  }

  /** Every path of a walk without repetition is in exactly one list, once. */
  ghost predicate Sorts(lists: Lists, walk: seq<Path>, present: set<Path>, ledger: L.Ledger<Path>) {
    && Distinct(lists.absent) && Distinct(lists.pending) && Distinct(lists.unsubmitted)
    && (forall p :: p in lists.absent <==> p in walk && p !in present)
    && (forall p :: p in lists.pending <==> p in walk && p in present && ledger.Spent(p))
    && (forall p :: p in lists.unsubmitted <==> p in walk && p in present && !ledger.Spent(p))
  }

  lemma {:induction false} ClassifySorts(lists: Lists, done: seq<Path>, walk: seq<Path>, present: set<Path>,
                                         ledger: L.Ledger<Path>)
    requires Distinct(done + walk) && Sorts(lists, done, present, ledger)
    ensures Sorts(Classify(lists, walk, present, ledger), done + walk, present, ledger)
    decreases |walk|
  {
    if walk == [] {
      assert done + walk == done;
    } else {
      var next := done + [walk[0]];
      assert next + walk[1..] == done + walk;
      assert (done + walk)[|done|] == walk[0];
      assert walk[0] !in done by {
        assert forall i :: 0 <= i < |done| ==> (done + walk)[i] == done[i];
      }
      ClassifySorts(Place(lists, walk[0], present, ledger), next, walk[1..], present, ledger);
    }
  }

  const NOTHING := Lists([], [], [])

  /** The walk of an observation: everything below the root, then the root. */
  function Everything(rows: seq<Entry>): seq<Path> {
    Below(rows, []) + [[]]
  }

  /** For every well-formed manifest, an observation lists each exported entry and the root
      exactly once across the three lists. */
  lemma {:induction false} ObservationIsComplete(rows: seq<Entry>, present: set<Path>, ledger: L.Ledger<Path>)
    requires WellFormed(rows)
    ensures Sorts(Classify(NOTHING, Everything(rows), present, ledger), Everything(rows), present, ledger)
    ensures Distinct(Everything(rows))
    ensures forall p :: p in Everything(rows) <==> p == [] || p in Paths(rows)
  {
    BelowDistinct(rows, []);
    forall p
      ensures p in Below(rows, []) <==> p in Paths(rows) && p != []
    {
      BelowMember(rows, [], p);
    }
    DistinctConcat(Below(rows, []), [[]]);
    assert [] + Everything(rows) == Everything(rows);
    ClassifySorts(NOTHING, [], Everything(rows), present, ledger);
    assert forall row <- rows :: row.path != [];
  }

  function Ancestors(path: Path): set<Path> {
    set k | 0 <= k < |path| :: path[..k]
  }

  /** `absent` says which rows below `path` are gone. */
  ghost predicate Agrees(rows: seq<Entry>, absent: seq<Path>, present: set<Path>, path: Path) {
    forall q <- Paths(rows) :: Under(path, q) ==> (q in absent <==> q !in present)
  }

  /** Removing the earlier members of a group does not make the list wrong for the next one. */
  lemma {:induction false} AgreesOnNext(rows: seq<Entry>, absent: seq<Path>, before: set<Path>, now: set<Path>,
                     path: Path, group: seq<Entry>, i: nat)
    requires Agrees(rows, absent, before, path) && group == Children(rows, path) && i < |group|
    requires DistinctPaths(group)
    requires forall q :: q in now <==> q in before && !Covers(group[..i], q)
    ensures var next := group[i].path;
            && Agrees(rows, absent, now, next)
            && (next in absent <==> next !in now)
            && (next in now <==> next in before)
  {
    var next := group[i].path;
    assert group[i] in group && Under(path, next);
    GroupApart(group, i, path);
    forall q | q in Paths(rows) && AtOrUnder(next, q)
      ensures q in absent <==> q !in now
    {
      assert q[..|path|] == path;
    }
    assert AtOrUnder(next, next);
  }

  /** What the next member's removal leaves. */
  lemma {:induction false} RemovedNext(before: set<Path>, now: set<Path>, after: set<Path>, group: seq<Entry>, i: nat)
    requires i < |group|
    requires forall q :: q in now <==> q in before && !Covers(group[..i], q)
    requires forall q :: q in after <==> q in now && !AtOrUnder(group[i].path, q)
    ensures forall q :: q in after <==> q in before && !Covers(group[..i + 1], q)
  {
    CoversSnoc(group, i);
  }

  /** The exported metadata by path. */
  function Originals(rows: seq<Entry>): map<Path, Metadata> {
    if rows == [] then map[] else Originals(rows[1..])[rows[0].path := rows[0].metadata]
  }

  lemma {:induction false} OriginalsAreRows(rows: seq<Entry>)
    requires DistinctPaths(rows)
    ensures Originals(rows).Keys == Paths(rows)
    ensures forall row <- rows :: Originals(rows)[row.path] == row.metadata
  {
    if rows != [] {
      OriginalsAreRows(rows[1..]);
      assert rows == [rows[0]] + rows[1..];
      assert forall row <- rows[1..] :: row.path != rows[0].path;
    }
  }

  function Untouched(rows: seq<Entry>, top: Metadata): Disk {
    Disk(Originals(rows)[[] := top], {}, {})
  }

  lemma {:induction false} StartsValid(rows: seq<Entry>, top: Metadata)
    requires WellFormed(rows)
    ensures Invariant(rows, top, Untouched(rows, top), L.Empty())
    ensures Untouched(rows, top).present.Keys == Paths(rows) + {[]}
  {
    OriginalsAreRows(rows);
    StartsConnected(rows, Untouched(rows, top));
    assert forall row <- rows :: row.path in Paths(rows);
  }

  lemma {:induction false} StartsConnected(rows: seq<Entry>, disk: Disk)
    requires WellFormed(rows) && disk.present.Keys == Paths(rows) + {[]}
    ensures Connected(rows, disk)
  {
    forall path | path in disk.present && path != []
      ensures path in Paths(rows) && Parent(path) in disk.present
    {
      if |path| == 1 {
        assert Parent(path) == [];
      } else {
        AncestorIsRow(rows, path, |path| - 1);
      }
    }
  }

  class Residual {
    const rows: seq<Entry>
    const top: Metadata
    var disk: Disk
    var ledger: L.Ledger<Path>
    var changed: set<Path>

    ghost predicate Valid()
      reads this
    {
      WellFormed(rows) && SharedAreLinks(rows, top) && Invariant(rows, top, disk, ledger)
    }

    ghost function Present(): set<Path>
      reads this
    {
      disk.present.Keys
    }

    /** `changed_directories` is exactly what the submissions so far may have touched. */
    ghost predicate Current()
      reads this
    {
      forall path :: path in changed <==> Touched(rows, ledger, path)
    }

    constructor (rows: seq<Entry>, top: Metadata)
      requires WellFormed(rows) && SharedAreLinks(rows, top)
      ensures Valid() && this.rows == rows && this.top == top
      ensures ledger == L.Empty() && disk.attempted == {}
      ensures disk.present.Keys == Paths(rows) + {[]}
    {
      this.rows, this.top := rows, top;
      disk, ledger, changed := Untouched(rows, top), L.Empty(), {};
      StartsValid(rows, top);
    }

    /** The first loop of `observe`; a torn submission stops it. */
    method Refresh() returns (s: Status)
      requires Valid()
      modifies this`changed
      ensures s.Ok? <==> forall row <- rows :: !ledger.IsTorn(row.path)
      ensures s.Ok? ==> Current()
    {
      changed := {};
      for i := 0 to |rows|
        invariant forall row <- rows[..i] :: !ledger.IsTorn(row.path)
        invariant forall path :: path in changed <==> Touched(rows[..i], ledger, path)
      {
        assert rows[..i + 1] == rows[..i] + [rows[i]];
        var submitted :- L.Submitted(ledger, rows[i].path);
        if submitted {
          changed := changed + Ancestors(rows[i].path);
        }
        TouchedGrows(rows[..i], rows[i], ledger);
      }
      assert rows[..|rows|] == rows;
      s := Ok;
    }

    /** Exactly submitted. */
    ghost predicate Sent(path: Path)
      reads this
    {
      ledger.Spent(path) && !ledger.IsTorn(path)
    }

    /** What an observation demands of one row: an exact submission if it is absent, and else the
        exported metadata and no torn submission. */
    ghost predicate Checked(row: Entry)
      reads this
    {
      if row.path !in disk.present then Sent(row.path)
      else
        && !ledger.IsTorn(row.path)
        && disk.present[row.path].identity == row.metadata.identity
        && (disk.present[row.path] == row.metadata || (row.body.Directory? && row.path in changed))
    }

    ghost predicate AllSent(walk: seq<Path>)
      reads this
    {
      forall q <- walk :: Sent(q)
    }

    /** Every row on the walk is as an observation demands. */
    ghost predicate AllChecked(walk: seq<Path>)
      reads this
    {
      forall q <- walk :: CheckedAt(q)
    }

    ghost predicate CheckedAt(path: Path)
      reads this
    {
      forall row <- rows :: row.path == path ==> Checked(row)
    }

    /** Below an absent entry, what is demanded is an exact submission. */
    lemma {:induction false} AbsentIsSent(row: Entry)
      requires WellFormed(rows) && Connected(rows, disk) && row in rows && row.path !in disk.present
      ensures AllChecked([row.path] + Below(rows, row.path)) <==> AllSent([row.path] + Below(rows, row.path))
    {
      forall q | q in [row.path] + Below(rows, row.path)
        ensures CheckedAt(q) <==> Sent(q)
      {
        BelowMember(rows, row.path, q);
        AbsentBelow(row.path, q);
      }
    }

    lemma {:induction false} CheckedRow(row: Entry)
      requires WellFormed(rows) && row in rows
      ensures CheckedAt(row.path) <==> Checked(row)
    {
      forall r | r in rows && r.path == row.path
        ensures r == row
      {
        SamePathSameRow(rows, row, r);
      }
    }

    /** On every reachable state without torn submissions the demands are met exactly when no link
        has lost another name. */
    lemma {:induction false} ReachableIsChecked()
      requires Valid() && Current() && forall row <- rows :: !ledger.IsTorn(row.path)
      ensures AllChecked(Below(rows, [])) <==> !Halved(rows, Present())
    {
      forall row | row in rows
        ensures Checked(row) <==> !(row.path in Present() && Severed(rows, Present(), row))
      {
        assert KeptRow(rows, disk, ledger, row);
        assert row.path in Paths(rows);
        DirectoryIsWhole(rows, top, Present(), row);
      }
      if Halved(rows, Present()) {
        var row :| row in rows && row.path in Present() && Severed(rows, Present(), row);
        assert row.path in Paths(rows);
        BelowMember(rows, [], row.path);
        CheckedRow(row);
      }
    }

    lemma {:induction false} RootGoneIsSent()
      requires Valid() && [] !in disk.present
      ensures AllSent(Everything(rows))
    {
      forall q | q in Everything(rows)
        ensures Sent(q)
      {
        BelowMember(rows, [], q);
        AbsentBelow([], q);
      }
    }

    /** `_absent`: an absent entry and everything below it must have been submitted. */
    method MarkAbsent(row: Entry, lists: Lists) returns (s: Status, after: Lists)
      requires WellFormed(rows) && Connected(rows, disk) && row in rows && row.path != [] && row.path !in disk.present
      ensures s.Ok? ==> after == Classify(lists, [row.path] + Below(rows, row.path), disk.present.Keys, ledger)
      ensures s.Ok? <==> AllSent([row.path] + Below(rows, row.path))
      decreases Room(rows, row.path), 1
    {
      after := lists;
      assert row.path in [row.path] + Below(rows, row.path);
      var submitted :- L.Submitted(ledger, row.path);
      if !submitted {
        return Stop(Unexplained), after;
      }
      after := lists.(absent := lists.absent + [row.path]);
      ClassifyConcat(lists, [row.path], Below(rows, row.path), disk.present.Keys, ledger);
      assert after == Classify(lists, [row.path], disk.present.Keys, ledger);
      s, after := MarkGroupAbsent(row.path, after);
    }

    /** The loop of `_absent`, which `observe` also has for the top level. */
    method MarkGroupAbsent(path: Path, lists: Lists) returns (s: Status, after: Lists)
      requires WellFormed(rows) && Connected(rows, disk) && path !in disk.present
      ensures s.Ok? ==> after == Classify(lists, Below(rows, path), disk.present.Keys, ledger)
      ensures s.Ok? <==> AllSent(Below(rows, path))
      decreases Room(rows, path), 0
    {
      after := lists;
      var group := Children(rows, path);
      for i := 0 to |group|
        invariant forall child <- group[..i] :: child in group
        invariant after == Classify(lists, [] + BelowEach(rows, path, group[..i]), disk.present.Keys, ledger)
        invariant AllSent(BelowEach(rows, path, group[..i]))
      {
        assert group[i] in group;
        StepWalk(lists, path, [], group, i, disk.present.Keys);
        WalkGrows(path, group, i);
        AbsentBelow(path, group[i].path);
        after :- MarkAbsent(group[i], after);
      }
      assert group[..|group|] == group && [] + Below(rows, path) == Below(rows, path);
      s := Ok;
    }

    /** The walk of the next child continues the walk so far, and is part of the whole. */
    lemma {:induction false} WalkGrows(path: Path, group: seq<Entry>, i: nat)
      requires WellFormed(rows) && i < |group| && group == Children(rows, path)
      ensures forall child <- group[..i + 1] :: child in group
      ensures BelowEach(rows, path, group[..i + 1]) ==
                BelowEach(rows, path, group[..i]) + ([group[i].path] + Below(rows, group[i].path))
      ensures forall q <- [group[i].path] + Below(rows, group[i].path) :: q in Below(rows, path)
    {
      WalkSnoc(rows, path, group, i);
      forall q | q in [group[i].path] + Below(rows, group[i].path)
        ensures q in Below(rows, path)
      {
        ChildWalk(rows, path, group[i], q);
      }
    }

    /** One more child of a group was classified. */
    lemma {:induction false} StepWalk(lists: Lists, path: Path, before: seq<Path>, group: seq<Entry>, i: nat,
                                      present: set<Path>)
      requires i < |group| && group == Children(rows, path)
      requires forall child <- group[..i + 1] :: child in group
      ensures forall child <- group[..i] :: child in group
      ensures Classify(lists, before + BelowEach(rows, path, group[..i + 1]), present, ledger)
           == Classify(Classify(lists, before + BelowEach(rows, path, group[..i]), present, ledger),
                       [group[i].path] + Below(rows, group[i].path), present, ledger)
    {
      assert group[..i + 1] == group[..i] + [group[i]];
      BelowEachSnoc(rows, path, group[..i], group[i]);
      var walk, more := BelowEach(rows, path, group[..i]), [group[i].path] + Below(rows, group[i].path);
      assert before + (walk + more) == (before + walk) + more;
      ClassifyConcat(lists, before + walk, more, present, ledger);
    }

    /** `_metadata` on a directory. */
    predicate Unaltered(path: Path, saved: Metadata)
      requires path in disk.present
      reads this
    {
      if path in changed then disk.present[path].identity == saved.identity else disk.present[path] == saved
    }

    /** `scan`: classifies everything below a present directory, and succeeds exactly when every
        row below it is as demanded. */
    method Scan(path: Path, lists: Lists) returns (s: Status, after: Lists)
      requires WellFormed(rows) && Connected(rows, disk) && path in disk.present
      ensures s.Ok? ==> after == Classify(lists, Below(rows, path), disk.present.Keys, ledger)
      ensures s.Ok? <==> AllChecked(Below(rows, path))
      decreases Room(rows, path)
    {
      after := lists;
      var group := Children(rows, path);
      if exists q <- disk.present.Keys :: q != [] && Parent(q) == path && forall row <- group :: row.path != q {
        return Stop(NewBytes), after;
      }
      for i := 0 to |group|
        invariant forall child <- group[..i] :: child in group
        invariant after == Classify(lists, [] + BelowEach(rows, path, group[..i]), disk.present.Keys, ledger)
        invariant AllChecked(BelowEach(rows, path, group[..i]))
      {
        assert group[i] in group;
        StepWalk(lists, path, [], group, i, disk.present.Keys);
        WalkGrows(path, group, i);
        after :- ScanRow(group[i], after);
      }
      assert group[..|group|] == group && [] + Below(rows, path) == Below(rows, path);
      s := Ok;
    }

    /** The body of the loop of `scan`. */
    method ScanRow(row: Entry, lists: Lists) returns (s: Status, after: Lists)
      requires WellFormed(rows) && Connected(rows, disk) && row in rows && row.path != []
      ensures s.Ok? ==> after == Classify(lists, [row.path] + Below(rows, row.path), disk.present.Keys, ledger)
      ensures s.Ok? <==> AllChecked([row.path] + Below(rows, row.path))
      decreases Room(rows, Parent(row.path)), 0
    {
      after := lists;
      if row.path !in disk.present {
        AbsentIsSent(row);
        s, after := MarkAbsent(row, lists);
        return;
      }
      CheckedRow(row);
      assert row.path in [row.path] + Below(rows, row.path);
      var submitted :- L.Submitted(ledger, row.path);
      after := if submitted then lists.(pending := lists.pending + [row.path])
               else lists.(unsubmitted := lists.unsubmitted + [row.path]);
      if row.body.Directory? {
        if !Unaltered(row.path, row.metadata) {
          return Stop(Reappeared), after;
        }
        s, after := Scan(row.path, after);
      } else {
        LeafIsBare(rows, ledger, row);
        if disk.present[row.path] != row.metadata {
          return Stop(Reappeared), after;
        }
        s := Ok;
      }
    }

    /** `observe`. On every reachable state it succeeds exactly when no submission is torn and no
        link has lost another name. */
    method Observe(calm: bool) returns (s: Status, lists: Lists)
      requires Valid()
      modifies this`changed
      ensures s.Ok? ==> lists == Classify(NOTHING, Everything(rows), disk.present.Keys, ledger)
      ensures s.Ok? ==>
                Current() && !Halved(rows, Present()) && forall path <- Paths(rows) + {[]} :: !ledger.IsTorn(path)
      ensures calm ==>
                (s.Ok? <==> !Halved(rows, Present()) && forall path <- Paths(rows) + {[]} :: !ledger.IsTorn(path))
    {
      lists := NOTHING;
      :- Checkpoint(calm);
      assert forall row <- rows :: row.path in Paths(rows);
      :- Refresh();
      if [] !in disk.present {
        RootGoneIsSent();
        AbsentAbove([]);
        assert [] in Everything(rows);
        s, lists := MarkAllAbsent();
        return;
      }
      ReachableIsChecked();
      ClassifyConcat(NOTHING, Below(rows, []), [[]], disk.present.Keys, ledger);
      if !Unaltered([], top) {
        return Stop(Reappeared), lists;
      }
      s, lists := Scan([], lists);
      if s.Stop? {
        return;
      }
      var submitted :- L.Submitted(ledger, []);
      lists := if submitted then lists.(pending := lists.pending + [[]])
               else lists.(unsubmitted := lists.unsubmitted + [[]]);
      s := Ok;
    }

    /** With the root gone, every entry must have been submitted. */
    method MarkAllAbsent() returns (s: Status, lists: Lists)
      requires WellFormed(rows) && Connected(rows, disk) && [] !in disk.present
      ensures s.Ok? ==> lists == Classify(NOTHING, Everything(rows), disk.present.Keys, ledger)
      ensures s.Ok? <==> AllSent(Everything(rows))
    {
      lists := NOTHING;
      assert [] in Everything(rows);
      var submitted :- L.Submitted(ledger, []);
      if !submitted {
        return Stop(Unexplained), lists;
      }
      s, lists := MarkGroupAbsent([], lists);
      if s.Ok? {
        ClassifyConcat(NOTHING, Below(rows, []), [[]], disk.present.Keys, ledger);
        lists := lists.(absent := lists.absent + [[]]);
      }
    }

    /** `effects.submit` around one unlink. */
    method Unlink(path: Path, calm: bool) returns (s: Status)
      requires Valid() && Current() && Clear(disk, ledger)
      requires path in disk.present && forall q <- disk.present :: !Under(path, q)
      modifies this
      ensures Valid() && disk.present.Keys <= old(disk).present.Keys
      ensures s.Ok? ==> Clear(disk, ledger) && Current() && disk.present.Keys == old(disk).present.Keys - {path}
      ensures calm ==> s.Ok?
    {
      var after;
      s, after := L.Reserve(ledger, path, calm);
      ReservedKeeps(rows, top, disk, ledger, path, after);
      ghost var before := ledger;
      ledger := after;
      if s.Stop? {
        return;
      }
      :- Checkpoint(calm);
      var applied: bool, found: Metadata := *, *;
      applied := applied || calm;
      UnlinkedKeeps(rows, top, disk, ledger, path, applied, found);
      disk := Unlinked(disk, path, applied, found);
      if !applied {
        return Stop(Interrupted);
      }
      :- Checkpoint(calm);
      if path != [] {
        TouchedAfter(rows, before, ledger, path);
        changed := changed + Ancestors(path);
      } else {
        TouchedAfterRoot(rows, before, ledger);
      }
      s := Ok;
    }

    /** `remove`: unlinks everything below a directory, children before parents. */
    method Remove(path: Path, absent: seq<Path>, calm: bool) returns (s: Status)
      requires Valid() && Current() && Clear(disk, ledger)
      requires path in disk.present && Agrees(rows, absent, disk.present.Keys, path)
      modifies this
      ensures Valid() && disk.present.Keys <= old(disk).present.Keys
      ensures s.Ok? ==> Clear(disk, ledger) && Current()
      ensures s.Ok? ==> forall q :: q in disk.present.Keys <==> q in old(disk).present.Keys && !Under(path, q)
      ensures s.Ok? ==> Spared(rows, old(Present()), Present())
      ensures calm && s.Stop? ==> Halved(rows, Present()) && Clear(disk, ledger)
      decreases Room(rows, path)
    {
      ghost var before := disk.present.Keys;
      var group := Children(rows, path);
      ChildrenDistinct(rows, path);
      for i := 0 to |group|
        invariant Valid() && Current() && Clear(disk, ledger)
        invariant disk.present.Keys <= before
        invariant forall q :: q in disk.present.Keys <==> q in before && !Covers(group[..i], q)
        invariant Spared(rows, before, Present())
      {
        ghost var now := disk.present.Keys;
        assert group[i] in group;
        AgreesOnNext(rows, absent, before, now, path, group, i);
        :- RemoveRow(group[i], absent, calm);
        RemovedNext(before, now, disk.present.Keys, group, i);
        SparedJoin(rows, before, now, Present());
      }
      assert group[..|group|] == group;
      GroupIsBelow(rows, path, before);
      s := Ok;
    }

    /** The body of the loop of `remove`. */
    method RemoveRow(row: Entry, absent: seq<Path>, calm: bool) returns (s: Status)
      requires Valid() && Current() && Clear(disk, ledger)
      requires row in rows && Agrees(rows, absent, disk.present.Keys, row.path)
      requires (row.path in absent <==> row.path !in disk.present)
      modifies this
      ensures Valid() && disk.present.Keys <= old(disk).present.Keys
      ensures s.Ok? ==> Clear(disk, ledger) && Current()
      ensures s.Ok? ==> forall q :: q in disk.present.Keys <==> q in old(disk).present.Keys && !AtOrUnder(row.path, q)
      ensures s.Ok? ==> Spared(rows, old(Present()), Present())
      ensures calm && s.Stop? ==> Halved(rows, Present()) && Clear(disk, ledger)
      decreases Room(rows, Parent(row.path)), 1
    {
      s := Ok;
      :- Checkpoint(calm);
      if row.path in absent {
        if row.path in disk.present {
          return Stop(Reappeared);
        }
        AbsentAbove(row.path);
        return Ok;
      }
      if row.body.Directory? {
        s := RemoveDirectory(row, absent, calm);
      } else {
        s := RemoveLeaf(row, calm);
      }
    }

    /** A directory goes after everything below it. */
    method RemoveDirectory(row: Entry, absent: seq<Path>, calm: bool) returns (s: Status)
      requires Valid() && Current() && Clear(disk, ledger)
      requires row in rows && row.body.Directory? && row.path in disk.present
      requires Agrees(rows, absent, disk.present.Keys, row.path)
      modifies this
      ensures Valid() && disk.present.Keys <= old(disk).present.Keys
      ensures s.Ok? ==> Clear(disk, ledger) && Current()
      ensures s.Ok? ==> forall q :: q in disk.present.Keys <==> q in old(disk).present.Keys && !AtOrUnder(row.path, q)
      ensures s.Ok? ==> Spared(rows, old(Present()), Present())
      ensures calm && s.Stop? ==> Halved(rows, Present()) && Clear(disk, ledger)
      decreases Room(rows, Parent(row.path)), 0
    {
      assert KeptRow(rows, disk, ledger, row);
      if !Unaltered(row.path, row.metadata) {
        return Stop(Reappeared);
      }
      :- Remove(row.path, absent, calm);
      ghost var now := Present();
      UnseveredRow(row);
      :- Unlink(row.path, calm);
      SparedJoin(rows, old(Present()), now, Present());
      s := Ok;
    }

    /** A file or link goes only with its exported metadata. */
    method RemoveLeaf(row: Entry, calm: bool) returns (s: Status)
      requires Valid() && Current() && Clear(disk, ledger)
      requires row in rows && !row.body.Directory? && row.path in disk.present
      modifies this
      ensures Valid() && disk.present.Keys <= old(disk).present.Keys
      ensures s.Ok? ==> Clear(disk, ledger) && Current()
      ensures s.Ok? ==> forall q :: q in disk.present.Keys <==> q in old(disk).present.Keys && !AtOrUnder(row.path, q)
      ensures s.Ok? ==> Spared(rows, old(Present()), Present())
      ensures calm && s.Stop? ==> Halved(rows, Present()) && Clear(disk, ledger)
    {
      LeafIsBare(rows, ledger, row);
      assert KeptRow(rows, disk, ledger, row);
      if disk.present[row.path] != row.metadata {
        return Stop(Reappeared);
      }
      forall q | q in disk.present
        ensures !Under(row.path, q)
      {
        BelowMember(rows, row.path, q);
      }
      UnseveredRow(row);
      s := Unlink(row.path, calm);
    }

    /** A directory, or a leaf with its exported metadata, has all its names. */
    lemma {:induction false} UnseveredRow(row: Entry)
      requires Valid() && row in rows && row.path in disk.present
      requires row.body.Directory? || disk.present[row.path] == row.metadata
      ensures Spared(rows, Present(), Present() - {row.path})
    {
      assert KeptRow(rows, disk, ledger, row);
      DirectoryIsWhole(rows, top, Present(), row);
      forall other | other in rows && other.path == row.path
        ensures other == row
      {
        SamePathSameRow(rows, other, row);
      }
      SparedOne(rows, Present(), row.path);
    }

    /** Nothing is present below an absent entry. */
    lemma {:induction false} AbsentAbove(path: Path)
      requires Valid() && path !in disk.present
      ensures forall q <- disk.present :: !AtOrUnder(path, q)
    {
      forall q | q in disk.present
        ensures !AtOrUnder(path, q)
      {
        if AtOrUnder(path, q) {
          AbsentBelow(path, q);
        }
      }
    }

    lemma {:induction false} AbsentBelow(path: Path, q: Path)
      requires Connected(rows, disk) && path !in disk.present && AtOrUnder(path, q)
      ensures q !in disk.present
      decreases |q|
    {
      if q != path {
        assert Parent(q)[..|path|] == path;
        AbsentBelow(path, Parent(q));
      }
    }

    /** `remove_unsubmitted`. From every reachable state it succeeds exactly when nothing
        submitted is still present and no present link has another name, and then nothing is left.
        Where a link does have another name, an uninterrupted disposal removes one of them and
        stops; from then on every disposal stops without removing anything. */
    method RemoveUnsubmitted(calm: bool) returns (s: Status)
      requires Valid()
      modifies this
      ensures Valid() && disk.present.Keys <= old(disk).present.Keys
      ensures s.Ok? ==> disk.present == map[]
      ensures calm ==> (s.Ok? <==> Clear(old(disk), old(ledger)) && Lone(rows, old(Present())))
      ensures calm && Clear(old(disk), old(ledger)) && s.Stop? ==> Halved(rows, Present()) && Clear(disk, ledger)
      ensures Halved(rows, old(Present())) ==> s.Stop? && disk == old(disk) && ledger == old(ledger)
    {
      if Lone(rows, Present()) {
        LoneIsWhole(rows, Present());
      }
      var lists :- Observe(calm);
      ObservationIsComplete(rows, disk.present.Keys, ledger);
      if lists.pending != [] {
        assert lists.pending[0] in lists.pending;
        return Stop(Unresolved);
      }
      if [] !in lists.absent {
        s := RemoveTree(lists.absent, calm);
        if Lone(rows, old(Present())) {
          LoneIsWhole(rows, Present());
        }
      } else {
        AbsentAbove([]);
        s := Ok;
      }
    }

    /** The pinned transaction of `remove_unsubmitted`: everything below the root, the root, and
        a last observation. */
    method RemoveTree(absent: seq<Path>, calm: bool) returns (s: Status)
      requires Valid() && Current() && Clear(disk, ledger)
      requires [] in disk.present && Agrees(rows, absent, disk.present.Keys, [])
      modifies this
      ensures Valid() && disk.present.Keys <= old(disk).present.Keys
      ensures s.Ok? ==> disk.present == map[] && Lone(rows, old(Present()))
      ensures calm && s.Stop? ==> Halved(rows, Present()) && Clear(disk, ledger)
    {
      if !Unaltered([], top) {
        return Stop(Reappeared);
      }
      :- Remove([], absent, calm);
      RootIsAlone();
      ghost var now := Present();
      :- RemoveRoot(calm);
      SparedOne(rows, now, []);
      SparedJoin(rows, old(Present()), now, Present());
      SparedAll(rows, old(Present()));
      s := Ok;
    }

    lemma {:induction false} RootIsAlone()
      requires [] in disk.present && forall q <- disk.present :: !Under([], q)
      ensures Present() == {[]}
    {
      forall q | q in disk.present
        ensures q == []
      {
        assert q != [] ==> Under([], q);
      }
    }

    /** The end of the transaction: the bare root goes, and everything is observed to be gone. */
    method RemoveRoot(calm: bool) returns (s: Status)
      requires Valid() && Current() && Clear(disk, ledger) && Present() == {[]}
      modifies this
      ensures Valid() && disk.present.Keys <= {[]}
      ensures s.Ok? ==> disk.present == map[]
      ensures calm ==> s.Ok?
    {
      s := Ok;
      :- Unlink([], calm);
      assert disk.present.Keys == {};
      var _ :- Observe(calm);
    }

    /** Once a link has lost one of its names, no disposal removes anything any more. */
    method Stuck(attempts: nat)
      requires Valid() && Halved(rows, Present())
      modifies this
      ensures Valid() && disk == old(disk) && ledger == old(ledger)
    {
      for i := 0 to attempts
        invariant Valid() && disk == old(disk) && ledger == old(ledger)
      {
        var calm: bool := *;
        var _ := RemoveUnsubmitted(calm);
      }
    }

    /** Any number of disposals, each cut off anywhere. */
    method History(attempts: nat)
      requires Valid()
      modifies this
      ensures Valid() && disk.repeated == {}
    {
      for i := 0 to attempts
        invariant Valid()
      {
        var _ := RemoveUnsubmitted(false);
      }
    }
  }

  /** A file or link has nothing below it, so no removal can have touched it. */
  lemma {:induction false} LeafIsBare(rows: seq<Entry>, ledger: L.Ledger<Path>, row: Entry)
    requires WellFormed(rows) && row in rows
    ensures row.body.Directory? || (Below(rows, row.path) == [] && !Touched(rows, ledger, row.path))
  {
    forall q | q in Paths(rows) && Under(row.path, q)
      ensures row.body.Directory?
    {
      AncestorIsDirectory(rows, row, q);
    }
    assert forall other <- rows :: Parent(other.path) == row.path ==> Under(row.path, other.path);
    if !row.body.Directory? {
      ChildrenNone(rows, row.path);
    }
  }

  lemma {:induction false} TouchedAfter(rows: seq<Entry>, before: L.Ledger<Path>, after: L.Ledger<Path>, path: Path)
    requires path in Paths(rows) && L.Extends(before, after, path) && after.Spent(path)
    ensures forall p :: Touched(rows, after, p) <==> Touched(rows, before, p) || p in Ancestors(path)
  {
    forall p
      ensures Touched(rows, after, p) <==> Touched(rows, before, p) || p in Ancestors(path)
    {
      if Under(p, path) {
        assert p == path[..|p|];
        assert Touched(rows, after, p);
      }
      if Touched(rows, before, p) {
        var q :| q in Paths(rows) && before.Spent(q) && Under(p, q);
        assert after.Spent(q);
      }
    }
  }

  lemma {:induction false} TouchedAfterRoot(rows: seq<Entry>, before: L.Ledger<Path>, after: L.Ledger<Path>)
    requires WellFormed(rows) && L.Extends(before, after, [])
    ensures forall p :: Touched(rows, after, p) <==> Touched(rows, before, p)
  {
    assert forall q <- Paths(rows) :: q != [] && (after.Spent(q) <==> before.Spent(q));
  }

  lemma {:induction false} GroupIsBelow(rows: seq<Entry>, path: Path, present: set<Path>)
    requires WellFormed(rows) && present <= Paths(rows) + {[]}
    ensures forall q <- present :: Covers(Children(rows, path), q) <==> Under(path, q)
  {
    forall q | q in present
      ensures Covers(Children(rows, path), q) <==> Under(path, q)
    {
      if Under(path, q) {
        ChildrenCover(rows, path, q);
      }
    }
  }

  lemma {:induction false} CoversSnoc(group: seq<Entry>, i: nat)
    requires i < |group|
    ensures forall q :: Covers(group[..i + 1], q) <==> Covers(group[..i], q) || AtOrUnder(group[i].path, q)
  {
    assert group[..i + 1] == group[..i] + [group[i]];
  }

  lemma {:induction false} WalkSnoc(rows: seq<Entry>, path: Path, group: seq<Entry>, i: nat)
    requires i < |group| && group == Children(rows, path)
    ensures group[i] in group && forall child <- group[..i + 1] :: child in group
    ensures BelowEach(rows, path, group[..i + 1]) ==
              BelowEach(rows, path, group[..i]) + ([group[i].path] + Below(rows, group[i].path))
  {
    assert group[..i + 1] == group[..i] + [group[i]];
    BelowEachSnoc(rows, path, group[..i], group[i]);
  }

  /** What lies at or below a child lies below its parent. */
  lemma {:induction false} ChildWalk(rows: seq<Entry>, path: Path, child: Entry, q: Path)
    requires WellFormed(rows) && child in rows && child.path != [] && Parent(child.path) == path
    requires q == child.path || q in Below(rows, child.path)
    ensures q in Below(rows, path)
  {
    BelowMember(rows, child.path, q);
    assert child.path in Paths(rows);
    BelowChild(child, path, q);
    BelowMember(rows, path, q);
  }

  /** Earlier siblings cover nothing at or below the next one. */
  lemma {:induction false} GroupApart(group: seq<Entry>, i: nat, path: Path)
    requires i < |group| && DistinctPaths(group)
    requires forall row <- group :: row.path != [] && Parent(row.path) == path
    ensures forall q :: AtOrUnder(group[i].path, q) ==> !Covers(group[..i], q)
  {
    forall q, row | AtOrUnder(group[i].path, q) && row in group[..i]
      ensures !AtOrUnder(row.path, q)
    {
      assert row in group && group[i] in group;
      assert |row.path| == |group[i].path| && row.path != group[i].path;
    }
  }

  lemma {:induction false} TouchedGrows(rows: seq<Entry>, row: Entry, ledger: L.Ledger<Path>)
    ensures forall path :: Touched(rows + [row], ledger, path) <==>
                             Touched(rows, ledger, path) || (ledger.Spent(row.path) && path in Ancestors(row.path))
  {
    assert Paths(rows + [row]) == Paths(rows) + {row.path};
    forall path
      ensures path in Ancestors(row.path) <==> Under(path, row.path)
    {
      if Under(path, row.path) {
        assert path == row.path[..|path|];
      }
    }
  }
}
