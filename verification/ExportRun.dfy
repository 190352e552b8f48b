/** The imperative side of the tree export (scripts/m3_11_frozen_export.py): reading in chunks,
    the sparse writer, the bounded scan, publication and verification. */
module ExportRun {
  import opened Outcomes
  import opened Manifest
  import opened TreeExport
  import L = Ledger
  import D = TreeDisposal
  import K = ObjectKeys

  const CHUNK := 1024 * 1024

  /** The bytes of a sequence of blocks. */
  function Concat(blocks: seq<seq<Byte>>): seq<Byte> {
    if blocks == [] then [] else Concat(blocks[..|blocks| - 1]) + blocks[|blocks| - 1]
  }

  function Zeros(count: nat): seq<Byte> {
    seq(count, _ => 0)
  }

  /** `chunks`: bounded partial reads. An uninterrupted read succeeds exactly when the file has
      the expected size, and then yields its bytes. */
  method Chunks(content: seq<Byte>, size: nat, calm: bool) returns (s: Status, blocks: seq<seq<Byte>>)
    ensures s.Ok? ==> |content| == size && Concat(blocks) == content
    ensures calm ==> (s.Ok? <==> |content| == size)
  {
    blocks := [];
    var remaining, position := size, 0;
    while remaining > 0
      invariant 0 <= position <= |content| && position <= size && remaining == size - position
      invariant Concat(blocks) == content[..position]
    {
      :- Checkpoint(calm);
      if position == |content| {
        return Stop(Incomplete), blocks;
      }
      var most := if remaining < CHUNK then remaining else CHUNK;
      most := if |content| - position < most then |content| - position else most;
      var count :| 1 <= count <= most;
      var block := content[position..position + count];
      assert (blocks + [block])[..|blocks|] == blocks;
      assert content[..position] + block == content[..position + count];
      blocks := blocks + [block];
      remaining, position := remaining - count, position + count;
    }
    if position < |content| {
      return Stop(NewBytes), blocks;
    }
    s := Ok;
  }

  /** `_write`: seeks over all-zero blocks and truncates at the end. Whatever the blocks, the file
      ends up as their concatenation, and exactly the blocks of the declared size are accepted. */
  method Write(blocks: seq<seq<Byte>>, size: nat) returns (s: Status, file: seq<Byte>, digest: Digest)
    ensures s.Ok? <==> |Concat(blocks)| == size
    ensures s.Ok? ==> file == Concat(blocks) && digest == Digest(file)
  {
    file, digest := [], Digest([]);
    var position := 0;
    for i := 0 to |blocks|
      invariant |file| <= position == |Concat(blocks[..i])| <= size
      invariant file + Zeros(position - |file|) == Concat(blocks[..i])
      invariant digest == Digest(Concat(blocks[..i]))
    {
      var block := blocks[i];
      assert blocks[..i + 1][..i] == blocks[..i];
      assert Concat(blocks[..i + 1]) == Concat(blocks[..i]) + block;
      if position + |block| > size {
        ConcatGrows(blocks, i + 1);
        return Stop(Inadmissible), file, digest;
      }
      digest := Digest(digest.preimage + block);
      if forall k | 0 <= k < |block| :: block[k] == 0 {
        assert block == Zeros(|block|);
        assert Zeros(position - |file|) + block == Zeros(position + |block| - |file|);
        assert file + Zeros(position + |block| - |file|) == (file + Zeros(position - |file|)) + block;
      } else {
        file := file + Zeros(position - |file|) + block;
        assert file + Zeros(0) == file;
      }
      position := position + |block|;
    }
    assert blocks[..|blocks|] == blocks;
    if position != size {
      return Stop(Incomplete), file, digest;
    }
    file := file + Zeros(size - |file|);
    s := Ok;
  }

  lemma {:induction false} ConcatGrows(blocks: seq<seq<Byte>>, i: nat)
    requires i <= |blocks|
    ensures |Concat(blocks[..i])| <= |Concat(blocks)|
    decreases |blocks|
  {
    if i < |blocks| {
      ConcatGrows(blocks[..|blocks| - 1], i);
      assert blocks[..|blocks| - 1][..i] == blocks[..i];
    } else {
      assert blocks[..i] == blocks;
    }
  }

  /** `_blob`: a file copied block by block. */
  method Copy(content: seq<Byte>, size: nat, calm: bool) returns (s: Status, blob: seq<Byte>, digest: Digest)
    ensures s.Ok? ==> |content| == size && blob == content && digest == Digest(content)
    ensures calm ==> (s.Ok? <==> |content| == size)
  {
    blob, digest := [], Digest([]);
    var blocks :- Chunks(content, size, calm);
    s, blob, digest := Write(blocks, size);
  }

  // ---- the bounded scan ----

  datatype Limits = Limits(bytes: nat, entries: nat)

  predicate SafeName(name: Name) {
    name != "" && name != "." && name != ".." && '/' !in name && |name| <= 255
  }

  /** The length of the joined path. */
  function JoinedLength(path: Path): nat {
    if path == [] then 0 else |path[0]| + (if |path| == 1 then 0 else 1) + JoinedLength(path[1..])
  }

  predicate SafePath(path: Path) {
    |path| <= 64 && JoinedLength(path) <= 4096
  }

  /** Every name, path and link target below `path` is within its bound, and no file has another
      name. */
  predicate Safe(path: Path, children: seq<Child>)
    decreases children, 0
  {
    children == [] ||
    (SafeName(children[0].name) && SafePath(path + [children[0].name])
     && SafeNode(path + [children[0].name], children[0].node) && Safe(path, children[1..]))
  }

  predicate SafeNode(path: Path, node: Node)
    decreases node, 1
  {
    match node
    case Regular(metadata, _) => metadata.links == 1
    case Link(_, target) => |target| <= 4096
    case Folder(_, children) => Safe(path, children)
  }

  /** A row that the scan admits, told by the row itself. */
  ghost predicate Admissible(row: Entry) {
    && 0 < |row.path| <= 64 && |K.Joined(row.path)| <= 4096
    && 1 <= |row.path[|row.path| - 1]| <= 255
    && row.path[|row.path| - 1] != "." && row.path[|row.path| - 1] != ".."
    && '/' !in row.path[|row.path| - 1]
    && (row.body.File? ==> row.metadata.links == 1)
    && (row.body.Symlink? ==> |row.body.target| <= 4096)
  }

  lemma {:induction false} JoinedIs(path: Path)
    ensures JoinedLength(path) == |K.Joined(path)|
  {
    if |path| > 1 {
      JoinedIs(path[1..]);
    } else if |path| == 1 {
      assert path[1..] == [];
    }
  }

  /** The scan admits a tree exactly when each of its rows is admissible. */
  lemma {:induction false} SafeMeans(path: Path, children: seq<Child>)
    ensures Safe(path, children) <==> forall row <- ChildRows(path, children) :: Admissible(row)
    decreases children, 0
  {
    if children != [] {
      var part, node := path + [children[0].name], children[0].node;
      SafeNodeMeans(part, node);
      SafeMeans(path, children[1..]);
      var rows, rest := Rows(part, node), ChildRows(path, children[1..]);
      assert forall row :: row in rows + rest <==> row in rows || row in rest;
    }
  }

  lemma {:induction false} SafeNodeMeans(path: Path, node: Node)
    requires path != []
    ensures (&& SafeName(path[|path| - 1]) && SafePath(path) && SafeNode(path, node)) <==>
              forall row <- Rows(path, node) :: Admissible(row)
    decreases node, 1
  {
    var first := EntryOf(path, node);
    var rest := if node.Folder? then ChildRows(path, node.children) else [];
    JoinedIs(path);
    var name := path[|path| - 1];
    assert name != "" <==> |name| >= 1;
    assert Admissible(first) <==>
           && SafeName(name) && SafePath(path)
           && (node.Regular? ==> node.metadata.links == 1) && (node.Link? ==> |node.target| <= 4096);
    if node.Folder? {
      SafeMeans(path, node.children);
    }
    assert Rows(path, node) == [first] + rest;
    assert forall row :: row in [first] + rest <==> row == first || row in rest;
  }

  /** The scan's accumulators. */
  datatype Progress = Progress(rows: seq<Entry>, total: nat, blobs: map<Path, seq<Byte>>) {
    predicate Within(limits: Limits) {
      |rows| <= limits.entries && total <= limits.bytes
    }
  }

  /** What a complete scan of `children` adds. With `output` it writes a blob for every file. */
  function After(p: Progress, path: Path, children: seq<Child>, output: bool): Progress {
    Progress(p.rows + ChildRows(path, children), p.total + ChildBytes(children),
             if output then p.blobs + ChildBlobs(path, children) else p.blobs)
  }

  function AfterNode(p: Progress, path: Path, node: Node, output: bool): Progress {
    Progress(p.rows + Rows(path, node), p.total + Bytes(node),
             if output then p.blobs + Blobs(path, node) else p.blobs)
  }

  lemma {:induction false} AfterCons(p: Progress, path: Path, children: seq<Child>, output: bool)
    requires children != []
    ensures var next := AfterNode(p, path + [children[0].name], children[0].node, output);
            After(p, path, children, output) == After(next, path, children[1..], output)
  {
    var part, node := path + [children[0].name], children[0].node;
    assert p.rows + (Rows(part, node) + ChildRows(path, children[1..]))
        == (p.rows + Rows(part, node)) + ChildRows(path, children[1..]);
    assert p.blobs + (Blobs(part, node) + ChildBlobs(path, children[1..]))
        == (p.blobs + Blobs(part, node)) + ChildBlobs(path, children[1..]);
  }

  lemma {:induction false} CountAtLeast(path: Path, children: seq<Child>)
    ensures |ChildRows(path, children)| >= |children|
    decreases children
  {
    if children != [] {
      CountAtLeast(path, children[1..]);
    }
  }

  class Tree {
    const limits: Limits
    const output: bool
    var p: Progress

    constructor (limits: Limits, output: bool)
      ensures this.limits == limits && this.output == output && p == Progress([], 0, map[])
    {
      this.limits, this.output, p := limits, output, Progress([], 0, map[]);
    }

    /** `_directory`: an uninterrupted scan succeeds exactly within the bounds, and then adds
        exactly the rows, bytes and blobs of everything below `path`. */
    method Directory(path: Path, children: seq<Child>, calm: bool) returns (s: Status)
      requires SoundAll(children) && p.Within(limits)
      modifies this
      ensures |p.rows| <= limits.entries && (p.Within(limits) || s == Stop(Inadmissible))
      ensures s.Ok? ==> p == After(old(p), path, children, output) && Safe(path, children)
      ensures calm ==> (s.Ok? <==> Safe(path, children) && After(old(p), path, children, output).Within(limits))
      decreases children, 1
    {
      CountAtLeast(path, children);
      :- Checkpoint(calm);
      if |children| + |p.rows| > limits.entries {
        return Stop(Inadmissible);
      }
      for i := 0 to |children|
        invariant p.Within(limits) && SoundAll(children[i..])
        invariant After(p, path, children[i..], output) == After(old(p), path, children, output)
        invariant Safe(path, children) <==> Safe(path, children[i..])
      {
        var child, rest := children[i], children[i..];
        assert rest[0] == child && rest[1..] == children[i + 1..];
        AfterCons(p, path, rest, output);
        var part := path + [child.name];
        if !SafeName(child.name) || !SafePath(part) {
          return Stop(Inadmissible);
        }
        :- Scan(part, child.node, calm);
      }
      assert children[|children|..] == [];
      s := Ok;
    }

    /** `_entry`. */
    method Scan(path: Path, node: Node, calm: bool) returns (s: Status)
      requires Sound(node) && p.Within(limits)
      modifies this
      ensures |p.rows| <= limits.entries && (p.Within(limits) || s == Stop(Inadmissible))
      ensures s.Ok? ==> p == AfterNode(old(p), path, node, output) && SafeNode(path, node)
      ensures calm ==> (s.Ok? <==> SafeNode(path, node) && AfterNode(old(p), path, node, output).Within(limits))
      decreases node, 2
    {
      s := Ok;
      :- Checkpoint(calm);
      if |p.rows| >= limits.entries {
        return Stop(Inadmissible);
      }
      var before := p.rows;
      p := p.(rows := before + [Entry(path, node.metadata, BodyOf(node))]);
      match node {
        case Folder(metadata, children) =>
          s := ScanFolder(path, metadata, children, before, calm);
        case Link(_, target) =>
          s := if |target| > 4096 then Stop(Inadmissible) else Ok;
        case Regular(metadata, content) =>
          s := ScanFile(path, metadata, content, before, calm);
      }
    }

    /** The directory branch of `_entry`. */
    method ScanFolder(path: Path, metadata: Metadata, children: seq<Child>, before: seq<Entry>, calm: bool)
      returns (s: Status)
      requires SoundAll(children) && |before| < limits.entries && p.total <= limits.bytes
      requires p.rows == before + [EntryOf(path, Folder(metadata, children))]
      modifies this
      ensures |p.rows| <= limits.entries && (p.Within(limits) || s == Stop(Inadmissible))
      ensures s.Ok? ==>
                && Safe(path, children)
                && p == AfterNode(old(p).(rows := before), path, Folder(metadata, children), output)
      ensures calm ==>
                (s.Ok? <==>
                   && Safe(path, children)
                   && AfterNode(old(p).(rows := before), path, Folder(metadata, children), output).Within(limits))
      decreases children, 2
    {
      assert p.rows + ChildRows(path, children) == before + Rows(path, Folder(metadata, children));
      s := Directory(path, children, calm);
    }

    /** The file branch of `_entry`: one name only, counted before it is compared, then copied. */
    method ScanFile(path: Path, metadata: Metadata, content: seq<Byte>, before: seq<Entry>, calm: bool)
      returns (s: Status)
      requires metadata.size == |content| && |before| < limits.entries && p.total <= limits.bytes
      requires p.rows == before + [EntryOf(path, Regular(metadata, content))]
      modifies this
      ensures |p.rows| <= limits.entries && (p.Within(limits) || s == Stop(Inadmissible))
      ensures s.Ok? ==>
                metadata.links == 1 && p == AfterNode(old(p).(rows := before), path, Regular(metadata, content), output)
      ensures calm ==> (s.Ok? <==> metadata.links == 1 && old(p).total + |content| <= limits.bytes)
    {
      if metadata.links != 1 {
        return Stop(Inadmissible);
      }
      p := p.(total := p.total + metadata.size);
      if p.total > limits.bytes {
        return Stop(Inadmissible);
      }
      var blob, digest :- Copy(content, metadata.size, calm);
      p := p.(rows := before + [Entry(path, metadata, File(digest))]);
      if output {
        p := p.(blobs := p.blobs + map[path := blob]);
      }
      s := Ok;
    }
  }

  // ---- retained evidence ----

  /** `manifest.json`; `verified.json` carries its digest, so it is modelled by the manifest it
      names. */
  datatype Document = Document(rows: seq<Entry>, bytes: nat, top: Metadata)

  const MAX_MANIFEST := 32 * 1024 * 1024

  /** The number of canonical bytes of a manifest. */
  type Encoding = Document -> nat

  function TotalSize(rows: seq<Entry>): nat {
    if rows == [] then 0
    else TotalSize(rows[..|rows| - 1]) + if rows[|rows| - 1].body.File? then rows[|rows| - 1].metadata.size else 0
  }

  /** The parts of a nonempty path text that is split at its slashes. */
  predicate CleanPath(path: Path) {
    path != [] && forall name <- path :: name != "" && name != "." && name != ".." && '/' !in name
  }

  ghost predicate AllClean(rows: seq<Entry>) {
    forall row <- rows :: CleanPath(row.path)
  }

  /** The blob that a file row calls for. */
  ghost predicate Matches(row: Entry, blobs: map<Path, seq<Byte>>) {
    row.body.File? ==>
      row.path in blobs && |blobs[row.path]| == row.metadata.size && Digest(blobs[row.path]) == row.body.sha256
  }

  /** Every file row has its blob, and there is no other blob. */
  ghost predicate BlobsMatch(rows: seq<Entry>, blobs: map<Path, seq<Byte>>) {
    && (forall row <- rows :: Matches(row, blobs))
    && (forall q <- blobs :: exists row <- rows :: row.body.File? && row.path == q)
  }

  /** What `verify_preserved` accepts. */
  ghost predicate Acceptable(document: Document, blobs: map<Path, seq<Byte>>, limits: Limits, encoded: Encoding) {
    && encoded(document) <= MAX_MANIFEST
    && |document.rows| <= limits.entries
    && DistinctPaths(document.rows)
    && AllClean(document.rows)
    && document.bytes == TotalSize(document.rows) <= limits.bytes
    && BlobsMatch(document.rows, blobs)
  }

  /** `verify_blobs`. */
  method VerifyBlobs(rows: seq<Entry>, blobs: map<Path, seq<Byte>>, calm: bool) returns (s: Status)
    ensures s.Ok? ==> BlobsMatch(rows, blobs)
    ensures calm ==> (s.Ok? <==> BlobsMatch(rows, blobs))
  {
    var expected: set<Path> := {};
    for i := 0 to |rows|
      invariant forall row <- rows[..i] :: Matches(row, blobs)
      invariant forall q :: q in expected <==> exists row <- rows[..i] :: row.body.File? && row.path == q
    {
      var row := rows[i];
      assert row in rows && rows[..i + 1] == rows[..i] + [row];
      if row.body.File? {
        :- Checkpoint(calm);
        expected := expected + {row.path};
        if row.path !in blobs || |blobs[row.path]| != row.metadata.size {
          return Stop(Disagreement);
        }
        var blocks :- Chunks(blobs[row.path], row.metadata.size, calm);
        if Digest(Concat(blocks)) != row.body.sha256 {
          return Stop(Disagreement);
        }
      }
    }
    assert rows[..|rows|] == rows;
    if blobs.Keys != expected {
      assert exists q :: q in blobs.Keys && q !in expected by {
        assert forall row <- rows :: row.body.File? ==> row.path in blobs.Keys;
        assert expected <= blobs.Keys;
      }
      return Stop(NewBytes);
    }
    s := Ok;
  }

  lemma {:induction false} RowNext(rows: seq<Entry>, i: nat)
    requires i < |rows| && DistinctPaths(rows[..i]) && AllClean(rows[..i])
    ensures Paths(rows[..i + 1]) == Paths(rows[..i]) + {rows[i].path}
    ensures rows[i].path in Paths(rows[..i]) ==> !DistinctPaths(rows)
    ensures !CleanPath(rows[i].path) ==> !AllClean(rows)
    ensures rows[i].path !in Paths(rows[..i]) && CleanPath(rows[i].path) ==>
              DistinctPaths(rows[..i + 1]) && AllClean(rows[..i + 1])
  {
    assert rows[..i + 1] == rows[..i] + [rows[i]];
    assert forall k :: 0 <= k < i ==> rows[..i][k] in rows[..i] && rows[..i][k] == rows[k];
    assert rows[i] in rows;
  }

  /** The row loop of `verify_preserved`. */
  method VerifyRows(rows: seq<Entry>) returns (s: Status, total: nat)
    ensures s.Ok? <==> DistinctPaths(rows) && AllClean(rows)
    ensures s.Ok? ==> total == TotalSize(rows)
  {
    var names: set<Path> := {};
    total := 0;
    for i := 0 to |rows|
      invariant DistinctPaths(rows[..i]) && AllClean(rows[..i]) && total == TotalSize(rows[..i])
      invariant names == Paths(rows[..i])
    {
      var row := rows[i];
      assert rows[..i + 1][..i] == rows[..i];
      RowNext(rows, i);
      if row.path in names || !CleanPath(row.path) {
        return Stop(Inadmissible), total;
      }
      names := names + {row.path};
      if row.body.File? {
        total := total + row.metadata.size;
      }
    }
    assert rows[..|rows|] == rows;
    s := Ok;
  }

  /** `verify_preserved`: accepts exactly the acceptable evidence and returns its manifest. */
  method VerifyPreserved(manifest: Option<Document>, verified: Option<Document>, blobs: map<Path, seq<Byte>>,
                         limits: Limits, encoded: Encoding, calm: bool) returns (s: Status, document: Document)
    ensures s.Ok? ==> manifest == Some(document) && verified == manifest && Acceptable(document, blobs, limits, encoded)
    ensures calm ==>
              (s.Ok? <==> manifest.Some? && verified == manifest && Acceptable(manifest.value, blobs, limits, encoded))
  {
    document := Document([], 0, Metadata(0, 0, 0, 0));
    :- Checkpoint(calm);
    if manifest.None? || verified != manifest {
      return Stop(Ambiguous), document;
    }
    document := manifest.value;
    if encoded(document) > MAX_MANIFEST || |document.rows| > limits.entries {
      return Stop(Inadmissible), document;
    }
    var total :- VerifyRows(document.rows);
    if total != document.bytes || total > limits.bytes {
      return Stop(Inadmissible), document;
    }
    s := VerifyBlobs(document.rows, blobs, calm);
  }

  // ---- what a scan publishes is accepted ----

  lemma {:induction false} TotalSizeConcat(a: seq<Entry>, b: seq<Entry>)
    ensures TotalSize(a + b) == TotalSize(a) + TotalSize(b)
    decreases |b|
  {
    if b == [] {
      assert a + b == a;
    } else {
      assert (a + b)[..|a + b| - 1] == a + b[..|b| - 1];
      TotalSizeConcat(a, b[..|b| - 1]);
    }
  }

  lemma {:induction false} SizeOfRows(path: Path, node: Node)
    requires Sound(node)
    ensures TotalSize(Rows(path, node)) == Bytes(node)
    decreases node, 1
  {
    var head := [EntryOf(path, node)];
    assert head[..0] == [] && TotalSize(head) == if node.Regular? then node.metadata.size else 0;
    if node.Folder? {
      TotalSizeConcat(head, ChildRows(path, node.children));
      SizeOfChildRows(path, node.children);
    }
  }

  lemma {:induction false} SizeOfChildRows(path: Path, children: seq<Child>)
    requires SoundAll(children)
    ensures TotalSize(ChildRows(path, children)) == ChildBytes(children)
    decreases children, 0
  {
    if children != [] {
      var part := path + [children[0].name];
      TotalSizeConcat(Rows(part, children[0].node), ChildRows(path, children[1..]));
      SizeOfRows(part, children[0].node);
      SizeOfChildRows(path, children[1..]);
    }
  }

  lemma {:induction false} BlobsOfRows(path: Path, node: Node)
    requires Sound(node)
    ensures BlobsMatch(Rows(path, node), Blobs(path, node))
    decreases node, 1
  {
    if node.Folder? {
      BlobsOfChildRows(path, node.children);
      assert forall row <- ChildRows(path, node.children) :: row in Rows(path, node);
    } else {
      assert EntryOf(path, node) in Rows(path, node);
    }
  }

  lemma {:induction false} BlobsOfChildRows(path: Path, children: seq<Child>)
    requires SoundAll(children)
    ensures BlobsMatch(ChildRows(path, children), ChildBlobs(path, children))
    decreases children, 0
  {
    if children != [] {
      var part, node := path + [children[0].name], children[0].node;
      BlobsOfRows(part, node);
      BlobsOfChildRows(path, children[1..]);
      BlobsApart(path, children);
      JoinMatch(Rows(part, node), Blobs(part, node), ChildRows(path, children[1..]), ChildBlobs(path, children[1..]));
    }
  }

  lemma {:induction false} JoinMatch(a: seq<Entry>, m: map<Path, seq<Byte>>, b: seq<Entry>, n: map<Path, seq<Byte>>)
    requires BlobsMatch(a, m) && BlobsMatch(b, n) && m.Keys !! n.Keys
    ensures BlobsMatch(a + b, m + n)
  {
    forall row | row in a + b
      ensures Matches(row, m + n)
    {
      if row in a {
        assert Matches(row, m);
      } else {
        assert Matches(row, n);
      }
    }
    forall q | q in m + n
      ensures exists row <- a + b :: row.body.File? && row.path == q
    {
      if q in m {
        var row :| row in a && row.body.File? && row.path == q;
        assert row in a + b;
      } else {
        var row :| row in b && row.body.File? && row.path == q;
        assert row in a + b;
      }
    }
  }

  lemma {:induction false} SafeRows(path: Path, node: Node)
    requires SafeNode(path, node) && CleanPath(path)
    ensures forall row <- Rows(path, node) :: CleanPath(row.path) && (row.body.File? ==> row.metadata.links == 1)
    decreases node, 1
  {
    if node.Folder? {
      SafeChildRows(path, node.children);
    }
  }

  lemma {:induction false} SafeChildRows(path: Path, children: seq<Child>)
    requires Safe(path, children) && (path == [] || CleanPath(path))
    ensures forall row <- ChildRows(path, children) ::
              CleanPath(row.path) && (row.body.File? ==> row.metadata.links == 1)
    decreases children, 0
  {
    if children != [] {
      var part := path + [children[0].name];
      assert CleanPath(part);
      SafeRows(part, children[0].node);
      SafeChildRows(path, children[1..]);
    }
  }

  /** The manifest and blobs of a scan within its bounds. */
  function DocumentOf(children: seq<Child>, top: Metadata): Document {
    Document(ChildRows([], children), ChildBytes(children), top)
  }

  /** The scan stays within its bounds. */
  ghost predicate Scannable(children: seq<Child>, limits: Limits) {
    Safe([], children) && After(Progress([], 0, map[]), [], children, true).Within(limits)
  }

  /** And so does the manifest. */
  ghost predicate Exportable(children: seq<Child>, top: Metadata, limits: Limits, encoded: Encoding) {
    Scannable(children, limits) && encoded(DocumentOf(children, top)) <= MAX_MANIFEST
  }

  /** What a scan within its bounds yields is acceptable evidence, with totals equal to the
      tree's, and rebuilds the tree. */
  lemma {:induction false} ScanIsAcceptable(children: seq<Child>, top: Metadata, limits: Limits, encoded: Encoding)
    requires SoundAll(children) && Exportable(children, top, limits, encoded)
    ensures Acceptable(DocumentOf(children, top), ChildBlobs([], children), limits, encoded)
    ensures Rebuild(DocumentOf(children, top).rows, ChildBlobs([], children), []) == children
  {
    ScanIsWellFormed(children);
    SizeOfChildRows([], children);
    BlobsOfChildRows([], children);
    SafeChildRows([], children);
    assert [] + ChildRows([], children) == ChildRows([], children);
    ExportIsLossless(children);
  }

  /** Whatever part of a scanned tree is left, an observation of it lists every entry and the root
      exactly once. */
  lemma {:induction false} ScanIsListedOnce(children: seq<Child>, present: set<Path>, ledger: L.Ledger<Path>)
    requires SoundAll(children)
    ensures var rows := ChildRows([], children);
            && D.Sorts(D.Classify(D.NOTHING, D.Everything(rows), present, ledger), D.Everything(rows), present, ledger)
            && Distinct(D.Everything(rows))
            && forall p :: p in D.Everything(rows) <==> p == [] || p in Paths(rows)
  {
    ScanIsWellFormed(children);
    D.ObservationIsComplete(ChildRows([], children), present, ledger);
  }

  /** In a scanned manifest only symbolic links have several names. */
  lemma {:induction false} ScanSharesLinks(children: seq<Child>, top: Metadata)
    requires Safe([], children) && Inodes(ChildRows([], children), top)
    ensures SharedAreLinks(ChildRows([], children), top)
  {
    SafeChildRows([], children);
  }

  /** The disposal of a scanned tree after any number of interrupted attempts: nothing is
      unlinked twice, and success means that everything is gone. The first attempt succeeds
      exactly when no two entries are names of one inode. */
  method DisposeScanned(children: seq<Child>, top: Metadata, attempts: nat) returns (residual: D.Residual, s: Status)
    requires SoundAll(children) && Safe([], children) && Inodes(ChildRows([], children), top)
    ensures fresh(residual) && residual.Valid() && residual.rows == ChildRows([], children)
    ensures residual.disk.repeated == {}
    ensures s.Ok? ==> residual.disk.present == map[]
    ensures attempts == 0 ==> (s.Ok? <==> Unshared(residual.rows))
    ensures attempts == 0 && s.Stop? ==>
              D.Halved(residual.rows, residual.Present()) && D.Clear(residual.disk, residual.ledger)
  {
    ScanIsWellFormed(children);
    ScanSharesLinks(children, top);
    residual := new D.Residual(ChildRows([], children), top);
    assert forall row <- residual.rows :: row.path in Paths(residual.rows);
    if attempts > 0 {
      residual.History(attempts);
    }
    s := residual.RemoveUnsubmitted(true);
  }

  /** Two names of one symbolic link. */
  function TwoNames(m: Metadata): seq<Child> {
    [Child("a", Link(m, "t")), Child("b", Link(m, "t"))]
  }

  lemma {:induction false} TwoNamesAreRows(m: Metadata)
    ensures ChildRows([], TwoNames(m)) == [Entry(["a"], m, Symlink("t")), Entry(["b"], m, Symlink("t"))]
    ensures ChildBytes(TwoNames(m)) == 0
  {
    var children := TwoNames(m);
    assert children[1..] == [children[1]] && children[1..][1..] == [];
    assert [] + ["a"] == ["a"] && [] + ["b"] == ["b"];
    assert ChildRows([], children[1..]) == [Entry(["b"], m, Symlink("t"))];
    assert ChildBytes(children[1..]) == 0;
  }

  lemma {:induction false} TwoNamesAreSafe(m: Metadata)
    ensures SoundAll(TwoNames(m)) && Safe([], TwoNames(m))
  {
    var children := TwoNames(m);
    assert children[1..] == [children[1]] && children[1..][1..] == [];
    assert [] + ["a"] == ["a"] && [] + ["b"] == ["b"] && ["a"][1..] == [] && ["b"][1..] == [];
    assert JoinedLength(["a"]) == 1 && JoinedLength(["b"]) == 1;
    assert SafeName("a") && SafeName("b");
    assert Sound(children[0].node) && Sound(children[1].node);
    assert SafeNode(["b"], children[1].node) && SafeNode(["a"], children[0].node);
    assert SoundAll(children[1..]) && Safe([], children[1..]);
    assert "a"[0] != "b"[0];
  }

  /** The export accepts them... */
  lemma {:induction false} TwoNamesAreExported(m: Metadata, top: Metadata, limits: Limits, encoded: Encoding)
    requires m.links == 2 && m.identity != top.identity && limits.entries >= 2
    requires encoded(DocumentOf(TwoNames(m), top)) <= MAX_MANIFEST
    ensures SoundAll(TwoNames(m)) && Exportable(TwoNames(m), top, limits, encoded)
    ensures Inodes(ChildRows([], TwoNames(m)), top) && !Unshared(ChildRows([], TwoNames(m)))
  {
    TwoNamesAreSafe(m);
    TwoNamesAreRows(m);
    var rows := ChildRows([], TwoNames(m));
    assert "a"[0] != "b"[0] && rows[0].path[0] != rows[1].path[0];
    assert rows[0] in rows && rows[1] in rows && Share(rows[0], rows[1]);
  }

  /** ... and the disposal of any export with such names stops for good: one name goes, and from
      then on every attempt stops and leaves the other one, with nothing submitted that is
      unresolved. */
  method DisposeShared(children: seq<Child>, top: Metadata, attempts: nat) returns (residual: D.Residual)
    requires SoundAll(children) && Safe([], children) && Inodes(ChildRows([], children), top)
    requires !Unshared(ChildRows([], children))
    ensures residual.Valid() && residual.rows == ChildRows([], children)
    ensures D.Halved(residual.rows, residual.Present()) && D.Clear(residual.disk, residual.ledger)
  {
    var s;
    residual, s := DisposeScanned(children, top, 0);
    residual.Stuck(attempts);
  }

  /** Two trees with the same rows are the same: a digest determines its content. */
  lemma {:induction false} RowsDetermine(a: seq<Child>, b: seq<Child>)
    requires SoundAll(a) && SoundAll(b) && ChildRows([], a) == ChildRows([], b)
    ensures a == b
  {
    BlobsOfChildRows([], a);
    BlobsOfChildRows([], b);
    SameBlobs(ChildRows([], a), ChildBlobs([], a), ChildBlobs([], b));
    ExportIsLossless(a);
    ExportIsLossless(b);
  }

  lemma {:induction false} SameBlobs(rows: seq<Entry>, a: map<Path, seq<Byte>>, b: map<Path, seq<Byte>>)
    requires BlobsMatch(rows, a) && BlobsMatch(rows, b)
    ensures a == b
  {
    BlobsWithin(rows, a, b);
    BlobsWithin(rows, b, a);
    assert a.Keys == b.Keys;
  }

  lemma {:induction false} BlobsWithin(rows: seq<Entry>, a: map<Path, seq<Byte>>, b: map<Path, seq<Byte>>)
    requires BlobsMatch(rows, a) && BlobsMatch(rows, b)
    ensures forall q <- a :: q in b && a[q] == b[q]
  {
    forall q | q in a
      ensures q in b && a[q] == b[q]
    {
      var row :| row in rows && row.body.File? && row.path == q;
      assert Matches(row, a) && Matches(row, b);
      assert Digest(a[q]).preimage == Digest(b[q]).preimage;
    }
  }

  /** The accumulators of a whole scan. */
  function Scanned(children: seq<Child>, output: bool): Progress {
    Progress(ChildRows([], children), ChildBytes(children), if output then ChildBlobs([], children) else map[])
  }

  lemma {:induction false} ScanYields(children: seq<Child>, output: bool)
    ensures After(Progress([], 0, map[]), [], children, output) == Scanned(children, output)
  {
    assert [] + ChildRows([], children) == ChildRows([], children);
    assert map[] + ChildBlobs([], children) == ChildBlobs([], children);
  }

  /** `preserve`. Nothing keeps the source from changing between two scans. */
  class Preservation {
    const limits: Limits
    const encoded: Encoding
    /** The source tree. */
    var children: seq<Child>
    var top: Metadata
    /** The destination. */
    var created: bool
    var blobs: map<Path, seq<Byte>>
    var manifest: Option<Document>
    var verified: Option<Document>
    /** The tree that the published manifest was taken from. */
    ghost var evidence: seq<Child>

    /** Published documents are complete: a manifest only ever stands beside all its blobs. */
    ghost predicate Valid()
      reads this
    {
      && SoundAll(children) && SoundAll(evidence)
      && (manifest.Some? ==>
            && created && manifest.value == DocumentOf(evidence, manifest.value.top)
            && Exportable(evidence, manifest.value.top, limits, encoded) && blobs == ChildBlobs([], evidence))
      && (verified.Some? ==> verified == manifest)
    }

    constructor (children: seq<Child>, top: Metadata, limits: Limits, encoded: Encoding)
      requires SoundAll(children)
      ensures Valid() && !created && manifest.None?
      ensures this.children == children && this.top == top && this.limits == limits && this.encoded == encoded
    {
      this.children, this.top, this.limits, this.encoded := children, top, limits, encoded;
      created, blobs, manifest, verified, evidence := false, map[], None, None, children;
    }

    /** What may happen to the source between two scans. */
    method Change(calm: bool)
      requires Valid()
      modifies this`children, this`top
      ensures Valid()
      ensures calm ==> children == old(children) && top == old(top)
    {
      if !calm {
        var next: seq<Child>, root: Metadata := *, *;
        if SoundAll(next) {
          children, top := next, root;
        }
      }
    }

    method Scan(output: bool, calm: bool) returns (s: Status, p: Progress, root: Metadata)
      requires Valid()
      ensures s.Ok? ==> p == Scanned(children, output) && root == top && Scannable(children, limits)
      ensures calm ==> (s.Ok? <==> Scannable(children, limits))
    {
      var tree := new Tree(limits, output);
      ScanYields(children, output);
      s := tree.Directory([], children, calm);
      p, root := tree.p, top;
    }

    /** Scan, copy, reread and publish. An interrupted preservation can leave blobs, but nothing
        that passes for complete evidence; what is published is the source as the last scan saw
        it, however it changed before. */
    method Preserve(calm: bool) returns (s: Status)
      requires Valid()
      modifies this
      ensures Valid()
      ensures s.Ok? ==> && manifest == Some(DocumentOf(children, top)) && verified == manifest
                        && blobs == ChildBlobs([], children) && evidence == children
      ensures old(created) ==> && s.Stop? && created && manifest == old(manifest) && verified == old(verified)
                               && blobs == old(blobs) && evidence == old(evidence)
      ensures calm && !old(created) ==> (s.Ok? <==> old(Exportable(children, top, limits, encoded)))
      // a manifest over its bound is found out only after the destination was created
      ensures calm && s.Stop? && old(Scannable(children, limits)) ==> created
      ensures calm && s.Stop? ==> manifest == old(manifest) && verified == old(verified)
    {
      Change(calm);
      var original, root :- Scan(false, calm);
      if created {
        return Stop(Consumed);
      }
      created := true;
      Change(calm);
      :- CopyTree(original, root, calm);
      Change(calm);
      s := Recheck(original, root, calm);
    }

    /** The second scan, which copies, and the reread of the copies. */
    method CopyTree(original: Progress, root: Metadata, calm: bool) returns (s: Status)
      requires Valid() && created && manifest.None?
      modifies this`blobs
      ensures Valid()
      ensures s.Ok? ==> BlobsMatch(original.rows, blobs) && blobs == ChildBlobs([], children)
      ensures s.Ok? ==> original.rows == ChildRows([], children) && original.total == ChildBytes(children)
      ensures s.Ok? ==> root == top
      ensures calm && original == Scanned(children, false) && root == top ==> (s.Ok? <==> Scannable(children, limits))
    {
      var copied, again;
      s, copied, again := Scan(true, calm);
      blobs := copied.blobs;
      if s.Stop? {
        return;
      }
      BlobsOfChildRows([], children);
      if copied.rows != original.rows || copied.total != original.total || again != root {
        return Stop(Disagreement);
      }
      s := VerifyBlobs(original.rows, blobs, calm);
    }

    /** The third scan, and the publication. */
    method Recheck(original: Progress, root: Metadata, calm: bool) returns (s: Status)
      requires Valid() && created && manifest.None? && BlobsMatch(original.rows, blobs)
      modifies this`manifest, this`verified, this`evidence
      ensures Valid()
      ensures s.Ok? ==> && manifest == Some(DocumentOf(children, top)) && verified == manifest
                        && blobs == ChildBlobs([], children) && evidence == children
      ensures calm && original == Scanned(children, false) && root == top ==>
                (s.Ok? <==> Exportable(children, top, limits, encoded))
      ensures calm && s.Stop? ==> manifest == old(manifest) && verified == old(verified)
    {
      var third, again :- Scan(false, calm);
      if third.rows != original.rows || third.total != original.total || again != root {
        return Stop(Disagreement);
      }
      BlobsOfChildRows([], children);
      SameBlobs(original.rows, blobs, ChildBlobs([], children));
      s := Publish(Document(original.rows, original.total, root), calm);
    }

    /** The manifest within its bound, and then the completion. */
    method Publish(document: Document, calm: bool) returns (s: Status)
      requires Valid() && created && document == DocumentOf(children, top) && manifest.None?
      requires Scannable(children, limits) && blobs == ChildBlobs([], children)
      modifies this`manifest, this`verified, this`evidence
      ensures Valid() && (s.Ok? ==> manifest == Some(document) && verified == manifest && evidence == children)
      ensures calm ==> (s.Ok? <==> encoded(document) <= 33_554_432)
      ensures calm && s.Stop? ==> manifest == old(manifest) && verified == old(verified)
    {
      s := Ok;
      :- Checkpoint(calm);
      if encoded(document) > MAX_MANIFEST {
        return Stop(Inadmissible);
      }
      manifest, evidence := Some(document), children;
      :- Checkpoint(calm);
      verified := manifest;
      s := Checkpoint(calm);
    }

    /** `verify`: the evidence against the source as it is now. */
    method Verify(calm: bool) returns (s: Status)
      requires Valid()
      ensures s.Ok? ==> verified == Some(DocumentOf(children, top)) && evidence == children
      ensures calm ==> (s.Ok? <==> verified == Some(DocumentOf(children, top)) && Scannable(children, limits))
    {
      s := Ok;
      if manifest.Some? {
        ScanIsAcceptable(evidence, manifest.value.top, limits, encoded);
      }
      var document :- VerifyPreserved(manifest, verified, blobs, limits, encoded, calm);
      s := Compare(document, calm);
      if s.Ok? {
        RowsDetermine(evidence, children);
      }
    }

    /** One more scan against a document. */
    method Compare(document: Document, calm: bool) returns (s: Status)
      requires Valid()
      ensures s.Ok? ==> document == DocumentOf(children, top)
      ensures calm ==> (s.Ok? <==> document == DocumentOf(children, top) && Scannable(children, limits))
    {
      s := Ok;
      var found, root :- Scan(false, calm);
      if document != Document(found.rows, found.total, root) {
        return Stop(Disagreement);
      }
    }

    /** Whatever interrupted the preservation, retained evidence that verifies rebuilds the tree it
        was taken from. */
    method Restore(calm: bool) returns (s: Status, restored: seq<Child>)
      requires Valid()
      ensures s.Ok? ==> restored == evidence
      ensures calm ==> (s.Ok? <==> verified.Some?)
    {
      restored := [];
      if manifest.Some? {
        ScanIsAcceptable(evidence, manifest.value.top, limits, encoded);
      }
      var document :- VerifyPreserved(manifest, verified, blobs, limits, encoded, calm);
      restored := Rebuild(document.rows, blobs, []);
      s := Ok;
    }
  }
}
