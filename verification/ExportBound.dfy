/** A tree that the scan of scripts/m3_11_frozen_export.py admits and whose manifest exceeds its byte
    bound. */
module ExportBound {
  import opened Outcomes
  import opened Manifest
  import opened TreeExport
  import opened ExportRun

  /** The bytes that the paths of a manifest take. */
  function PathBytes(rows: seq<Entry>): nat {
    if rows == [] then 0 else JoinedLength(rows[0].path) + PathBytes(rows[1..])
  }

  /** An encoding writes at least the paths. */
  ghost predicate WritesPaths(encoded: Encoding) {
    forall document :: encoded(document) >= PathBytes(document.rows)
  }

  lemma {:induction false} PathBytesConcat(a: seq<Entry>, b: seq<Entry>)
    ensures PathBytes(a + b) == PathBytes(a) + PathBytes(b)
  {
    if a == [] {
      assert a + b == b;
    } else {
      assert (a + b)[1..] == a[1..] + b;
      PathBytesConcat(a[1..], b);
    }
  }

  lemma {:induction false} JoinedSnoc(path: Path, name: Name)
    requires path != []
    ensures JoinedLength(path + [name]) == JoinedLength(path) + 1 + |name|
  {
    var longer := path + [name];
    assert longer[1..] == path[1..] + [name];
    if |path| == 1 {
      assert path[1..] == [] && longer[1..] == [name] && [name][1..] == [];
    } else {
      JoinedSnoc(path[1..], name);
    }
  }

  // ---------------------------------------------------------- a chain of directories

  /** `depth` directories inside each other, with names of `width` bytes, and `links` symbolic links
      in the last one. */
  datatype Shape = Shape(width: nat, depth: nat, links: nat) {
    /** The joined length of the path to the last directory. */
    function Length(): int { depth * (width + 1) - 1 }

    /** Within the name and path bounds. */
    predicate Fits() {
      0 < width <= 255 && 0 < depth < 64 && links <= 17576 && Length() + 4 <= 4096
    }
  }

  function Long(width: nat): (r: Name)
    ensures |r| == width && forall i :: 0 <= i < width ==> r[i] == 'd'
  {
    if width == 0 then "" else ['d'] + Long(width - 1)
  }

  lemma {:induction false} LongIsSafe(width: nat)
    requires 0 < width <= 255
    ensures SafeName(Long(width))
  {
    assert Long(width)[0] == 'd';
  }

  function Deep(name: Name, k: nat, m: Metadata, leaf: seq<Child>): seq<Child> {
    if k == 0 then leaf else [Child(name, Folder(m, Deep(name, k - 1, m, leaf)))]
  }

  function Chain(name: Name, path: Path, k: nat): Path
    decreases k
  {
    if k == 0 then path else Chain(name, path + [name], k - 1)
  }

  lemma {:induction false} ChainLength(name: Name, path: Path, k: nat)
    requires path != []
    ensures |Chain(name, path, k)| == |path| + k
    ensures JoinedLength(Chain(name, path, k)) == JoinedLength(path) + k * (|name| + 1)
    decreases k
  {
    if k > 0 {
      JoinedSnoc(path, name);
      ChainLength(name, path + [name], k - 1);
      assert k * (|name| + 1) == (k - 1) * (|name| + 1) + (|name| + 1);
    }
  }

  /** One more directory around some children. */
  lemma {:induction false} FolderRows(path: Path, name: Name, m: Metadata, inner: seq<Child>)
    ensures var children := [Child(name, Folder(m, inner))];
            && |ChildRows(path, children)| == 1 + |ChildRows(path + [name], inner)|
            && PathBytes(ChildRows(path, children)) >= PathBytes(ChildRows(path + [name], inner))
            && ChildBytes(children) == ChildBytes(inner)
  {
    var children, node := [Child(name, Folder(m, inner))], Folder(m, inner);
    var head, rows := [EntryOf(path + [name], node)], ChildRows(path + [name], inner);
    assert children[1..] == [] && children[0] == Child(name, node);
    assert ChildRows(path, children[1..]) == [] && ChildBytes(children[1..]) == 0;
    assert ChildRows(path, children) == head + rows;
    PathBytesConcat(head, rows);
  }

  lemma {:induction false} DeepRows(name: Name, path: Path, k: nat, m: Metadata, leaf: seq<Child>)
    ensures var rows := ChildRows(path, Deep(name, k, m, leaf));
            && |rows| == k + |ChildRows(Chain(name, path, k), leaf)|
            && PathBytes(rows) >= PathBytes(ChildRows(Chain(name, path, k), leaf))
    ensures ChildBytes(Deep(name, k, m, leaf)) == ChildBytes(leaf)
    decreases k
  {
    if k > 0 {
      DeepRows(name, path + [name], k - 1, m, leaf);
      FolderRows(path, name, m, Deep(name, k - 1, m, leaf));
    }
  }

  lemma {:induction false} FolderIsSafe(path: Path, name: Name, m: Metadata, inner: seq<Child>)
    requires SafeName(name) && SafePath(path + [name]) && SoundAll(inner) && Safe(path + [name], inner)
    ensures SoundAll([Child(name, Folder(m, inner))]) && Safe(path, [Child(name, Folder(m, inner))])
  {
    var children, node := [Child(name, Folder(m, inner))], Folder(m, inner);
    assert children[1..] == [] && children[0] == Child(name, node);
    assert Sound(node) && SafeNode(path + [name], node);
    assert SoundAll(children[1..]) && Safe(path, children[1..]);
  }

  lemma {:induction false} DeepIsSafe(name: Name, path: Path, k: nat, m: Metadata, leaf: seq<Child>)
    requires SoundAll(leaf) && Safe(Chain(name, path, k), leaf) && SafeName(name)
    requires |path| + k <= 64 && (k > 0 ==> JoinedLength(path + [name]) + (k - 1) * (|name| + 1) <= 4096)
    ensures SoundAll(Deep(name, k, m, leaf)) && Safe(path, Deep(name, k, m, leaf))
    decreases k
  {
    if k > 0 {
      var next := path + [name];
      if k > 1 {
        JoinedSnoc(next, name);
        assert (k - 1) * (|name| + 1) == (k - 2) * (|name| + 1) + (|name| + 1);
      }
      DeepIsSafe(name, next, k - 1, m, leaf);
      FolderIsSafe(path, name, m, Deep(name, k - 1, m, leaf));
    }
  }

  // --------------------------------------------------------------------- many links

  function Letter(i: nat): char
    requires i < 26
  {
    (97 + i) as char
  }

  /** Three letters for every number below 17576. */
  function NameAt(i: nat): Name
    requires i < 17576
  {
    var a := i / 26;
    [Letter(a / 26), Letter(a % 26), Letter(i % 26)]
  }

  lemma {:induction false} NamesDiffer(i: nat, j: nat)
    requires i < 17576 && j < 17576 && NameAt(i) == NameAt(j)
    ensures i == j
  {
    var a, b := i / 26, j / 26;
    assert NameAt(i)[0] == NameAt(j)[0] && NameAt(i)[1] == NameAt(j)[1] && NameAt(i)[2] == NameAt(j)[2];
    assert a / 26 == b / 26 && a % 26 == b % 26 && i % 26 == j % 26;
    assert a == 26 * (a / 26) + a % 26 && b == 26 * (b / 26) + b % 26;
    assert i == 26 * a + i % 26 && j == 26 * b + j % 26;
  }

  /** `n` symbolic links with different names. */
  function Links(from: nat, n: nat, m: Metadata): seq<Child>
    requires from + n <= 17576
    decreases n
  {
    if n == 0 then [] else [Child(NameAt(from), Link(m, "t"))] + Links(from + 1, n - 1, m)
  }

  lemma {:induction false} LinksAreLater(from: nat, n: nat, m: Metadata, child: Child)
    requires from + n <= 17576 && child in Links(from, n, m)
    ensures exists i :: from <= i < from + n && child.name == NameAt(i)
    decreases n
  {
    if child != Links(from, n, m)[0] {
      LinksAreLater(from + 1, n - 1, m, child);
    }
  }

  lemma {:induction false} LinksAreSafe(path: Path, from: nat, n: nat, m: Metadata)
    requires from + n <= 17576 && path != [] && |path| < 64 && JoinedLength(path) + 4 <= 4096
    ensures SoundAll(Links(from, n, m)) && Safe(path, Links(from, n, m))
    decreases n
  {
    if n > 0 {
      var links := Links(from, n, m);
      var rest := Links(from + 1, n - 1, m);
      assert links[1..] == rest;
      LinksAreSafe(path, from + 1, n - 1, m);
      JoinedSnoc(path, NameAt(from));
      forall other | other in rest
        ensures other.name != NameAt(from)
      {
        LinksAreLater(from + 1, n - 1, m, other);
        var i :| from < i < from + n && other.name == NameAt(i);
        if NameAt(i) == NameAt(from) {
          NamesDiffer(i, from);
        }
      }
    }
  }

  lemma {:induction false} LinkRow(path: Path, name: Name, m: Metadata, rest: seq<Child>)
    requires path != []
    ensures var links := [Child(name, Link(m, "t"))] + rest;
            && |ChildRows(path, links)| == 1 + |ChildRows(path, rest)|
            && PathBytes(ChildRows(path, links)) == JoinedLength(path) + 1 + |name| + PathBytes(ChildRows(path, rest))
            && ChildBytes(links) == ChildBytes(rest)
  {
    var links, node := [Child(name, Link(m, "t"))] + rest, Link(m, "t");
    assert links[1..] == rest && links[0] == Child(name, node);
    var head := [EntryOf(path + [name], node)];
    assert Rows(path + [name], node) == head;
    assert ChildRows(path, links) == head + ChildRows(path, rest);
    PathBytesConcat(head, ChildRows(path, rest));
    JoinedSnoc(path, name);
    assert head[1..] == [];
  }

  lemma {:induction false} LinkRows(path: Path, from: nat, n: nat, m: Metadata)
    requires from + n <= 17576 && path != []
    ensures |ChildRows(path, Links(from, n, m))| == n && ChildBytes(Links(from, n, m)) == 0
    ensures PathBytes(ChildRows(path, Links(from, n, m))) == n * (JoinedLength(path) + 4)
    decreases n
  {
    if n > 0 {
      LinkRows(path, from + 1, n - 1, m);
      LinkRow(path, NameAt(from), m, Links(from + 1, n - 1, m));
      var width := JoinedLength(path) + 4;
      assert n * width == (n - 1) * width + width;
    }
  }

  // ------------------------------------------------------------- the oversized tree

  function TreeOf(shape: Shape, m: Metadata): seq<Child>
    requires shape.Fits()
  {
    Deep(Long(shape.width), shape.depth, m, Links(0, shape.links, m))
  }

  function Bottom(shape: Shape): Path { Chain(Long(shape.width), [], shape.depth) }

  lemma {:induction false} BottomLength(shape: Shape)
    requires shape.Fits()
    ensures |Bottom(shape)| == shape.depth && JoinedLength(Bottom(shape)) == shape.Length()
  {
    var name := Long(shape.width);
    assert [] + [name] == [name] && [name][1..] == [];
    ChainLength(name, [name], shape.depth - 1);
    assert shape.depth * (shape.width + 1) == (shape.depth - 1) * (shape.width + 1) + (shape.width + 1);
  }

  lemma {:induction false} TreeIsSafe(shape: Shape, m: Metadata)
    requires shape.Fits()
    ensures SoundAll(TreeOf(shape, m)) && Safe([], TreeOf(shape, m))
  {
    var name := Long(shape.width);
    BottomLength(shape);
    LongIsSafe(shape.width);
    LinksAreSafe(Bottom(shape), 0, shape.links, m);
    assert [] + [name] == [name] && [name][1..] == [];
    assert shape.depth * (shape.width + 1) == (shape.depth - 1) * (shape.width + 1) + (shape.width + 1);
    DeepIsSafe(name, [], shape.depth, m, Links(0, shape.links, m));
  }

  lemma {:induction false} TreeRows(shape: Shape, m: Metadata)
    requires shape.Fits()
    ensures |ChildRows([], TreeOf(shape, m))| == shape.depth + shape.links && ChildBytes(TreeOf(shape, m)) == 0
    ensures PathBytes(ChildRows([], TreeOf(shape, m))) >= shape.links * (shape.Length() + 4)
  {
    BottomLength(shape);
    LinkRows(Bottom(shape), 0, shape.links, m);
    DeepRows(Long(shape.width), [], shape.depth, m, Links(0, shape.links, m));
  }

  /** The scan admits such a tree... */
  lemma {:induction false} TreeIsScannable(shape: Shape, m: Metadata, limits: Limits)
    requires shape.Fits() && limits.entries >= shape.depth + shape.links
    ensures SoundAll(TreeOf(shape, m)) && Scannable(TreeOf(shape, m), limits)
  {
    TreeIsSafe(shape, m);
    TreeRows(shape, m);
    assert [] + ChildRows([], TreeOf(shape, m)) == ChildRows([], TreeOf(shape, m));
  }

  /** ... and once its paths alone exceed the bound, no encoding that writes them fits. */
  lemma {:induction false} TreeIsOversized(shape: Shape, m: Metadata, top: Metadata, limits: Limits, encoded: Encoding)
    requires shape.Fits() && WritesPaths(encoded) && shape.links * (shape.Length() + 4) > MAX_MANIFEST
    ensures !Exportable(TreeOf(shape, m), top, limits, encoded)
  {
    TreeRows(shape, m);
    assert encoded(DocumentOf(TreeOf(shape, m), top)) >= PathBytes(ChildRows([], TreeOf(shape, m)));
  }

  /** 9000 links below 15 directories with names of 255 bytes: 9015 entries without any content. */
  lemma {:induction false} NineThousandLinks(shape: Shape)
    requires shape == Shape(255, 15, 9000)
    ensures shape.Fits() && shape.depth + shape.links <= 100_000 && shape.links * (shape.Length() + 4) > 33_554_432
  {
    assert shape.Length() == 3839;
  }

  /** What `preserve` leaves there: a consumed destination without a manifest, for good. */
  method PreserveOversized(shape: Shape, m: Metadata, top: Metadata, limits: Limits, encoded: Encoding, attempts: nat)
    returns (preservation: Preservation)
    requires shape == Shape(255, 15, 9000) && limits.entries >= 9015 && WritesPaths(encoded)
    ensures preservation.Valid() && preservation.created && preservation.manifest.None?
  {
    NineThousandLinks(shape);
    var children := TreeOf(shape, m);
    TreeIsScannable(shape, m, limits);
    TreeIsOversized(shape, m, top, limits, encoded);
    preservation := Attempted(children, top, limits, encoded, attempts);
  }

  /** Any number of attempts on a tree that can be scanned but not exported. */
  method Attempted(children: seq<Child>, top: Metadata, limits: Limits, encoded: Encoding, attempts: nat)
    returns (preservation: Preservation)
    requires SoundAll(children) && Scannable(children, limits) && !Exportable(children, top, limits, encoded)
    ensures preservation.Valid() && preservation.created && preservation.manifest.None?
  {
    preservation := new Preservation(children, top, limits, encoded);
    var s := preservation.Preserve(true);
    for i := 0 to attempts
      invariant preservation.Valid() && preservation.created && preservation.manifest.None?
    {
      var calm: bool := *;
      s := preservation.Preserve(calm);
    }
  }
}
