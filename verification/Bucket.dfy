/** One owned prefix of a versioned bucket. Every key holds a stack of versions and delete
    markers; a key is current exactly when the top of its stack is a version. */
module Bucket {
  type Key = string

  datatype Kind = Version | DeleteMarker

  /** `at` is the row's height in the stack of its key. */
  datatype Row = Row(kind: Kind, key: Key, id: string, at: nat)

  datatype Upload = Upload(key: Key, id: string)

  datatype Inventory = Inventory(current: set<Key>, versions: set<Row>, uploads: set<Upload>)

  const MAX_ENTRIES := 100_000

  /** No row of the same key lies above this one. */
  predicate Covers(rows: set<Row>, row: Row) {
    forall other | other in rows :: other.key == row.key ==> other.at <= row.at
  }

  function Current(rows: set<Row>): set<Key> {
    set row | row in rows && row.kind.Version? && Covers(rows, row) :: row.key
  }

  function VersionKeys(rows: set<Row>): set<Key> {
    set row | row in rows && row.kind.Version? :: row.key
  }

  function Listing(rows: set<Row>, uploads: set<Upload>): Inventory {
    Inventory(Current(rows), rows, uploads)
  }

  const EMPTY := Inventory({}, {}, {})

  /** The number of entries that the inventory bound counts. */
  function Weight(inventory: Inventory): nat {
    |inventory.current| + |inventory.versions| + |inventory.uploads|
  }

  /** Removing one row can make at most the row's own key newly current. */
  lemma {:induction false} CurrentAfterRemoval(rows: set<Row>, gone: Row)
    requires gone in rows
    ensures Current(rows - {gone}) <= Current(rows) + {gone.key}
  {
    forall key | key in Current(rows - {gone}) && key != gone.key
      ensures key in Current(rows)
    {
      var row :| row in rows - {gone} && row.kind.Version? && Covers(rows - {gone}, row) && row.key == key;
      assert Covers(rows, row);
    }
  }

  /** The bound counts current keys too, and removing a delete marker may add one; still the
      counted total never grows, so an admitted inventory stays admitted while it is removed. */
  lemma {:induction false} WeightShrinks(rows: set<Row>, uploads: set<Upload>, fewer: set<Row>, left: set<Upload>)
    requires fewer <= rows && left <= uploads
    ensures Weight(Listing(fewer, left)) <= Weight(Listing(rows, uploads))
    decreases |rows - fewer|
  {
    if fewer == rows {
      CardinalityOfSubset(left, uploads);
    } else {
      assert !(rows <= fewer);
      var gone :| gone in rows && gone !in fewer;
      var next := rows - {gone};
      assert rows - fewer == (next - fewer) + {gone};
      CurrentAfterRemoval(rows, gone);
      CardinalityOfSubset(Current(next), Current(rows) + {gone.key});
      WeightShrinks(next, uploads, fewer, left);
    }
  }

  lemma {:induction false} CardinalityOfSubset<T>(small: set<T>, big: set<T>)
    requires small <= big
    ensures |small| <= |big|
  {
    assert big == small + (big - small);
  }

  /** Current keys are not monotone: removing a delete marker exposes the version below it. */
  lemma {:induction false} RemovalCanExpose(key: Key, id: string, marker: string)
    ensures var below, top := Row(Version, key, id, 0), Row(DeleteMarker, key, marker, 1);
            Current({below, top}) == {} && Current({below, top} - {top}) == {key}
  {
    var below, top := Row(Version, key, id, 0), Row(DeleteMarker, key, marker, 1);
    assert {below, top} - {top} == {below};
    assert below in {below} && Covers({below}, below);
  }
}
