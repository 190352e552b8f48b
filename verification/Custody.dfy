/** Custody retirement (scripts/m3_11_custody_retirement.py) over the external registry of
    exclusions (scripts/m3_11_custody_registry.py). */
module Custody {
  import opened Outcomes

  type Fixture = string

  /** One retirement fact. `attempt` stands for its plan, authorization and reservation time. */
  datatype Exclusion = Exclusion(fixture: Fixture, attempt: nat)

  /** One item of the vault listing. `marked` items carry the registry's tag or title prefix;
      `note` is their validated content, if it validates. */
  datatype Item = Item(id: nat, marked: bool, note: Option<Exclusion>) {
    predicate Excludes(fixture: Fixture) {
      marked && note.Some? && note.value.fixture == fixture
    }
  }

  const MAX_ITEMS := 10000
  const MAX_EXCLUSIONS := 8

  function Marked(items: seq<Item>): seq<Item> {
    if items == [] then []
    else
      var last := items[|items| - 1];
      Marked(items[..|items| - 1]) + if last.marked then [last] else []
  }

  function Notes(items: seq<Item>): seq<Exclusion> {
    if items == [] then []
    else
      var last := items[|items| - 1];
      Notes(items[..|items| - 1]) + if last.marked && last.note.Some? then [last.note.value] else []
  }

  /** A listing that `records` accepts. */
  ghost predicate Readable(items: seq<Item>) {
    && |items| <= MAX_ITEMS
    && |Marked(items)| <= MAX_EXCLUSIONS
    && Wellformed(items)
  }

  /** Items are not repeated, every marked item validates, and no fixture is repeated. */
  ghost predicate Wellformed(items: seq<Item>) {
    && (forall i, j :: 0 <= i < j < |items| ==> items[i].id != items[j].id)
    && (forall i :: 0 <= i < |items| && items[i].marked ==> items[i].note.Some?)
    && (forall i, j, fixture :: 0 <= i < j < |items| && items[i].Excludes(fixture) ==> !items[j].Excludes(fixture))
  }

  /** Some valid note excludes the fixture. */
  ghost predicate Excluded(items: seq<Item>, fixture: Fixture) {
    exists item <- items :: item.Excludes(fixture)
  }

  /** The listing is readable and has no note for the fixture. */
  ghost predicate Free(items: seq<Item>, fixture: Fixture) {
    Readable(items) && !Excluded(items, fixture)
  }

  /** One more note can be read. */
  ghost predicate Room(items: seq<Item>) {
    |Marked(items)| < MAX_EXCLUSIONS && |items| < MAX_ITEMS
  }

  lemma {:induction false} MarkedPrefix(items: seq<Item>, n: nat)
    requires n <= |items|
    ensures |Marked(items[..n])| <= |Marked(items)|
    decreases |items|
  {
    if n < |items| {
      MarkedPrefix(items[..|items| - 1], n);
      assert items[..|items| - 1][..n] == items[..n];
    } else {
      assert items[..n] == items;
    }
  }

  /** The notes are the contents of the marked items. */
  lemma {:induction false} NotesExclude(items: seq<Item>, fixture: Fixture)
    ensures Excluded(items, fixture) <==> exists note <- Notes(items) :: note.fixture == fixture
  {
    if items != [] {
      var front, last := items[..|items| - 1], items[|items| - 1];
      NotesExclude(front, fixture);
      assert items == front + [last];
      assert Excluded(items, fixture) <==> Excluded(front, fixture) || last.Excludes(fixture);
    }
  }

  /** `records`: succeeds exactly on a readable listing, with the notes in order. */
  method Records(items: seq<Item>) returns (s: Status, result: seq<Exclusion>)
    ensures s.Ok? <==> Readable(items)
    ensures s.Ok? ==> result == Notes(items)
  {
    result := [];
    if |items| > MAX_ITEMS {
      return Stop(Inadmissible), result;
    }
    var seen: set<nat>, fixtures: set<Fixture> := {}, {};
    for i := 0 to |items|
      invariant |Marked(items[..i])| == |result| <= MAX_EXCLUSIONS && result == Notes(items[..i])
      invariant Wellformed(items[..i])
      invariant forall id :: id in seen <==> exists k :: 0 <= k < i && items[k].id == id
      invariant forall fixture :: fixture in fixtures <==> Excluded(items[..i], fixture)
    {
      var item := items[i];
      assert items[..i + 1][..i] == items[..i];
      ExcludedNext(items, i);
      MarkedPrefix(items, i + 1);
      if item.id in seen {
        return Stop(Inadmissible), result;
      }
      seen := seen + {item.id};
      if item.marked {
        if |result| >= MAX_EXCLUSIONS {
          return Stop(Inadmissible), result;
        }
        if item.note.None? || item.note.value.fixture in fixtures {
          if item.note.Some? {
            RepeatedFixture(items, i, item.note.value.fixture);
          }
          return Stop(Inadmissible), result;
        }
        fixtures := fixtures + {item.note.value.fixture};
        result := result + [item.note.value];
      }
      WellformedNext(items, i);
    }
    assert items[..|items|] == items;
    s := Ok;
  }

  lemma {:induction false} ExcludedNext(items: seq<Item>, i: nat)
    requires i < |items|
    ensures forall fixture ::
              Excluded(items[..i + 1], fixture) <==> Excluded(items[..i], fixture) || items[i].Excludes(fixture)
  {
    assert items[..i + 1] == items[..i] + [items[i]];
  }

  lemma {:induction false} RepeatedFixture(items: seq<Item>, i: nat, fixture: Fixture)
    requires i < |items| && Excluded(items[..i], fixture) && items[i].Excludes(fixture)
    ensures !Wellformed(items)
  {
    var item :| item in items[..i] && item.Excludes(fixture);
    var k :| 0 <= k < i && items[k] == item;
    assert items[k].Excludes(fixture) && items[i].Excludes(fixture);
  }

  /** One more acceptable item. */
  lemma {:induction false} WellformedNext(items: seq<Item>, i: nat)
    requires i < |items| && Wellformed(items[..i])
    requires forall k :: 0 <= k < i ==> items[k].id != items[i].id
    requires items[i].marked ==> items[i].note.Some? && !Excluded(items[..i], items[i].note.value.fixture)
    ensures Wellformed(items[..i + 1])
  {
    var more := items[..i + 1];
    assert more == items[..i] + [items[i]];
    forall k, fixture | 0 <= k < i && more[k].Excludes(fixture)
      ensures !more[i].Excludes(fixture)
    {
      assert items[..i][k] in items[..i];
    }
  }

  /** `selected`: the fixture's note, if the whole listing is readable. */
  method Selected(items: seq<Item>, fixture: Fixture) returns (s: Status, found: Option<Exclusion>)
    ensures s.Ok? <==> Readable(items)
    ensures s.Ok? ==> found == First(Notes(items), fixture)
    ensures s.Ok? ==> (found.Some? <==> Excluded(items, fixture))
  {
    found := None;
    var notes :- Records(items);
    NotesExclude(items, fixture);
    found := First(notes, fixture);
    s := Ok;
  }

  function First(notes: seq<Exclusion>, fixture: Fixture): (found: Option<Exclusion>)
    ensures found.Some? <==> exists note <- notes :: note.fixture == fixture
    ensures found.Some? ==> found.value in notes && found.value.fixture == fixture
  {
    if notes == [] then None
    else if notes[0].fixture == fixture then Some(notes[0])
    else First(notes[1..], fixture)
  }

  lemma {:induction false} FirstOfConcat(notes: seq<Exclusion>, last: Exclusion)
    requires First(notes, last.fixture).None?
    ensures First(notes + [last], last.fixture) == Some(last)
  {
    if notes != [] {
      assert (notes + [last])[1..] == notes[1..] + [last];
      FirstOfConcat(notes[1..], last);
    }
  }

  /** A grown listing excludes everything it excluded before. */
  lemma {:induction false} ExclusionIsPermanent(items: seq<Item>, more: seq<Item>, fixture: Fixture)
    requires Excluded(items, fixture)
    ensures Excluded(items + more, fixture)
  {
    var item :| item in items && item.Excludes(fixture);
    assert item in items + more;
  }

  function FreshId(items: seq<Item>): (id: nat)
    ensures forall item <- items :: item.id < id
  {
    if items == [] then 0
    else var rest := FreshId(items[1..]); if rest <= items[0].id then items[0].id + 1 else rest
  }

  /** The item that a publication adds to the vault. */
  function Posted(items: seq<Item>, note: Exclusion): Item {
    Item(FreshId(items), true, Some(note))
  }

  /** One published note keeps a listing readable exactly while there is room and the fixture is
      new; the ninth exclusion makes the registry unreadable for every fixture. */
  lemma {:induction false} PublicationStaysReadable(items: seq<Item>, note: Exclusion)
    requires Readable(items)
    ensures var after := items + [Posted(items, note)];
            && Excluded(after, note.fixture)
            && (Readable(after) <==> !Excluded(items, note.fixture) && |Marked(items)| < 8 && |items| < 10_000)
            && (Readable(after) ==> Notes(after) == Notes(items) + [note])
  {
    var item := Posted(items, note);
    var after := items + [item];
    AppendCounts(items, item);
    assert item in after && item.Excludes(note.fixture);
    if Excluded(items, note.fixture) {
      assert after[..|items|] == items && after[|items|] == item;
      RepeatedFixture(after, |items|, note.fixture);
    } else {
      AppendWellformed(items, item);
    }
  }

  /** A readable publication into a free listing is the one that is found. */
  lemma {:induction false} PublishedIsFirst(items: seq<Item>, note: Exclusion)
    requires Free(items, note.fixture)
    ensures var after := items + [Posted(items, note)];
            (Readable(after) <==> Room(items)) && (Room(items) ==> First(Notes(after), note.fixture) == Some(note))
  {
    PublicationStaysReadable(items, note);
    NotesExclude(items, note.fixture);
    FirstOfConcat(Notes(items), note);
  }

  lemma {:induction false} AppendCounts(items: seq<Item>, item: Item)
    requires item.marked && item.note.Some?
    ensures Marked(items + [item]) == Marked(items) + [item]
    ensures Notes(items + [item]) == Notes(items) + [item.note.value]
  {
    assert (items + [item])[..|items|] == items;
  }

  lemma {:induction false} AppendWellformed(items: seq<Item>, item: Item)
    requires Wellformed(items) && item.marked && item.note.Some?
    requires (forall other <- items :: other.id != item.id) && !Excluded(items, item.note.value.fixture)
    ensures Wellformed(items + [item])
  {
    var after := items + [item];
    assert after[..|items|] == items && after[|items|] == item;
    assert forall k :: 0 <= k < |items| ==> items[k] in items;
    WellformedNext(after, |items|);
    assert after[..|items| + 1] == after;
  }

  /** More than eight exclusions can never be read again, whatever is added: from then on no
      attempt on any fixture can succeed. */
  lemma {:induction false} ExcessIsPermanent(items: seq<Item>, more: seq<Item>)
    requires |Marked(items)| > MAX_EXCLUSIONS
    ensures !Readable(items + more)
  {
    MarkedPrefix(items + more, |items|);
    assert (items + more)[..|items|] == items;
  }

  lemma {:induction false} AlwaysUnreadable(items: seq<Item>)
    requires |Marked(items)| > MAX_EXCLUSIONS
    ensures forall later {:trigger Readable(later)} :: items <= later ==> !Readable(later)
  {
    forall later: seq<Item> | items <= later
      ensures !Readable(later)
    {
      ExcessIsPermanent(items, later[|items|..]);
      assert items + later[|items|..] == later;
    }
  }

  /** The vault, the local retirement roots, the whole archive bucket by the fixture that owns each
      version, the accepted deletions still on their way, the fixtures whose DELETE was ever sent,
      and those for which it was sent twice. */
  datatype World = World(items: seq<Item>, roots: set<Fixture>, archives: set<Fixture>, landing: set<Fixture>,
                         deleted: set<Fixture>, repeated: set<Fixture>, retired: set<Fixture>)

  ghost predicate Invariant(w: World) {
    && (forall fixture <- w.deleted :: Excluded(w.items, fixture))
    && w.landing <= w.deleted
    && w.repeated == {}
    && w.retired <= w.deleted
  }

  /** What may happen between any two steps: notes of lost requests (and any other item) appear
      late, accepted deletions land, versions of other fixtures appear, and the local workspace
      disappears. Notes never do, and a deleted version never comes back. */
  ghost predicate Elapsed(before: World, after: World) {
    && before.items <= after.items
    && after.roots <= before.roots
    && (forall fixture <- after.archives :: fixture in before.archives || fixture !in before.deleted)
    && (forall fixture <- before.archives :: fixture !in after.archives ==> fixture in before.landing)
    && after.landing <= before.landing
    && after.deleted == before.deleted && after.repeated == before.repeated && after.retired == before.retired
  }

  lemma {:induction false} ElapsedKeeps(before: World, after: World)
    requires Elapsed(before, after)
    ensures Invariant(before) ==> Invariant(after)
    ensures forall fixture :: Excluded(before.items, fixture) ==> Excluded(after.items, fixture)
  {
    forall fixture | Excluded(before.items, fixture)
      ensures Excluded(after.items, fixture)
    {
      ExclusionIsPermanent(before.items, after.items[|before.items|..], fixture);
      assert after.items == before.items + after.items[|before.items|..];
    }
  }

  class CustodyRetirement {
    var w: World

    ghost predicate Valid()
      reads this
    {
      Invariant(w)
    }

    constructor (items: seq<Item>, archives: set<Fixture>)
      ensures Valid() && w == World(items, {}, archives, {}, {}, {}, {})
    {
      w := World(items, {}, archives, {}, {}, {}, {});
    }

    method Elapse(calm: bool)
      requires Valid()
      modifies this
      ensures Valid() && Elapsed(old(w), w)
      ensures calm ==> w == old(w)
    {
      if calm {
        return;
      }
      var more: seq<Item>, lost: set<Fixture>, landed: set<Fixture>, others: set<Fixture> := *, *, *, *;
      w := w.(items := w.items + more, roots := w.roots - lost,
              archives := w.archives - (landed * w.landing) + (others - w.deleted), landing := w.landing - landed);
      ElapsedKeeps(old(w), w);
    }

    /** `exclusion`: both principals read the registry and agree. Once any note for the fixture
        exists, every later call sees one or stops. */
    method ReadExclusion(fixture: Fixture, calm: bool)
      returns (s: Status, external: Option<Exclusion>, ghost earlier: seq<Item>)
      requires Valid()
      modifies this
      ensures Valid() && Elapsed(old(w), w)
      ensures calm ==> w == old(w)
      ensures s.Ok? ==> Readable(w.items) && (external.Some? <==> Excluded(w.items, fixture))
      ensures s.Ok? ==> external == First(Notes(w.items), fixture)
      // the first principal found the same in an earlier listing
      ensures s.Ok? ==> old(w).items <= earlier <= w.items && external == First(Notes(earlier), fixture)
      ensures Excluded(old(w).items, fixture) ==> s.Stop? || external.Some?
      ensures calm ==> (s.Ok? <==> Readable(w.items))
    {
      external, earlier := None, w.items;
      :- Checkpoint(calm);
      Elapse(calm);
      earlier := w.items;
      var first :- Selected(w.items, fixture);
      :- Checkpoint(calm);
      Elapse(calm);
      var second :- Selected(w.items, fixture);
      if first != second {
        return Stop(Disagreement), None, earlier;
      }
      ElapsedKeeps(old(w), w);
      return Ok, second, earlier;
    }

    /** `require_exclusion`. */
    method RequireExclusion(note: Exclusion, calm: bool) returns (s: Status)
      requires Valid()
      modifies this
      ensures Valid() && Elapsed(old(w), w)
      ensures calm ==> w == old(w)
      ensures s.Ok? ==> && Excluded(w.items, note.fixture) && Readable(w.items)
                        && First(Notes(w.items), note.fixture) == Some(note)
      ensures calm ==> (s.Ok? <==> Readable(w.items) && First(Notes(w.items), note.fixture) == Some(note))
    {
      var external, earlier :- ReadExclusion(note.fixture, calm);
      if external != Some(note) {
        return Stop(Ambiguous);
      }
      s := Ok;
    }

    /** `publish_once`: reserves the spool, posts once and reads the note back. A lost POST may
        appear at any later time, which is one of the things that can elapse. */
    method PublishOnce(note: Exclusion, calm: bool) returns (s: Status)
      requires Valid()
      modifies this
      ensures Valid() && w.deleted == old(w).deleted && w.repeated == old(w).repeated && old(w).items <= w.items
      ensures calm ==> w == old(w) || w == old(w).(items := old(w).items + [Posted(old(w).items, note)])
      ensures calm ==> (s.Ok? <==> Free(old(w).items, note.fixture))
      ensures calm && s.Ok? ==> w == old(w).(items := old(w).items + [Posted(old(w).items, note)])
    {
      Elapse(calm);
      var found :- Selected(w.items, note.fixture);
      if found.Some? {
        return Stop(Consumed);
      }
      :- Checkpoint(calm);
      Elapse(calm);
      var visible: bool := *;
      if visible || calm {
        ghost var before := w;
        w := w.(items := w.items + [Posted(w.items, note)]);
        ElapsedKeeps(before, w);
        s := Checkpoint(calm);
      } else {
        s := Stop(Interrupted);
      }
    }

    /** `execute`: at most one DELETE per fixture, whatever is lost in between. */
    method Execute(fixture: Fixture, attempt: nat, calm: bool) returns (s: Status)
      requires Valid()
      modifies this
      ensures Valid() && old(w).items <= w.items
      ensures old(w).deleted <= w.deleted <= old(w).deleted + {fixture}
      ensures s.Ok? ==> && fixture in w.retired && fixture in w.deleted && fixture !in old(w).deleted
                        && fixture !in w.archives && (calm ==> w.archives == {})
      ensures calm ==> (s.Ok? <==> Retirable(old(w), fixture))
      ensures calm && !Attemptable(old(w), fixture) ==> w == old(w)
      // without room the attempt is consumed all the same, and nobody can read the registry again
      ensures calm && Attemptable(old(w), fixture) ==>
                fixture in w.roots && w.items == old(w).items + [Posted(old(w).items, Exclusion(fixture, attempt))]
      ensures calm && Attemptable(old(w), fixture) && s.Stop? ==>
                !Readable(w.items) && w == old(w).(items := w.items, roots := old(w).roots + {fixture})
      ensures |Marked(old(w).items)| > MAX_EXCLUSIONS ==> s.Stop? && w.deleted == old(w).deleted
    {
      s := Ok;
      :- Begin(fixture, calm);
      s := Commit(Exclusion(fixture, attempt), calm);
    }

    /** The checks before the permanent exclusion, and the local root that consumes the attempt. */
    method Begin(fixture: Fixture, calm: bool) returns (s: Status)
      requires Valid()
      modifies this
      ensures Valid() && old(w).items <= w.items && w.deleted == old(w).deleted
      ensures s.Ok? ==> fixture !in w.deleted
      ensures calm && s.Ok? ==> w == old(w).(roots := old(w).roots + {fixture})
      ensures calm ==> (s.Ok? <==> Attemptable(old(w), fixture))
      ensures calm && s.Stop? ==> w == old(w)
      ensures |Marked(old(w).items)| > MAX_EXCLUSIONS ==> s.Stop?
    {
      if |Marked(w.items)| > MAX_EXCLUSIONS {
        AlwaysUnreadable(w.items);
      }
      var external, earlier :- ReadExclusion(fixture, calm);
      if external.Some? || fixture in w.roots {
        return Stop(Consumed);
      }
      if w.archives != {fixture} {
        return Stop(Disagreement);
      }
      :- Checkpoint(calm);
      w := w.(roots := w.roots + {fixture});
      s := Checkpoint(calm);
    }

    /** Publication, one more look at the bucket, and the only DELETE; any failure from here on has
        consumed the attempt. */
    method Commit(note: Exclusion, calm: bool) returns (s: Status)
      requires Valid() && note.fixture !in w.deleted
      modifies this
      ensures Valid() && old(w).items <= w.items
      ensures old(w).deleted <= w.deleted <= old(w).deleted + {note.fixture}
      ensures s.Ok? ==> && note.fixture in w.retired && note.fixture in w.deleted && note.fixture !in w.archives
                        && (calm ==> w.archives == {})
      ensures calm && old(w).archives == {note.fixture} && Free(old(w).items, note.fixture) ==>
                && (s.Ok? <==> Room(old(w).items)) && (s.Stop? ==> !Readable(w.items))
                && w.roots == old(w).roots && w.items == old(w).items + [Posted(old(w).items, note)]
                && (s.Stop? ==> w == old(w).(items := w.items))
    {
      s := Ok;
      :- Exclude(note, calm);
      Elapse(calm);
      if w.archives != {note.fixture} {
        return Stop(Disagreement);
      }
      s := DeleteOnce(note, calm);
    }

    /** Publication of the permanent exclusion and its independent confirmation. */
    method Exclude(note: Exclusion, calm: bool) returns (s: Status)
      requires Valid()
      modifies this
      ensures Valid() && w.deleted == old(w).deleted && old(w).items <= w.items
      ensures calm ==> w == old(w).(items := w.items)
      ensures calm && s.Ok? ==> Readable(w.items) && First(Notes(w.items), note.fixture) == Some(note)
      ensures calm && Free(old(w).items, note.fixture) ==>
                && (s.Ok? <==> Room(old(w).items)) && (s.Stop? ==> !Readable(w.items))
                && w.items == old(w).items + [Posted(old(w).items, note)]
    {
      s := Ok;
      if Free(w.items, note.fixture) {
        PublishedIsFirst(w.items, note);
      }
      :- PublishOnce(note, calm);
      s := RequireExclusion(note, calm);
    }

    /** The second half of `execute`, behind a visible exclusion. */
    method DeleteOnce(note: Exclusion, calm: bool) returns (s: Status)
      requires Valid() && note.fixture !in w.deleted && w.archives == {note.fixture}
      modifies this
      ensures Valid() && old(w).items <= w.items
      ensures old(w).deleted <= w.deleted <= old(w).deleted + {note.fixture}
      ensures s.Ok? ==> && note.fixture in w.retired && note.fixture in w.deleted && note.fixture !in w.archives
                        && (calm ==> w.archives == {})
      ensures calm ==> w.items == old(w).items && w.roots == old(w).roots
      ensures calm ==> (s.Ok? <==> Readable(old(w).items) && First(Notes(old(w).items), note.fixture) == Some(note))
    {
      s := Ok;
      :- RequireExclusion(note, calm);
      :- Checkpoint(calm);
      w := w.(deleted := w.deleted + {note.fixture},
              repeated := if note.fixture in w.deleted then w.repeated + {note.fixture} else w.repeated);
      var applied, waiting := *, *;
      if calm || applied {
        w := w.(archives := w.archives - {note.fixture});
      } else {
        if waiting {
          w := w.(landing := w.landing + {note.fixture});
        }
        return Stop(Interrupted);
      }
      :- Checkpoint(calm);
      Elapse(calm);
      if w.archives != {} {
        return Stop(Incomplete);
      }
      :- RequireExclusion(note, calm);
      w := w.(retired := w.retired + {note.fixture});
      s := Checkpoint(calm);
    }

    /** `observe`: reads only. */
    method Observe(fixture: Fixture, calm: bool) returns (s: Status, present: bool, found: Option<Exclusion>)
      requires Valid()
      modifies this
      ensures Valid() && Elapsed(old(w), w)
      ensures s.Ok? ==> Excluded(w.items, fixture) && (fixture in w.deleted && fixture in w.archives ==> present)
      ensures s.Ok? ==> found.Some? && Readable(w.items) && First(Notes(w.items), fixture) == found
      ensures calm && s.Ok? ==> (present <==> fixture in w.archives)
      ensures calm ==> (s.Ok? <==> Readable(w.items) && Excluded(w.items, fixture) && w.archives <= {fixture})
    {
      present, found := false, None;
      var external, earlier :- ReadExclusion(fixture, calm);
      if external.None? {
        return Stop(Unexplained), present, found;
      }
      :- Checkpoint(calm);
      Elapse(calm);
      if !(w.archives <= {fixture}) {
        return Stop(Disagreement), present, found;
      }
      present, found := fixture in w.archives, external;
      s := RequireExclusion(external.value, calm);
    }

    /** A registry with too many exclusions stops every attempt on every fixture. */
    method UnreadableForGood(attempts: nat)
      requires Valid() && |Marked(w.items)| > MAX_EXCLUSIONS
      modifies this
      ensures Valid() && |Marked(w.items)| > MAX_EXCLUSIONS && w.deleted == old(w).deleted
    {
      for i := 0 to attempts
        invariant Valid() && |Marked(w.items)| > MAX_EXCLUSIONS && w.deleted == old(w).deleted
      {
        ghost var before := w.items;
        var fixture: Fixture, attempt: nat, calm: bool := *, *, *;
        var _ := Execute(fixture, attempt, calm);
        MarkedPrefix(w.items, |before|);
        assert w.items[..|before|] == before;
      }
    }

    /** Any number of attempts on any fixtures, each cut off anywhere. */
    method History(attempts: nat)
      requires Valid()
      modifies this
      ensures Valid() && w.repeated == {}
    {
      for i := 0 to attempts
        invariant Valid()
      {
        var fixture: Fixture, attempt: nat := *, *;
        var _ := Execute(fixture, attempt, false);
      }
    }
  }

  /** What the checks before the publication look at. */
  ghost predicate Attemptable(w: World, fixture: Fixture) {
    Free(w.items, fixture) && fixture !in w.roots && w.archives == {fixture}
  }

  /** What an uninterrupted attempt needs. The room condition is not checked before the note is
      published: with eight exclusions already recorded the attempt is consumed all the same. */
  ghost predicate Retirable(w: World, fixture: Fixture) {
    Attemptable(w, fixture) && Room(w.items)
  }

  // --------------------------------------------------------------- a full registry

  function NameOf(n: nat): (r: Fixture)
    ensures |r| == n
  {
    if n == 0 then "" else "f" + NameOf(n - 1)
  }

  /** `n` exclusions, one after the other. */
  function Filled(n: nat): seq<Item> {
    if n == 0 then [] else Filled(n - 1) + [Posted(Filled(n - 1), Exclusion(NameOf(n - 1), 0))]
  }

  lemma {:induction false} FilledExcludes(n: nat)
    ensures forall fixture :: Excluded(Filled(n), fixture) ==> |fixture| < n
    ensures |Filled(n)| == n
  {
    if n > 0 {
      FilledExcludes(n - 1);
      assert Filled(n)[..n - 1] == Filled(n - 1) && Filled(n)[..n] == Filled(n);
      ExcludedNext(Filled(n), n - 1);
    }
  }

  lemma {:induction false} OneMore(items: seq<Item>, note: Exclusion)
    requires Free(items, note.fixture)
    ensures var after := items + [Posted(items, note)];
            |Marked(after)| == |Marked(items)| + 1 && (Room(items) ==> Readable(after))
  {
    AppendCounts(items, Posted(items, note));
    PublicationStaysReadable(items, note);
  }

  lemma {:induction false} FilledIsReadable(n: nat)
    requires n <= MAX_EXCLUSIONS
    ensures Readable(Filled(n)) && |Marked(Filled(n))| == n
  {
    if n > 0 {
      FilledIsReadable(n - 1);
      FilledExcludes(n - 1);
      FilledNext(Filled(n - 1), n - 1);
    }
  }

  lemma {:induction false} FilledNext(items: seq<Item>, n: nat)
    requires items == Filled(n) && |items| == |Marked(items)| == n < MAX_EXCLUSIONS && Readable(items)
    requires !Excluded(items, NameOf(n))
    ensures Readable(Filled(n + 1)) && |Marked(Filled(n + 1))| == n + 1
  {
    var note := Exclusion(NameOf(n), 0);
    OneMore(items, note);
    assert Filled(n + 1) == items + [Posted(items, note)];
  }

  /** The ninth retirement: its attempt is consumed and its note is posted, but nothing is deleted,
      and no attempt on any fixture can succeed again. */
  method NinthAttempt(fixture: Fixture, full: nat) returns (s: Status, custody: CustodyRetirement)
    requires |fixture| >= full == MAX_EXCLUSIONS
    ensures custody.Valid() && s.Stop? && |Marked(custody.w.items)| > MAX_EXCLUSIONS
    ensures custody.w == World(custody.w.items, {fixture}, {fixture}, {}, {}, {}, {})
  {
    FilledIsReadable(full);
    FilledExcludes(full);
    var items := Filled(full);
    s, custody := Overfill(items, fixture);
  }

  method Overfill(items: seq<Item>, fixture: Fixture) returns (s: Status, custody: CustodyRetirement)
    requires Free(items, fixture) && |Marked(items)| == MAX_EXCLUSIONS
    ensures custody.Valid() && s.Stop? && |Marked(custody.w.items)| > MAX_EXCLUSIONS
    ensures custody.w == World(custody.w.items, {fixture}, {fixture}, {}, {}, {}, {})
  {
    OneMore(items, Exclusion(fixture, 0));
    custody := new CustodyRetirement(items, {fixture});
    s := custody.Execute(fixture, 0, true);
  }
}
