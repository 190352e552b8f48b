/** Staged remote closeout (scripts/m3_11_frozen_remote.py): `Removal.run` behind a ledger that
    sends no DELETE twice, continued in explicit batches. */
module RemoteCloseout {
  import opened Outcomes
  import opened Bucket
  import opened BackupRemoval
  import L = Ledger

  /** The two kinds of batch the ledger can hold. */
  datatype Batch = Cleanup | Continuation(remaining: Inventory)

  /** `remaining`: present and submitted rows exactly partition the original ones. */
  ghost predicate Partitions(original: set<Row>, remaining: Inventory, ledger: L.Ledger<Request>) {
    && remaining.uploads == {}
    && remaining.versions <= original
    && forall row <- original ::
         && !ledger.IsTorn(Delete(row))
         && (row in remaining.versions <==> !ledger.Spent(Delete(row)))
  }

  /** Strictly shrinking, nonempty parts of the original rows. */
  ghost predicate Descends(chain: seq<Inventory>, original: set<Row>) {
    && (forall i :: 0 <= i < |chain| ==> {} < chain[i].versions <= original)
    && (forall i, j :: 0 <= i < j < |chain| ==> chain[j].versions < chain[i].versions)
  }

  lemma {:induction false} ChainBound(chain: seq<Inventory>, original: set<Row>)
    requires Descends(chain, original)
    ensures |chain| <= |original|
    ensures chain != [] ==> |chain| - 1 + |chain[|chain| - 1].versions| <= |original|
  {
    if chain != [] {
      var last := chain[|chain| - 1].versions;
      if |chain| == 1 {
        CardinalityOfSubset(last, original);
      } else {
        ChainBound(chain[..|chain| - 1], original);
        var previous := chain[|chain| - 2].versions;
        assert previous == last + (previous - last) && previous - last != {};
      }
      assert last != {};
    }
  }

  /** The batch names that a chain of continuations can have used. */
  function Names(chain: seq<Inventory>): set<Batch> {
    if chain == [] then {Cleanup}
    else Names(chain[..|chain| - 1]) + {Continuation(chain[|chain| - 1])}
  }

  lemma {:induction false} NamesBound(chain: seq<Inventory>)
    ensures |Names(chain)| <= |chain| + 1
    ensures Cleanup in Names(chain)
    ensures forall i :: 0 <= i < |chain| ==> Continuation(chain[i]) in Names(chain)
  {
    if chain != [] {
      NamesBound(chain[..|chain| - 1]);
    }
  }

  /** The batch ledger holds the first batch and the continuations of the chain, and what is
      still in the bucket is part of what remained at the last of them. */
  ghost predicate Batched(batches: L.Ledger<Batch>, chain: seq<Inventory>, original: set<Row>, rows: set<Row>) {
    && Descends(chain, original)
    && (chain != [] ==> batches.Spent(Cleanup) && rows <= chain[|chain| - 1].versions)
    && (forall i :: 0 <= i < |chain| ==>
          chain[i] == Listing(chain[i].versions, {}) && batches.Spent(Continuation(chain[i])))
    && (forall batch :: batches.Spent(batch) ==> batch in Names(chain))
  }

  /** A new continuation name means strictly fewer rows than at every earlier one. */
  lemma {:induction false} ContinuationShrinks(batches: L.Ledger<Batch>, chain: seq<Inventory>, original: set<Row>,
                                               rows: set<Row>,
                            after: L.Ledger<Batch>)
    requires Batched(batches, chain, original, rows) && batches.Spent(Cleanup)
    requires {} < rows <= original
    requires !batches.Spent(Continuation(Listing(rows, {})))
    requires after.Spent(Continuation(Listing(rows, {})))
    requires L.Extends(batches, after, Continuation(Listing(rows, {})))
    ensures Batched(after, chain + [Listing(rows, {})], original, rows)
  {
    var longer := chain + [Listing(rows, {})];
    assert longer[..|longer| - 1] == chain;
    if chain != [] {
      var last := chain[|chain| - 1];
      assert batches.Spent(Continuation(last));
      assert rows != last.versions;
    }
  }

  /** In every reachable state the partition holds exactly when no submitted row is left: a row
      never goes missing without its exact submission. */
  lemma {:induction false} PartitionIffResolved(c: Config, r: Remote, j: Journal)
    requires Invariant(c, r, j) && c.fenced && c.ledgered && j.intent.Some? && r.uploads == {}
    ensures Partitions(j.intent.value.inventory.versions, r.List(), j.ledger) <==> Unsubmitted(c, r, j)
  {
    var original := j.intent.value.inventory.versions;
    forall row | row in original && row !in r.rows
      ensures j.ledger.Spent(Delete(row)) && !j.ledger.IsTorn(Delete(row))
    {
      assert Delete(row) in r.sent;
    }
    assert forall row <- original :: j.ledger.IsTorn(Delete(row)) ==> j.ledger.Spent(Delete(row));
  }

  /** The ledgered writer cannot touch a multipart upload. */
  lemma {:induction false} UploadsStay(c: Config, r: Remote, j: Journal)
    requires Invariant(c, r, j) && c.fenced && c.ledgered && j.intent.Some?
    ensures r.uploads == j.intent.value.inventory.uploads
  {
    assert forall upload <- j.intent.value.inventory.uploads :: upload in r.uploads || Abort(upload) in r.sent;
    assert forall request <- r.sent :: request.Delete?;
  }

  /** Requests that are still on their way can change only what was submitted. */
  lemma {:induction false} UnsubmittedStays(c: Config, j: Journal, before: Remote, after: Remote)
    requires Invariant(c, before, j) && c.fenced && c.ledgered && Unsubmitted(c, before, j) && Elapsed(c, before, after)
    ensures after.rows == before.rows && after.uploads == before.uploads && Unsubmitted(c, after, j)
  {
  }

  class NativeRemote {
    const removal: Removal
    /** The approved backup inventory of the stage. */
    const expected: Inventory
    /** The digest of the frozen fixture, which is its fencing proof. */
    const fixture: Fence
    /** The published stage directory, its batch ledger and its receipt. */
    var entered: bool
    var batches: L.Ledger<Batch>
    var completed: bool
    /** What remained at each continuation, in order. */
    ghost var chain: seq<Inventory>

    ghost predicate Valid()
      reads this, removal
    {
      && removal.Valid() && removal.c.fenced && removal.c.ledgered
      && (removal.journal.intent.Some? ==>
            && removal.journal.intent.value.inventory.versions == expected.versions
            && removal.journal.intent.value.quiescent == fixture
            && batches.Spent(Cleanup))
      && (batches.Spent(Cleanup) ==> entered)
      && Batched(batches, chain, expected.versions, removal.remote.rows)
      && (completed ==> removal.remote.rows == {} && removal.remote.uploads == {})
    }

    constructor (removal: Removal, expected: Inventory, fixture: Fence)
      requires removal.Valid() && removal.c.fenced && removal.c.ledgered
      requires removal.journal == Journal(None, None, None, None, L.Empty())
      ensures Valid() && this.removal == removal && this.expected == expected && this.fixture == fixture
      ensures !entered && !completed && batches == L.Empty()
    {
      this.removal, this.expected, this.fixture := removal, expected, fixture;
      entered, completed, batches, chain := false, false, L.Empty(), [];
    }

    /** At most one more batch than there are original rows is ever submitted. */
    lemma {:induction false} BatchBound()
      requires Valid()
      ensures |batches.slots| <= |expected.versions| + 1
    {
      ChainBound(chain, expected.versions);
      NamesBound(chain);
      forall batch | batch in batches.slots ensures batch in Names(chain) {
        assert batches.Spent(batch);
      }
      CardinalityOfSubset(batches.slots.Keys, Names(chain));
    }

    /** `remaining`, row by row. */
    method Remaining(found: Inventory) returns (s: Status)
      requires removal.Valid()
      ensures s.Ok? <==> Partitions(expected.versions, found, removal.journal.ledger)
    {
      if found.uploads != {} || !(found.versions <= expected.versions) {
        return Stop(NewBytes);
      }
      var todo := expected.versions;
      while todo != {}
        invariant todo <= expected.versions
        invariant forall row <- expected.versions - todo ::
                    && !removal.journal.ledger.IsTorn(Delete(row))
                    && (row in found.versions <==> !removal.journal.ledger.Spent(Delete(row)))
      {
        var row :| row in todo;
        var submitted :- L.Submitted(removal.journal.ledger, Delete(row));
        if row in found.versions && submitted {
          return Stop(Unresolved);
        }
        if row !in found.versions && !submitted {
          return Stop(Unexplained);
        }
        todo := todo - {row};
      }
      s := Ok;
    }

    /** The reservation of a batch name. */
    method ReserveBatch(batch: Batch, found: Inventory, calm: bool) returns (s: Status)
      requires Valid() && entered
      requires found == removal.remote.List() && found.versions <= expected.versions
      requires batch == Cleanup || found.uploads == {}
      requires batch == Cleanup || (batch == Continuation(found) && batches.Spent(Cleanup) && found.versions != {})
      modifies this`batches, this`chain
      ensures Valid()
      ensures L.Extends(old(batches), batches, batch)
      ensures old(batches).Spent(batch) ==> s == Stop(Consumed)
      ensures s.Ok? ==> batches.Spent(Cleanup) && batches.Spent(batch)
      ensures calm && !old(batches).Spent(batch) ==> s.Ok?
    {
      NamesBound(chain);
      var after;
      s, after := L.Reserve(batches, batch, calm);
      if batch.Continuation? && after.Spent(batch) && !batches.Spent(batch) {
        ContinuationShrinks(batches, chain, expected.versions, removal.remote.rows, after);
        chain := chain + [found];
      }
      batches := after;
    }

    /** `Removal.run` inside a reserved batch, and the receipt. */
    method Clean(calm: bool) returns (s: Status)
      requires Valid() && entered && batches.Spent(Cleanup)
      requires removal.journal.intent.None? ==> removal.remote.rows == expected.versions
      modifies this`completed, removal
      ensures Valid()
      ensures s.Ok? ==> completed && removal.journal.removed.Some? && old(removal.remote).uploads == {}
      ensures calm && Unsubmitted(removal.c, old(removal.remote), old(removal.journal)) ==>
                (s.Ok? <==> Startable(removal.c, old(removal.remote), old(removal.journal), fixture))
    {
      s := Ok;
      :- removal.Run(fixture, calm);
      UploadsStay(removal.c, removal.remote, removal.journal);
      var absent :- removal.IsRemoved(calm);
      if !absent {
        return Stop(Incomplete);
      }
      completed := true;
      s := Checkpoint(calm);
    }

    /** One reserved batch around one `Removal.run`, and its receipt. */
    method RunBatch(batch: Batch, found: Inventory, calm: bool) returns (s: Status)
      requires Valid() && entered
      requires found == removal.remote.List() && found.versions <= expected.versions
      requires batch == Cleanup || found.uploads == {}
      requires removal.journal.intent.None? ==> found.versions == expected.versions
      requires batch == Cleanup || (batch == Continuation(found) && batches.Spent(Cleanup) && found.versions != {})
      modifies this, removal
      ensures Valid() && entered
      ensures old(batches).Spent(batch) ==>
                s == Stop(Consumed) && removal.remote == old(removal.remote) && removal.journal == old(removal.journal)
      ensures old(batches).Spent(batch) ==> L.Extends(old(batches), batches, batch) && completed == old(completed)
      ensures s.Ok? ==> completed && removal.journal.removed.Some? && found.uploads == {}
      ensures !old(batches).Spent(batch) ==>
                calm && Unsubmitted(removal.c, old(removal.remote), old(removal.journal)) ==>
                  (s.Ok? <==> Startable(removal.c, old(removal.remote), old(removal.journal), fixture))
    {
      s := Ok;
      :- ReserveBatch(batch, found, calm);
      s := Clean(calm);
    }

    /** `execute`: a fresh stage, the approved inventory, one batch. */
    method Execute(calm: bool) returns (s: Status)
      requires Valid()
      modifies this, removal
      ensures Valid()
      ensures old(entered) ==> && s == Stop(Consumed) && batches == old(batches)
                               && removal.remote == old(removal.remote) && removal.journal == old(removal.journal)
      ensures s.Ok? ==> completed && removal.remote.rows == {} && removal.remote.uploads == {}
      ensures calm && !old(entered) ==>
                (s.Ok? <==> && old(removal.remote).List() == expected && expected.uploads == {}
                            && removal.c.Admits(expected) && removal.c.Fits(Intent(fixture, expected)))
    {
      if entered {
        return Stop(Consumed);
      }
      :- Checkpoint(calm);
      entered := true;
      :- Checkpoint(calm);
      var found :- removal.Observed(calm);
      if found != expected {
        return Stop(NewBytes);
      }
      :- Checkpoint(calm);
      s := RunBatch(Cleanup, found, calm);
    }

    /** What an uninterrupted continuation needs, all of it visible before the call. */
    ghost predicate Resumable()
      reads this, removal
    {
      && removal.c.Admits(removal.remote.List())
      && Partitions(expected.versions, removal.remote.List(), removal.journal.ledger)
      && removal.remote.rows != {}
      && (removal.journal.intent.None? ==> removal.c.Fits(Intent(fixture, removal.remote.List())))
      && !batches.IsTorn(Cleanup)
      && (batches.Spent(Cleanup) ==> !batches.Spent(Continuation(removal.remote.List())))
    }

    /** The checks of `continue_unsubmitted`, and the name of the batch they lead to. */
    method Select(calm: bool) returns (s: Status, batch: Batch, found: Inventory)
      requires Valid()
      modifies this`entered, removal`remote
      ensures Valid() && (calm ==> removal.remote == old(removal.remote))
      ensures Elapsed(removal.c, old(removal.remote), removal.remote)
      ensures s.Ok? ==>
                && entered && found == removal.remote.List() && found.versions != {} && removal.c.Admits(found)
                && Partitions(expected.versions, found, removal.journal.ledger)
                && !batches.IsTorn(Cleanup)
                && batch == if batches.Spent(Cleanup) then Continuation(found) else Cleanup
      ensures calm && old(Resumable()) ==> s.Ok?
    {
      batch := Cleanup;
      s, found := Inspect(calm);
      if s.Stop? {
        return;
      }
      :- Remaining(found);
      if found.versions == {} {
        return Stop(Incomplete), batch, found;
      }
      :- Checkpoint(calm);
      var submitted :- L.Submitted(batches, Cleanup);
      if submitted {
        batch := Continuation(found);
      }
      s := Ok;
    }

    /** The stage directory, and the inventory that is left. */
    method Inspect(calm: bool) returns (s: Status, found: Inventory)
      requires Valid()
      modifies this`entered, removal`remote
      ensures Valid() && Elapsed(removal.c, old(removal.remote), removal.remote)
      ensures (calm ==> removal.remote == old(removal.remote))
      ensures s.Ok? ==> entered && found == removal.remote.List() && removal.c.Admits(found)
      ensures calm ==> (s.Ok? <==> removal.c.Admits(removal.remote.List()))
    {
      found := EMPTY;
      :- Checkpoint(calm);
      entered := true;
      :- Checkpoint(calm);
      s, found := removal.Observed(calm);
    }

    /** Before the first intent nothing was submitted, so an accepted partition is everything. */
    lemma {:induction false} NothingSubmitted(found: Inventory)
      requires Valid() && removal.journal.intent.None?
      requires Partitions(expected.versions, found, removal.journal.ledger)
      ensures found.versions == expected.versions
    {
      assert forall row <- expected.versions :: !removal.journal.ledger.Spent(Delete(row));
    }

    /** `continue_unsubmitted`: one more batch over rows that were never submitted. */
    method ContinueUnsubmitted(calm: bool) returns (s: Status)
      requires Valid()
      modifies this, removal
      ensures Valid() && (s.Ok? ==> completed)
      ensures calm ==> (s.Ok? <==> old(Resumable()))
      ensures old(Stranded()) ==> s.Stop? && Stranded() && removal.remote.rows == old(removal.remote).rows
    {
      ghost var before := removal.remote;
      var batch, found;
      s, batch, found := Select(calm);
      if Unsubmitted(removal.c, before, removal.journal) {
        UnsubmittedStays(removal.c, removal.journal, before, removal.remote);
      }
      if s.Stop? {
        return;
      }
      if removal.journal.intent.None? {
        NothingSubmitted(found);
      }
      s := RunBatch(batch, found, calm);
    }

    /** Nothing that is left was submitted, but the only batch name for it is consumed. */
    ghost predicate Stranded()
      reads this, removal
    {
      && batches.Spent(Cleanup) && batches.Spent(Continuation(removal.remote.List()))
      && Unsubmitted(removal.c, removal.remote, removal.journal)
    }

    /** An execution cut off at its reservation and a continuation cut off at its own: nothing was
        sent, and nothing ever will be. */
    method Strand()
      requires Valid() && !entered && removal.remote.List() == expected && expected.uploads == {}
      requires expected.versions != {}
      modifies this
      ensures Valid() && Stranded() && removal.remote.sent == {} && !completed
    {
      entered := true;
      var s := ReserveBatch(Cleanup, expected, true);
      s := ReserveBatch(Continuation(expected), expected, true);
    }

    /** A stranded closeout stays stranded: no later execution or continuation removes anything. */
    method StrandedForGood(attempts: nat)
      requires Valid() && Stranded()
      modifies this, removal
      ensures Valid() && Stranded() && removal.remote.rows == old(removal.remote).rows
    {
      for i := 0 to attempts
        invariant Valid() && Stranded() && removal.remote.rows == old(removal.remote).rows
      {
        var first: bool, calm: bool := *, *;
        if first {
          var _ := Execute(calm);
        } else {
          var _ := ContinueUnsubmitted(calm);
        }
      }
    }

    /** `reconcile` observes a submitted transition and changes nothing durable. */
    method Reconcile(calm: bool) returns (s: Status, absent: bool)
      requires Valid()
      modifies removal`remote
      ensures Valid() && removal.remote.sent == old(removal.remote).sent
      ensures s.Ok? ==> batches.Spent(Cleanup) && !batches.IsTorn(Cleanup)
      ensures s.Ok? && absent ==> removal.remote.rows == {} && removal.remote.uploads == {}
      ensures calm ==> (s.Ok? <==> batches.Spent(Cleanup) && !batches.IsTorn(Cleanup))
      ensures calm && s.Ok? ==> (absent <==> removal.remote.rows == {})
    {
      absent := false;
      :- Checkpoint(calm);
      s, absent := removal.IsRemoved(calm);
      if s.Stop? {
        return;
      }
      var submitted;
      s, submitted := L.Submitted(batches, Cleanup);
      if s.Ok? && !submitted {
        s := Stop(Unexplained);
      }
    }

    /** Any number of executions and continuations, each cut off anywhere: no DELETE is sent
        twice, and the number of batches stays bounded. */
    method History(attempts: nat)
      requires Valid()
      modifies this, removal
      ensures Valid()
      ensures removal.remote.repeated == {}
      ensures |batches.slots| <= |expected.versions| + 1
    {
      for i := 0 to attempts
        invariant Valid()
      {
        var first: bool := *;
        if first {
          var _ := Execute(false);
        } else {
          var _ := ContinueUnsubmitted(false);
        }
      }
      BatchBound();
    }
  }
}
