/** Resumable removal of an owned backup prefix (scripts/m3_11_backup_removal.py). */
module BackupRemoval {
  import opened Outcomes
  import opened Bucket
  import K = ObjectKeys
  import L = Ledger

  /** The durable `intent.json`. The other journal files only carry its digest, which is taken
      to be injective, so each of them is modelled by the intent it names. */
  datatype Intent = Intent(quiescent: Fence, inventory: Inventory)

  /** The caller's fencing proof, as the injective digest of the writers it covers. */
  type Fence = set<string>

  datatype Request = Delete(row: Row) | Abort(upload: Upload) {
    function Rows(): set<Row> { if Delete? then {row} else {} }
    function Uploads(): set<Upload> { if Abort? then {upload} else {} }
  }

  const MAX_INTENT_BYTES := 32 * 1024 * 1024

  /** What a removal is constructed with.
      `fenced` says that no writer adds to the prefix any more. The `ledgered` writer of the
      staged remote closeout reserves every DELETE first and cannot abort uploads; the writer
      of the debugging closeout does neither. `encoded` is the number of canonical bytes that an
      intent takes. */
  datatype Config = Config(prefix: string, owner: Row, fenced: bool, ledgered: bool, encoded: Intent -> nat) {
    function OwnerKey(): Key { prefix + "owner.json" }

    /** `_key`. */
    predicate OwnsKey(key: Key) {
      K.Opaque(key) && (key == OwnerKey() || prefix + "restic/" <= key) && K.Unambiguous(key)
    }

    predicate OwnsRow(row: Row) { OwnsKey(row.key) && K.Opaque(row.id) }

    /** There is no multipart upload of the owner marker. */
    predicate OwnsUpload(upload: Upload) {
      OwnsKey(upload.key) && K.Opaque(upload.id) && upload.key != OwnerKey()
    }

    /** `_validate_inventory`; `current` is bound to the exact versions it lists. */
    predicate Admits(inventory: Inventory) {
      && Weight(inventory) <= MAX_ENTRIES
      && (forall key {:trigger OwnsKey(key)} | key in inventory.current :: OwnsKey(key))
      && (forall row {:trigger OwnsRow(row)} | row in inventory.versions :: OwnsRow(row))
      && (forall upload {:trigger OwnsUpload(upload)} | upload in inventory.uploads :: OwnsUpload(upload))
      && inventory.current <= VersionKeys(inventory.versions)
    }

    predicate Valid() {
      owner.kind.Version? && owner.key == OwnerKey()
    }

    /** The bound on the published `intent.json`. */
    predicate Fits(intent: Intent) {
      encoded(intent) <= MAX_INTENT_BYTES
    }

    function OnlyOwner(): Inventory {
      Inventory({owner.key}, {owner}, {})
    }
  }

  /** The bucket, the accepted requests that have not been applied yet, every request ever put
      on the wire, and those put there more than once. */
  datatype Remote = Remote(rows: set<Row>, uploads: set<Upload>, inflight: set<Request>,
                           sent: set<Request>, repeated: set<Request>) {
    function List(): Inventory { Listing(rows, uploads) }
  }

  /** The journal directory and the ledger of the ledgered writer. */
  datatype Journal = Journal(intent: Option<Intent>, dataStarted: Option<Intent>, ownerStarted: Option<Intent>,
                             removed: Option<Intent>, ledger: L.Ledger<Request>) {
    ghost predicate Authorizes(request: Request) {
      && dataStarted.Some?
      && (request.Delete? ==> request.row in dataStarted.value.inventory.versions)
      && (request.Abort? ==> request.upload in dataStarted.value.inventory.uploads)
    }
  }

  /** The journal is prefix-closed and its files agree. */
  ghost predicate Chained(c: Config, j: Journal) {
    && (j.removed.Some? ==> j.removed == j.ownerStarted)
    && (j.ownerStarted.Some? ==> j.ownerStarted == j.dataStarted)
    && (j.dataStarted.Some? ==> j.dataStarted == j.intent)
    && (j.intent.Some? ==>
          var inventory := j.intent.value.inventory;
          && inventory == Listing(inventory.versions, inventory.uploads)
          && c.owner in inventory.versions
          && c.Admits(inventory))
  }

  /** Every request ever sent names an identity of the durable intent; the ledgered writer sends
      none of them twice. */
  ghost predicate Bounded(c: Config, r: Remote, j: Journal) {
    && (forall request <- r.sent :: j.Authorizes(request))
    && r.inflight <= r.sent
    && (Delete(c.owner) in r.sent ==> j.ownerStarted.Some?)
    && (c.ledgered ==>
          && r.repeated == {}
          && (forall request <- r.sent :: request.Delete? && j.ledger.Spent(request) && !j.ledger.IsTorn(request))
          && (forall request :: j.ledger.Spent(request) ==> j.Authorizes(request)))
  }

  /** What fencing adds: nothing appears, nothing disappears without a request, and the owner
      marker outlives the data. */
  ghost predicate Owned(c: Config, r: Remote, j: Journal) {
    && (forall row <- r.rows :: row.key == c.owner.key ==> row == c.owner)
    && (j.ownerStarted.None? ==> c.owner in r.rows)
    && (j.ownerStarted.Some? ==> r.rows <= {c.owner} && r.uploads == {})
    && (j.removed.Some? ==> r.rows == {})
    && (j.intent.Some? ==>
          var inventory := j.intent.value.inventory;
          && r.rows <= inventory.versions
          && r.uploads <= inventory.uploads
          && (forall row <- inventory.versions :: row !in r.rows ==> Delete(row) in r.sent)
          && (forall upload <- inventory.uploads :: upload !in r.uploads ==> Abort(upload) in r.sent))
  }

  ghost predicate Invariant(c: Config, r: Remote, j: Journal) {
    c.Valid() && Chained(c, j) && Bounded(c, r, j) && (c.fenced ==> Owned(c, r, j))
  }

  /** Nothing that is still present was submitted before. */
  ghost predicate Unsubmitted(c: Config, r: Remote, j: Journal) {
    c.ledgered ==> r.uploads == {} && forall row <- r.rows :: !j.ledger.Spent(Delete(row))
  }

  /** A saved intent under the same fence, or a first inventory that validates and whose intent is
      within its byte bound. */
  ghost predicate Startable(c: Config, r: Remote, j: Journal, quiet: Fence) {
    if j.intent.Some? then j.intent.value.quiescent == quiet
    else c.Admits(r.List()) && c.Fits(Intent(quiet, r.List()))
  }

  /** What the environment may do to the bucket: accepted requests land late, and without a
      fence any writer may add anything. */
  ghost predicate Elapsed(c: Config, before: Remote, after: Remote) {
    && after.sent == before.sent && after.repeated == before.repeated
    && after.inflight <= before.inflight
    && (c.fenced ==> after.rows <= before.rows && after.uploads <= before.uploads)
    && (forall row <- before.rows :: row !in after.rows ==> Delete(row) in before.inflight)
    && (forall upload <- before.uploads :: upload !in after.uploads ==> Abort(upload) in before.inflight)
  }

  /** Requests that land late, and foreign writers, keep the invariant. */
  lemma {:induction false} ElapsedKeeps(c: Config, j: Journal, before: Remote, after: Remote)
    requires Invariant(c, before, j) && Elapsed(c, before, after)
    ensures Invariant(c, after, j)
    ensures Unsubmitted(c, before, j) && c.fenced ==> Unsubmitted(c, after, j)
  {
  }

  /** A reservation of an authorized request, complete or torn, keeps the invariant. */
  lemma {:induction false} ReservedKeeps(c: Config, r: Remote, j: Journal, request: Request, after: L.Ledger<Request>)
    requires Invariant(c, r, j) && j.Authorizes(request)
    requires L.Extends(j.ledger, after, request)
    ensures Invariant(c, r, j.(ledger := after))
    ensures !j.ledger.Spent(request) && c.ledgered ==> request !in r.sent
  {
  }

  /** A first intent that lists the bucket exactly keeps the invariant. */
  lemma {:induction false} IntentKeeps(c: Config, r: Remote, j: Journal, quiet: Fence)
    requires Invariant(c, r, j) && j.intent.None? && c.owner in r.rows && c.Admits(r.List())
    ensures Invariant(c, r, j.(intent := Some(Intent(quiet, r.List()))))
  {
  }

  /** One request on the wire. */
  function Transmitted(r: Remote, request: Request, applied: bool, waiting: bool): Remote {
    Remote(if applied then r.rows - request.Rows() else r.rows,
           if applied then r.uploads - request.Uploads() else r.uploads,
           if waiting then r.inflight + {request} else r.inflight,
           r.sent + {request},
           if request in r.sent then r.repeated + {request} else r.repeated)
  }

  /** Whatever becomes of an authorized request, it keeps the invariant. */
  lemma {:induction false} TransmittedKeeps(c: Config, r: Remote, j: Journal, request: Request, applied: bool,
                                            waiting: bool)
    requires Invariant(c, r, j) && j.Authorizes(request)
    requires request == Delete(c.owner) <==> j.ownerStarted.Some?
    requires c.ledgered ==>
              request.Delete? && j.ledger.Spent(request) && !j.ledger.IsTorn(request) && request !in r.sent
    ensures Invariant(c, Transmitted(r, request, applied, waiting), j)
  {
  }

  /** What is admitted once stays admitted whatever part of it has been removed. */
  lemma {:induction false} StaysAdmitted(c: Config, rows: set<Row>, uploads: set<Upload>, fewer: set<Row>,
                                         left: set<Upload>)
    requires c.Admits(Listing(rows, uploads))
    requires fewer <= rows && left <= uploads
    ensures c.Admits(Listing(fewer, left))
  {
    WeightShrinks(rows, uploads, fewer, left);
    forall key | key in Current(fewer)
      ensures c.OwnsKey(key)
    {
      var row :| row in fewer && row.key == key;
      assert c.OwnsRow(row);
    }
  }

  /** The owner marker outlives the data: once its version is gone, nothing is left at all, and
      the absence is covered by the durable authorization to remove it. */
  lemma {:induction false} OwnerOutlivesData(c: Config, r: Remote, j: Journal)
    requires Invariant(c, r, j) && c.fenced && c.owner !in r.rows
    ensures r.rows == {} && r.uploads == {} && r.List() == EMPTY
    ensures j.ownerStarted.Some? && Delete(c.owner) in r.sent
  {
    assert r.rows == {};
    assert Current(r.rows) == {};
  }

  class Removal {
    const c: Config
    var remote: Remote
    var journal: Journal

    ghost predicate Valid()
      reads this
    {
      Invariant(c, remote, journal)
    }

    /** The ledgered writer may send only what it has just reserved. */
    ghost predicate Claimed(request: Request)
      reads this
    {
      && request.Delete? && journal.ledger.Spent(request) && !journal.ledger.IsTorn(request)
      && request !in remote.sent
    }

    constructor (c: Config, rows: set<Row>, uploads: set<Upload>)
      requires c.Valid()
      requires c.fenced ==> c.owner in rows && forall row <- rows :: row.key == c.owner.key ==> row == c.owner
      ensures Valid() && this.c == c
      ensures remote == Remote(rows, uploads, {}, {}, {})
      ensures journal == Journal(None, None, None, None, L.Empty())
    {
      this.c := c;
      remote := Remote(rows, uploads, {}, {}, {});
      journal := Journal(None, None, None, None, L.Empty());
    }

    method Elapse(calm: bool)
      requires Valid()
      modifies this`remote
      ensures Valid() && Elapsed(c, old(remote), remote)
      ensures calm ==> remote == old(remote)
    {
      if calm {
        return;
      }
      var landed: set<Request> := *;
      landed := landed * remote.inflight;
      var rows := set row | row in remote.rows && Delete(row) !in landed;
      var uploads := set upload | upload in remote.uploads && Abort(upload) !in landed;
      if !c.fenced {
        var more: set<Row>, begun: set<Upload> := *, *;
        rows, uploads := rows + more, uploads + begun;
      }
      remote := remote.(rows := rows, uploads := uploads, inflight := remote.inflight - landed);
      ElapsedKeeps(c, journal, old(remote), remote);
    }

    /** Two independent inventories, each validated, that agree. */
    method Observed(calm: bool) returns (s: Status, inventory: Inventory)
      requires Valid()
      modifies this`remote
      ensures Valid() && Elapsed(c, old(remote), remote)
      ensures calm ==> remote == old(remote)
      ensures s.Ok? ==> inventory == remote.List() && c.Admits(inventory)
      ensures calm ==> (s.Ok? <==> c.Admits(remote.List()))
      ensures calm && c.fenced && journal.intent.Some? ==> s.Ok?
      ensures s.Stop? ==> s.reason.Interrupted? || s.reason.Disagreement? || s.reason.Inadmissible?
    {
      if calm && c.fenced && journal.intent.Some? {
        ghost var original := journal.intent.value.inventory;
        StaysAdmitted(c, original.versions, original.uploads, remote.rows, remote.uploads);
      }
      Elapse(calm);
      inventory := remote.List();
      if !c.Admits(inventory) {
        return Stop(Inadmissible), EMPTY;
      }
      :- Checkpoint(calm);
      Elapse(calm);
      var second := remote.List();
      if !c.Admits(second) {
        return Stop(Inadmissible), EMPTY;
      }
      if inventory != second {
        return Stop(Disagreement), EMPTY;
      }
      s := Ok;
    }

    /** The owner key has no version but the original one. */
    ghost predicate Sole()
      reads this
    {
      forall row <- remote.rows :: row.key == c.owner.key ==> row == c.owner
    }

    /** `_owner`: both clients see exactly the original owner version under the owner key. */
    method RequireOwner(calm: bool) returns (s: Status)
      requires Valid()
      modifies this`remote
      ensures Valid() && Elapsed(c, old(remote), remote)
      ensures calm ==> remote == old(remote)
      ensures s.Ok? ==> c.owner in remote.rows && Sole()
      ensures calm && c.owner in remote.rows && Sole() ==> s.Ok?
      ensures s.Stop? ==> s.reason.Interrupted? || s.reason.NotOwned?
    {
      for i := 0 to 2
        invariant Valid() && Elapsed(c, old(remote), remote)
        invariant calm ==> remote == old(remote)
        invariant i > 0 ==> c.owner in remote.rows && Sole()
      {
        :- Checkpoint(calm);
        Elapse(calm);
        var found := set row | row in remote.rows && row.key == c.owner.key;
        if found != {c.owner} {
          return Stop(NotOwned);
        }
        assert c.owner in found && forall row <- remote.rows :: row.key == c.owner.key ==> row in found;
      }
      s := Ok;
    }

    /** `_intent`: the saved intent under the same fence, or a new one published by a single
        directory rename. `quiet` is what the fencing proof returns when it returns. */
    method Intend(quiet: Fence, calm: bool) returns (s: Status)
      requires Valid()
      modifies this
      ensures Valid() && Elapsed(c, old(remote), remote)
      ensures calm ==> remote == old(remote)
      ensures s.Ok? ==> journal.intent.Some? && journal.intent.value.quiescent == quiet
      ensures old(journal).intent.Some? ==> journal == old(journal)
      ensures journal == old(journal).(intent := journal.intent)
      ensures c.fenced && old(journal).intent.None? && journal.intent.Some? ==>
                journal.intent.value == Intent(quiet, old(remote).List())
      ensures calm && c.fenced ==> (s.Ok? <==> Startable(c, old(remote), old(journal), quiet))
      ensures calm && s.Stop? ==> journal == old(journal)
      ensures s.Stop? ==> !s.reason.NewBytes? && !s.reason.Reappeared?
    {
      s := Ok;
      :- Checkpoint(calm);
      if journal.intent.Some? {
        return if journal.intent.value.quiescent == quiet then Ok else Stop(Disagreement);
      }
      s := FirstIntent(quiet, calm);
    }

    /** A first intent: the owner, two agreeing inventories and the byte bound. */
    method FirstIntent(quiet: Fence, calm: bool) returns (s: Status)
      requires Valid() && journal.intent.None?
      modifies this
      ensures Valid() && Elapsed(c, old(remote), remote)
      ensures calm ==> remote == old(remote)
      ensures journal == old(journal).(intent := journal.intent)
      ensures s.Ok? ==> journal.intent.Some?
      ensures journal.intent.Some? ==> journal.intent.value.quiescent == quiet
      ensures c.fenced && journal.intent.Some? ==> journal.intent.value == Intent(quiet, old(remote).List())
      ensures calm && c.fenced ==>
                (s.Ok? <==> c.Admits(old(remote).List()) && c.Fits(Intent(quiet, old(remote).List())))
      ensures calm && s.Stop? ==> journal == old(journal)
      ensures s.Stop? ==> !s.reason.NewBytes? && !s.reason.Reappeared?
    {
      s := Ok;
      :- RequireOwner(calm);
      var inventory :- Observed(calm);
      :- Checkpoint(calm);
      if !c.Fits(Intent(quiet, inventory)) {
        return Stop(Inadmissible);
      }
      IntentKeeps(c, remote, journal, quiet);
      journal := journal.(intent := Some(Intent(quiet, inventory)));
      s := Checkpoint(calm);
    }

    /** `_once` on `data-delete.started.json`: publishes it, or accepts the identical record. */
    method AuthorizeData(calm: bool) returns (s: Status)
      requires Valid() && journal.intent.Some? && c.owner in remote.rows
      modifies this`journal
      ensures Valid() && (journal == old(journal) || journal == old(journal).(dataStarted := journal.intent))
      ensures s.Ok? ==> journal.dataStarted.Some?
      ensures calm ==> s.Ok?
      ensures s.Stop? ==> s.reason.Interrupted?
    {
      s := Ok;
      :- Checkpoint(calm);
      journal := journal.(dataStarted := journal.intent);
      s := Checkpoint(calm);
    }

    /** `_once` on `owner-delete.started.json`. */
    method AuthorizeOwner(calm: bool) returns (s: Status)
      requires Valid() && journal.dataStarted.Some? && c.owner in remote.rows
      requires c.fenced ==> remote.rows == {c.owner} && remote.uploads == {}
      modifies this`journal
      ensures Valid() && (journal == old(journal) || journal == old(journal).(ownerStarted := journal.intent))
      ensures s.Ok? ==> journal.ownerStarted.Some?
      ensures calm ==> s.Ok?
      ensures s.Stop? ==> s.reason.Interrupted?
    {
      s := Ok;
      :- Checkpoint(calm);
      journal := journal.(ownerStarted := journal.intent);
      s := Checkpoint(calm);
    }

    /** The ledgered writer's reservation of a DELETE; it has no uploads to abort. */
    method Claim(request: Request, calm: bool) returns (s: Status)
      requires Valid() && journal.Authorizes(request)
      modifies this`journal
      ensures Valid()
      ensures journal == old(journal).(ledger := journal.ledger)
      ensures L.Extends(old(journal).ledger, journal.ledger, request)
      ensures s.Ok? && c.ledgered ==> Claimed(request)
      ensures calm && (c.ledgered ==> request.Delete? && !old(journal).ledger.Spent(request)) ==> s.Ok?
      ensures s.Stop? ==> s.reason.Interrupted? || s.reason.Consumed? || s.reason.Inadmissible?
    {
      s := Ok;
      :- Checkpoint(calm);
      if c.ledgered {
        if request.Abort? {
          return Stop(Inadmissible);
        }
        var ledger;
        s, ledger := L.Reserve(journal.ledger, request, calm);
        ReservedKeeps(c, remote, journal, request, ledger);
        journal := journal.(ledger := ledger);
      } else {
        s := Ok;
      }
    }

    /** The request itself. Its response may be lost after it was applied, while it is still on
        its way, or because it never arrived. */
    method Transmit(request: Request, calm: bool) returns (s: Status)
      requires Valid() && journal.Authorizes(request)
      requires request == Delete(c.owner) <==> journal.ownerStarted.Some?
      requires c.ledgered ==> Claimed(request)
      modifies this`remote
      ensures Valid()
      ensures exists applied, waiting :: remote == Transmitted(old(remote), request, applied, waiting)
      ensures s.Ok? || calm ==> exists waiting :: remote == Transmitted(old(remote), request, true, waiting)
      ensures calm ==> s.Ok?
      ensures s.Stop? ==> s.reason.Interrupted?
    {
      var applied, waiting := *, *;
      applied := applied || calm;
      TransmittedKeeps(c, remote, journal, request, applied, waiting);
      remote := Transmitted(remote, request, applied, waiting);
      s := Checkpoint(calm);
      if !applied {
        s := Stop(Interrupted);
      }
    }

    method Send(request: Request, calm: bool) returns (s: Status)
      requires Valid() && journal.Authorizes(request)
      requires request == Delete(c.owner) <==> journal.ownerStarted.Some?
      modifies this
      ensures Valid()
      ensures c.fenced ==> remote.rows <= old(remote).rows && remote.uploads <= old(remote).uploads
      ensures old(remote).sent <= remote.sent <= old(remote).sent + {request}
      ensures journal == old(journal).(ledger := journal.ledger)
      ensures L.Extends(old(journal).ledger, journal.ledger, request)
      ensures s.Ok? ==> remote.rows !! request.Rows() && remote.uploads !! request.Uploads()
      ensures calm && (c.ledgered ==> request.Delete? && !old(journal).ledger.Spent(request)) ==>
                s.Ok? && remote.rows == old(remote).rows - request.Rows()
                && remote.uploads == old(remote).uploads - request.Uploads()
      ensures s.Stop? ==> s.reason.Interrupted? || s.reason.Consumed? || s.reason.Inadmissible?
    {
      Elapse(calm);
      :- Claim(request, calm);
      :- Checkpoint(calm);
      :- Transmit(request, calm);
      s := Ok;
    }

    /** Aborts every listed upload. */
    method AbortUploads(listed: set<Upload>, calm: bool) returns (s: Status)
      requires Valid() && forall upload <- listed :: journal.Authorizes(Abort(upload))
      requires journal.ownerStarted.Some? ==> listed == {}
      modifies this
      ensures Valid() && old(remote).sent <= remote.sent
      ensures c.fenced ==> remote.rows <= old(remote).rows && remote.uploads <= old(remote).uploads
      ensures journal == old(journal).(ledger := journal.ledger)
      ensures listed == {} ==> s.Ok? && remote == old(remote) && journal == old(journal)
      ensures calm && !c.ledgered ==>
                s.Ok? && remote.rows == old(remote).rows && remote.uploads == old(remote).uploads - listed
      ensures s.Stop? ==> s.reason.Interrupted? || s.reason.Consumed? || s.reason.Inadmissible?
    {
      var todo := listed;
      while todo != {}
        invariant Valid() && old(remote).sent <= remote.sent && todo <= listed
        invariant c.fenced ==> remote.rows <= old(remote).rows && remote.uploads <= old(remote).uploads
        invariant journal == old(journal).(ledger := journal.ledger)
        invariant todo == listed ==> remote == old(remote) && journal == old(journal)
        invariant calm && !c.ledgered ==>
                  remote.rows == old(remote).rows && remote.uploads == old(remote).uploads - (listed - todo)
      {
        var upload :| upload in todo;
        :- Send(Abort(upload), calm);
        todo := todo - {upload};
      }
      s := Ok;
    }

    /** Deletes every listed row; the owner's is not among them. */
    method DeleteRows(listed: set<Row>, calm: bool) returns (s: Status)
      requires Valid() && forall row <- listed :: journal.Authorizes(Delete(row))
      requires c.owner !in listed && (journal.ownerStarted.Some? ==> listed == {})
      modifies this
      ensures Valid() && old(remote).sent <= remote.sent
      ensures c.fenced ==> remote.rows <= old(remote).rows && remote.uploads <= old(remote).uploads
      ensures journal == old(journal).(ledger := journal.ledger)
      ensures forall row ::
                row !in listed ==> (journal.ledger.Spent(Delete(row)) <==> old(journal).ledger.Spent(Delete(row)))
      ensures calm && (c.ledgered ==> forall row <- listed :: !old(journal).ledger.Spent(Delete(row)))
              ==> s.Ok? && remote.rows == old(remote).rows - listed && remote.uploads == old(remote).uploads
      ensures s.Stop? ==> s.reason.Interrupted? || s.reason.Consumed? || s.reason.Inadmissible?
    {
      ghost var unspent := c.ledgered ==> forall row <- listed :: !journal.ledger.Spent(Delete(row));
      var todo := listed;
      while todo != {}
        invariant Valid() && old(remote).sent <= remote.sent && todo <= listed
        invariant c.fenced ==> remote.rows <= old(remote).rows && remote.uploads <= old(remote).uploads
        invariant journal == old(journal).(ledger := journal.ledger)
        invariant calm && unspent ==>
                  remote.rows == old(remote).rows - (listed - todo) && remote.uploads == old(remote).uploads
        invariant c.ledgered && unspent ==> forall row <- todo :: !journal.ledger.Spent(Delete(row))
        invariant forall row ::
                  row !in listed ==> (journal.ledger.Spent(Delete(row)) <==> old(journal).ledger.Spent(Delete(row)))
      {
        var row :| row in todo;
        :- Send(Delete(row), calm);
        todo := todo - {row};
      }
      s := Ok;
    }

    /** Removes everything listed except the owner marker. */
    method DeleteData(remaining: Inventory, calm: bool) returns (s: Status)
      requires Valid() && journal.dataStarted.Some?
      requires remaining.versions <= journal.intent.value.inventory.versions
      requires remaining.uploads <= journal.intent.value.inventory.uploads
      requires journal.ownerStarted.Some? ==> remaining == c.OnlyOwner()
      modifies this
      ensures Valid() && old(remote).sent <= remote.sent
      ensures c.fenced ==> remote.rows <= old(remote).rows && remote.uploads <= old(remote).uploads
      ensures journal == old(journal).(ledger := journal.ledger)
      ensures calm && c.fenced && remaining == old(remote).List() && c.owner in old(remote).rows
              && Unsubmitted(c, old(remote), old(journal))
              ==> s.Ok? && remote.rows == {c.owner} && remote.uploads == {} && Unsubmitted(c, remote, journal)
      ensures s.Stop? ==> s.reason.Interrupted? || s.reason.Consumed? || s.reason.Inadmissible?
    {
      s := Ok;
      :- AbortUploads(remaining.uploads, calm);
      var data := set row | row in remaining.versions && row.key != c.owner.key;
      s := DeleteRows(data, calm);
    }

    /** Deletes the owner marker once two clients see nothing else. */
    method RetireOwner(calm: bool) returns (s: Status)
      requires Valid() && journal.dataStarted.Some?
      modifies this
      ensures Valid() && old(remote).sent <= remote.sent
      ensures c.fenced ==> remote.rows <= old(remote).rows && remote.uploads <= old(remote).uploads
      ensures journal == old(journal).(ledger := journal.ledger, ownerStarted := journal.ownerStarted)
      ensures s.Ok? ==> journal.ownerStarted.Some?
      ensures s != Stop(NewBytes) && s != Stop(Reappeared)
      ensures calm && c.fenced && Unsubmitted(c, old(remote), old(journal)) &&
              old(remote).rows == {c.owner} && old(remote).uploads == {} ==>
                s.Ok? && remote.rows == {} && remote.uploads == {}
    {
      var left :- Observed(calm);
      if left != c.OnlyOwner() {
        return Stop(Incomplete);
      }
      s := RetireAlone(calm);
    }

    /** The owner marker, once nothing else was seen. */
    method RetireAlone(calm: bool) returns (s: Status)
      requires Valid() && journal.dataStarted.Some? && remote.rows == {c.owner} && remote.uploads == {}
      modifies this
      ensures Valid() && old(remote).sent <= remote.sent
      ensures c.fenced ==> remote.rows <= old(remote).rows && remote.uploads <= old(remote).uploads
      ensures journal == old(journal).(ledger := journal.ledger, ownerStarted := journal.ownerStarted)
      ensures s.Ok? ==> journal.ownerStarted.Some?
      ensures s != Stop(NewBytes) && s != Stop(Reappeared)
      ensures calm && c.fenced && Unsubmitted(c, old(remote), old(journal)) ==>
                s.Ok? && remote.rows == {} && remote.uploads == {}
    {
      s := Ok;
      :- RequireOwner(calm);
      :- Checkpoint(calm);
      :- AuthorizeOwner(calm);
      s := Send(Delete(c.owner), calm);
    }

    /** The body of `run` for a prefix that is not yet known to be empty. */
    method RemoveAll(remaining: Inventory, calm: bool) returns (s: Status)
      requires Valid() && journal.intent.Some?
      requires remaining == remote.List() && (remaining == EMPTY ==> journal.ownerStarted.None?)
      modifies this
      ensures Valid() && old(remote).sent <= remote.sent
      ensures c.fenced ==> remote.rows <= old(remote).rows && remote.uploads <= old(remote).uploads
      ensures journal.intent == old(journal).intent
      ensures s.Ok? ==> journal.ownerStarted.Some?
      ensures c.fenced ==> s != Stop(NewBytes) && s != Stop(Reappeared)
      ensures calm && c.fenced && Unsubmitted(c, old(remote), old(journal)) ==>
                s.Ok? && remote.rows == {} && remote.uploads == {}
    {
      s := Ok;
      :- RequireOwner(calm);
      var original := journal.intent.value.inventory;
      if !(remaining.versions <= original.versions && remaining.uploads <= original.uploads) {
        return Stop(NewBytes);
      }
      if journal.ownerStarted.Some? && remaining != c.OnlyOwner() {
        return Stop(Reappeared);
      }
      :- Checkpoint(calm);
      :- AuthorizeData(calm);
      :- DeleteData(remaining, calm);
      s := RetireOwner(calm);
    }

    /** `run`. Whatever interrupts it, the invariant holds where it stops; left alone on a fenced
        prefix it always finishes, whatever earlier runs left behind. */
    method Run(quiet: Fence, calm: bool) returns (s: Status)
      requires Valid()
      modifies this
      ensures Valid() && old(remote).sent <= remote.sent
      ensures c.fenced ==> remote.rows <= old(remote).rows && remote.uploads <= old(remote).uploads
      ensures old(journal).intent.Some? ==> journal.intent == old(journal).intent
      ensures c.fenced && old(journal).intent.None? && journal.intent.Some? ==>
                journal.intent.value == Intent(quiet, old(remote).List())
      ensures c.fenced && journal.intent.None? ==>
                remote.rows == old(remote).rows && remote.uploads == old(remote).uploads
      ensures s.Ok? ==> journal.removed.Some?
      ensures s.Ok? && c.fenced ==> remote.rows == {} && remote.uploads == {}
      ensures c.fenced ==> s != Stop(NewBytes) && s != Stop(Reappeared)
      ensures calm && c.fenced && Unsubmitted(c, old(remote), old(journal)) ==>
                (s.Ok? <==> Startable(c, old(remote), old(journal), quiet))
      ensures calm && c.fenced && !Startable(c, old(remote), old(journal), quiet) ==>
                remote == old(remote) && journal == old(journal)
    {
      s := Ok;
      :- Intend(quiet, calm);
      var remaining :- Observed(calm);
      if journal.ownerStarted.None? || remaining != EMPTY {
        :- RemoveAll(remaining, calm);
      }
      s := Certify(calm);
    }

    /** The last steps of `run`: independent absence, then the receipt. */
    method Certify(calm: bool) returns (s: Status)
      requires Valid() && journal.intent.Some?
      modifies this
      ensures Valid() && Elapsed(c, old(remote), remote)
      ensures journal == old(journal) || journal == old(journal).(removed := journal.intent)
      ensures s.Ok? ==> journal.removed.Some? && (c.fenced ==> remote.rows == {} && remote.uploads == {})
      ensures calm && journal.ownerStarted.Some? && old(remote).rows == {} && old(remote).uploads == {} ==> s.Ok?
      ensures s != Stop(NewBytes) && s != Stop(Reappeared)
    {
      if journal.ownerStarted.None? {
        return Stop(Ambiguous);
      }
      var left :- Observed(calm);
      if left != EMPTY {
        return Stop(Incomplete);
      }
      :- Checkpoint(calm);
      journal := journal.(removed := journal.intent);
      s := Checkpoint(calm);
    }

    /** `is_removed`: the original authorization, and absence seen by both clients. */
    method IsRemoved(calm: bool) returns (s: Status, removed: bool)
      requires Valid()
      modifies this`remote
      ensures Valid() && Elapsed(c, old(remote), remote)
      ensures calm ==> remote == old(remote)
      ensures s.Ok? && removed ==> journal.ownerStarted.Some? && remote.List() == EMPTY
      ensures c.fenced ==> s != Stop(Reappeared) && s != Stop(Ambiguous)
      ensures calm && c.fenced ==> s.Ok? && (removed <==> c.owner !in remote.rows)
    {
      if journal.intent.None? {
        return Ok, false;
      }
      if journal.ownerStarted.None? {
        if journal.removed.Some? {
          return Stop(Ambiguous), false;
        }
        return Ok, false;
      }
      removed := false;
      var found :- Observed(calm);
      removed := found == EMPTY;
      if journal.removed.Some? && !removed {
        return Stop(Reappeared), removed;
      }
      s := Ok;
      assert remote.rows == {} ==> Current(remote.rows) == {};
    }

    /** `preflight`: only an authorized empty retry may lack its owner. */
    method Preflight(calm: bool) returns (s: Status)
      requires Valid()
      modifies this`remote
      ensures Valid() && Elapsed(c, old(remote), remote)
      ensures calm ==> remote == old(remote)
      ensures calm && c.fenced ==> s.Ok?
      ensures s.Ok? ==> c.owner in remote.rows || (journal.ownerStarted.Some? && remote.List() == EMPTY)
    {
      var removed :- IsRemoved(calm);
      if removed {
        return Ok;
      }
      s := RequireOwner(calm);
    }

    /** Any number of runs, each cut off anywhere, and then one that is left alone. */
    method Campaign(quiet: Fence, attempts: nat) returns (s: Status)
      requires Valid() && c.fenced && !c.ledgered
      requires Startable(c, remote, journal, quiet)
      modifies this
      ensures Valid() && s.Ok? && journal.removed.Some?
      ensures remote.List() == EMPTY
    {
      for i := 0 to attempts
        invariant Valid()
        invariant Startable(c, remote, journal, quiet)
      {
        var _ := Run(quiet, false);
      }
      s := Run(quiet, true);
      assert Current({}) == {};
    }
  }

  // ------------------------------------------------------- what the first run looks at

  /** A key that lies in the Restic repository under the prefix. */
  ghost predicate InRepository(prefix: string, key: Key) {
    exists names :: K.Clean(names) && key == prefix + "restic/" + K.Joined(names)
  }

  /** Printable ASCII within the length bound. */
  predicate Printable(text: string) {
    0 < |text| <= 1024 && text != "null" && forall c <- text :: ' ' <= c <= '~'
  }

  /** The prefix of a run as it should be: the owner marker and a Restic repository, counted
      within the bound. */
  ghost predicate Repository(prefix: string, rows: set<Row>, uploads: set<Upload>) {
    && |Current(rows)| + |rows| + |uploads| <= 100_000
    && (exists directory :: K.Clean(directory) && prefix == K.Joined(directory) + "/")
    && (forall row <- rows ::
          && Printable(row.key) && Printable(row.id)
          && (row.key == prefix + "owner.json" || InRepository(prefix, row.key)))
    && (forall upload <- uploads ::
          Printable(upload.key) && Printable(upload.id) && InRepository(prefix, upload.key))
  }

  /** A key outside the owner marker and the repository, or with an empty or dot segment. */
  ghost predicate Stray(prefix: string, key: Key) {
    || (key != prefix + "owner.json" && !(prefix + "restic/" <= key))
    || K.Ambiguous(key)
    || |key| > 1024 || exists c <- key :: c < ' '
  }

  /** Something under the prefix does not belong there, or there is too much of it. */
  ghost predicate Foreign(prefix: string, rows: set<Row>, uploads: set<Upload>) {
    || |Current(rows)| + |rows| + |uploads| > 100_000
    || (exists row <- rows :: Stray(prefix, row.key) || row.id == "" || row.id == "null" || |row.id| > 1024)
    || (exists upload <- uploads ::
          Stray(prefix, upload.key) || upload.key == prefix + "owner.json" || upload.id == "" || |upload.id| > 1024)
  }

  lemma {:induction false} RepositoryKey(c: Config, directory: seq<string>, key: Key)
    requires K.Clean(directory) && c.prefix == K.Joined(directory) + "/" && Printable(key)
    requires key == c.prefix + "owner.json" || InRepository(c.prefix, key)
    ensures c.OwnsKey(key) && (InRepository(c.prefix, key) ==> key != c.prefix + "owner.json")
  {
    K.OpaqueTexts(key);
    if InRepository(c.prefix, key) {
      var names :| K.Clean(names) && key == c.prefix + "restic/" + K.Joined(names);
      var all := ["restic"] + names;
      assert all[1..] == names;
      K.CleanIsUnambiguous(directory, all);
      assert key == K.Joined(directory) + "/" + K.Joined(all);
      assert key[|c.prefix|] == 'r';
    } else {
      K.CleanIsUnambiguous(directory, ["owner.json"]);
    }
  }

  lemma {:induction false} RepositoryIsAdmitted(c: Config, rows: set<Row>, uploads: set<Upload>)
    requires Repository(c.prefix, rows, uploads)
    ensures c.Admits(Listing(rows, uploads))
  {
    var directory :| K.Clean(directory) && c.prefix == K.Joined(directory) + "/";
    forall row | row in rows
      ensures c.OwnsRow(row)
    {
      RepositoryKey(c, directory, row.key);
      K.OpaqueTexts(row.id);
    }
    forall upload | upload in uploads
      ensures c.OwnsUpload(upload)
    {
      RepositoryKey(c, directory, upload.key);
      K.OpaqueTexts(upload.id);
    }
  }

  lemma {:induction false} StrayIsNotOwned(c: Config, key: Key)
    requires Stray(c.prefix, key)
    ensures !c.OwnsKey(key)
  {
    K.UnambiguousIs(key);
    K.OpaqueTexts(key);
  }

  lemma {:induction false} ForeignIsRefused(c: Config, rows: set<Row>, uploads: set<Upload>)
    requires Foreign(c.prefix, rows, uploads)
    ensures !c.Admits(Listing(rows, uploads))
  {
    if row :| row in rows && (Stray(c.prefix, row.key) || row.id == "" || row.id == "null" || |row.id| > 1024) {
      K.OpaqueTexts(row.id);
      if Stray(c.prefix, row.key) {
        StrayIsNotOwned(c, row.key);
      }
      assert !c.OwnsRow(row);
    } else if upload :| upload in uploads
                        && (|| Stray(c.prefix, upload.key) || upload.key == c.prefix + "owner.json"
                            || upload.id == "" || |upload.id| > 1024) {
      K.OpaqueTexts(upload.id);
      if Stray(c.prefix, upload.key) {
        StrayIsNotOwned(c, upload.key);
      }
      assert !c.OwnsUpload(upload);
    }
  }

  /** The first run on a fenced prefix, told by its keys alone: a Restic repository with its owner
      marker is emptied, and anything else is refused before a single request. */
  method FirstRun(removal: Removal, quiet: Fence) returns (s: Status)
    requires removal.Valid() && removal.c.fenced && !removal.c.ledgered && removal.journal.intent.None?
    modifies removal
    ensures removal.Valid()
    ensures old(Repository(removal.c.prefix, removal.remote.rows, removal.remote.uploads)) &&
            removal.c.encoded(Intent(quiet, old(removal.remote).List())) <= 33_554_432 ==>
              s.Ok? && removal.remote.rows == {} && removal.remote.uploads == {} && removal.journal.removed.Some?
    ensures old(Foreign(removal.c.prefix, removal.remote.rows, removal.remote.uploads)) ||
            removal.c.encoded(Intent(quiet, old(removal.remote).List())) > 33_554_432 ==>
              s.Stop? && removal.remote == old(removal.remote) && removal.journal == old(removal.journal)
  {
    if Repository(removal.c.prefix, removal.remote.rows, removal.remote.uploads) {
      RepositoryIsAdmitted(removal.c, removal.remote.rows, removal.remote.uploads);
    }
    if Foreign(removal.c.prefix, removal.remote.rows, removal.remote.uploads) {
      ForeignIsRefused(removal.c, removal.remote.rows, removal.remote.uploads);
    }
    s := removal.Run(quiet, true);
  }
}
