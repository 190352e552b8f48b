/** Staged local disposal (scripts/m3_11_frozen_disposal.py): containers, then the image, then the
    exported tree, each effect submitted once through the ledger. */
module LocalDisposal {
  import opened Outcomes
  import opened Manifest
  import opened TreeDisposal
  import L = Ledger

  type Id = string

  datatype Effect = RemoveContainer(id: Id) | RemoveImage

  /** The Docker host as far as this fixture is concerned: what is present, the removals that
      were ever attempted, and those attempted twice. */
  datatype Host = Host(containers: set<Id>, image: bool, attempted: set<Effect>, repeated: set<Effect>) {
    predicate Has(effect: Effect) {
      match effect
      case RemoveContainer(id) => id in containers
      case RemoveImage => image
    }
  }

  /** Every effect of the stage, for statements that range over all of them. */
  datatype Name = OnHost(effect: Effect) | OnTree(path: Path)

  ghost predicate Accounted(actors: set<Id>, host: Host, ledger: L.Ledger<Effect>) {
    && host.containers <= actors
    && (forall id <- actors :: id in host.containers || RemoveContainer(id) in host.attempted)
    && (host.image || RemoveImage in host.attempted)
    && (forall effect <- host.attempted :: ledger.Spent(effect) && !ledger.IsTorn(effect))
    && (forall effect :: ledger.Spent(effect) && effect.RemoveContainer? ==> effect.id in actors)
    && host.repeated == {}
  }

  /** The image is submitted only after all containers are gone, and at most one container is
      submitted yet still present. */
  ghost predicate Staged(host: Host, ledger: L.Ledger<Effect>) {
    && (ledger.Spent(RemoveImage) ==> host.containers == {})
    && (forall a <- host.containers, b <- host.containers ::
          ledger.Spent(RemoveContainer(a)) && ledger.Spent(RemoveContainer(b)) ==> a == b)
  }

  ghost predicate HostInvariant(actors: set<Id>, host: Host, ledger: L.Ledger<Effect>) {
    Accounted(actors, host, ledger) && Staged(host, ledger)
  }

  /** Nothing submitted is still present. */
  ghost predicate HostClear(host: Host, ledger: L.Ledger<Effect>) {
    forall effect :: ledger.Spent(effect) ==> !host.Has(effect)
  }

  function Without(host: Host, effect: Effect): Host {
    match effect
    case RemoveContainer(id) => host.(containers := host.containers - {id})
    case RemoveImage => host.(image := false)
  }

  function Attempted(host: Host, effect: Effect, applied: bool): Host {
    var after := if applied then Without(host, effect) else host;
    after.(attempted := host.attempted + {effect},
           repeated := if effect in host.attempted then host.repeated + {effect} else host.repeated)
  }

  lemma {:induction false} AttemptedKeeps(actors: set<Id>, host: Host, ledger: L.Ledger<Effect>, effect: Effect,
                                          applied: bool)
    requires HostInvariant(actors, host, ledger)
    requires ledger.Spent(effect) && !ledger.IsTorn(effect) && effect !in host.attempted
    ensures HostInvariant(actors, Attempted(host, effect, applied), ledger)
  {
  }

  lemma {:induction false} HostReservedKeeps(actors: set<Id>, host: Host, ledger: L.Ledger<Effect>, effect: Effect,
                                             after: L.Ledger<Effect>)
    requires HostInvariant(actors, host, ledger) && HostClear(host, ledger) && L.Extends(ledger, after, effect)
    requires host.Has(effect) && (effect.RemoveImage? ==> host.containers == {})
    ensures HostInvariant(actors, host, after)
  {
    assert forall a <- host.containers :: host.Has(RemoveContainer(a));
    if host.containers != {} {
      assert effect != RemoveImage;
    }
  }

  function OnTreeAll(paths: seq<Path>): seq<Name> {
    seq(|paths|, i requires 0 <= i < |paths| => OnTree(paths[i]))
  }

  lemma {:induction false} OnTreeMembers(paths: seq<Path>)
    ensures forall name :: name in OnTreeAll(paths) <==> name.OnTree? && name.path in paths
  {
    forall name: Name | name.OnTree? && name.path in paths
      ensures name in OnTreeAll(paths)
    {
      var i :| 0 <= i < |paths| && paths[i] == name.path;
      assert OnTreeAll(paths)[i] == name;
    }
  }

  /** An effect that was submitted and whose resource is still there. */
  ghost predicate Pending(name: Name, host: Host, ledger: L.Ledger<Effect>, disk: Disk, entries: L.Ledger<Path>) {
    match name
    case OnHost(effect) => ledger.Spent(effect) && host.Has(effect)
    case OnTree(path) => entries.Spent(path) && path in disk.present
  }

  /** The three parts of `progress` are all there is. */
  lemma {:induction false} JoinPending(host: Host, ledger: L.Ledger<Effect>, disk: Disk, entries: L.Ledger<Path>,
                    actors: seq<Name>, image: seq<Name>, tree: seq<Name>)
    requires forall name :: name in actors <==>
               Pending(name, host, ledger, disk, entries) && name.OnHost? && name.effect.RemoveContainer?
    requires image == if ledger.Spent(RemoveImage) && host.image then [OnHost(RemoveImage)] else []
    requires forall name :: name in tree <==> name.OnTree? && Pending(name, host, ledger, disk, entries)
    ensures forall name :: name in actors + image + tree <==> Pending(name, host, ledger, disk, entries)
  {
  }

  lemma {:induction false} SomeMember<T>(items: seq<T>)
    ensures items != [] ==> exists item :: item in items
  {
    if items != [] {
      assert items[0] in items;
    }
  }

  class NativeLocal {
    const actors: seq<Id>
    const residual: Residual
    var host: Host
    var ledger: L.Ledger<Effect>
    var entered: bool
    var completed: bool

    ghost function Actors(): set<Id> { set id | id in actors }

    ghost predicate Valid()
      reads this, residual
    {
      && Distinct(actors) && residual.Valid() && HostInvariant(Actors(), host, ledger)
      // nothing is submitted before the stage's authority is published
      && (!entered ==> (forall effect :: !ledger.Spent(effect)) && forall path :: !residual.ledger.Spent(path))
      // tree entries are submitted only after the image is gone
      && (forall path :: residual.ledger.Spent(path) ==> !host.image && host.containers == {})
      && (completed ==> residual.disk.present == map[] && !host.image && host.containers == {})
    }

    ghost predicate IsUnresolved(name: Name)
      reads this, residual
    {
      Pending(name, host, ledger, residual.disk, residual.ledger)
    }

    /** At most one effect of any kind is ever submitted but unresolved. */
    lemma {:induction false} AtMostOneUnresolved(a: Name, b: Name)
      requires Valid() && IsUnresolved(a) && IsUnresolved(b)
      ensures a == b
    {
    }

    /** A recorded completion means that everything is absent by an exact submission. */
    lemma {:induction false} CompletionIsExact(name: Name)
      requires Valid() && completed
      requires name.OnHost? && name.effect.RemoveContainer? ==> name.effect.id in actors
      requires name.OnTree? ==> name.path == [] || name.path in Paths(residual.rows)
      ensures name.OnHost? ==> !host.Has(name.effect) && ledger.Spent(name.effect) && !ledger.IsTorn(name.effect)
      ensures name.OnTree? ==>
                && name.path !in residual.disk.present && residual.ledger.Spent(name.path)
                && !residual.ledger.IsTorn(name.path)
    {
      if name.OnHost? && name.effect.RemoveContainer? {
        assert name.effect.id in Actors();
      }
    }

    constructor (actors: seq<Id>, residual: Residual)
      requires Distinct(actors) && residual.Valid() && residual.ledger == L.Empty()
      ensures Valid() && this.actors == actors && this.residual == residual
      ensures !entered && !completed && ledger == L.Empty() && host.image
      ensures host.containers == (set id | id in actors)
    {
      this.actors, this.residual := actors, residual;
      host := Host((set id | id in actors), true, {}, {});
      ledger, entered, completed := L.Empty(), false, false;
    }

    /** No reservation of the stage is torn, and no exported link has lost another name. */
    ghost predicate Legible()
      reads this, residual
    {
      && (forall id <- actors :: !ledger.IsTorn(RemoveContainer(id)))
      && !ledger.IsTorn(RemoveImage)
      && TreeLegible()
    }

    ghost predicate TreeLegible()
      reads residual
    {
      && !Halved(residual.rows, residual.Present())
      && (forall path <- Paths(residual.rows) + {[]} :: !residual.ledger.IsTorn(path))
    }

    /** Nothing submitted is unresolved; in particular nothing is torn. */
    ghost predicate Resumable()
      reads this, residual
    {
      HostClear(host, ledger) && Clear(residual.disk, residual.ledger)
    }

    /** What an uninterrupted continuation needs. */
    ghost predicate Finishable()
      reads this, residual
    {
      Resumable() && Lone(residual.rows, residual.Present())
    }

    /** A removal whose command was lost may still take place. */
    method Settle(calm: bool)
      requires Valid()
      modifies this`host
      ensures Valid()
      ensures host.attempted == old(host).attempted
      ensures calm ==> host == old(host)
    {
      var late: set<Effect> := *;
      if calm {
        return;
      }
      var left := set id | id in host.containers && RemoveContainer(id) !in late * host.attempted;
      host := host.(containers := left, image := host.image && RemoveImage !in late * host.attempted);
    }

    /** A container whose record is not torn, and that is there or was submitted. */
    ghost predicate ActorLegible(id: Id)
      reads this
    {
      !ledger.IsTorn(RemoveContainer(id)) && (id in host.containers || ledger.Spent(RemoveContainer(id)))
    }

    /** The container part of `progress`. */
    method ActorProgress(calm: bool) returns (s: Status, removed: set<Id>, pending: seq<Name>)
      requires Distinct(actors)
      ensures s.Ok? ==> removed == Actors() - host.containers && forall id <- actors :: ActorLegible(id)
      ensures s.Ok? ==> forall name :: name in pending <==>
                && name.OnHost? && name.effect.RemoveContainer? && name.effect.id in actors
                && Pending(name, host, ledger, residual.disk, residual.ledger)
      ensures s.Ok? ==> Distinct(pending)
      ensures calm ==> (s.Ok? <==> forall id <- actors :: ActorLegible(id))
    {
      removed, pending := {}, [];
      :- Checkpoint(calm);
      for i := 0 to |actors|
        invariant removed == (set id | id in actors[..i]) - host.containers
        invariant forall id <- actors[..i] :: ActorLegible(id)
        invariant Distinct(pending)
        invariant forall name :: name in pending <==>
                    && name.OnHost? && name.effect.RemoveContainer? && name.effect.id in actors[..i]
                    && Pending(name, host, ledger, residual.disk, residual.ledger)
      {
        var id := actors[i];
        assert actors[..i + 1] == actors[..i] + [id] && id !in actors[..i] && id in actors;
        var submitted :- L.Submitted(ledger, RemoveContainer(id));
        if id !in host.containers {
          if !submitted {
            return Stop(Unexplained), removed, pending;
          }
          removed := removed + {id};
        } else if submitted {
          pending := pending + [OnHost(RemoveContainer(id))];
        }
      }
      assert actors[..|actors|] == actors;
      s := Ok;
    }

    /** The image part of `progress`. */
    method ImageProgress() returns (s: Status, pending: seq<Name>)
      ensures s.Ok? <==> !ledger.IsTorn(RemoveImage) && (host.image || ledger.Spent(RemoveImage))
      ensures s.Ok? ==> pending == if ledger.Spent(RemoveImage) && host.image then [OnHost(RemoveImage)] else []
    {
      pending := [];
      var sent :- L.Submitted(ledger, RemoveImage);
      if host.image {
        pending := if sent then [OnHost(RemoveImage)] else [];
        return Ok, pending;
      }
      s := if sent then Ok else Stop(Unexplained);
    }

    /** The tree part of `progress`. */
    method TreeProgress(calm: bool) returns (s: Status, lists: Lists, pending: seq<Name>)
      requires residual.Valid()
      modifies residual`changed
      ensures residual.Valid()
      ensures s.Ok? ==>
                lists == Classify(NOTHING, Everything(residual.rows), residual.disk.present.Keys, residual.ledger)
      ensures s.Ok? ==> forall name ::
                name in pending <==> name.OnTree? && Pending(name, host, ledger, residual.disk, residual.ledger)
      ensures s.Ok? ==> TreeLegible() && Distinct(pending)
      ensures calm ==> (s.Ok? <==> TreeLegible())
    {
      pending := [];
      s, lists := residual.Observe(calm);
      if s.Ok? {
        ObservationIsComplete(residual.rows, residual.disk.present.Keys, residual.ledger);
        assert forall path <- residual.disk.present :: path in Everything(residual.rows);
        pending := OnTreeAll(lists.pending);
        OnTreeMembers(lists.pending);
        assert Distinct(pending);
      }
    }

    /** `progress`: what is gone, what is submitted but unresolved, and the tree's lists. */
    method Progress(calm: bool) returns (s: Status, removed: set<Id>, pending: seq<Name>, lists: Lists)
      requires Valid()
      modifies residual`changed
      ensures Valid()
      ensures s.Ok? ==> removed == Actors() - host.containers
      ensures s.Ok? ==> forall name :: name in pending <==> Pending(name, host, ledger, residual.disk, residual.ledger)
      ensures s.Ok? ==>
                lists == Classify(NOTHING, Everything(residual.rows), residual.disk.present.Keys, residual.ledger)
      ensures s.Ok? ==> Legible() && Distinct(pending)
      ensures calm ==> (s.Ok? <==> Legible())
    {
      lists := NOTHING;
      s, removed, pending := ActorProgress(calm);
      if s.Stop? {
        return;
      }
      var image :- ImageProgress();
      var tree;
      s, lists, tree := TreeProgress(calm);
      if s.Ok? {
        JoinPending(host, ledger, residual.disk, residual.ledger, pending, image, tree);
        DistinctConcat(pending, image);
        DistinctConcat(pending + image, tree);
        pending := pending + image + tree;
      }
    }

    /** A torn reservation is one whose resource is still there, so it is never overlooked. */
    lemma {:induction false} ResumableIsLegible()
      requires Valid()
      ensures Resumable() ==> (Legible() <==> !Halved(residual.rows, residual.Present()))
      ensures Resumable() <==> forall name :: !Pending(name, host, ledger, residual.disk, residual.ledger)
    {
      if Resumable() {
        forall id | id in actors
          ensures !ledger.IsTorn(RemoveContainer(id))
        {
          assert id in Actors() && (ledger.IsTorn(RemoveContainer(id)) ==> ledger.Spent(RemoveContainer(id)));
        }
        assert ledger.IsTorn(RemoveImage) ==> ledger.Spent(RemoveImage);
        forall path | path in Paths(residual.rows) + {[]}
          ensures !residual.ledger.IsTorn(path)
        {
          assert residual.ledger.IsTorn(path) ==> residual.ledger.Spent(path);
        }
      }
      if forall name :: !Pending(name, host, ledger, residual.disk, residual.ledger) {
        forall effect | ledger.Spent(effect)
          ensures !host.Has(effect)
        {
          assert !Pending(OnHost(effect), host, ledger, residual.disk, residual.ledger);
        }
        forall path | path in residual.disk.present
          ensures !residual.ledger.Spent(path)
        {
          assert !Pending(OnTree(path), host, ledger, residual.disk, residual.ledger);
        }
      }
    }

    /** `effects.submit` around one Docker removal. */
    method Submit(effect: Effect, calm: bool) returns (s: Status)
      requires Valid() && entered && Resumable()
      requires host.Has(effect) && (effect.RemoveImage? ==> host.containers == {})
      modifies this`host, this`ledger
      ensures Valid()
      ensures s.Ok? ==> Resumable() && host == Attempted(old(host), effect, true)
      ensures calm ==> s.Ok?
    {
      var after;
      s, after := L.Reserve(ledger, effect, calm);
      HostReservedKeeps(Actors(), host, ledger, effect, after);
      ledger := after;
      if s.Stop? {
        return;
      }
      :- Checkpoint(calm);
      var applied: bool := *;
      applied := applied || calm;
      AttemptedKeeps(Actors(), host, ledger, effect, applied);
      host := Attempted(host, effect, applied);
      s := Checkpoint(calm);
      if !applied {
        s := Stop(Interrupted);
      }
    }

    /** The loop of `finish` over the containers that are left. */
    method RemoveContainers(removed: set<Id>, calm: bool) returns (s: Status)
      requires Valid() && entered && Resumable() && removed == Actors() - host.containers
      modifies this`host, this`ledger
      ensures Valid()
      ensures s.Ok? ==> Resumable() && host.containers == {} && host.image == old(host).image
      ensures calm ==> s.Ok?
    {
      var gone := removed;
      for i := 0 to |actors|
        invariant Valid() && Resumable()
        invariant host.image == old(host).image
        invariant gone == Actors() - host.containers && forall id <- actors[..i] :: id in gone
      {
        assert actors[..i + 1] == actors[..i] + [actors[i]];
        if actors[i] !in gone {
          assert actors[i] in Actors();
          assert host.Has(RemoveContainer(actors[i]));
          :- Submit(RemoveContainer(actors[i]), calm);
          gone := gone + {actors[i]};
        }
      }
      assert actors[..|actors|] == actors;
      s := Ok;
    }

    /** `finish` without `observe_only`: containers, image, tree, then the recorded completion.
        From every reachable state it succeeds exactly when no submitted effect is unresolved and
        no exported link has another name; a second name is found out only after containers and
        image are gone. */
    method Finish(calm: bool) returns (s: Status)
      requires Valid() && entered
      modifies this`host, this`ledger, this`completed, residual
      ensures Valid()
      ensures s.Ok? ==> completed && residual.disk.present == map[] && !host.image && host.containers == {}
      ensures calm ==> (s.Ok? <==> old(Finishable()))
      ensures calm && old(Resumable()) && old(!Halved(residual.rows, residual.Present())) && s.Stop? ==>
                host.containers == {} && !host.image && Halved(residual.rows, residual.Present())
    {
      if Lone(residual.rows, residual.Present()) {
        LoneIsWhole(residual.rows, residual.Present());
      }
      Settle(calm);
      var removed :- Begin(calm);
      :- RemoveHost(removed, calm);
      s := FinishTree(calm);
    }

    /** The containers that are left, then the image. */
    method RemoveHost(removed: set<Id>, calm: bool) returns (s: Status)
      requires Valid() && entered && Resumable() && removed == Actors() - host.containers
      modifies this`host, this`ledger
      ensures Valid()
      ensures s.Ok? ==> Resumable() && host.containers == {} && !host.image
      ensures calm ==> s.Ok?
    {
      s := Ok;
      :- RemoveContainers(removed, calm);
      if host.image {
        assert host.Has(RemoveImage);
        s := Submit(RemoveImage, calm);
      }
    }

    /** The refusal of `finish` to continue over anything unresolved. */
    method Begin(calm: bool) returns (s: Status, removed: set<Id>)
      requires Valid()
      modifies residual`changed
      ensures Valid()
      ensures s.Ok? ==> Resumable() && removed == Actors() - host.containers
      ensures calm ==> (s.Ok? <==> Resumable() && !Halved(residual.rows, residual.Present()))
    {
      ResumableIsLegible();
      removed := {};
      var gone, pending, lists :- Progress(calm);
      if pending != [] {
        assert IsUnresolved(pending[0]);
        return Stop(Unresolved), removed;
      }
      ResumableIsLegible();
      return Ok, gone;
    }

    /** The last part of `finish`. */
    method FinishTree(calm: bool) returns (s: Status)
      requires Valid() && entered && Resumable() && host.containers == {} && !host.image
      modifies this`completed, residual
      ensures Valid()
      ensures s.Ok? ==> completed && residual.disk.present == map[]
      ensures calm ==> (s.Ok? <==> Lone(residual.rows, old(residual.Present())))
      ensures calm && s.Stop? ==> Halved(residual.rows, residual.Present())
    {
      s := Ok;
      :- residual.RemoveUnsubmitted(calm);
      :- Checkpoint(calm);
      completed := true;
      s := Checkpoint(calm);
    }

    /** `prerequisites`: every container and the image are there. */
    method Prerequisites(calm: bool) returns (s: Status)
      requires Valid()
      ensures s.Ok? ==> host.containers == Actors() && host.image
      ensures calm && host.containers == Actors() && host.image ==> s.Ok?
    {
      s := Ok;
      :- Checkpoint(calm);
      if (exists id <- actors :: id !in host.containers) || !host.image {
        return Stop(Unexplained);
      }
      s := Checkpoint(calm);
    }

    /** `execute`: publishes the stage's authority once and runs it. */
    method Execute(calm: bool) returns (s: Status)
      requires Valid()
      modifies this, residual
      ensures Valid()
      ensures old(entered) ==>
                s.Stop? && host == old(host) && ledger == old(ledger) && residual.disk == old(residual.disk)
      ensures s.Ok? ==> completed
      ensures calm && !old(entered) ==> (s.Ok? <==> Unshared(residual.rows))
    {
      if !entered {
        NothingSubmitted();
      }
      :- Prerequisites(calm);
      if entered {
        return Stop(Consumed);
      }
      entered := true;
      :- Prerequisites(calm);
      s := Finish(calm);
    }

    lemma {:induction false} NothingSubmitted()
      requires Valid() && (forall effect :: !ledger.Spent(effect)) && forall path :: !residual.ledger.Spent(path)
      ensures host.containers == Actors() && host.image && Resumable()
      ensures Lone(residual.rows, residual.Present()) <==> Unshared(residual.rows)
    {
      forall row | row in residual.rows
        ensures row.path in residual.Present()
      {
        assert row.path in Paths(residual.rows);
      }
    }

    /** `reconcile` with an explicit continuation. From every reachable state it completes the
        disposal exactly when no submitted effect is unresolved and no exported link has another
        name. */
    method ContinueUnsubmitted(calm: bool) returns (s: Status)
      requires Valid()
      modifies this, residual
      ensures Valid() && (s.Ok? ==> completed)
      ensures calm ==> (s.Ok? <==> old(Finishable()))
    {
      s := Ok;
      :- Checkpoint(calm);
      entered := true;
      if ledger.slots == map[] && residual.ledger.slots == map[] {
        NothingSubmitted();
        :- Prerequisites(calm);
      }
      s := Finish(calm);
    }

    /** What an observation lists after a recorded completion. */
    lemma {:induction false} NothingIsLeft(pending: seq<Name>, lists: Lists)
      requires Valid() && completed
      requires forall name :: name in pending <==> Pending(name, host, ledger, residual.disk, residual.ledger)
      requires lists == Classify(NOTHING, Everything(residual.rows), residual.disk.present.Keys, residual.ledger)
      ensures pending == [] && Actors() - host.containers == Actors()
      ensures lists.pending == [] && lists.unsubmitted == []
      ensures forall path :: path in lists.absent <==> path == [] || path in Paths(residual.rows)
    {
      ObservationIsComplete(residual.rows, residual.disk.present.Keys, residual.ledger);
      SomeMember(pending);
      SomeMember(lists.pending);
      SomeMember(lists.unsubmitted);
    }

    /** `reconcile` without continuation changes nothing and reports every unresolved effect. */
    method Reconcile(calm: bool) returns (s: Status, removed: set<Id>, pending: seq<Name>, lists: Lists)
      requires Valid()
      modifies residual`changed
      ensures Valid()
      ensures s.Ok? ==> removed == Actors() - host.containers
      ensures s.Ok? ==> forall name :: name in pending <==> Pending(name, host, ledger, residual.disk, residual.ledger)
      ensures s.Ok? ==> |pending| <= 1
      ensures s.Ok? ==>
                lists == Classify(NOTHING, Everything(residual.rows), residual.disk.present.Keys, residual.ledger)
      ensures s.Ok? && completed ==>
                && pending == [] && removed == Actors() && lists.pending == [] && lists.unsubmitted == []
                && forall path :: path in lists.absent <==> path == [] || path in Paths(residual.rows)
      ensures calm && entered ==> (s.Ok? <==> Legible())
    {
      removed, pending, lists := {}, [], NOTHING;
      if !entered {
        return Stop(Unexplained), removed, pending, lists;
      }
      s, removed, pending, lists := Progress(calm);
      if s.Ok? && |pending| > 1 {
        assert IsUnresolved(pending[0]) && IsUnresolved(pending[1]);
        AtMostOneUnresolved(pending[0], pending[1]);
      }
      if s.Ok? && completed {
        NothingIsLeft(pending, lists);
      }
    }

    /** Any number of executions and continuations, each cut off anywhere: no removal of any
        kind is attempted twice. */
    method History(attempts: nat)
      requires Valid()
      modifies this, residual
      ensures Valid() && host.repeated == {} && residual.disk.repeated == {}
    {
      for i := 0 to attempts
        invariant Valid()
      {
        var first: bool := *;
        if first {
          var _ := Execute(false);
        } else {
          var _ := ContinueUnsubmitted(false);
        }
      }
    }
  }
}
