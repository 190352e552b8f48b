/** The whole debugging closeout (scripts/m3_11_debug_closeout.py): remote backups, containers, the
    image, and last the run directory behind its disposal receipt. */
module Closeout {
  import opened Outcomes
  import opened Bucket
  import opened BackupRemoval

  type Id = string

  /** What the run consists of. `identities` counts the different images that the host container
      and the restore receipt name, `original` says that the image tag names the recorded one, and
      `passing` that `qualification.json` exists. */
  datatype Setup = Setup(image: bool, identities: nat, original: bool, passing: bool, entries: set<string>)

  /** Docker resources and files of the run. `saved` is `debug-closeout-local.json`, `strays` what
      lies under the prefix of a run without saved storage ownership, `directory` the entries
      that are left of the run directory, if it still exists. */
  datatype Site = Site(containers: set<Id>, running: set<Id>, image: bool, saved: Option<set<Id>>,
                       strays: set<Row>, receipt: bool, directory: Option<set<string>>) {
    /** Containers and image are gone. */
    predicate Bare() { containers == {} && !image }

    /** Nothing of the run is left on this machine. */
    predicate Gone() { Bare() && directory.None? && !receipt }
  }

  /** The order of the closeout, in every state a crash can leave. `empty` says that nothing is
      left under the backup prefix, `intent` is the durable removal intent. */
  ghost predicate Ordered(setup: Setup, site: Site, empty: bool, intent: Option<Intent>) {
    && site.running <= site.containers
    // the local authorization precedes every effect and names what was there; its digest is the
    // fence of the removal
    && (site.saved.Some? ==> site.containers <= site.saved.value)
    && (intent.Some? ==> site.running == {} && site.saved == Some(intent.value.quiescent))
    // containers go only after the backups, the image only after the containers
    && (site.saved.Some? && site.containers != site.saved.value ==> empty && site.running == {})
    && (site.image ==> setup.image)
    && (setup.image && !site.image ==> site.saved.Some? && site.containers == {} && empty)
    // the receipt only after all of that, and the directory only behind the receipt
    && (site.receipt ==> site.Bare() && empty)
    && (site.directory != Some(setup.entries) ==> site.Bare() && empty)
    && (site.directory.Some? && site.directory != Some(setup.entries) ==> site.receipt)
  }

  /** `after` lies later than `before` in some run: authorizations stay what they are, resources
      only go. */
  ghost predicate Later(before: Site, after: Site) {
    && after.containers <= before.containers
    && after.running <= before.running
    && (after.image ==> before.image)
    && (before.saved.Some? ==> after.saved == before.saved)
    && (before.saved.None? && after.saved.Some? ==> after.saved.value == before.containers)
    && (after.saved.None? ==> after.containers == before.containers)
    && (before.directory.None? ==> after.directory.None? && (after.receipt ==> before.receipt))
    && (before.receipt ==> after.receipt || after.directory.None?)
  }

  class Closeout {
    const setup: Setup
    const removal: Removal?
    var site: Site

    ghost function Rows(): set<Row>
      reads this, removal
    {
      if removal == null then site.strays else removal.remote.rows
    }

    ghost function Uploads(): set<Upload>
      reads this, removal
    {
      if removal == null then {} else removal.remote.uploads
    }

    ghost predicate Empty()
      reads this, removal
    {
      Rows() == {} && Uploads() == {}
    }

    ghost function Intended(): Option<Intent>
      reads this, removal
    {
      if removal == null then None else removal.journal.intent
    }

    ghost predicate Valid()
      reads this, removal
    {
      && (removal != null ==> removal.Valid() && removal.c.fenced && !removal.c.ledgered)
      && Ordered(setup, site, Empty(), Intended())
    }

    /** What an uninterrupted closeout needs. */
    ghost predicate Closable()
      reads this, removal
    {
      || site.receipt
      || (&& site.directory.Some?
          && !setup.passing
          && (site.saved.None? ==> Identified()) && !Replaced()
          && Removable())
    }

    /** The remote part can be shown: nothing under a prefix without saved ownership, or an inventory
        within its bound. */
    ghost predicate Previewable()
      reads this, removal
    {
      if removal == null then site.strays == {}
      else |Current(Rows())| + |Rows()| + |Uploads()| <= 100_000
    }

    /** What a closeout looks at on this machine before it looks at the bucket. */
    ghost predicate Ready()
      reads this
    {
      && site.directory.Some? && !setup.passing
      && (site.saved.None? ==> setup.identities == 1 || (setup.identities == 0 && !site.image))
      && (site.image ==> setup.original)
    }

    /** The removal can start; once its intent is saved it always can. */
    ghost predicate Removable()
      reads this, removal
    {
      if removal == null then site.strays == {}
      else Startable(removal.c, removal.remote, removal.journal, Authorized())
    }

    /** The image has one original identity, or there is none to remove. */
    predicate Identified()
      reads this
    {
      setup.identities == 1 || (setup.identities == 0 && !site.image)
    }

    /** The image tag names another image than the recorded one. */
    predicate Replaced()
      reads this
    {
      site.image && !setup.original
    }

    /** The containers that the local authorization names, or will name. */
    ghost function Authorized(): set<Id>
      reads this
    {
      if site.saved.Some? then site.saved.value else site.containers
    }

    constructor (setup: Setup, removal: Removal?, containers: set<Id>, running: set<Id>, strays: set<Row>)
      requires removal != null ==>
                removal.Valid() && removal.c.fenced && !removal.c.ledgered && removal.journal.intent.None?
      requires running <= containers
      ensures Valid() && this.setup == setup && this.removal == removal
      ensures site == Site(containers, running, setup.image, None, strays, false, Some(setup.entries))
    {
      this.setup, this.removal := setup, removal;
      site := Site(containers, running, setup.image, None, strays, false, Some(setup.entries));
    }

    /** Running containers write to the prefix, but never to the owner key. */
    method Elapse(calm: bool)
      requires Valid()
      modifies this`site, removal
      ensures Valid() && site == old(site).(strays := site.strays)
      ensures Intended() == old(Intended())
      ensures calm ==> site == old(site) && (removal != null ==> removal.remote == old(removal.remote))
      ensures old(site).running == {} ==>
                site == old(site) && (Intended().None? ==> Rows() == old(Rows()) && Uploads() == old(Uploads()))
      ensures removal != null ==> removal.journal == old(removal.journal)
      ensures old(site).strays <= site.strays
    {
      if calm || site.running == {} {
        return;
      }
      var more: set<Row>, begun: set<Upload> := *, *;
      if removal == null {
        site := site.(strays := site.strays + more);
      } else {
        more := set row | row in more && row.key != removal.c.owner.key;
        removal.remote :=
          removal.remote.(rows := removal.remote.rows + more, uploads := removal.remote.uploads + begun);
      }
    }

    /** `local_intent`: the saved authorization, or the containers as they are now. */
    method LocalIntent(calm: bool) returns (s: Status, intent: set<Id>)
      requires Valid()
      ensures s.Ok? ==> intent == Authorized()
      ensures s.Ok? ==> !Replaced()
      ensures calm ==> (s.Ok? <==> (site.saved.None? ==> Identified()) && !Replaced())
    {
      intent := {};
      :- Checkpoint(calm);
      if site.saved.Some? {
        if !(site.containers <= site.saved.value) {
          return Stop(Disagreement), {};
        }
        intent := site.saved.value;
      } else {
        if setup.identities > 1 || (setup.identities == 0 && site.image) {
          return Stop(NotOwned), {};
        }
        intent := site.containers;
      }
      if Replaced() {
        return Stop(Disagreement), {};
      }
      s := Ok;
    }

    /** `assert_storage_empty` on the prefix. */
    method RequireEmpty(calm: bool) returns (s: Status)
      requires Valid()
      ensures s.Ok? ==> Empty()
      ensures calm ==> (s.Ok? <==> Empty())
    {
      s := Ok;
      :- Checkpoint(calm);
      var found := if removal == null then site.strays == {}
                   else removal.remote.rows == {} && removal.remote.uploads == {};
      s := if found then Ok else Stop(Incomplete);
    }

    /** `backup_removal`, and the bounded inventory that is printed. */
    method Preview(calm: bool) returns (s: Status)
      requires Valid()
      modifies removal
      ensures Valid()
      ensures removal != null ==>
                removal.journal == old(removal.journal) && Elapsed(removal.c, old(removal.remote), removal.remote)
      ensures calm && removal != null ==> removal.remote == old(removal.remote)
      ensures calm ==> (s.Ok? <==> Previewable())
      ensures calm && Closable() && !site.receipt ==> s.Ok?
      ensures removal == null && s.Ok? ==> Empty()
    {
      if removal == null {
        s := RequireEmpty(calm);
      } else {
        if removal.journal.intent.Some? {
          ghost var original := removal.journal.intent.value.inventory;
          StaysAdmitted(removal.c, original.versions, original.uploads, removal.remote.rows, removal.remote.uploads);
        }
        :- removal.Preflight(calm);
        if Weight(removal.remote.List()) > MAX_ENTRIES {
          return Stop(Inadmissible);
        }
        s := Checkpoint(calm);
      }
    }

    /** `stop_containers`: every writer is stopped before the removal authorizes anything. */
    method StopContainers(calm: bool) returns (s: Status)
      requires Valid()
      modifies this`site, removal
      ensures Valid() && Later(old(site), site) && Intended() == old(Intended())
      ensures site == old(site).(running := site.running, strays := site.strays)
      ensures removal != null ==> removal.journal == old(removal.journal)
      ensures old(site).running == {} ==>
                site == old(site) && (Intended().None? ==> Rows() == old(Rows()) && Uploads() == old(Uploads()))
      ensures s.Ok? ==> site.running == {}
      ensures calm ==>
                s.Ok? && site.strays == old(site).strays && (removal != null ==> removal.remote == old(removal.remote))
    {
      while site.running != {}
        invariant Valid() && Intended() == old(Intended())
        invariant site == old(site).(running := site.running, strays := site.strays)
        invariant site.running <= old(site).running
        invariant removal != null ==> removal.journal == old(removal.journal)
        invariant calm ==>
                  site.strays == old(site).strays && (removal != null ==> removal.remote == old(removal.remote))
        invariant old(site).running == {} ==>
                  site == old(site) && (Intended().None? ==> Rows() == old(Rows()) && Uploads() == old(Uploads()))
        decreases site.running
      {
        Elapse(calm);
        :- Checkpoint(calm);
        var id :| id in site.running;
        site := site.(running := site.running - {id});
        :- Checkpoint(calm);
      }
      s := Ok;
    }

    /** The remote part, under the fence that the saved local authorization gives. */
    method RemoveBackups(calm: bool) returns (s: Status)
      requires Valid() && site.saved.Some? && site.running == {}
      modifies removal
      ensures Valid() && (old(Intended()).Some? ==> Intended() == old(Intended()))
      ensures Rows() <= old(Rows()) && Uploads() <= old(Uploads())
      ensures Intended().None? ==> Rows() == old(Rows()) && Uploads() == old(Uploads())
      ensures s.Ok? ==> Empty()
      ensures calm ==> (s.Ok? <==> old(Removable()))
      ensures calm && s.Stop? && removal != null ==> removal.remote == old(removal.remote)
    {
      if removal == null {
        s := RequireEmpty(calm);
      } else {
        s := removal.Run(site.saved.value, calm);
      }
    }

    /** `remove_containers`, one at a time. */
    method RemoveContainers(calm: bool) returns (s: Status)
      requires Valid() && site.saved.Some? && site.running == {} && Empty()
      modifies this`site
      ensures Valid() && Empty() && site == old(site).(containers := site.containers)
      ensures site.containers <= old(site).containers
      ensures s.Ok? ==> site.containers == {}
      ensures calm ==> s.Ok?
    {
      while site.containers != {}
        invariant Valid() && Empty()
        invariant site == old(site).(containers := site.containers) && site.containers <= old(site).containers
        decreases site.containers
      {
        :- Checkpoint(calm);
        var id :| id in site.containers;
        site := site.(containers := site.containers - {id});
        :- Checkpoint(calm);
      }
      s := Ok;
    }

    /** `remove_owned_image`, which refuses while a container is left. */
    method RemoveImage(calm: bool) returns (s: Status)
      requires Valid() && site.saved.Some? && site.running == {} && Empty()
      modifies this`site
      ensures Valid() && Empty() && site == old(site).(image := site.image)
      ensures site.image ==> old(site).image
      ensures s.Ok? ==> site.Bare()
      ensures calm ==> (s.Ok? <==> site.containers == {})
    {
      s := Ok;
      :- Checkpoint(calm);
      if site.containers != {} {
        return Stop(Incomplete);
      }
      site := site.(image := false);
      s := Checkpoint(calm);
    }

    /** `finish_directory`: the entries, the directory itself, and last the receipt. */
    method FinishDirectory(apply: bool, calm: bool) returns (s: Status)
      requires Valid() && site.receipt
      modifies this`site
      ensures Valid() && Later(old(site), site)
      ensures site == old(site).(receipt := site.receipt, directory := site.directory)
      ensures !site.receipt ==> site.directory.None?
      ensures !apply ==> site == old(site)
      ensures s.Ok? && apply ==> site.Gone()
      ensures calm ==> s.Ok?
    {
      s := Ok;
      :- Checkpoint(calm);
      if !apply {
        return Ok;
      }
      if site.directory.Some? {
        while site.directory.value != {}
          invariant Valid() && site.directory.Some? && site == old(site).(directory := site.directory)
          decreases site.directory.value
        {
          var entry :| entry in site.directory.value;
          site := site.(directory := Some(site.directory.value - {entry}));
          :- Checkpoint(calm);
        }
        site := site.(directory := None);
      }
      :- Checkpoint(calm);
      site := site.(receipt := false);
      s := Checkpoint(calm);
    }

    /** Everything between the stopped writers and the disposal receipt. */
    method Dispose(calm: bool) returns (s: Status)
      requires Valid() && site.saved.Some? && site.running == {} && site.directory.Some? && !site.receipt
      modifies this`site, removal
      ensures Valid() && Later(old(site), site) && site.saved == old(site).saved
      ensures Rows() <= old(Rows()) && Uploads() <= old(Uploads())
      ensures Intended().None? ==> Rows() == old(Rows()) && Uploads() == old(Uploads())
      ensures old(Intended()).Some? ==> Intended() == old(Intended())
      ensures site.containers != old(site).containers ==> Empty()
      ensures s.Ok? ==> site.Gone() && Empty()
      ensures calm ==> (s.Ok? <==> old(Removable()))
      ensures calm && s.Stop? ==> site == old(site) && (removal != null ==> removal.remote == old(removal.remote))
    {
      s := Ok;
      :- RemoveBackups(calm);
      :- RemoveLocal(calm);
      s := StageDirectory(calm);
    }

    /** Containers, then the image. */
    method RemoveLocal(calm: bool) returns (s: Status)
      requires Valid() && site.saved.Some? && site.running == {} && Empty()
      modifies this`site
      ensures Valid() && Empty() && site == old(site).(containers := site.containers, image := site.image)
      ensures site.containers <= old(site).containers && (site.image ==> old(site).image)
      ensures s.Ok? ==> site.Bare()
      ensures calm ==> s.Ok?
    {
      s := Ok;
      :- RemoveContainers(calm);
      s := RemoveImage(calm);
    }

    /** `stage_directory`: the receipt, behind one more look at the prefix. */
    method StageDirectory(calm: bool) returns (s: Status)
      requires Valid() && Empty() && site.Bare() && site.directory.Some?
      modifies this`site
      ensures Valid() && Later(old(site), site)
      ensures site == old(site).(receipt := site.receipt, directory := site.directory)
      ensures s.Ok? ==> site.Gone()
      ensures calm ==> s.Ok?
    {
      s := Ok;
      :- RequireEmpty(calm);
      site := site.(receipt := true);
      :- Checkpoint(calm);
      s := FinishDirectory(true, calm);
    }

    /** The authorized part: the local intent is durable before the first effect. */
    method Discard(intent: set<Id>, calm: bool) returns (s: Status)
      requires Valid() && site.directory.Some? && !site.receipt
      requires intent == Authorized()
      modifies this`site, removal
      ensures Valid() && Later(old(site), site)
      ensures old(site).running == {} && Intended().None? ==> Rows() == old(Rows()) && Uploads() == old(Uploads())
      ensures old(Intended()).Some? ==> Intended() == old(Intended())
      ensures site.containers != old(site).containers ==> Empty()
      ensures s.Ok? ==> site.Gone() && Empty()
      ensures calm ==> (s.Ok? <==> old(Removable()))
      ensures calm && s.Stop? ==> site == old(site).(saved := Some(intent), running := {})
      ensures calm && s.Stop? && removal != null ==> removal.remote == old(removal.remote)
    {
      s := Ok;
      :- Checkpoint(calm);
      site := site.(saved := Some(intent));
      :- Checkpoint(calm);
      :- StopContainers(calm);
      s := Dispose(calm);
    }

    /** Everything that is looked at before the first effect. */
    method Inspect(calm: bool) returns (s: Status, intent: set<Id>)
      requires Valid() && !site.receipt
      modifies this`site, removal
      ensures Valid() && site == old(site).(strays := site.strays) && old(site).strays <= site.strays
      ensures Intended() == old(Intended())
      ensures s.Ok? ==> site.directory.Some? && intent == Authorized()
      ensures removal == null && s.Ok? ==> Empty()
      ensures calm ==> site == old(site) && (removal != null ==> removal.remote == old(removal.remote))
      ensures calm ==> (s.Ok? <==> old(Ready()) && old(Previewable()))
      ensures calm && old(Closable()) ==> s.Ok? && Removable()
      ensures calm && s.Ok? ==> (Removable() <==> old(Removable())) && (old(Removable()) ==> old(Closable()))
      ensures old(site).running == {} ==>
                site == old(site) && (Intended().None? ==> Rows() == old(Rows()) && Uploads() == old(Uploads()))
    {
      intent := {};
      if site.directory.None? {
        return Stop(NotOwned), intent;
      }
      if setup.passing {
        return Stop(Inadmissible), intent;
      }
      s, intent := LocalIntent(calm);
      if s.Stop? {
        return;
      }
      Elapse(calm);
      s := Preview(calm);
    }

    /** `closeout`. Whatever interrupts it, the order holds where it stops; a preview changes
        nothing; left alone it finishes exactly when it could start. */
    method Run(apply: bool, calm: bool) returns (s: Status)
      requires Valid()
      modifies this`site, removal
      ensures Valid() && Later(old(site), site)
      ensures old(Intended()).Some? ==> Intended() == old(Intended())
      ensures site.containers != old(site).containers ==> Empty()
      ensures !apply ==> site == old(site).(strays := site.strays) && Intended() == old(Intended())
      ensures s.Ok? && apply ==> site.Gone() && Empty()
      ensures calm && apply ==> (s.Ok? <==> old(Closable()))
      ensures old(site).running == {} && Intended().None? ==> Rows() == old(Rows()) && Uploads() == old(Uploads())
      // an error of the remote inventory leaves the local fixture as it was
      ensures calm && !old(site).receipt && !(old(Ready()) && old(Previewable())) ==>
                s.Stop? && site == old(site) && (removal != null ==> removal.remote == old(removal.remote))
      ensures removal == null && !old(site).receipt && old(site).strays != {} ==>
                s.Stop? && site == old(site).(strays := site.strays)
      // a preview is the verdict on what can be seen
      ensures calm && !apply && !old(site).receipt ==> (s.Ok? <==> old(Ready()) && old(Previewable()))
      // a removal that cannot start is seen only after the writers were stopped
      ensures calm && apply && !old(site).receipt && old(Ready()) && old(Previewable()) && s.Stop? ==>
                && !old(Removable()) && site == old(site).(saved := Some(old(Authorized())), running := {})
                && (removal != null ==> removal.remote == old(removal.remote))
    {
      if site.receipt {
        s := FinishDirectory(apply, calm);
        return;
      }
      var intent :- Inspect(calm);
      if !apply {
        return Ok;
      }
      s := Discard(intent, calm);
    }

    /** Any number of closeouts and previews, each cut off anywhere, and then one that is left
        alone: nothing of the run is left, remotely or here. */
    method Campaign(attempts: nat) returns (s: Status)
      requires Valid() && Closable() && site.running == {}
      modifies this`site, removal
      ensures Valid() && site.Gone() && Empty()
    {
      for i := 0 to attempts
        invariant Valid() && site.running == {}
        invariant (site.Gone() && Empty()) || Closable()
      {
        var apply := *;
        var _ := Run(apply, false);
      }
      s := Run(true, true);
    }
  }

  /** A key that does not belong under the prefix is refused by the removal and not by the preview:
      the error comes only after the authorization was saved and every writer stopped. */
  method RefuseLate(closeout: Closeout) returns (s: Status)
    requires closeout.Valid() && closeout.removal != null && closeout.Ready() && !closeout.site.receipt
    requires closeout.removal.journal.intent.None? && closeout.Previewable()
    requires Foreign(closeout.removal.c.prefix, closeout.removal.remote.rows, closeout.removal.remote.uploads)
    modifies closeout`site, closeout.removal
    ensures closeout.Valid() && s.Stop? && closeout.removal.remote == old(closeout.removal.remote)
    ensures closeout.site == old(closeout.site).(saved := Some(old(closeout.Authorized())), running := {})
  {
    ForeignIsRefused(closeout.removal.c, closeout.removal.remote.rows, closeout.removal.remote.uploads);
    s := closeout.Run(true, true);
  }
}
