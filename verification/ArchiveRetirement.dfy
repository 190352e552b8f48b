/** One exact archive submission after a fixture is retired for good
    (scripts/m3_11_frozen_retirement.py). */
module ArchiveRetirement {
  import opened Outcomes

  type Version = string

  /** The operator's approval of the plan, by its digest. */
  type Approval = string

  /** A plan for one exact version, and its approval. */
  datatype Binding = Binding(version: Version, approval: Approval)

  /** A journal file: none, only a `.partial` beside it, a final file that was cut short, or a
      whole record that binds one approved plan. */
  datatype File = Missing | Scratch | Torn | Whole(binding: Binding)

  datatype Journal = Journal(root: bool, plan: File, authorization: File, submission: File, absence: File,
                             retired: File)

  const NOTHING := Journal(false, Missing, Missing, Missing, Missing, Missing)

  /** `fenced` is the exclusion in the fixture registry; `bucket` the whole shared archive bucket;
      `waiting` an accepted DELETE that has not been applied; `sent` how often one was sent. */
  datatype World = World(journal: Journal, fenced: bool, bucket: set<Version>, waiting: bool, sent: nat)

  /** `later` was begun only after `earlier` was whole, for the same approved plan. */
  ghost predicate Follows(later: File, earlier: File) {
    && (!later.Missing? ==> earlier.Whole?)
    && (later.Whole? ==> later == earlier)
  }

  /** In every crash state: the journal is closed under prefixes, at most one DELETE was sent, it
      was sent behind a whole submission record, and absence is recorded only of an absent
      version. */
  ghost predicate Invariant(managed: bool, w: World) {
    var j := w.journal;
    && Follows(j.retired, j.absence)
    && Follows(j.absence, j.submission)
    && Follows(j.submission, j.authorization)
    && (!j.authorization.Missing? ==> j.plan.Whole?)
    && (!j.plan.Missing? ==> j.root)
    && (j.root && managed ==> w.fenced)
    && !j.absence.Torn? && !j.retired.Torn?
    && w.sent <= 1
    && (w.sent == 1 ==> j.submission.Whole?)
    && (w.waiting ==> w.sent == 1)
    && (!j.absence.Missing? ==> w.sent == 1 && j.submission.binding.version !in w.bucket)
  }

  /** Versions come and go, but the identity of the submitted one never comes back; an accepted
      DELETE may land. */
  ghost predicate Elapsed(before: World, after: World) {
    && after == before.(bucket := after.bucket, waiting := after.waiting)
    && (before.journal.submission.Whole? && before.journal.submission.binding.version in after.bucket ==>
          before.journal.submission.binding.version in before.bucket)
    && (after.waiting ==> before.waiting)
  }

  /** What an uninterrupted execution needs. */
  ghost predicate Retirable(managed: bool, w: World, version: Version) {
    !w.journal.root && (managed ==> !w.fenced) && w.bucket == {version}
  }

  /** A journal that was never entered has none of the files that the defensive branches of
      `_execute` look for: the "already submitted" and "lacks its submission" branches are
      unreachable on the only path that gets past the entry check. */
  lemma {:induction false} FreshHasNoSubmission(managed: bool, w: World)
    requires Invariant(managed, w) && !w.journal.root
    ensures w.journal == NOTHING && w.sent == 0 && !w.waiting
  {
  }

  /** A recorded retirement is true: one DELETE of the exact version was sent, and it is gone. */
  lemma {:induction false} RetiredIsTrue(managed: bool, w: World)
    requires Invariant(managed, w) && w.journal.retired.Whole?
    ensures w.sent == 1 && w.journal.retired.binding.version !in w.bucket
    ensures w.journal ==
              Journal(true, w.journal.plan, w.journal.retired, w.journal.retired, w.journal.retired, w.journal.retired)
  {
  }

  class FrozenRetirement {
    /** Whether the run is a managed one, with a fixture registry. */
    const managed: bool
    var w: World

    ghost predicate Valid()
      reads this
    {
      Invariant(managed, w)
    }

    constructor (managed: bool, fenced: bool, bucket: set<Version>)
      ensures Valid() && this.managed == managed && w == World(NOTHING, fenced, bucket, false, 0)
    {
      this.managed := managed;
      w := World(NOTHING, fenced, bucket, false, 0);
    }

    method Elapse(calm: bool)
      requires Valid()
      modifies this
      ensures Valid() && Elapsed(old(w), w)
      ensures calm ==> w == old(w)
    {
      if calm {
        return;
      }
      var bucket: set<Version>, landed: bool := *, *;
      if w.journal.submission.Whole? {
        var version := w.journal.submission.binding.version;
        if version !in w.bucket || (landed && w.waiting) {
          bucket := bucket - {version};
        }
      }
      w := w.(bucket := bucket, waiting := w.waiting && !landed);
    }

    /** `archives.observed`, after a guard. */
    method Observed(calm: bool) returns (s: Status, found: set<Version>)
      requires Valid()
      modifies this
      ensures Valid() && Elapsed(old(w), w)
      ensures calm ==> w == old(w) && s.Ok?
      ensures s.Ok? ==> found == w.bucket
      ensures s.Stop? ==> s.reason.Interrupted? || s.reason.Disagreement?
    {
      found := {};
      :- Checkpoint(calm);
      Elapse(calm);
      found := w.bucket;
      :- Checkpoint(calm);
      Elapse(calm);
      s := if found == w.bucket then Ok else Stop(Disagreement);
    }

    /** Permanent exclusion, then the journal directory with the plan and its approval. */
    method Enter(b: Binding, calm: bool) returns (s: Status)
      requires Valid() && !w.journal.root
      modifies this
      ensures Valid() && w == old(w).(journal := w.journal, fenced := w.fenced)
      ensures s.Ok? ==> w.journal == Journal(true, Whole(b), Whole(b), Missing, Missing, Missing)
      ensures calm ==> s.Ok?
    {
      FreshHasNoSubmission(managed, w);
      if managed {
        w := w.(fenced := true);
        :- Checkpoint(calm);
      }
      w := w.(journal := w.journal.(root := true));
      :- Checkpoint(calm);
      w := w.(journal := w.journal.(plan := Scratch));
      :- Checkpoint(calm);
      w := w.(journal := w.journal.(plan := Whole(b)));
      :- Checkpoint(calm);
      w := w.(journal := w.journal.(authorization := Scratch));
      :- Checkpoint(calm);
      w := w.(journal := w.journal.(authorization := Whole(b)));
      s := Checkpoint(calm);
    }

    /** The reservation consumes the only submission, whether or not the DELETE follows. */
    method SubmitOnce(b: Binding, calm: bool) returns (s: Status)
      requires Valid() && w.journal == Journal(true, Whole(b), Whole(b), Missing, Missing, Missing) && w.sent == 0
      modifies this
      ensures Valid()
      ensures w.journal == old(w).journal.(submission := w.journal.submission)
      ensures s.Ok? ==> w.sent == 1 && w.journal.submission == Whole(b)
      ensures calm ==> (s.Ok? <==> old(w).bucket == {b.version})
      ensures calm && s.Ok? ==> w.bucket == {}
    {
      var found :- Observed(calm);
      if found != {b.version} {
        return Stop(Disagreement);
      }
      w := w.(journal := w.journal.(submission := Torn));
      :- Checkpoint(calm);
      w := w.(journal := w.journal.(submission := Whole(b)));
      Elapse(calm);
      found :- Observed(calm);
      if found != {b.version} {
        return Stop(Disagreement);
      }
      s := Transmit(b, calm);
    }

    /** The only DELETE: behind its reservation, and of a bucket that was just seen to hold nothing
        but the approved version. */
    method Transmit(b: Binding, calm: bool) returns (s: Status)
      requires Valid() && w.journal == Journal(true, Whole(b), Whole(b), Whole(b), Missing, Missing)
      requires w.sent == 0 && w.bucket == {b.version}
      modifies this
      ensures Valid() && w.journal == old(w).journal
      ensures s.Ok? ==> w.sent == 1
      ensures calm ==> s.Ok? && w.bucket == {}
    {
      s := Ok;
      :- Checkpoint(calm);
      w := w.(sent := w.sent + 1);
      var applied, waiting := *, *;
      if applied || calm {
        w := w.(bucket := w.bucket - {b.version});
        s := Checkpoint(calm);
      } else {
        w := w.(waiting := waiting);
        s := Stop(Interrupted);
      }
    }

    /** Two empty inventories, then the records of absence and retirement. */
    method Conclude(b: Binding, calm: bool) returns (s: Status)
      requires Valid() && w.sent == 1
      requires w.journal == Journal(true, Whole(b), Whole(b), Whole(b), Missing, Missing)
      modifies this
      ensures Valid() && w.sent == 1
      ensures s.Ok? ==> w.journal.retired == Whole(b)
      ensures calm ==> (s.Ok? <==> old(w).bucket == {})
      ensures calm ==> w == old(w).(journal := w.journal)
    {
      for i := 0 to 2
        invariant Valid() && w.sent == 1 && w.journal == old(w).journal
        invariant i > 0 ==> b.version !in w.bucket
        invariant calm ==> w == old(w) && (i > 0 ==> w.bucket == {})
      {
        var found :- Observed(calm);
        if found != {} {
          return Stop(Incomplete);
        }
      }
      w := w.(journal := w.journal.(absence := Scratch));
      :- Checkpoint(calm);
      w := w.(journal := w.journal.(absence := Whole(b)));
      :- Checkpoint(calm);
      w := w.(journal := w.journal.(retired := Scratch));
      :- Checkpoint(calm);
      w := w.(journal := w.journal.(retired := Whole(b)));
      s := Checkpoint(calm);
    }

    /** `_execute`: an entered journal is never replayed, whatever plan entered it. */
    method Execute(b: Binding, calm: bool) returns (s: Status)
      requires Valid()
      modifies this
      ensures Valid() && old(w).sent <= w.sent
      ensures old(w).journal.root ==> s.Stop? && w == old(w)
      ensures s.Ok? ==> old(w).sent == 0 && w.sent == 1 && w.journal.retired == Whole(b)
      ensures calm ==> (s.Ok? <==> Retirable(managed, old(w), b.version))
      ensures calm && s.Stop? ==> w == old(w)
      ensures calm && s.Ok? ==> w.bucket == {} && (managed ==> w.fenced)
    {
      if w.journal.root {
        return Stop(Consumed);
      }
      FreshHasNoSubmission(managed, w);
      if managed && w.fenced {
        return Stop(Consumed);
      }
      var found :- Observed(calm);
      if found != {b.version} {
        return Stop(Disagreement);
      }
      :- Checkpoint(calm);
      :- Enter(b, calm);
      :- SubmitOnce(b, calm);
      s := Conclude(b, calm);
    }

    /** `_reconcile`: reads only, and reports a recorded retirement only of an absent version. */
    method Reconcile(b: Binding, calm: bool) returns (s: Status, present: bool, recorded: bool)
      requires Valid()
      modifies this
      ensures Valid() && Elapsed(old(w), w)
      ensures s.Ok? ==> w.journal.submission == Whole(b)
      ensures s.Ok? ==> (present <==> b.version in w.bucket) && w.bucket <= {b.version}
      ensures s.Ok? ==> (recorded <==> w.journal.retired == Whole(b)) && !(recorded && present)
      ensures s != Stop(Ambiguous)
      ensures calm ==> (s.Ok? <==>
                          && w.journal.submission == Whole(b)
                          && !w.journal.absence.Scratch? && !w.journal.retired.Scratch?
                          && w.bucket <= {b.version})
    {
      present, recorded := false, false;
      :- Checkpoint(calm);
      if w.journal.submission != Whole(b) || w.journal.absence.Scratch? || w.journal.retired.Scratch? {
        return Stop(Unexplained), false, false;
      }
      var found :- Observed(calm);
      if !(found <= {b.version}) {
        return Stop(Disagreement), false, false;
      }
      recorded := !w.journal.retired.Missing?;
      if recorded && (w.journal.absence != Whole(b) || w.journal.retired != Whole(b) || b.version in found) {
        return Stop(Ambiguous), false, recorded;
      }
      found :- Observed(calm);
      if !(found <= {b.version}) {
        return Stop(Disagreement), false, recorded;
      }
      if recorded && b.version in found {
        return Stop(Ambiguous), true, recorded;
      }
      return Ok, b.version in found, recorded;
    }

    /** Any number of attempts and observations under any plans and approvals, each cut off
        anywhere: they share the journal directory of the run, so at most one DELETE is sent. */
    method History(attempts: nat)
      requires Valid() && w.sent == 0
      modifies this
      ensures Valid() && w.sent <= 1
    {
      for i := 0 to attempts
        invariant Valid()
      {
        var b: Binding, execute: bool := *, *;
        if execute {
          var _ := Execute(b, false);
        } else {
          var _, _, _ := Reconcile(b, false);
        }
      }
    }
  }
}
