# Verified model of the Lower Duck Pond closeout protocols

This project models the crash-safe, irreversible deletion protocols of the Lower Duck Pond
operations scripts, the complete tree export they rely on, and the self-contained checking
algorithms around them, and proves what each of them keeps over every interrupted run.

`dafny verify dfyconfig.toml` checks everything.

## How the protocols are modelled

A protocol that the scripts run step by step is a class. Its durable journal, the remote bucket or
the local disk, and the requests that are still on their way are its fields; the methods are the
scripts' own operations.

- **Interruptions.** A raised exception, a failed guard, an exhausted budget and a crash are the
  same thing: the method returns `Stop` and what it had written stays written. `Checkpoint` marks
  every place where that can happen. A remote request whose response is lost may have been
  applied, may be applied later, or may never have arrived.
- **`Valid()`** is the inductive invariant. Every method ensures it at every exit, so it holds in
  every state that any number of interrupted calls can leave. `History` and `Campaign` methods
  make such sequences of calls explicit.
- **`calm`** marks a call that nothing interrupts and during which nothing else happens: in
  particular no earlier request lands while it runs; those land between calls or in calls that are
  not calm. `calm ==> s.Ok?` and
  `calm ==> (s.Ok? <==> condition)` are the recoverability theorems: from every reachable state
  the call succeeds, or succeeds exactly under a condition that is visible before the call.
- **Ghost sets** `sent`, `attempted` and `repeated` record every effect ever put on the wire, and
  those put there twice.

File publication is atomic and write-once; digests are injective; `reserve` is an exclusive
creation that may leave a torn file. That is what the modelled code relies on.

| file | what it models |
|---|---|
| `Outcomes.dfy`, `Ledger.dfy`, `Bucket.dfy` | statuses, the single-use reservation ledger, a versioned bucket with delete markers |
| `ObjectKeys.dfy`, `BackupRemoval.dfy` | object keys, and the resumable removal of an owned backup prefix |
| `RemoteCloseout.dfy` | the same removal behind the ledger, in explicitly continued batches |
| `Manifest.dfy`, `TreeExport.dfy`, `ExportRun.dfy`, `ExportBound.dfy` | complete tree export: manifest, blobs, sparse writer, verification, and a tree whose manifest exceeds its bound |
| `TreeDisposal.dfy`, `LocalDisposal.dfy` | disposal of the exported tree, of containers and of the image |
| `Custody.dfy`, `CustodyRace.dfy`, `ArchiveRetirement.dfy` | the two single-DELETE archive transactions, and custody attempts that race |
| `Closeout.dfy` | the whole debugging closeout, composed with `BackupRemoval` |
| `EdgePlan.dfy`, `EdgeTransitions.dfy`, `EdgeMeaning.dfy`, `EdgeFindings.dfy` | the public-edge part of the OpenTofu plan policy, what accepted plans say, and plans it accepts unexpectedly |
| `ExceptionChain.dfy`, `Pagination.dfy`, `TokenPolicy.dfy` | bounded breadth-first listing, pagination, token policies |
| `JsonText.dfy`, `JsonReader.dfy`, `Frames.dfy`, `FrameSteps.dfy` | one-line JSON text and a reader for it, newline frames, and both ends of a pipe byte by byte |

## Findings

Where the code does something else than its documentation or a first reading promises, the model
follows the code.

- The tree export accepts several names of one symbolic link, because only files are tested for
  other names. Removing one name changes the link count of the others, which the disposal then
  takes for a changed entry: it stops with nothing unresolved, after containers and image are gone,
  and no later disposal or observation gets past it. `TwoNamesAreExported` and `DisposeShared` show
  it; `RemoveUnsubmitted` and `Execute` have the exact condition.
- The export creates its destination before it can see that the manifest exceeds 32 MiB, which a
  tree within all limits of the scan can do: 9000 symbolic links below 15 directories with long
  names, without a byte of content (`TreeIsScannable`, `TreeIsOversized`, `NineThousandLinks`). The
  destination is then consumed for good (`PreserveOversized`); `Preserve` has the exact condition.
- An unrequested plan can change web ingress: `_edge_changes` counts a firewall update only when
  `inbound_rule` is the *only* changed field. `docs/operations/infrastructure.md` says that an
  ordinary `none` plan rejects edge mutations. `UnrequestedIngressChange` gives the exact
  condition, `UnrequestedPlanOpensTheWeb` a plan that the public-edge checks accept beside any
  resources it leaves alone; none of the other checks looks at ingress changes outside a rebuild
  drill.
- An enforced-to-direct jump is accepted when the firewall is left as it is; the same document says
  that the plan policy rejects it. `DirectJump` gives the exact condition,
  `EnforcedToDirectIsAccepted` an accepted plan that starts in the enforced phase, with the whole
  content of its policy resources; `RollbackIsAJump` applies the condition to it.
- The starting ingress of an `enforced` transition may also be a strict superset of the reviewed
  networks; the document says strict subset only. `EnforcedStart` gives the exact condition on
  plans, `EnforcedFromWiderSources` an accepted plan.
- The custody registry accepts at most eight exclusions but does not look for room before it
  publishes: the ninth publication consumes its attempt and leaves the registry unreadable for
  every fixture, for good. `NinthAttempt` reaches that state, `UnreadableForGood` says that every
  later attempt stops, and `Execute` has the exact condition.
- The custody registry is no compare-and-swap. Two DELETEs for one fixture need equal notes, of one
  plan, one authorization and one instant, and a listing that does not yet show the second of them
  (`TwoDeletesNeedALag`); with both, two DELETEs are sent (`EqualNotesDeleteTwice`).
- The preview of a debugging closeout counts what lies under the prefix but does not look at its
  keys. A key outside the owner marker and the Restic repository is refused only by the removal
  itself, after the local authorization was saved and every container stopped, although the source
  says that remote inventory errors leave the local fixture available (`RefuseLate`; `Run` says
  which errors come before the first effect and which after it).
- A remote continuation whose batch was reserved and then interrupted before its first DELETE finds
  the same remaining inventory under the same, already consumed batch name, and can never be
  continued (`Strand`, `StrandedForGood`).

## Model

| member | source | states |
|---|---|---|
| `Ledger.Reserve` | scripts/m3_11_frozen_retirement.py:46-64 | A name is consumed by its first attempt, complete or torn, and never given back; an uninterrupted first attempt succeeds. |
| `Ledger.Submitted` | scripts/m3_11_frozen_stage.py:136-143 | True for an exact submission, false for none, and a stop for a torn one, each exactly then. |
| `Bucket.WeightShrinks` | scripts/m3_11_backup_removal.py:258-264 | The bounded total of current keys, versions and uploads never grows while rows are removed, although removing a delete marker can make a key current. |
| `Bucket.RemovalCanExpose` | scripts/m3_11_backup_removal.py:260-263 | A concrete stack on which removing a delete marker exposes an older version: current keys are not monotone. |
| `ObjectKeys.UnambiguousIs` | scripts/m3_11_backup_removal.py:57-62 | A key passes the segment test exactly when it is not a join of slash-free names of which one is empty or a dot segment. |
| `ObjectKeys.OpaqueTexts` | scripts/m3_11_backup_fixture.py:194-203 | Printable ASCII texts of up to 1024 characters are identities; empty, longer and control-character texts and `null` are not. |
| `BackupRemoval.StaysAdmitted` | scripts/m3_11_backup_removal.py:84-117 | An inventory that validates once validates again whatever part of it has been removed. |
| `BackupRemoval.TransmittedKeeps` | scripts/m3_11_backup_removal.py:221-228 | An authorized request keeps the invariant, whether it is applied, lost or late. |
| `BackupRemoval.ElapsedKeeps` | scripts/m3_11_backup_removal.py:253-257 | Requests that land late keep the invariant; under a fence the version and upload sets only shrink. |
| `BackupRemoval.OwnerOutlivesData` | scripts/m3_11_backup_removal.py:254-294 | In every reachable state, once the owner version is gone nothing at all is left, under a durable authorization and a sent request. |
| `BackupRemoval.Removal.Observed` | scripts/m3_11_backup_removal.py:119-123 | Two agreeing validated inventories; uninterrupted it succeeds exactly on an admissible bucket. |
| `BackupRemoval.Removal.Intend` | scripts/m3_11_backup_removal.py:192-219 | The saved intent under the same fence, or a first one that lists the bucket exactly and is within its byte bound; it never changes afterwards; uninterrupted and fenced it succeeds exactly when the removal is startable. |
| `BackupRemoval.Removal.DeleteData` | scripts/m3_11_backup_removal.py:280-288 | Everything listed except the owner is removed, and nothing else is requested. |
| `BackupRemoval.Removal.RetireOwner` | scripts/m3_11_backup_removal.py:289-294 | The owner marker is removed only behind its own authorization, after everything else. |
| `BackupRemoval.Removal.Run` | scripts/m3_11_backup_removal.py:244-302 | Every exit keeps the invariant; success leaves an empty prefix and the receipt; on a fenced prefix the "new bytes" and "reappeared" errors cannot occur, and an uninterrupted call succeeds exactly when its first intent validates and fits, or was saved under the same fence. |
| `BackupRemoval.Removal.IsRemoved` | scripts/m3_11_backup_removal.py:153-180 | True only with the original authorization and independently observed absence; uninterrupted and fenced, exactly when the owner is gone. |
| `BackupRemoval.Removal.Preflight` | scripts/m3_11_backup_removal.py:187-190 | Never fails on a reachable fenced state that nothing interrupts. |
| `BackupRemoval.Removal.Campaign` | scripts/m3_11_backup_removal.py:244-302 | After any number of runs cut off anywhere, one uninterrupted run succeeds, leaves the prefix empty and writes the receipt. |
| `BackupRemoval.FirstRun` | scripts/m3_11_backup_removal.py:57-117 | Told by keys alone: an uninterrupted first run empties a fenced prefix that holds the owner marker and clean keys under `restic/`, within 100000 entries and 32 MiB of intent; with any other key, an upload of the owner marker or more of either it stops before a single request. |
| `RemoteCloseout.ContinuationShrinks` | scripts/m3_11_frozen_remote.py:392-404 | A new continuation name means strictly fewer rows than at every earlier continuation. |
| `RemoteCloseout.PartitionIffResolved` | scripts/m3_11_frozen_remote.py:407-430 | In every reachable state, present and submitted rows partition the original ones exactly when no submitted row is left. |
| `RemoteCloseout.NativeRemote.Remaining` | scripts/m3_11_frozen_remote.py:407-430 | Accepts exactly the partitions of the original rows into present and exactly submitted ones. |
| `RemoteCloseout.NativeRemote.Execute` | scripts/m3_11_frozen_remote.py:269-310 | Runs once; uninterrupted it succeeds exactly on the approved, upload-free, admissible inventory whose intent fits. |
| `RemoteCloseout.NativeRemote.ContinueUnsubmitted` | scripts/m3_11_frozen_remote.py:350-405 | From every reachable state it completes exactly under `Resumable`, which is visible beforehand. |
| `RemoteCloseout.NativeRemote.Strand` | scripts/m3_11_frozen_remote.py:392-404 | An execution and a continuation that are each cut off at their reservation leave a stage with nothing submitted and the only batch name for it consumed. |
| `RemoteCloseout.NativeRemote.StrandedForGood` | scripts/m3_11_frozen_remote.py:392-404 | From such a stage every later execution and continuation stops, and the rows never change again. |
| `RemoteCloseout.NativeRemote.Reconcile` | scripts/m3_11_frozen_remote.py:432-458 | Sends nothing; reports absence only of an empty prefix, exactly after an exact submission. |
| `RemoteCloseout.NativeRemote.BatchBound` | scripts/m3_11_frozen_remote.py:392-404 | At most one more batch than there are original rows can ever be submitted. |
| `RemoteCloseout.NativeRemote.History` | scripts/m3_11_frozen_remote.py:48-56 | Over all executions and continuations no DELETE is sent twice. |
| `Manifest.BelowMember` | scripts/m3_11_frozen_residual.py:109-131 | The walk over the groups of a well-formed manifest meets exactly the rows below its start. |
| `Manifest.BelowDistinct` | scripts/m3_11_frozen_residual.py:109-131 | The walk meets no row twice. |
| `TreeDisposal.UnlinkedKeeps` | scripts/m3_11_frozen_residual.py:175-197 | Whatever becomes of a submitted unlink, an absent entry was submitted, a submitted directory has nothing below it, at most one entry is submitted yet present, and a present link has its exported metadata exactly while none of its other names is gone. |
| `TreeDisposal.ObservationIsComplete` | scripts/m3_11_frozen_residual.py:87-140 | Each exported entry and the root occur exactly once across absent, pending and unsubmitted. |
| `TreeDisposal.Residual.MarkAbsent` | scripts/m3_11_frozen_residual.py:52-58 | An absent entry and all below it are listed as absent exactly when all of them were submitted. |
| `TreeDisposal.Residual.Scan` | scripts/m3_11_frozen_residual.py:109-131 | Lists everything below a directory, and succeeds exactly when every absent row was exactly submitted and every present one has its exported metadata, up to what removals below it may change. |
| `TreeDisposal.Residual.Observe` | scripts/m3_11_frozen_residual.py:87-140 | The three lists are the classification of the whole walk; on every reachable state it succeeds exactly when no submission is torn and no link has lost another of its names. |
| `TreeDisposal.Residual.Unlink` | scripts/m3_11_frozen_stage.py:129-135 | One reservation before one unlink: success removes exactly that entry and leaves nothing submitted behind. |
| `TreeDisposal.Residual.Remove` | scripts/m3_11_frozen_residual.py:162-199 | Removes exactly what lies below the directory, children before parents; uninterrupted it stops only at a link that has lost another of its names. |
| `TreeDisposal.Residual.RemoveUnsubmitted` | scripts/m3_11_frozen_residual.py:142-212 | From every reachable state it succeeds exactly when nothing submitted is still present and no present link has another exported name, and then nothing is left; once a link has lost a name, no call removes anything. |
| `TreeDisposal.SparedJoin` | scripts/m3_11_frozen_residual.py:188-197 | Removals that each need all other names of an entry to be present do so together as well: of two names of one inode, at most one is removed. |
| `TreeDisposal.Residual.Stuck` | scripts/m3_11_frozen_residual.py:142-147 | Once a link has lost one of its names, any number of disposals, interrupted or not, leaves disk and ledger as they are. |
| `TreeDisposal.Residual.History` | scripts/m3_11_frozen_residual.py:142-212 | Over all interrupted disposals no unlink is attempted twice. |
| `LocalDisposal.NativeLocal.AtMostOneUnresolved` | scripts/m3_11_frozen_disposal.py:746-769 | Of all containers, the image and all tree entries, at most one is ever submitted but unresolved. |
| `LocalDisposal.NativeLocal.CompletionIsExact` | scripts/m3_11_frozen_disposal.py:716-726 | A recorded completion means that everything is absent by an exact original submission. |
| `LocalDisposal.NativeLocal.Progress` | scripts/m3_11_frozen_disposal.py:659-690 | Lists exactly the unresolved effects; uninterrupted it succeeds exactly when no reservation is torn and no exported link has lost another name. |
| `LocalDisposal.NativeLocal.Finish` | scripts/m3_11_frozen_disposal.py:692-777 | Containers, then the image, then the tree; from every reachable state it succeeds exactly when nothing submitted is unresolved and no present link has another name; otherwise, with nothing unresolved, it stops only after containers and image are gone. |
| `LocalDisposal.NativeLocal.Execute` | scripts/m3_11_frozen_disposal.py:557-566 | A stage that was entered is never replayed; a fresh one completes, when nothing interrupts it, exactly when no two exported entries are names of one inode. |
| `LocalDisposal.NativeLocal.ContinueUnsubmitted` | scripts/m3_11_frozen_disposal.py:779-799 | Completes exactly when nothing submitted is unresolved and no present link has another name. |
| `LocalDisposal.NativeLocal.Reconcile` | scripts/m3_11_frozen_disposal.py:727-745 | Changes nothing; reports exactly the unresolved effects, at most one, and the classification of the whole tree, which after a recorded completion is all absent. |
| `LocalDisposal.NativeLocal.History` | scripts/m3_11_frozen_disposal.py:692-777 | Over all executions and continuations no removal of any kind is attempted twice. |
| `Custody.Records` | scripts/m3_11_custody_registry.py:73-105 | Succeeds exactly on readable listings and returns their notes in order. |
| `Custody.Selected` | scripts/m3_11_custody_registry.py:107-108 | Finds a note exactly when the fixture is excluded. |
| `Custody.PublicationStaysReadable` | scripts/m3_11_custody_registry.py:110-149 | One publication leaves the registry readable exactly while there is room and the fixture is new. |
| `Custody.ExcessIsPermanent` | scripts/m3_11_custody_registry.py:93-97 | More than eight exclusions can never be read again, whatever is added. |
| `Custody.CustodyRetirement.ReadExclusion` | scripts/m3_11_custody_retirement.py:48-66 | Once any note for the fixture exists, every later attempt sees it or stops. |
| `Custody.CustodyRetirement.Execute` | scripts/m3_11_custody_retirement.py:48-130 | Sends a DELETE only for a fixture that never had one, even if the workspace was lost and a lost publication appears late; uninterrupted it succeeds exactly when the fixture is retirable, and then the bucket is empty; an attempt that lacks only room is consumed, posts its note and leaves the registry unreadable. |
| `Custody.CustodyRetirement.UnreadableForGood` | scripts/m3_11_custody_registry.py:93-97 | With more than eight exclusions any number of attempts on any fixtures deletes nothing. |
| `Custody.NinthAttempt` | scripts/m3_11_custody_retirement.py:85-104 | From a readable registry with eight exclusions, the ninth attempt stops with its root consumed, its note posted and its archive untouched. |
| `Custody.CustodyRetirement.Observe` | scripts/m3_11_custody_retirement.py:132-154 | Reads only; reports on excluded fixtures only, exactly when the registry is readable and the bucket holds at most the approved version. |
| `Custody.CustodyRetirement.History` | scripts/m3_11_custody_retirement.py:48-130 | Over all attempts on all fixtures no DELETE is sent twice for one fixture. |
| `CustodyRace.TwoNotesAreUnreadable` | scripts/m3_11_custody_registry.py:98-104 | Two notes for one fixture make the registry unreadable, identical or not. |
| `CustodyRace.StepKeeps` | scripts/m3_11_custody_retirement.py:48-104 | Every step of every attempt, every note that enters the listing late and every other item keeps: listed notes stay where they are, and of two confirmed attempts on a fixture one was confirmed by an equal note of another. |
| `CustodyRace.TwoDeletesNeedALag` | scripts/m3_11_custody_retirement.py:48-104 | Over every interleaving of any number of attempts from any number of workspaces, two DELETEs for one fixture carry equal notes, and one of them was not listed when its attempt was confirmed. |
| `CustodyRace.AtMostOneDelete` | scripts/m3_11_custody_retirement.py:48-104 | So at most one DELETE is sent for a fixture wherever notes differ or a listing shows what its reader has posted. |
| `CustodyRace.EqualNotesDeleteTwice` | scripts/m3_11_custody_registry.py:98-104 | An interleaving with equal notes and a late listing in which two DELETEs are sent for one fixture. |
| `ArchiveRetirement.FreshHasNoSubmission` | scripts/m3_11_frozen_retirement.py:213-235 | A journal that was not entered has no submission, absence or completion: the "already submitted" and "lacks its submission" branches cannot be reached. |
| `ArchiveRetirement.RetiredIsTrue` | scripts/m3_11_frozen_retirement.py:255-266 | A recorded retirement means that one DELETE was sent, the version is gone, and every earlier record is whole under the same approval. |
| `ArchiveRetirement.FrozenRetirement.SubmitOnce` | scripts/m3_11_frozen_retirement.py:236-249 | The reservation precedes the only DELETE; uninterrupted it succeeds exactly on the approved inventory. |
| `ArchiveRetirement.FrozenRetirement.Transmit` | scripts/m3_11_frozen_retirement.py:241-246 | The DELETE is sent only behind the whole reservation and of a bucket that was just seen to hold nothing but the approved version. |
| `ArchiveRetirement.FrozenRetirement.Execute` | scripts/m3_11_frozen_retirement.py:180-266 | An entered journal is never replayed; the journal is closed under prefixes at every exit; uninterrupted it succeeds exactly when fresh, unfenced and on the exact inventory, and otherwise consumes nothing. |
| `ArchiveRetirement.FrozenRetirement.Reconcile` | scripts/m3_11_frozen_retirement.py:308-352 | Writes and deletes nothing, never reports a recorded retirement of a present version, and its "differs" errors cannot occur. |
| `ArchiveRetirement.FrozenRetirement.History` | scripts/m3_11_frozen_retirement.py:180-266 | Over all executions and observations under any plans and approvals for the run at most one DELETE is sent. |
| `TreeExport.ScanIsWellFormed` | scripts/m3_11_frozen_export.py:211-272 | Every manifest of a scan has distinct paths whose parents are scanned directories. |
| `TreeExport.ExportIsLossless` | scripts/m3_11_frozen_export.py:193-272 | The manifest and the blobs of any scanned tree rebuild exactly that tree. |
| `ExportRun.Chunks` | scripts/m3_11_frozen_export.py:82-93 | Bounded partial reads return the content, exactly when it has the promised size. |
| `ExportRun.Write` | scripts/m3_11_frozen_export.py:100-124 | Seeking over zero blocks and truncating at the end leaves exactly the concatenation of the blocks, for every block sequence of the promised size and no other. |
| `ExportRun.SafeMeans` | scripts/m3_11_frozen_export.py:220-252 | The scan admits a tree exactly when each of its rows has at most 64 parts, a joined path of at most 4096 bytes, a proper name of at most 255 bytes, one link if it is a file and a target of at most 4096 bytes if it is a symbolic link. |
| `ExportRun.Tree.Directory` | scripts/m3_11_frozen_export.py:211-229 | The entry bound holds at every exit, and the byte bound at every exit but the one that reports it; uninterrupted the scan succeeds exactly when the tree is within all bounds and no file has another name, with exactly its rows, bytes and blobs. |
| `ExportRun.VerifyBlobs` | scripts/m3_11_frozen_export.py:275-304 | Accepts exactly one matching blob for every file row and no other blob. |
| `ExportRun.VerifyPreserved` | scripts/m3_11_frozen_export.py:362-418 | Accepts exactly the acceptable evidence, manifest bytes included, and returns its manifest. |
| `ExportRun.ScanIsAcceptable` | scripts/m3_11_frozen_export.py:193-209 | The totals of a scan equal the tree's and its evidence is acceptable and rebuilds the tree. |
| `ExportRun.ScanIsListedOnce` | scripts/m3_11_frozen_residual.py:87-140 | For every scanned tree, an observation lists each entry and the root exactly once. |
| `ExportRun.ScanSharesLinks` | scripts/m3_11_frozen_export.py:245-271 | In a scanned manifest only symbolic links can share an inode. |
| `ExportRun.DisposeScanned` | scripts/m3_11_frozen_residual.py:142-212 | Disposal of a scanned tree after any interrupted attempts: nothing is unlinked twice and success means that nothing is left; a first uninterrupted disposal succeeds exactly when no two entries are names of one inode. |
| `ExportRun.TwoNamesAreExported` | scripts/m3_11_frozen_export.py:245-252 | A tree with two names of one symbolic link is within every bound of the export. |
| `ExportRun.DisposeShared` | scripts/m3_11_frozen_residual.py:68-71 | The disposal of any scanned tree with such names removes one of them and then stops for good, with nothing submitted that is unresolved. |
| `ExportRun.RowsDetermine` | scripts/m3_11_frozen_export.py:337-341 | Two trees with the same rows are the same tree, so that comparing scans compares trees. |
| `ExportRun.Preservation.Preserve` | scripts/m3_11_frozen_export.py:307-350 | Publishes once, completion last; however the source changes between the scans, what is published is the source as the last scan saw it, with exactly its blobs; uninterrupted it succeeds exactly on a tree whose scan and manifest are within their bounds; a manifest over its bound is reported only after the destination was created. |
| `ExportRun.Preservation.Verify` | scripts/m3_11_frozen_export.py:353-359 | Success means that the evidence is complete and the source is still the preserved tree. |
| `ExportRun.Preservation.Restore` | scripts/m3_11_frozen_export.py:362-418 | What was preserved verifies and rebuilds the tree it was taken from, exactly when it was published. |
| `ExportBound.TreeIsScannable` | scripts/m3_11_frozen_export.py:211-272 | A chain of directories with any number of links in the last one is within the name, path, depth, entry and byte bounds of the scan. |
| `ExportBound.TreeIsOversized` | scripts/m3_11_frozen_export.py:158-161 | Its manifest exceeds 32 MiB in every encoding that writes the paths, as soon as its paths alone do. |
| `ExportBound.NineThousandLinks` | scripts/m3_11_frozen_export.py:158-161 | 9000 links below 15 directories with names of 255 bytes do, with 9015 entries and no content. |
| `ExportBound.PreserveOversized` | scripts/m3_11_frozen_export.py:307-350 | Any number of attempts on that tree leaves a created destination without a manifest. |
| `Closeout.Closeout.LocalIntent` | scripts/m3_11_debug_closeout.py:234-277 | The saved authorization, or the containers as they are; uninterrupted it fails exactly when the image tag was replaced, or when nothing is saved and the image has two recorded identities, or none while it exists. |
| `Closeout.Closeout.StopContainers` | scripts/m3_11_debug_closeout.py:389-395 | Success means that no writer is left running, and nothing else of the run changes. |
| `Closeout.Closeout.RemoveContainers` | scripts/m3_11_debug_closeout.py:398-403 | Containers are removed only while the backup prefix is empty. |
| `Closeout.Closeout.FinishDirectory` | scripts/m3_11_debug_closeout.py:56-119 | Entries, then the directory, then the receipt; an uninterrupted call always finishes. |
| `Closeout.Closeout.Run` | scripts/m3_11_debug_closeout.py:417-489 | At every exit: containers go only after the backups, the image after the containers, the receipt after both, the directory behind the receipt; the fence stays the same across resumes; an unowned nonempty prefix, an inventory over its bound and every local objection stop it with nothing saved and no container stopped; a preview changes nothing and its verdict is exact; uninterrupted it finishes exactly when it could start. |
| `Closeout.RefuseLate` | scripts/m3_11_debug_closeout.py:451-475 | A key that does not belong under the prefix stops the closeout only after the authorization was saved and every container stopped. |
| `Closeout.Closeout.Campaign` | scripts/m3_11_debug_closeout.py:406-489 | After any number of closeouts and previews cut off anywhere, one uninterrupted closeout leaves nothing of the run, remotely or locally. |
| `EdgePlan.UnknownIsSomewhere` | scripts/assert_opentofu_plan.py:230-237 | Something is unknown exactly when some path through the value leads to the literal `true`. |
| `EdgePlan.UnchangedFieldsAgree` | scripts/assert_opentofu_plan.py:240-255 | A field outside the changed ones is known and keeps its value. |
| `EdgeTransitions.CheckRules` | scripts/assert_opentofu_plan.py:524-572 | The rule loop passes exactly one rule for each reviewed port, explicit SSH sources and one shared web policy of a known kind. |
| `EdgeTransitions.CheckDns` | scripts/assert_opentofu_plan.py:780-824 | The record loop reports no error exactly when every active record is good, and selects the declared mode. |
| `EdgeTransitions.CheckRulesets` | scripts/assert_opentofu_plan.py:966-990 | The ruleset loop reports no error exactly when every active ruleset has its reviewed kind, zone and single enabled rule, and each zone shows exactly the reviewed phases. |
| `EdgeTransitions.CheckEdge` | scripts/assert_opentofu_plan.py:882-990 | The resource check passes exactly the reviewed addresses with their reviewed contents, and no active policy resource under direct DNS. |
| `EdgeTransitions.EdgeChanges` | scripts/assert_opentofu_plan.py:993-1006 | Exactly the mutating edge resources and firewall updates of `inbound_rule` alone, in order. |
| `EdgeTransitions.CheckTransition` | scripts/assert_opentofu_plan.py:1034-1093 | The step-by-step check agrees with the declarative transition rule. |
| `EdgeTransitions.AssertEdge` | scripts/assert_opentofu_plan.py:1123-1129 | The public-edge part of the plan check accepts exactly what the declarative policy accepts. |
| `EdgeMeaning.AcceptedIngress` | scripts/assert_opentofu_plan.py:524-572 | An accepted plan has one firewall with one TCP rule for each of ports 22, 80 and 443: SSH from some sources and never the world, the web ports from the same sources, which are the world or the reviewed networks. |
| `EdgeMeaning.IngressSuffices` | scripts/assert_opentofu_plan.py:524-572 | The firewall check demands nothing else, and tells open from restricted ingress. |
| `EdgeMeaning.AcceptedRecords` | scripts/assert_opentofu_plan.py:780-824 | Every active record is an A record at an apex or wildcard with the management comment in its own zone, all proxied with automatic TTL or all direct with 300 seconds in the first zone. |
| `EdgeMeaning.AcceptedTargets` | scripts/assert_opentofu_plan.py:780-824 | Every active record points to the reserved address, planned or not known yet. |
| `EdgeMeaning.AcceptedNames` | scripts/assert_opentofu_plan.py:146-153 | The names of the active records are exactly the proxied or exactly the direct ones. |
| `EdgeMeaning.AcceptedPresence` | scripts/assert_opentofu_plan.py:902-990 | Each reviewed policy resource is active exactly behind proxied records. |
| `EdgeMeaning.AcceptedPulls` | scripts/assert_opentofu_plan.py:923-936 | Origin pulls are enabled in their own zones, and there is no hostname-level association. |
| `EdgeMeaning.AcceptedContents` | scripts/assert_opentofu_plan.py:827-990 | Under the production policy the zone settings are strict and every ruleset is a zone ruleset with the one enabled rule of its phase: hosts, action and exactly the reviewed parameters. |
| `EdgeTransitions.NeverDirectToEnforced` | scripts/assert_opentofu_plan.py:1046-1076 | Outside the initial foundation no accepted plan, whatever was requested, takes direct DNS to the enforced phase. |
| `EdgeTransitions.TransitionIsIsolated` | scripts/assert_opentofu_plan.py:1083-1093 | An accepted transition mutates only reviewed edge addresses, or the firewall's `inbound_rule` and nothing else of it. |
| `EdgeTransitions.DirectKeepsFirewall` | scripts/assert_opentofu_plan.py:1077-1093 | An accepted `direct` transition leaves every firewall as it is. |
| `EdgeTransitions.EnforcementPassesThroughProxied` | scripts/assert_opentofu_plan.py:1034-1093 | Over every run of accepted plans, each starting from what the apply of the last one made of its planned records, direct DNS becomes enforced only by way of an earlier plan that leaves the edge proxied with open ingress. |
| `EdgeTransitions.LinkKeepsFacts` | scripts/assert_opentofu_plan.py:780-824 | The values that select a DNS mode are known in the plan, so they are what the next plan starts from. |
| `EdgeTransitions.UnrequestedIngressChange` | scripts/assert_opentofu_plan.py:1002-1006 | An unrequested plan that changes ingress is accepted exactly when another firewall field changes with it. |
| `EdgeTransitions.DirectJump` | scripts/assert_opentofu_plan.py:1077-1081 | Of the accepted direct transitions from proxied DNS, exactly those that leave a restricted firewall behind are jumps from the enforced phase. |
| `EdgeTransitions.EnforcedStart` | scripts/assert_opentofu_plan.py:1046-1076 | An isolated plan that ends enforced and starts from a proxied edge is accepted exactly when its previous web sources are the world or comparable with the reviewed networks, supersets included. |
| `EdgeFindings.UnrequestedPlanOpensTheWeb` | scripts/assert_opentofu_plan.py:993-1006 | A plan, beside any resources it leaves alone, that is accepted without a requested transition and opens the web ports from the reviewed networks to the world. |
| `EdgeFindings.ContentsPass` | scripts/assert_opentofu_plan.py:827-990 | The contents of the policy resources in the plans below pass the content check, for every review of distinct phases. |
| `EdgeFindings.EnforcedToDirectIsAccepted` | scripts/assert_opentofu_plan.py:1077-1081 | An accepted direct plan, beside any resources it leaves alone, that deletes the reviewed policy resources and whose starting state is in the enforced phase. |
| `EdgeFindings.JumpHappens` | scripts/assert_opentofu_plan.py:1077-1081 | Every accepted jump from enforced to direct leaves a restricted firewall behind direct DNS. |
| `EdgeFindings.RollbackIsAJump` | scripts/assert_opentofu_plan.py:1077-1081 | The exact condition of such a jump holds of that plan. |
| `EdgeFindings.EnforcedFromWiderSources` | scripts/assert_opentofu_plan.py:567-570 | An accepted enforced plan with all reviewed policy resources whose previous web sources strictly contain the reviewed networks. |
| `EdgeFindings.ProductionOpens` | scripts/assert_opentofu_plan.py:139-194 | The unrequested opening is accepted under the production names, networks and policy contents. |
| `EdgeFindings.ProductionRollsBack` | scripts/assert_opentofu_plan.py:139-194 | So is the jump from enforced to direct, whose starting state passes the production content check. |
| `EdgeFindings.ProductionNarrows` | scripts/assert_opentofu_plan.py:139-194 | And so is the enforced plan from wider sources, which passes it on both sides. |
| `ExceptionChain.ClosedHoldsAll` | scripts/cloudflare_read_diagnostics.py:71-82 | A set closed under references that holds the root holds everything reachable. |
| `ExceptionChain.ListShaped` | scripts/cloudflare_read_diagnostics.py:58-82 | Listing a node and queueing its links keeps nodes distinct, anchored at earlier parents and in breadth-first order. |
| `ExceptionChain.Chain` | scripts/cloudflare_read_diagnostics.py:44-83 | Terminates on every graph; lists at most eight distinct reachable exceptions, each under an earlier parent of which it is one of the first eight members, the reason, the cause or the context, as its relation says, and siblings in that order; without truncation it lists exactly what is reachable and reports a repetition exactly when the links are not a tree. |
| `TokenPolicy.AddNames` | scripts/check_m3_7_production_edge.py:579-591 | Rejects only groups that are malformed or that no consistent naming covers. |
| `TokenPolicy.AddBindings` | scripts/check_m3_7_production_edge.py:594-598 | Binds exactly the policy's resources to each of its permissions, on top of what was bound. |
| `TokenPolicy.ComparisonIsExact` | scripts/check_m3_7_production_edge.py:599-606 | The comparison of the two dictionaries holds exactly when the union of granted pairs is the product of expected permissions and resources under the expected names. |
| `TokenPolicy.Validate` | scripts/check_m3_7_production_edge.py:552-606 | Accepts exactly the expected active token with a nonempty list of well-formed policies whose grants, however split, are the expected product. |
| `TokenPolicy.WellFormedMeans` | scripts/check_m3_7_production_edge.py:568-593 | A well-formed policy allows named groups with identifiers of 32 lower-case hexadecimal digits on resources that are all granted with `*`, at least one of each. |
| `TokenPolicy.GrantsAddUp` | scripts/check_m3_7_production_edge.py:565-598 | How grants are split over policies, and in which order, does not matter. |
| `Pagination.GetCollection` | scripts/check_m3_7_production_edge.py:225-285 | Succeeds exactly on a complete server, with the concatenation of all pages; the error after the loop cannot occur. |
| `Pagination.CollectedTell` | scripts/check_m3_7_production_edge.py:246-283 | What is collected, told by the fields of the responses: own page numbers, true counts, one pair of possible totals, and items that add up to them. |
| `Pagination.WrongPageIsRefused` | scripts/check_m3_7_production_edge.py:250-264 | A server that gives a page another number or a wrong count is never collected. |
| `Pagination.FaithfulServersAreCollected` | scripts/check_m3_7_production_edge.py:225-285 | An honest server of at most 5000 items is collected whole; a longer list never is. |
| `Pagination.EndingIsDistinct` | scripts/check_m3_7_production_edge.py:328-331 | A feed whose answers depend on the cursor alone and that ends never repeats a cursor. |
| `Pagination.BadAnswerIsRefused` | scripts/check_m3_7_production_edge.py:303-321 | A feed that answers with an empty cursor or another shape before its end is never collected. |
| `Pagination.GetCursorCollection` | scripts/check_m3_7_production_edge.py:287-332 | Pairwise distinct cursors, at most 100 requests, success with exactly what following the cursors gathers; for such feeds it succeeds exactly when simply following them would. |
| `JsonText.Dumps` | scripts/m3_11_frozen_frames.py:18-18 | Whatever a message holds, its text is printable ASCII on one line. |
| `JsonReader.ReadDumps` | scripts/m3_11_frozen_frames.py:18-18 | A reader after sections 2 to 7 of RFC 8259 reads back every value from the text that is written for it, whatever follows. |
| `JsonReader.Unique` | scripts/m3_11_frozen_frames.py:18-18 | JSON text is uniquely readable: values whose texts agree up to what follows them are equal. |
| `Frames.DecodeInverts` | scripts/m3_11_frozen_frames.py:52-56 | The line of a message is read as that message. |
| `Frames.Channel.WriteAll` | scripts/m3_11_frozen_frames.py:25-36 | Any pattern of partial writes leaves exactly a prefix of the frame, all of it on success. |
| `Frames.Channel.Send` | scripts/m3_11_frozen_frames.py:16-38 | One whole frame or no newline; a frame over the bound is not begun. |
| `Frames.Channel.ReadLine` | scripts/m3_11_frozen_frames.py:41-52 | Returns the first whole frame and consumes nothing past its newline; every frame that was sent whole is within the reader's bound. |
| `Frames.Channel.Frame` | scripts/m3_11_frozen_frames.py:41-57 | Returns the object that the next whole frame holds, and nothing else; uninterrupted it succeeds exactly when there is such a frame. |
| `Frames.Converse` | scripts/m3_11_frozen_frames.py:16-57 | Sends and reads that alternate as whole calls deliver exactly the messages that were sent, in order. |
| `FrameSteps.NextKeeps` | scripts/m3_11_frozen_frames.py:25-56 | Every single write of some bytes and read of one byte keeps: the received frames are the first that were sent, and what is on its way is the rest of what was begun. |
| `FrameSteps.ReceivedAreSent` | scripts/m3_11_frozen_frames.py:41-57 | Under every schedule of the two loops, and wherever the writer gives up, the received frames decode to the first of the messages, and the reader never meets its bound. |
| `FrameSteps.RunsEnd` | scripts/m3_11_frozen_frames.py:25-56 | No schedule goes on for ever. |
| `FrameSteps.EveryScheduleDelivers` | scripts/m3_11_frozen_frames.py:16-57 | A schedule that cannot go on, of a writer that did not give up, has delivered all messages up to the first that does not fit a frame. |

## Left out

- Cloudflare, GitHub, S3, Docker, SSH and OpenSSL transports: only their effects and lost responses are modelled.
- File modes, owners, inodes, symbolic-link checks and format patterns of other identifiers than backup keys and versions: each is one rejecting branch, covered by `Checkpoint`.
- Clocks, deadlines and budgets: a deadline is an interruption.
- Acknowledgement files of effects and archive or DNS absence checks between steps: nothing in the modelled code reads the first; the second are guards.
- Capturing and comparing evidence copies before a stage (`capture_copies`, `backups.capture`): the export itself is modelled, the capture of containers and backup bytes is not.
- The normal-teardown branch of `backup_removal` in scripts/m3_11_debug_closeout.py: it only delegates to `require_removed` of another journal.
- Creation, order and conditions of the fixture registry in scripts/qualification_fence.py: the committed exclusion is one fact in `ArchiveRetirement`.
- `_check_destructive_actions`, the Droplet, Spaces, project and rebuild-drill checks of scripts/assert_opentofu_plan.py: they can only reject more plans.
- The debug stage runner and the qualification entry, driver and report code: long conjunctions of field comparisons.
- BackupRemoval.Removal.Run: without a fence any writer may add anything; recoverability is stated for fenced prefixes, which is what the fencing proof promises.
- Closeout.Closeout.Campaign: stated for a run whose writers have stopped; while containers run they may push the inventory over its bound, which `Run` then reports.
- Custody.CustodyRetirement.Execute: foreign items may appear in the vault at any time but notes never disappear, as the registry's design assumes.
- ExportRun.Preservation.Preserve: the source tree may change between its scans but not during one, where the identity comparisons of the scan would stop it.
- TreeDisposal.Residual.Unlink: an unlink is applied at once or not at all, because it is a local system call.
- Frames.Channel.Frame: the reader covers ASCII texts, which is all that `send` writes; two members of an object with one name stay two.
- JsonText.Dumps: a floating-point number is represented by its own text; how `repr` computes that text is not modelled.
- RemoteCloseout.NativeRemote.Execute: does not count provider requests; a stage whose listings, captures and deletes exceed `maximum_provider_requests` always stops there, which the model sees as an interruption.
- CustodyRace.TwoDeletesNeedALag: its steps follow the order of `execute`, but are not formally tied to `Custody.CustodyRetirement.Execute`; the archive inventories between them are guards and left out.
