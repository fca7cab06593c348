# Homelabus, verified

A Dafny model of the parts of Homelabus where a mistake costs data or an identity, and proofs of what
those parts promise. Each module follows one file or one component of the repository.

| part | modules |
|---|---|
| services held stopped by copies and restores | `Holds`, `HoldProtocol`, `HoldSafety`, `HoldRuns`, `HoldTheorems`, `HoldWork`, `HoldWitness`, `HoldEffects`, `HoldCalls`, `HoldRefinement`, `HoldNodes` |
| the backup pass and what a restore takes of it | `Snapshots`, `Picking`, `SqliteOfPass`, `Repository`, `Listed`, `PassWorld`, `Pass`, `PassRestore` |
| a bucket as one archive | `Tarball`, `TarballRoundTrip`, `TarWriter`, `Bucket`, `BucketRestore` |
| CAA records: read, judged, advised | `CaaRecord`, `CaaJudge`, `CaaPin` |
| a certificate's end date | `Der`, `CivilTime`, `Certificate` |
| the emergency kit's fingerprint, secrets made once | `Fingerprint`, `Secrets` |
| the failure simulator, the inbox, the zone reader, the accent | `Outage`, `Issues`, `Zone`, `Palette` |
| shared | `Wrappers`, `Sequences`, `Ordering`, `Text`, `Bytes`, `Attentions` |

`dafny verify dfyconfig.toml` checks everything.

## How it is modelled

**Holds.** `HoldProtocol` is a transition system: Swarm's desired and running counts, the table of holds,
and any number of live copies, restores, daemon starts and reconciliations. A step is one call to the
orchestrator or one SQL statement, and a process may die between any two. Reconciliation is three of them:
it lists what Swarm is asked, reads that nothing holds a service listed off its count, and corrects the
service later, without looking again. `HoldSafety` is the
inductive invariant, one lemma a step. Runs are *disciplined* when nothing begins on a service that a
process of its own family has (copies and daemon starts are one family, restores the other), nor on one
that a process still recording its holds has: at most one copy and one restore at a time, and the check
and the holds it is for taken as one. `HoldWitness` holds the runs from rest that end badly: a broken
rule, an answer that failed. The calls themselves (`HoldCalls`) are methods of a class over the same
tables, with any call free to fail; `HoldRefinement` shows that what each leaves, whatever it answered, is
where a run of the protocol ends, so that what the steps keep, the calls keep.

**Pass.** `Pass.Pass` is a class over one `World`: the rows of the runs, the repositories, the recorded
ids, what was said. Archiving, stopping, staging and dumping succeed or fail freely, time goes by, and
strangers write into the repositories meanwhile. What an archive adds to a repository it adds to the
recorded ids in the same step, which is what a restore then looks into. A ghost flag records that something answered an error,
so that nothing may fail unasked, and another counts them, so that none goes unsaid. What looking into volumes finds is given by the `Plan`.

**Archives** are byte for byte: ustar blocks with their octal fields and checksum, pax records, padding,
the trailer and its count.

**Strings.** `CaaRecord` and `Zone` read characters; `Der`, `CivilTime`, `Tarball` and `Fingerprint` read
bytes.

## Where the code and its words disagree

- `Verdict::Pinned` is described as only the accounts named being let issue, the house's own among them
  (crates/hlb-api/src/domain.rs:608-617): the code asks only that no property without `accounturi` answers one
  of the account's own requests.
  `CaaJudge.StrangersUnderPinned` says exactly when an account no record names may issue all the same, at any
  authority; `CaaJudge.StrangerUnderPinned` is such a set, and so is one that lists a second authority
  (`CaaJudge.AnotherAuthorityUnderPinned`). Once the advice is followed, none may.
- `kept_methods` drops a `validationmethods` list that is empty: where only such lists let an account in,
  following the advice lets it take every challenge (`CaaPin.AdviceKeepsRestrictions`, and
  `CaaPin.EmptyListThenEveryChallenge` is such a set).
- `NotStopped::Failed` is described as every service having been started again
  (crates/hlb-backup-run/src/restore.rs:944-950). When noting the node fails, nothing was stopped, and the
  rows recorded are left; when `start` fails undoing the begin, counts or rows are. None of its own rows is
  left exactly when as many were released as it recorded (`HoldCalls.Cluster.StopForRestore`);
  `HoldWitness.HoldLeftByAFailedBegin` is a run that leaves one. And a retry over a dead restore starts what
  that one had left stopped (`HoldEffects.UndoneLeavesCountsIff`, `HoldCalls.WentBackLeavesCountsIff`).
- `start` releases a service it could not start, which is then left to reconciliation
  (crates/hlb-backup-run/src/restore.rs:1032-1033), and that acts only where it is let apply: released below
  its count, a service has nothing else that says what to give back. The release is the one step that loses it
  (`HoldTheorems.LostWhenReleasedDown`), and it takes a scale-up that failed, or holds that could not be read
  back on a retry (`HoldTheorems.NoLostReplicas`, `HoldEffects.StartBringsBackIff`);
  `HoldWitness.LostByAFailedScaleUp` and `HoldWitness.LostUnread` are such runs.
- A hold is meant to keep reconciliation away from a service until it is released
  (crates/hlb-backup-run/src/restore.rs:898-901): a correction noted before the row was written is made all the
  same, on the volume being restored (`HoldWitness.LateCorrection`). Once the row is written others may move
  the service's count if and only if it is below its own and such a correction is pending
  (`HoldTheorems.CanBeMovedIff`).
- The count to give back is read before the hold is taken (crates/hlb-backup-run/src/restore.rs:882-892):
  reconciliation coming in between on a service no hold lies on starts it under the restore
  (`HoldWork.WorkIsOnStoppedServices`, `HoldWitness.ReadBeforeHeld`).
- `der_take` accepts any definite length of up to four bytes, minimal or not; `asn1_time` bounds neither the
  clock nor the day by its month.

## Model

| member | source | states |
|---|---|---|
| `HoldSafety.StepKeepsInvariant` | crates/hlb-backup-run/src/restore.rs:902-1060 | every step of every process, crash, daemon start and reconciliation — listing, looking, and correcting however late — keeps: a service is at 0 or at its own count; below it, it is held with that count unless some `start` left it down; what a process knows of its services holds, the node noted on their rows included; live processes own disjoint services |
| `HoldSafety.RunsKeepInv` | crates/hlb-backup-run/src/restore.rs:902-1060 | every disciplined run keeps that invariant |
| `HoldTheorems.NoLostReplicas` | crates/hlb-backup-run/src/restore.rs:1029-1060 | wherever a disciplined run from rest ends, a service is at 0 or at its own count; at 0 it is held with its own count, or nothing but reconciliation would start it again, which is to be lost; and it is lost only if, at some step of that run, a process starting it again left it down: its scale-up failed, or the holds were unread and its caller had counted none |
| `HoldTheorems.NothingIsLost` | crates/hlb-backup-run/src/restore.rs:1029-1060 | on a disciplined run from rest where `start` always reads the holds and its scale-ups work, whoever dies and whatever else fails, no service is ever lost |
| `HoldTheorems.LostWhenReleasedDown` | crates/hlb-backup-run/src/restore.rs:1032-1060 | in any state a disciplined run reaches, a step of anyone makes a service lost if and only if it is the release of that service while it is below its count |
| `HoldTheorems.StartGivesBack` | crates/hlb-backup-run/src/restore.rs:1040-1050 | with the holds read, a scale-up that works gives a service that is not lost its own count, whatever its caller read, a dead process's 0 included |
| `HoldTheorems.OnlyCorrectionsReachIt` | crates/hlb-backup-run/src/restore.rs:958-1027 | until a restore or copy acts again, over any disciplined continuation, no copy's end, daemon start or reconciliation moves its services' rows, and their counts end as they were or, exactly if a correction of the service was made, at its own; from its row on, none is made that was not pending then |
| `HoldTheorems.CanBeMovedIff` | crates/hlb-engine/src/reconcile.rs:905-940 | its row recorded, others can move a service's count before its process acts again if and only if it is below its own count and a correction of it is pending |
| `HoldTheorems.NoneBeginsUnderAnother` | crates/hlb-backup-run/src/restore.rs:976-988 | a restore never begins on a service a live copy has, nor a copy on a live restore's |
| `HoldNodes.RowsSayWhere` | crates/hlb-backup-run/src/restore.rs:990-1000 | on any disciplined run from rest, a restore that is stopping its services, waiting for them or writing has the node of the volume on the row of every one |
| `HoldNodes.DeadRestoreSaysWhere` | crates/hlb-backup-run/src/restore.rs:463-475 | and when it dies there, the rows still say that node to the next attempt, whoever holds the services again, until a row is released or noted again |
| `HoldWork.WorkIsOnStoppedServices` | crates/hlb-backup-run/src/restore.rs:913-936 | from a check on, over any disciplined continuation, a service is at 0 with no task while its restore writes or its copy reads if and only if no correction of it came since its process went past it, and it had been counted running, or was at 0 at the check and not corrected before either; held at the check with none pending, as a dead process leaves it, it is never corrected |
| `HoldWitness.DaemonStartUnderALiveCopy` | crates/hlb-backup-run/src/restore.rs:1006-1027 | a run from rest where a daemon starts beside a live copy, and the copy's end then starts the service under a live restore: the rule is needed |
| `HoldWitness.LateCorrection` | crates/hlb-engine/src/reconcile.rs:752-803 | a disciplined run from rest, every call doing what it is asked, where a service is listed under a copy, found unheld after it, held and stopped by a restore, and corrected under that restore |
| `HoldWitness.ReadBeforeHeld` | crates/hlb-backup-run/src/restore.rs:882-892 | a disciplined run from rest where a service left unheld is counted at 0, reconciliation starts it, and the restore works on it running |
| `HoldWitness.LostByAFailedScaleUp` | crates/hlb-backup-run/src/restore.rs:1048-1059 | a disciplined run from rest that ends with a copy over, its service at 0, no hold and nobody at work |
| `HoldWitness.LostUnread` | crates/hlb-backup-run/src/restore.rs:1040-1059 | and one where a restore dies, its retry cannot read the holds back, and the service stays at 0 with no hold and nobody at work |
| `HoldWitness.HoldLeftByAFailedBegin` | crates/hlb-backup-run/src/restore.rs:1000-1005 | and one where a begin fails and cannot release: its service runs, held, with nobody at work |
| `HoldEffects.UndoneIsStart` | crates/hlb-backup-run/src/restore.rs:1000-1005 | a begin that failed after stopping any number of services and was undone leaves the counts that `start` would have given had nothing begun |
| `HoldEffects.UndoneLeavesCountsIff` | crates/hlb-backup-run/src/restore.rs:1000-1005 | and leaves every count as it was if and only if no service stood below what its hold or its caller would give back |
| `HoldEffects.HeldGivesBackTheSame` | crates/hlb-state/src/lib.rs:1134-1156 | holding again, however far it went, changes nothing of what would be given back: the larger count stays |
| `HoldEffects.HeldSaysTheSameNode` | crates/hlb-state/src/lib.rs:1134-1156 | and changes no node a row says; a row that is new says none |
| `HoldEffects.StartBringsBackIff` | crates/hlb-backup-run/src/restore.rs:1038-1054 | of a service at 0 or its own count whose hold says that count, `start` leaves it at its count if and only if it was there, or its scale-up works and either the holds could be read or its caller counted it running |
| `HoldCalls.Cluster.Stop` | crates/hlb-backup-run/src/restore.rs:902-937 | how many services were held and how many scaled, whatever the answer; all of both, and no task left, when it is `Ok`; an error only when something answered one or a task did not exit |
| `HoldCalls.Cluster.Start` | crates/hlb-backup-run/src/restore.rs:1034-1060 | the counts from the last service to the first, each the larger of the hold's and the caller's unless its scale-up failed; the holds released; `Ok` exactly when nothing failed |
| `HoldCalls.Cluster.StopForRestore` | crates/hlb-backup-run/src/restore.rs:969-1004 | refused with nothing moved when a copy holds a service; not noted, nothing moved and the rows recorded are left; failed, the counts and holds are those of stopping so far and `start` as far as it came, and none of its own rows is left exactly when as many were released; started again, no hold of its services; otherwise all held, noted, stopped; begun or failed, every row of its services that is there says the node of the volume to be written, or what it said before when none is |
| `HoldCalls.Cluster.StopForCopy` | crates/hlb-backup-run/src/lib.rs:527-572 | refused with nothing moved when a restore holds a service or one cannot be read; failed, the counts and holds whatever `start` could do, and when none of its own is left; or all held and stopped, with the counts read from Swarm |
| `HoldCalls.WentBackAt` | crates/hlb-backup-run/src/restore.rs:1000-1005 | service by service, what a failed begin leaves: the count given back, or 0 where it had got to, or as it was; held exactly if recorded or held before, and not released |
| `HoldCalls.WentBackLeavesCountsIff` | crates/hlb-backup-run/src/restore.rs:1000-1005 | whatever failed, a begin that failed leaves every count as it was if and only if each service scaled up again stood at what it was given and each left down stood at 0 |
| `HoldCalls.Cluster.RestartInterruptedCopies` | crates/hlb-backup-run/src/restore.rs:1012-1027 | whatever it answers: each copy's service before the one that failed gets the count its hold says and its hold goes; of the one that failed at most one of the two; no other service or hold changes; `Ok` leaves no copy's hold that says a count |
| `HoldRefinement.BegunIsARun` | crates/hlb-backup-run/src/restore.rs:969-1004 | a copy or restore that begins — noted, held, stopped, waited for — ends where a run of the protocol does, and keeps its invariant |
| `HoldRefinement.UndoneIsARun` | crates/hlb-backup-run/src/restore.rs:902-1060 | so does every begin that fails, wherever it does and as far as `start` comes undoing it: what the contracts of the calls say is left is where a run ends, with the process gone |
| `HoldRefinement.NotNotedIsARun` | crates/hlb-backup-run/src/restore.rs:990-999 | so does one whose node could not be noted, cut short after any row or note |
| `HoldRefinement.StartIsARun` | crates/hlb-backup-run/src/restore.rs:1034-1060 | so does every outcome of `start`: the holds read or not, any scale-ups failed, the release cut short anywhere |
| `HoldRefinement.RestartedIsARun` | crates/hlb-backup-run/src/restore.rs:1012-1027 | so does a daemon start over the copies' holds it found, cut short at any of them or not, with the counts and holds its contract says |
| `Picking.PickWhere` | crates/hlb-backup-run/src/restore.rs:124-161 | the loop over the listing from its end computes the function the lemmas below are about |
| `Picking.UnnamedMeaning` | crates/hlb-backup-run/src/restore.rs:150-157 | none named: the newest candidate Homelabus took, and set aside exactly the newer candidates it did not, newest first, each with why |
| `Picking.WhyMeans` | crates/hlb-backup-run/src/restore.rs:131-134 | set aside as of the future exactly when dated more than an hour ahead of the clock, and as not taken otherwise, undated included |
| `Picking.ForeignersChangeNothing` | crates/hlb-backup-run/src/restore.rs:54-67 | the same snapshot as from Homelabus's own part of the repository alone |
| `Picking.NamedMeaning` | crates/hlb-backup-run/src/restore.rs:140-149 | one named: only the newest it begins is looked at; taken if Homelabus took it or it is named whole, else set aside alone |
| `Picking.NamedWhole` | crates/hlb-backup-run/src/restore.rs:140-149 | named by its full id, a snapshot is found wherever it lies and whoever took it |
| `SqliteOfPass.OfPass` | crates/hlb-backup-run/src/restore.rs:185-222 | one snapshot for each database the pass took in the volume, the earliest, the first listed of those as early; none without a pass |
| `Repository.LastCopyIsTaken` | crates/hlb-backup-run/src/restore.rs:69-90 | over any sequence of passes, prior copies, restores and strangers, the last recorded copy of the volume is what an unnamed restore takes |
| `Listed.DatesChangeNothing` | crates/hlb-backup-run/src/restore.rs:139-161 | listed by date, as restic does, and whatever dates strangers gave theirs, the same snapshot is taken as in the order of writing, Homelabus's own being dated as written |
| `Repository.RestoredTwice` | crates/hlb-backup-run/src/restore.rs:65-67 | a second restore takes the same copy, after the first's own and anything but another copy of the volume |
| `Repository.NamedIsTaken` | crates/hlb-backup-run/src/restore.rs:492-500 | naming the copy a restore took first gives that copy, whatever came since |
| `Repository.DatabasesOfTheSamePass` | crates/hlb-backup-run/src/restore.rs:174-222 | with a pass's copy of a volume go exactly the databases the same pass archived of that volume, never another pass's, volume's or writer's |
| `Repository.LastPassComesBack` | crates/hlb-backup-run/src/restore.rs:694-751 | the last pass that copied a volume is what comes back, its copy and all its databases there |
| `Repository.LastDumpIsTaken` | crates/hlb-backup-run/src/restore.rs:94-122 | the last recorded dump of the database by that engine, never a SQLite copy of the same tag nor the other engine's |
| `Repository.CopiesHaveOneDirectory` | crates/hlb-backup-run/src/restore.rs:868-881 | the files of a database Homelabus archived are in one directory inside its volume: they are never refused |
| `PassWorld.StaysDue` | crates/hlb-backup-run/src/lib.rs:1289-1300 | what is due stays due while no outcome of its app and kind is recorded |
| `PassWorld.DueMeans` | crates/hlb-backup/src/schedule.rs:42-50 | what never succeeded there is due, and what did, unforced, if and only if its last success is as old as the schedule or older |
| `PassWorld.DueAgainIff` | crates/hlb-state/src/lib.rs:1718-1752 | a success recorded, and none of it since: it is due again, unforced, if and only if the schedule's time has gone by from then |
| `PassWorld.RecordingTouchesItsOwn` | crates/hlb-backup-run/src/lib.rs:1339-1369 | an outcome recorded changes whether no other app, kind or destination is due; a failure, not even its own |
| `Pass.Pass.Record` | crates/hlb-backup-run/src/lib.rs:1339-1370 | one row and one event, the one the outcome asks for |
| `Pass.Pass.VolumesOf` | crates/hlb-backup-run/src/lib.rs:952-1057 | every destination the volumes were due on is tried and said, and what they reached is returned; that nothing takes them is said |
| `Pass.Pass.AllSqlite` | crates/hlb-backup-run/src/lib.rs:1107-1168 | every database of every volume is tried on each destination due as the phase began and on each its volumes reached: a second database is not skipped for the first; that nothing takes them, or that nobody could look for them, is said |
| `Pass.Pass.AllDumps` | crates/hlb-backup-run/src/lib.rs:1170-1257 | every database with a dumper and an administrator is tried where it was due, or its failed dump said; one without, or that nothing takes, is said not to be covered |
| `Pass.Pass.StateSnapshot` | crates/hlb-backup-run/src/lib.rs:1463-1507 | the state is tried on every destination, or its staging said to fail, or that nothing takes it, once; each copy made holds what was recorded before it |
| `Pass.Pass.Run` | crates/hlb-backup-run/src/lib.rs:925-1274 | all of it in one pass, as things were due when it began, whichever others fail; the tally is the events said; what is said done is, under the id said, an entry of the repository it was said to be in and one the state recorded, and every volume, bucket, database and dump of it is there; every entry it recorded is known to the state by its id, and the state learnt no other id; nothing fails unless something answered an error, and every error answered has a failure said for it; nothing is tried where, by what was recorded as the pass began, it was not due (but the state, and databases where their volumes went); nothing is tried that the pass was not asked for or that the destination does not take, and what nothing takes is said, and only that; whatever the apps do, the state is tried before them on every destination that takes it, or its failed staging or that nothing takes it is said first, each copy knowing what was recorded as the pass began; and it is copied again after the last thing done for the apps |
| `Pass.Completed` | crates/hlb-backup-run/src/lib.rs:945-1257 | the phases together: due at the start is tried, and the databases follow the volumes |
| `Pass.TriedAgain` | crates/hlb-backup-run/src/lib.rs:1289-1299 | from one pass to the next: volumes, buckets, databases and dumps that never succeeded on a destination taking them, or last did the schedule's time or more before the pass began, are tried there by it, or what kept them from any destination is said |
| `Pass.NotTriedSooner` | crates/hlb-backup-run/src/lib.rs:1289-1299 | and by an unforced pass over before that time, none of them is tried there, but databases where their volumes went |
| `Pass.StateIsLast` | crates/hlb-backup-run/src/lib.rs:1259-1271 | the last state copy knows every snapshot said to be taken for the apps |
| `PassRestore.StillKnowsThem` | crates/hlb-state/src/lib.rs:1793-1807 | a state that knew, as a pass began, exactly the app's own recorded entries of every repository by their ids knows exactly those as it ends, the new ones too, whoever wrote meanwhile and whichever archives failed |
| `PassRestore.RestoreTakesThePass` | crates/hlb-backup-run/src/restore.rs:69-90 | after a pass that said it copied an app's volumes to a destination, an unnamed restore there, by the ids the state then has, takes a copy of that pass, whatever strangers wrote meanwhile |
| `PassRestore.PassThenRestore` | crates/hlb-backup-run/src/restore.rs:703-751 | and, by the same ids, puts back databases of that pass alone, among them every one it said it archived there |
| `PassRestore.EveryDatabaseComesBack` | crates/hlb-backup-run/src/lib.rs:945-1168 | when none of the app's databases failed there, every database staged from the volume |
| `TarballRoundTrip.WholeIffUncut` | crates/hlb-backup/src/tarball.rs:1-12 | an archive cut anywhere is read whole if and only if its trailer's count came through, and is then the objects written, with keys, contents, headers, and times to their last eleven octal digits; cut before, what is read is some of the first objects, complete |
| `TarballRoundTrip.ObjectReads` | crates/hlb-backup/src/tarball.rs:183-215 | the header, pax records and header of an object say its entry to a reader, whatever follows, and no less of them does; of its time, the last eleven octal digits |
| `TarballRoundTrip.RecordReads` | crates/hlb-backup/src/tarball.rs:115-123 | a pax record, whose length counts itself, is read back with any value |
| `TarballRoundTrip.UstarReads` | crates/hlb-backup/src/tarball.rs:125-157 | a ustar block's octal fields are read back, a size past eleven digits as the most they hold, any time as its last eleven |
| `TarballRoundTrip.ChecksumReads` | crates/hlb-backup/src/tarball.rs:145-156 | the checksum field of any block says, in octal, the sum of the block with that field read as spaces |
| `TarballRoundTrip.OthersRead` | crates/hlb-backup/src/tarball.rs:125-148 | the magic and version stand where ustar has them, the mode reads 0644 and the owner 0 |
| `TarballRoundTrip.KindsRead` | crates/hlb-backup/src/tarball.rs:330-394 | a block of a kind no bucket archive holds is refused, and the older kind of a file reads as the newer |
| `Tarball.NextNeedsThemAll` | crates/hlb-backup/src/tarball.rs:318-396 | of any input, a reader that found an item refuses it with any of the bytes it read missing |
| `TarWriter.Writer.Write` | crates/hlb-backup/src/tarball.rs:219-228 | a chunk is taken exactly when it does not exceed what the object said it holds |
| `TarWriter.Writer.EndEntry` | crates/hlb-backup/src/tarball.rs:231-243 | an entry closes exactly when every byte of it was written |
| `TarWriter.WriteArchive` | crates/hlb-backup-run/src/bucket.rs:88-110 | an archive comes out if and only if every object came whole, as long as it said, and is not named as the trailer; it is then the archive of them all |
| `Bucket.Bucket.WriteBack` | crates/hlb-backup-run/src/bucket.rs:231-265 | nothing is deleted; success means the archive was whole, every object put, and the keys are theirs; failure means an answer was an error or the archive is not whole |
| `Bucket.Bucket.Restore` | crates/hlb-backup-run/src/bucket.rs:145-179 | done, the bucket is the archive's objects and nothing else; until the archive is known whole, nothing was deleted; cut short in deleting, every archived object is in place; done exactly when the archive is whole, restic gave it, and no answer was an error |
| `Bucket.RestoredIsWhatWasArchived` | crates/hlb-backup-run/src/bucket.rs:133-141 | whatever a bucket became, restoring the archive of what it was makes it that, key for key |
| `BucketRestore.Repository.Snapshot` | crates/hlb-backup-run/src/lib.rs:871-887 | only a bucket read whole is ever recorded; one object that failed and nothing is |
| `BucketRestore.Repository.RestoreInPlace` | crates/hlb-backup-run/src/restore.rs:556-595 | refused, the bucket is untouched; otherwise the archive of what it held is recorded first, and done, the bucket is the one asked for; interrupted, no key was deleted yet or every archived object is in place, and none was deleted unless the archive came whole |
| `BucketRestore.UndoneByTheCopy` | crates/hlb-backup-run/src/bucket.rs:145-150 | restoring the copy taken first gives back exactly what was there |
| `CaaRecord.Parse` | crates/hlb-api/src/domain.rs:668-705 | the parser's loops compute the reading the lemmas below are about |
| `CaaRecord.FlagsIff` | crates/hlb-api/src/domain.rs:668-671 | the flags that are read are the numbers up to 255 in decimal, with any leading zeros and a plus sign or none, each as itself, and nothing else |
| `CaaRecord.FlagsDecide` | crates/hlb-api/src/domain.rs:668-705 | for a number in decimal written any of these ways, any word as a tag and any value in quotes, the record is read if and only if it is at most 255, is critical if and only if it is 128 or more, and says that tag and value |
| `CaaRecord.BareIsRead` | crates/hlb-api/src/domain.rs:668-678 | a value not between two quotes reads as the same one in quotes |
| `CaaRecord.LastParameterCounts` | crates/hlb-api/src/domain.rs:679-698 | a parameter named in any case with spaces about is taken over those before it; one of another name changes nothing |
| `CaaRecord.NoParameter` | crates/hlb-api/src/domain.rs:679-683 | a field without an equals sign changes nothing |
| `Text.LowerLetters` | crates/hlb-api/src/domain.rs:671-678 | the capitals of a tag, an authority and a challenge are each read as their own small letter |
| `CaaRecord.ListedMeaning` | crates/hlb-api/src/domain.rs:687-695 | the challenges listed are what stands between the commas, trimmed, in small letters, blanks apart |
| `CaaRecord.RecordIsClean` | crates/hlb-api/src/domain.rs:668-705 | whatever is read of a record holds no separator and nothing to trim |
| `CaaRecord.WrittenCleanIsRead` | crates/hlb-api/src/domain.rs:805-829 | a record the advice writes for a clean issuer and URI is read back as what it says, methods included |
| `CaaRecord.WrittenNamesAnAccount` | crates/hlb-api/src/domain.rs:805-829 | whatever the issuer and URI hold, it is read back as naming some account |
| `CaaJudge.JudgeMeaning` | crates/hlb-api/src/domain.rs:709-761 | the verdict is the declarative reading of RFC 8659 and RFC 8657: refused iff an unknown critical tag stands or some request's governing set allows none of its challenges, else the worst over the requests |
| `CaaJudge.JudgeReadsASet` | crates/hlb-api/src/domain.rs:709-761 | reordering and repeating records changes no verdict |
| `CaaJudge.UnknownCriticalRefuses` | crates/hlb-api/src/domain.rs:716-721 | a record of an unknown tag with any flags from 128 to 255 makes the verdict a refusal, whatever stands beside it |
| `CaaJudge.UnknownElseIsIgnored` | crates/hlb-api/src/domain.rs:716-721 | with any other flags, a byte or not, it changes no verdict |
| `CaaJudge.RefusedIsNeverIssued` | crates/hlb-api/src/domain.rs:709-761 | refused, if and only if some request is one no authority following the RFCs may issue |
| `CaaJudge.AllowedIsIssuable` | crates/hlb-api/src/domain.rs:640-661 | a request is allowed exactly when some challenge of it may be issued for |
| `CaaJudge.StrangersUnderPinned` | crates/hlb-api/src/domain.rs:738-761 | under a pinned verdict an account no record names may issue at an authority, its own or any other, a plain name or a wildcard, exactly when a record of that authority under the tag that governs it names no account and allows some challenge |
| `CaaJudge.StrangerUnderPinned` | crates/hlb-api/src/domain.rs:738-761 | a set judged pinned under which any stranger may issue |
| `CaaJudge.AnotherAuthorityUnderPinned` | crates/hlb-api/src/domain.rs:608-617 | and one that pins the account at its authority, where any account of a second one may issue and no stranger of the first |
| `CaaPin.KeptMethods` | crates/hlb-api/src/domain.rs:766-780 | the loop collects what the properties letting the account in allow |
| `CaaPin.KeptMeaning` | crates/hlb-api/src/domain.rs:766-780 | the methods kept are exactly those some property letting the account in allows |
| `CaaPin.PinAdvice` | crates/hlb-api/src/domain.rs:795-839 | the loops that write and dedupe the records compute the advice the lemmas below are about |
| `CaaPin.AdvisedIff` | crates/hlb-api/src/domain.rs:795-807 | by the verdicts of the RFCs: advice is given if and only if a set governs, no account is refused and some account is not pinned; it says `NoAuthority` exactly when some verdict is `Anyone`, `NoAccount` otherwise, and the name of the set, or the zone when it has none |
| `CaaPin.AdvisedForEach` | crates/hlb-api/src/domain.rs:808-834 | its plain records are one for each account, in order, and its wildcard records one for each that takes wildcards, in order, if the set has an `issuewild`, and none if not, each saying whose |
| `CaaPin.AdvicePins` | crates/hlb-api/src/domain.rs:795-839 | published and read again, the advice judges every account of the reading pinned if a record can carry its issuer and URI, and refused if not |
| `CaaPin.AdviceLetsNobodyElse` | crates/hlb-api/src/domain.rs:795-839 | no account but those of the reading may then issue, of plain names, and of wildcards when no `issuewild` is left as it was |
| `CaaPin.AdviceKeepsRestrictions` | crates/hlb-api/src/domain.rs:766-780 | and each keeps the challenges it was allowed, and no other, but where only empty lists let it in |
| `CaaPin.EmptyListThenEveryChallenge` | crates/hlb-api/src/domain.rs:766-780 | of one record with an empty `validationmethods` and an account of no known challenge: nobody could issue, advice is given, and once it is followed the account may, by any challenge |
| `CaaPin.WildcardsLeftAreLeft` | crates/hlb-api/src/domain.rs:795-839 | where the advice speaks of no wildcard: by `issuewild` records left in place, a wildcard may be issued exactly as by them alone, never where it might not before, and exactly as before when all are left; with none left, exactly as a plain name |
| `Der.TakeInvertsEncode` | crates/hlb-agent/src/pki.rs:338-357 | an element in any definite length form, and anything after it, is read back |
| `Der.TakeSplitsItsInput` | crates/hlb-agent/src/pki.rs:338-357 | what is read, encoded again, is what was there: no byte is lost, and what is left is strictly shorter |
| `Der.TakeReadsExactlyEncodings` | crates/hlb-agent/src/pki.rs:338-357 | an input is read if and only if it begins with an encoded element |
| `CivilTime.ClosedFormIsTheCalendar` | crates/hlb-agent/src/pki.rs:381-388 | the closed form counts the days of the years and months, for every year before or after the epoch |
| `CivilTime.EpochIsMonotone` | crates/hlb-agent/src/pki.rs:381-389 | later on the calendar is later in seconds |
| `CivilTime.EpochIsInjective` | crates/hlb-agent/src/pki.rs:381-389 | no two valid dates have the same seconds |
| `CivilTime.GeneralizedTimeIsTheCalendar` | crates/hlb-agent/src/pki.rs:359-389 | a GeneralizedTime of decimal fields reads as the calendar counts it, and is refused exactly for a month or day no calendar has |
| `CivilTime.UtcTimeIsTheShortForm` | crates/hlb-agent/src/pki.rs:362-371 | the two forms agree on 1950 to 2049, whatever follows the year |
| `CivilTime.TimeRoundTrip` | crates/hlb-agent/src/pki.rs:359-389 | every date an authority may write is read back |
| `Certificate.NotAfter` | crates/hlb-agent/src/pki.rs:312-335 | the walk over the fields computes the reading the lemmas below are about, with the field that fails |
| `Certificate.NotAfterReadsItsField` | crates/hlb-agent/src/pki.rs:312-335 | of any certificate, with or without a version, whatever its other fields and however its lengths are written, it is the `notAfter` |
| `Certificate.NotAfterReadsTheDate` | crates/hlb-agent/src/pki.rs:312-389 | one written to end at a date is read to end at it |
| `Certificate.NotAfterReadsOnlyCertificates` | crates/hlb-agent/src/pki.rs:312-335 | bytes an end is found in are such a certificate |
| `Fingerprint.FingerprintOf` | crates/hlb-backup-run/src/kit.rs:284-318 | the hasher is fed exactly the bytes the lemmas below are about |
| `Fingerprint.ToldBack` | crates/hlb-backup-run/src/kit.rs:284-318 | everything a kit holds is decoded from those bytes, though Swarm's key is ended by no zero |
| `Fingerprint.DifferentKitsDiffer` | crates/hlb-backup-run/src/kit.rs:282-318 | two kits hash the same bytes if and only if they hold the same, an absent value being an empty one |
| `Fingerprint.OlderSheetsStayCurrent` | crates/hlb-backup-run/src/kit.rs:304-311 | with nothing to unlock and nothing encrypted, the bytes are those hashed before either existed |
| `Fingerprint.DestinationNamedAsATag` | crates/hlb-backup-run/src/kit.rs:296-318 | a destination named as a tag and a key hash the same bytes: the condition is needed |
| `Secrets.AllAnswerTheSame` | crates/hlb-backup-run/src/lib.rs:65-87 | in every interleaving of callers, deaths included, everyone answers the one value stored: the one found if there was one, and otherwise one that a caller made |
| `Secrets.OneMaker` | crates/hlb-backup-run/src/kit.rs:231-249 | of any calls for a key that was not there, exactly one answer says that it made it, once it is stored; of one that was there none does, and no call for the password |
| `Secrets.NeverChanged` | crates/hlb-state/src/lib.rs:3602-3619 | once stored, no step of anyone changes it |
| `Secrets.EveryCallEnds` | crates/hlb-backup-run/src/kit.rs:251-267 | every call answers after at most three reads and writes of its own, whatever the others do: the retry ends |
| `Outage.Simulate` | crates/hlb-api/src/outage.rs:196-264 | the nodes lost, the services lost and reduced in order with their counts, the quorum and the unknown domain are those of the declarative reading |
| `Outage.LostIffAllReplicasAreHit` | crates/hlb-api/src/outage.rs:48-56 | a service stops if and only if it ran and every node running it goes; nodes are lost or remain, never both |
| `Outage.QuorumIsAMajority` | crates/hlb-api/src/outage.rs:243-254 | the quorum holds if and only if strictly more than half of the managers are not lost, and is unknown exactly when no manager is |
| `Outage.AttentionMeans` | crates/hlb-api/src/outage.rs:88-99 | critical if and only if a service stops or the quorum is lost; fine if and only if no service runs on a node that is hit, the quorum is not lost and no node that is hit has an undeclared domain |
| `Outage.DomainIsWorseThanItsNodes` | crates/hlb-api/src/outage.rs:9-15 | losing a declared domain loses at least the nodes, services, quorum and calm of losing any one of its nodes |
| `Outage.SimulateAll` | crates/hlb-api/src/outage.rs:169-193 | one run per declared domain and one per node of none, the most services lost first |
| `Outage.WorstIsFirst` | crates/hlb-api/src/outage.rs:186-192 | of two runs the one that stops more services comes first, and of those that stop as many the one earlier by name |
| `Outage.EveryNodeIsLost` | crates/hlb-api/src/outage.rs:169-193 | every node is lost in the run of its domain, or in its own |
| `Outage.EveryNodeIsLostOnce` | crates/hlb-api/src/outage.rs:169-193 | and in no other, domains being told apart by name and nodes by identifier |
| `Issues.Group` | crates/hlb-api/src/issues.rs:237-269 | one line per cause found, its subjects each once in order, the worst first and equals as they were first said |
| `Issues.GroupedMeans` | crates/hlb-api/src/issues.rs:234-236 | a cause has a line exactly when something not fine was found of it, at its worst finding, naming each subject found and no other |
| `Issues.CriticalFirst` | crates/hlb-api/src/issues.rs:266-267 | every critical line comes before every notice, and lines that matter as much come as their causes were first said |
| `Issues.GroupedOneWay` | crates/hlb-api/src/issues.rs:234-269 | nothing else is such a grouping: the list does not reshuffle |
| `Issues.GroupedAgain` | crates/hlb-api/src/issues.rs:237-269 | what a list says, grouped again, is the list |
| `Issues.ApplyAsides` | crates/hlb-api/src/issues.rs:201-213 | only the moment a line is set aside until changes, in place, and by the first aside of its cause |
| `Issues.AsideIsNeverWorse` | crates/hlb-api/src/issues.rs:197-213 | a line is out of view until a moment exactly when that is an aside's of its cause, later than now, and the line is no worse than it was then: not critical where it was a notice, and covering no more |
| `Zone.ParseZone` | crates/hlb-api/src/mail_dns.rs:140-166 | the loop over the lines, one of which may be open, computes the reading the lemma below is about |
| `Zone.ZoneReadsBack` | crates/hlb-api/src/mail_dns.rs:138-183 | every record of a zone Stalwart writes comes back and nothing else, with its name, kind, value and line, however a text was cut, escaped and laid out, whatever lines that are no record stand between, and however lines end |
| `Zone.QuotedStrings` | crates/hlb-api/src/mail_dns.rs:187-209 | the loops over the characters compute the strings the lemmas are about |
| `Zone.OpenStringReads` | crates/hlb-api/src/mail_dns.rs:187-209 | a string never closed is read to the end, but for a last lone backslash |
| `Zone.TxtValueReads` | crates/hlb-api/src/mail_dns.rs:213-219 | a resolver's quoted form has the same value |
| `Zone.TxtValueByItsStart` | crates/hlb-api/src/mail_dns.rs:213-219 | data that begins with a quote, spaces apart, is read as if without them; any other stands as it is |
| `Palette.TextOnAnyAccent` | crates/hlb-api/src/palette.rs:248-261 | the text laid on any accent contrasts four to one at least, and is the better of the two, the dark one when neither is: no accent is refused for it |
| `Palette.Weights` | crates/hlb-api/src/palette.rs:363-366 | of full light, red gives 0.2126, green 0.7152 and blue 0.0722 |

## Left out

- A hold's end by the clock: copies and restores are taken to end within it, as the constant's comment says.
- An orchestrator call that took effect and answered an error: a failed scale changes no count.
- `HoldTheorems.NoLostReplicas`: on disciplined runs only, as the theorems after it; two copies of one
  service at a time, or a copy begun between another's check and its holds, are outside them.
- A count changed by hand, and what else reconciliation corrects: images, and tasks moved or pulled again,
  which start nothing of a service asked for none.
- `Repository.LastCopyIsTaken`: over the listing of the whole repository, where the code asks restic for the
  app's tag first; what other apps wrote is not in the app's taken ids either way. As the theorems beside it
  and those of `PassRestore`, it is of a listing in the order of writing: of one by date, on a clock that does
  not go back between an app's own copies, `Listed.DatesChangeNothing` says the same.
- `Repository.CopiesHaveOneDirectory`: paths are taken as normal, the parent being what stands before the last slash.
- `SqliteOfPass.OfPass`: gives a map by database; the order of the databases is left out.
- `Pass.Pass.Run`: takes the installation as unchanging, a state that answers, a clock that does not go back,
  destinations of distinct names, and where each volume lies as part of what is staged; services stopped for
  a copy are the hold protocol's. That what was archived to a destination holds the volume's files is restic's.
- `Pass.NotTriedSooner`: of a pass over before the time; what is due is asked as a pass goes, so one begun sooner
  and still at work then may try it.
- `HoldNodes.DeadRestoreSaysWhere`: up to the node on the row; finding the machine of that node is left out.
- An unreadable credential, a missing repository and a failing restic are one: an archive that answers an error.
- `PassRestore.PassThenRestore`: as the theorems beside it, assumes that the ids the state had as the pass
  began were right, that ids are hashes (one length, none twice in any repository, a new one never known
  before), and that the pass's own tag was never written before.
- The criticality order of the apps: the pass takes them in the order given.
- Prior-update copies (`PlacedProvider`) are entries of a repository, not modelled as a procedure.
- `Tarball.NextNeedsThemAll`: UTF-8 is not checked when reading pax records and names, nor white space beyond
  ASCII trimmed off a number; a record whose length ends at its space, which the original panics on, is refused.
- `TarballRoundTrip.WholeIffUncut`: for objects whose key is not the trailer's, whose header names hold no `=`
  and whose records fit eight gibibytes.
- The S3 listing in pages, and the duplex pipe between restic and the reader: an archive is the bytes that came.
- `CaaPin.AdvicePins`: on a reading whose governing set was judged for the accounts it lists; how the reading
  is taken from the internet is left out.
- PEM decoding and the check that a time is UTF-8: the model begins at the DER, and bytes beyond ASCII spoil a field.
- SHA-256 and the cut to sixteen digits: `Fingerprint` is about the bytes hashed.
- Encryption in the vault, and secrets rotated or deleted, in `Secrets`.
- `Issues.AsideIsNeverWorse`: for asides of distinct causes, as they are stored.
- `Zone.ZoneReadsBack`: for names and kinds that are words and bare data that ends with no parenthesis, as
  Stalwart writes them; which records a house needs (`needed`, `served`, `judge`) is left out.
- `Palette.TextOnAnyAccent`: over reals, the transfer curve being any that rises from 0 to 1 and gives the
  channel 0x1D an eightieth at most; rounding and the colour-deficiency matrices are left out.
- WHOIS, RDAP and certificate-transparency reading, user-facing sentences, placement, engine copies, the web
  interface and the command line: no property here is about them.
