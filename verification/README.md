# Verified model of the agent's edit journal and the machinery around it

A Dafny model of the parts of the agent that must not get things wrong quietly:

- **The edit journal** (`core/checkpoint.py`, `core/checkpoint_store.py`, and the tools that feed it,
  `tools/files` and `tools/edit_file`). Every successful edit records the content it replaced. A checkpoint is a marker into that journal. Rolling back replays
  the pre-images newest first, trims the journal and drops later checkpoints. All of it is mirrored
  to disk as journal lines, a marker list and content-addressed blobs, pruned by age at start-up and
  restored by the next process. Files: `Journal`, `CheckpointStore`, `Mirror`, `Checkpoint`,
  `CheckpointInvariant`, `CheckpointRuns`, `CheckpointLimits`, `CheckpointReports`,
  `CheckpointWitnesses`, `AutoRollback`, `Revisions`.
- **Changesets** (`core/changeset.py`). What a round changed, read off a window of that journal,
  attributed to actors, kept within a byte budget, and merged over a session. Files: `Changeset`,
  `ChangesetLaws`, `ChangesetRows`, `Rollup`, `RollupLaws`, `RollupStatus`, `RollupAgreement`, `RoundLaws`,
  `RoundWitnesses`.
- **Diff chunking** (`cli/commit.py`). Files: `DiffChunks`, `DiffChunkLaws`, `DiffCuts`.
- **Layered configuration** (`config/loader.py`). What a cloned repository's config can do to the
  user's security settings and permission rules. Files: `SecurityLayers`, `SecurityEffects`,
  `SecurityNames`, `PermissionLayers`, `PermissionRules`.
- **The cross-process slot lock** (`core/gpu_lock.py`) as an interleaved state machine, and its scan
  loop running over that machine. Files: `SlotLock`, `SlotScan`.
- **The skill store** (`skills.py`): file format, versioned saves, archive, rollback, history. Files:
  `SkillFile`, `SkillFences`, `SkillStore`, `SkillRuns`, `SkillLaws`, `SkillWitnesses`.
- **Recovery probing of rejecting endpoints** (`config/model_probe.py`). File: `RecoveryProbe`.
- **The convergence monitor and the context budget** (`core/confidence.py`,
  `core/context_budget.py`). Files: `Confidence`, `ConfidenceLaws`, `ConfidenceReads`,
  `ContextBudget`.

`Options`, `Sorting` and `Text` hold what these share. `dafny verify dfyconfig.toml` checks the whole
project.

Code that changes state is a class whose methods are proved equal to a function of the old state;
the properties are then proved about that function over all inputs and all runs. Names: a sequence
number `seq` is `num` on an entry and `mark` on a checkpoint, `label` is `title`.

Such a function is in turn held to what it is for by laws that do not use it: field names, texts,
entries and figures as they stand in the source (`SecurityNames`, `PermissionRules`, `DiffCuts`,
`ChangesetRows`, `CheckpointReports`, `ConfidenceReads`, and laws named `...Reads` or `...Are`
elsewhere). Every lemma switches Dafny's automatic induction off; proofs follow the data by hand.

What the main results say:

- `CheckpointRuns.CheckpointHoldsIff`, with `CheckpointRestoresItsMoment` and
  `CheckpointRestoresWholeTree`: take a checkpoint, then let anything happen (edits, automatic
  checkpoints, other rollbacks, crashes, restarts with pruning, foreign writes). As long as the
  checkpoint lives, rolling back to it puts a file back exactly, at every moment of the run, if and
  only if no step is one that `Moves` lists: with nothing of the file journaled since the checkpoint, a
  creation with a stale pre-image, a refused undo, a write that is not journaled, or an edit while the
  checkpoint is ahead of the numbering; or a restart that prunes the one entry that matters. The clock
  plays no part until then.
- `CheckpointRuns.RollbacksCompose`: later checkpoint then earlier one ends in the same state as
  going straight to the earlier one: tree, journal, checkpoints and disk.
- `Revisions.ChainHoldsIff`: the journal is a chain of revisions per path, broken by exactly the steps
  `Breaks` lists: an edit of unknown hash or stale pre-image, a write that is not journaled, a refused
  undo, and a restart that prunes an entry out of the chain's middle.
- `Mirror.LoadReturnsJournal`, `PruneMirrors`, `PruneKeepsWindows`: nothing is lost on the way to
  disk and back, and pruning keeps exactly the blobs the kept entries need and, while the clock does
  not run back, changes no rollback of a surviving checkpoint.
- `DiffChunkLaws.GreedyStaysAhead`: the coalescing loop is optimal among all order-preserving
  groupings; `ChunksContent` and `ChunksAreTheDiffIff` say what the chunks contain.
- `RollupLaws.MergeIgnoresRoundOrder`, `RollupStatus.StatusIsOrderFreeIff`,
  `RollupAgreement.RollupsAgreeIff`, `RoundLaws.RoundRowIsExactIff`: merging conserves counts and
  ignores round order, the status excepted and that under an exact condition; the incremental rollup
  holds what the batch one holds; and exactly when a round's row is the diff from the content at
  window open.
- `SecurityEffects.ProjectLayersTightenIff`, `PermissionLayers.AllowedWithProjectIff`: what a cloned
  repository's layers can loosen, measured by what the settings permit in use.
- `SlotLock.HoldersFillSlots`, `FailedScan`; `RecoveryProbe.BackoffIsStreak`, `NextProbeWindow`;
  `SkillFile.SkillRoundTrip`, `SkillLaws.NumberedIff`, `ArchiveIsKept`;
  `Confidence.ConfidenceMonitor` and `ConfidenceLaws.InterventionsAreSpaced`.

Where the code does less than its comments promise, the model follows the code. Each item names a
lemma with an input that shows it, then one with the exact condition:

- Layers of a repository's config are meant only to tighten. The clamp takes an empty allow-list for
  the strictest one and a negative resource limit for the lowest (`config/loader.py:530-547`), while
  the code that applies them takes both for no restriction (`security/policy.py:26-28`,
  `tools/shell/main.py:197-198`, `security/runner.py:162`):
  `SecurityEffects.EmptyAllowListLifts`, `NegativeLimitLifts`; `ProjectLayersTightenIff`.
- The journal takes an edit's pre-image from the undo table (`tools/files/paths.py:197-204`), "None"
  meaning that the file was created. `write_file` notes what it finds only where a file exists
  (`tools/files/write.py:55-58`), and a rollback that removes a file leaves its note. Creating the
  file again then journals the stale text, and the next rollback writes that text to a file the
  checkpoint never had; a round that does so lists the file as modified:
  `CheckpointWitnesses.StalePreImage`, `RoundWitnesses.StaleRow`; `CheckpointRuns.PreImageIsRightIff`,
  `EditKeepsTargetIff`, `CheckpointHoldsIff`, `RoundLaws.RoundRowIsExactIff`.
- A Python file written over by text that does not parse is an error to the caller, yet it is written
  and not journaled (`tools/files/write.py:77-85`); `undo_file` is not journaled either
  (`tools/files/undo.py:28-29`). A rollback leaves both as they are unless an edit of that file is
  journaled after the checkpoint: `CheckpointWitnesses.BrokenFileStays`;
  `CheckpointRuns.StepKeepsTargetIff`.
- A restart recomputes the last sequence number from the journal alone
  (`core/checkpoint.py:102`), so "roll back, take a checkpoint, restart" leaves that checkpoint ahead
  of the numbering and later edits escape it. A clock that ran back can do the same through pruning:
  `CheckpointLimits.StrandedMarker`, `CheckpointWitnesses.EarlyStampStrands`;
  `CheckpointLimits.RestartStrandsNoMarkerIff`, and for the cost `MarkerAheadMissesEdits`.
- A checkpoint's number is described as the journal length when it was made
  (`core/checkpoint.py:48`, `:221`). It is a sequence number, and after any rollback that undoes
  something the two differ: `CheckpointWitnesses.RollbackLeavesGap`; `MarkerIsLengthIff`.
- A break in a path's revision chain is said to mean that somebody else wrote the file
  (`core/checkpoint.py:37-39`). A refused undo, an edit of unknown hash or stale pre-image, and pruning
  after the clock ran back break it too: `CheckpointWitnesses.RefusedUndoBreaksChain`,
  `PrunedChainBreaks`; `Revisions.StepLinkedIff`, `ChainHoldsIff`.
- An undo that is refused is trimmed from the journal all the same (`core/checkpoint.py:315-321`), so
  a second rollback no longer makes up for it: `CheckpointWitnesses.RefusedUndoIsLost`;
  `CheckpointRuns.CutBackTarget`.
- `rollback_last_auto` is described as doing nothing when there is nothing to undo, and the newest
  automatic checkpoint as having edits after it (`core/checkpoint.py:252`, `:263`). A rollback does
  not lower the numbering, so after one from any state neither holds: `AutoRollback.UndoingAgainStays`;
  `LatestAutoHasEditsIff`.
- The `restored`/`deleted` report is wrong when a file that existed at the checkpoint vanished before a
  later journaled edit and the tools had no note of it left:
  `CheckpointWitnesses.DeletedReportIsWrong`; `CheckpointLimits.DeletedReportIff`.
- `rollback_checkpoint` is a tool an agent calls inside a round (`tools/checkpoint/main.py:70-72`).
  When it goes back past the opening of the round, a row starts from what the checkpoint held and not
  from what the round found: `RoundWitnesses.DeepRollbackShowsInRow`;
  `RoundLaws.RoundRowIsExactIff`.
- A project's `ask` rule sits in front of a user's `deny` (`config/loader.py:490-493`), so a project
  layer cannot grant but can turn a refusal into a question: `PermissionLayers.DenyCanBecomeAsk`;
  `DenyKeptIff`.
- A skill name cut to 64 characters can end in a dash; normalizing it again drops the dash, so
  `rollback` then saves another skill: `SkillLaws.CutNameEndsInDash`; `RollbackHitsItsSkillIff`.
- A description may span lines, and a line `---` in it closes the front matter before the version.
  The third save then archives the second version over the first:
  `SkillWitnesses.FencedExample`, `FencedVersionIsLost`; `SkillFences.VersionReadsIff`, `SkillLaws.NumberedIff`.
- After a deletion skill numbering restarts at 1 and archived versions are written over:
  `SkillWitnesses.DeletedExample`, `DeletedVersionIsLost`; `SkillLaws.SaveOverwritesIff`.
- A probe cancelled before its first step never runs its `finally`, so its endpoint is never probed
  again: `RecoveryProbe.DroppedProbe`; `InFlightIff`, `DroppedIsNeverProbed`.
- The status of a merged row, unlike its counts, can depend on the order of rounds:
  `RollupLaws.StatusDependsOnOrder`; `RollupStatus.StatusIsOrderFreeIff`.

## Model

| member | source | states |
|---|---|---|
| `Journal.ReplayMeans` | core/checkpoint.py:285-316 | Reverse replay puts each touched path at what it held before its oldest entry in the window, and leaves every other and every refused path alone |
| `Journal.ReplayConcat` | core/checkpoint.py:285-316 | Replaying a window is replaying its later part, then its earlier part |
| `Journal.MarkerCuts` | core/checkpoint.py:285-321 | A marker cuts an ordered journal in two: kept prefix and undone suffix |
| `Journal.WindowSplits` | core/checkpoint.py:143-149 | The window after an early marker is the part up to a later one followed by the rest |
| `CheckpointStore.Store.WriteBlob` | core/checkpoint_store.py:88-94 | Stores the content under its digest; a blob already there is not rewritten |
| `CheckpointStore.Store.WriteRecord` | core/checkpoint_store.py:104-113 | The journal line of an entry, its pre-image stored as a blob |
| `CheckpointStore.Store.AppendEntry` | core/checkpoint_store.py:116-124 | Adds one line and its blob, nothing else |
| `CheckpointStore.Store.SaveCheckpoints` | core/checkpoint_store.py:127-133 | Replaces the marker list, nothing else |
| `CheckpointStore.Store.Load` | core/checkpoint_store.py:136-174 | The decodable entries whose blob is present, in sequence order, and the markers that have an id |
| `CheckpointStore.Store.RewriteJournal` | core/checkpoint_store.py:177-186 | Replaces all lines by those of the given journal, adding the blobs they need |
| `CheckpointStore.Store.DropOld` | core/checkpoint_store.py:201-215 | Drops entries past the age cap and the markers whose window they were, writing only when something was dropped |
| `CheckpointStore.Store.CollectBlobs` | core/checkpoint_store.py:217-242 | Deletes every blob no kept entry refers to and no other |
| `CheckpointStore.Store.Prune` | core/checkpoint_store.py:189-243 | The disk after dropping and collecting, with the counts of both |
| `Mirror.EntryRoundTrip` | core/checkpoint_store.py:104-165 | An entry written and read back is the same entry exactly when its pre-image hash is right and it has a time stamp that is not taken for missing |
| `Mirror.AppendMirrors` | core/checkpoint_store.py:116-124 | Appending keeps the disk a mirror of the journal |
| `Mirror.RewriteMirrors` | core/checkpoint_store.py:177-186 | Rewriting makes the disk a mirror of the given journal whatever it held |
| `Mirror.LoadReturnsJournal` | core/checkpoint_store.py:136-166 | Loading a mirror gives the in-memory journal itself, in order |
| `Mirror.LoadedAre` | core/checkpoint_store.py:136-166 | Off any disk, mirror or not: exactly the lines that decode and whose pre-image is still there, by sequence number |
| `Mirror.YoungerWindow` | core/checkpoint_store.py:204-205 | Dropping old entries leaves a marker's window alone exactly when none of it is past the cap |
| `Mirror.SurvivorsAre` | core/checkpoint_store.py:203-205 | An entry outlives a prune exactly when it is no older than so many days of 24 hours, or no age is set |
| `Mirror.SurvivingMarkersAre` | core/checkpoint_store.py:206-215 | A marker does exactly when nothing was dropped, or it has an id and reaches back no further than to just before the first entry left |
| `Mirror.PruneMirrors` | core/checkpoint_store.py:189-243 | The pruned disk mirrors the surviving entries and holds exactly the blobs they need |
| `Mirror.PruneWindow` | core/checkpoint_store.py:203-214 | Rolling back to a marker uses the same entries as before the prune exactly when none of them is past the cap |
| `Mirror.PruneKeepsWindows` | core/checkpoint_store.py:208-212 | With time stamps that do not decrease, every surviving marker keeps its whole window |
| `Mirror.CollectMirrors` | core/checkpoint_store.py:217-242 | Blob collection is invisible to a reader and leaves exactly the referenced blobs |
| `Mirror.ReferencedResolve` | core/checkpoint_store.py:150-221 | Every blob a journal needs is on its mirrored disk |
| `CheckpointSession.Session.constructor` | core/checkpoint.py:68-77 | A session starts with an empty journal and no checkpoints |
| `CheckpointSession.Session.ListCheckpoints` | core/checkpoint.py:268-269 | The checkpoints by marker, ties in the order they were made |
| `CheckpointSession.Session.SaveCheckpoints` | core/checkpoint.py:127-135 | Writes the listed checkpoints when persistence is on |
| `CheckpointSession.Session.CreateCheckpoint` | core/checkpoint.py:235-248 | A marker at the current sequence number under the next generated id, saved |
| `CheckpointSession.Session.MaybeAutoCheckpoint` | core/checkpoint.py:216-232 | Counts the edit and takes a checkpoint on every interval-th one |
| `CheckpointSession.Session.AppendToJournal` | core/checkpoint.py:200-203 | The entry in memory and, with persistence, on disk |
| `CheckpointSession.Session.JournalRecord` | core/checkpoint.py:175-204 | One numbered entry with its pre-image, then the automatic checkpoint check |
| `CheckpointSession.Session.WriteFile` | tools/files/write.py:54-92 | The file written, what was there noted, and, unless a Python file was written over by text that does not parse, one journal entry with the note as its pre-image |
| `CheckpointSession.Session.UndoFile` | tools/files/undo.py:20-32 | Writes back what was noted and forgets it, nothing journaled; a missing note or a refused write changes nothing |
| `CheckpointSession.Session.EditsSince` | core/checkpoint.py:257-259 | How many journaled edits a checkpoint would revert |
| `CheckpointSession.Session.UndoEdit` | core/checkpoint.py:290-316 | Undoes one edit, or reports a refusal and changes nothing |
| `CheckpointSession.Session.Revert` | core/checkpoint.py:285-316 | Undoes the window newest first and says which paths were rewritten, deleted and refused |
| `CheckpointSession.Session.RollbackTo` | core/checkpoint.py:278-341 | Whole new state and report of a rollback; an unknown id changes nothing |
| `CheckpointSession.Session.RollbackLastAuto` | core/checkpoint.py:251-265 | Rolls back to the newest automatic checkpoint with edits after it, if there is one |
| `CheckpointSession.Session.HighestSequence` | core/checkpoint.py:102 | The highest sequence number of the journal, 0 when empty |
| `CheckpointSession.Session.ReviveMarkers` | core/checkpoint.py:103-112 | The checkpoint table rebuilt from the loaded markers |
| `CheckpointSession.Session.Setup` | core/checkpoint.py:80-120 | The state a new process starts from: pruned disk, loaded journal, numbering and id counter taken up again |
| `CheckpointInvariant.NewIdIsFresh` | core/checkpoint.py:113-117 | A generated id never collides with a live or restored checkpoint |
| `CheckpointInvariant.NameNumber` | core/checkpoint.py:115-117 | The number in a generated id reads back |
| `CheckpointInvariant.CreatedMeans` | core/checkpoint.py:235-248 | A new checkpoint is appended under a fresh id with the current number, and everything else in memory stays |
| `CheckpointInvariant.CreatedReads` | core/checkpoint.py:235-246 | A checkpoint counts the distinct paths journaled so far and bears the title asked for, trimmed, or its id |
| `CheckpointInvariant.EditMakesCheckpoint` | core/checkpoint.py:216-232 | The edit that fills the interval makes an automatic checkpoint marked behind it; any other counts one up, and none does without an interval |
| `CheckpointInvariant.CreatedKeeps` | core/checkpoint.py:127-248 | The saved marker list then equals the listed checkpoints again |
| `CheckpointInvariant.RecordedMeans` | core/checkpoint.py:175-204 | Recording appends one entry with the next number and leaves the checkpoints alone |
| `CheckpointInvariant.RecordedKeeps` | core/checkpoint.py:175-204 | With a time stamp other than zero, recording keeps the disk a mirror of the journal |
| `CheckpointInvariant.CutBackKeeps` | core/checkpoint.py:318-327 | Trimming and rewriting after a rollback keeps the invariant |
| `CheckpointInvariant.RestartMeans` | core/checkpoint.py:80-120 | After a restart the journal is what survived pruning and the live checkpoints are the surviving markers |
| `CheckpointInvariant.RevivedReads` | core/checkpoint.py:103-112 | A marker read back keeps all but an empty title and a zero stamp |
| `CheckpointInvariant.CountingGoesOn` | core/checkpoint.py:88-117 | Set up again, a session counts on from the highest number in a generated id, with no edit pending |
| `CheckpointInvariant.NumberingGoesOn` | core/checkpoint.py:88-102 | It numbers on from the highest number in its journal; without persistence nothing is left |
| `CheckpointInvariant.RestartKeeps` | core/checkpoint.py:80-120 | A restart keeps the invariant |
| `CheckpointInvariant.StepKeepsCore` | core/checkpoint.py:80-327 | Every step keeps, whatever the clock says: ordered and hashed journal within the numbering, unique ids bounded by the counter; a restart keeps it when the disk is in order |
| `CheckpointInvariant.StepKeepsWellFormed` | core/checkpoint.py:80-327 | Every step with a time stamp other than zero keeps the disk equal to memory |
| `CheckpointInvariant.StepKeepsAging` | core/checkpoint.py:175-327 | Time stamps stay in order as long as no edit is stamped before an older one |
| `CheckpointRuns.RollbackMeans` | core/checkpoint.py:278-316 | A rollback puts each path at what the checkpoint's window says, and leaves refused paths alone |
| `CheckpointRuns.EditedMeans` | tools/files/paths.py:193-204 | An edit adds one entry whose pre-image is the note the tools hold of the path then; an automatic checkpoint touches neither tree nor journal |
| `CheckpointRuns.PreImageIsRightIff` | tools/files/write.py:55-58 | That pre-image is what is on disk exactly when the file exists or nothing is noted of it |
| `CheckpointRuns.EditKeepsTargetIff` | tools/files/paths.py:197-204 | An edit keeps what an earlier marker would restore at its path exactly when the path has an entry after the marker already or that pre-image is right |
| `CheckpointRuns.CutBackTarget` | core/checkpoint.py:315-321 | What an earlier checkpoint would restore at a path is kept by a rollback to a later one exactly unless the undo there was refused, nothing older is journaled, and the content differs |
| `CheckpointRuns.RestartKeepsTargetIff` | core/checkpoint.py:80-120 | A restart keeps what a checkpoint restores at a path exactly unless it prunes the oldest entry of the path after the marker, and what is then the oldest, or the file, says something else |
| `CheckpointRuns.StepKeepsTargetIff` | core/checkpoint.py:80-327 | What a surviving checkpoint restores at a path stays the same over a step exactly unless, with no entry of the path left after the marker, it is a creation with a stale pre-image, a refused undo, a write that is not journaled or an edit past a marker that is ahead, or it is such a restart |
| `CheckpointRuns.StepKeepsNoMarkerAhead` | core/checkpoint.py:318-327 | Only a restart can leave a marker beyond the numbering |
| `CheckpointRuns.RunKeepsTarget` | core/checkpoint.py:80-327 | Over every run without such a step a living checkpoint restores the same content |
| `CheckpointRuns.UndisturbedIsUnmoved` | core/checkpoint.py:80-327 | A run that leaves a path to the journal, and whose restarts prune nothing the checkpoint needs, holds no such step |
| `CheckpointRuns.CheckpointHoldsIff` | core/checkpoint.py:235-327 | At every moment of a run rolling back to a checkpoint would give a path exactly the content, or absence, it had when the checkpoint was taken, if and only if no step moves its target |
| `CheckpointRuns.CheckpointRestoresItsMoment` | core/checkpoint.py:235-327 | In particular at the end of a run without such steps; the clock plays no part in a run without a restart |
| `CheckpointRuns.CheckpointRestoresWholeTree` | core/checkpoint.py:235-327 | Where no step moves the target of any path, the whole tree comes back |
| `CheckpointRuns.EditsAreUndone` | core/checkpoint.py:235-327 | So it does after any run of edits, checkpoints and restarts that starts with notes of existing files only, where no restart prunes what the checkpoint needs |
| `CheckpointRuns.EditsDisturbNothing` | tools/files/write.py:54-92 | Such a run leaves every path to the journal |
| `CheckpointRuns.SteadyClockIsAdmissible` | core/checkpoint_store.py:201-215 | With a clock that does not run back no restart prunes what a surviving checkpoint needs |
| `CheckpointRuns.RunKeepsWellFormed` | core/checkpoint.py:80-327 | Every run with time stamps other than zero keeps the disk equal to memory, in whatever order the stamps are |
| `CheckpointRuns.RunLoadsItsJournal` | core/checkpoint.py:88-104 | At any point of such a run the disk reads back as the journal and checkpoints in memory |
| `CheckpointRuns.RollbacksCompose` | core/checkpoint.py:278-327 | Later checkpoint then earlier one equals straight to the earlier one: the whole state in memory, and the disk too if it was in order |
| `CheckpointRuns.RollbackIsIdempotent` | core/checkpoint.py:278-327 | Repeating a rollback changes nothing |
| `CheckpointLimits.MarkerAheadMissesEdits` | core/checkpoint.py:284-285 | An edit is undone by a checkpoint exactly when its marker is not beyond the numbering and the edit does not move its target |
| `CheckpointLimits.RestartStrandsNoMarkerIff` | core/checkpoint.py:102-102 | A restart leaves every marker within the numbering exactly when none is past the last edit that survives or pruning emptied the journal, whatever the clock did |
| `CheckpointLimits.ForwardClockStrandsNoMarkerIff` | core/checkpoint.py:102-102 | With a clock that does not run back: exactly when none was past the last journaled edit, or pruning emptied the journal |
| `CheckpointLimits.RollbackCheckpointRestartStrands` | core/checkpoint.py:101-102 | After a rollback that undoes something, a checkpoint and a restart, that marker is stranded, unless pruning empties the journal |
| `CheckpointLimits.StrandedMarker` | core/checkpoint.py:102 | The shortest such run, from an empty session |
| `CheckpointLimits.DeletedReportIff` | core/checkpoint.py:285-336 | "deleted" is true of a touched path exactly unless its undo is allowed, it existed at the checkpoint and a later edit is journaled as its creation, or its undo is refused, nothing is there and no edit is |
| `CheckpointLimits.ReportIsTrue` | core/checkpoint.py:331-338 | When nobody removed a path behind the journal, the report lists it once and rightly |
| `CheckpointLimits.ReportTellsTheMoment` | core/checkpoint.py:331-338 | Where no step moved its target either, the report tells whether the path existed when the checkpoint was taken |
| `CheckpointReports.ReportCounts` | core/checkpoint.py:278-341 | The report names the live checkpoint of that id and its label, counts exactly the entries the journal lost, and lists a path among the errors once for each undone entry of it that was refused with something to write or remove; an unknown id changes nothing |
| `CheckpointReports.ListsAreApart` | core/checkpoint.py:297-336 | No path is listed as both restored and deleted; it is listed exactly when some undone entry of it was not refused |
| `CheckpointReports.ErrorsAreNewestFirst` | core/checkpoint.py:290-316 | Refusals are reported newest edit first |
| `CheckpointReports.RollbackLeaves` | core/checkpoint.py:317-327 | A rollback drops the later entries and checkpoints, restarts the automatic count, and leaves numbering, ids, notes and settings alone |
| `CheckpointReports.EditReads` | tools/files/write.py:54-92 | The tree, the note and the one journal entry after an edit, field by field |
| `CheckpointReports.UnjournaledReads` | tools/files/undo.py:20-32 | What an unparsable text and taking back do to file and note |
| `CheckpointReports.AttemptNotes` | tools/edit_file/core.py:186-204 | A call that wrote nothing leaves a note, or drops it, and nothing else |
| `CheckpointReports.SetUpNotes` | tools/files/paths.py:13-25 | Set up again in one process the tools keep their notes; a new process has none |
| `CheckpointLimits.StepKeepsNoVanish` | core/checkpoint.py:285-311 | A step keeps the condition the report needs exactly unless somebody else removes a journaled file |
| `CheckpointLimits.RunKeepsNoVanish` | core/checkpoint.py:285-311 | So do runs without such a removal |
| `CheckpointLimits.AutoCadence` | core/checkpoint.py:216-232 | While the agent edits, exactly every interval-th edit makes a checkpoint |
| `CheckpointWitnesses.MarkerIsLengthIff` | core/checkpoint.py:48-48 | A new checkpoint's marker is the journal's length exactly when every number handed out is still journaled |
| `CheckpointWitnesses.RollbackLeavesGap` | core/checkpoint.py:318-321 | After any rollback that undoes something that is no longer so |
| `CheckpointWitnesses.RefusedUndoIsLost` | core/checkpoint.py:297-321 | A run: the undo of a new file is refused once, and rolling back again leaves the file there |
| `CheckpointWitnesses.RefusedUndoBreaksChain` | core/checkpoint.py:37-39 | A run of one agent alone: two edits, a refused undo of the second, and the last hash is not that of the file |
| `CheckpointWitnesses.DeletedReportIsWrong` | core/checkpoint.py:335-336 | A run: a file edited, taken back, removed by others and written anew is reported deleted by the rollback that puts it back |
| `CheckpointWitnesses.CreateEditBack` | tools/files/write.py:55-58 | Creating a file, editing it and rolling back leaves the note of a file that is gone |
| `CheckpointWitnesses.StaleRun` | tools/files/paths.py:197-204 | Created again and rolled back again, the file is there with the text of its first creation |
| `CheckpointWitnesses.StalePreImage` | tools/files/paths.py:197-204 | Such a run from a fresh session |
| `CheckpointWitnesses.UnjournaledWriteStays` | tools/files/write.py:77-85 | A write over by unparsable text, or taking an edit back, stays after a rollback when no edit of the file is journaled since the checkpoint |
| `CheckpointWitnesses.BrokenFileStays` | tools/files/write.py:79-85 | Such a run |
| `CheckpointWitnesses.MiddlePruned` | core/checkpoint_store.py:201-215 | A restart that prunes the middle one of three edits of a file breaks its chain |
| `CheckpointWitnesses.PrunedChainBreaks` | core/checkpoint_store.py:201-215 | Such a run: one agent, and a clock that ran back |
| `CheckpointWitnesses.NewestPruned` | core/checkpoint.py:102-102 | A restart that prunes the last edit and keeps an older one strands the marker on it |
| `CheckpointWitnesses.EarlyStampStrands` | core/checkpoint.py:102-102 | Such a run, in which no marker was past the last journaled edit |
| `RoundWitnesses.StaleRow` | core/changeset.py:252-292 | A round that creates a file whose note is stale lists it as modified, from the stale text |
| `RoundWitnesses.DeepRollbackShowsInRow` | tools/checkpoint/main.py:70-72 | A run: a round rolls back past its opening and writes its file anew; the row that is collected says added, though the round found the file |
| `Revisions.ChainedIff` | core/checkpoint.py:37-39 | The chain that ends in the content on disk holds exactly when consecutive edits of the path link up by their hashes and the last hash is the disk's |
| `Revisions.ChainCut` | core/checkpoint.py:37-39 | A window is a chain exactly when its later part is one and its earlier part is one from what undoing the later part leaves |
| `Revisions.PrunedChainIff` | core/checkpoint_store.py:201-215 | A chain outlives pruning by age exactly when behind every kept entry of the path the kept entries still lead to where it left off |
| `Revisions.AgingCutsNothing` | core/checkpoint_store.py:201-215 | With time stamps in order they always do |
| `Revisions.StepLinkedIff` | core/checkpoint.py:37-39 | A step keeps a path's chain exactly when it is not an edit of unknown hash or stale pre-image, a write that is not journaled, a refused undo that leaves something else than the chain says, or a restart that prunes such an entry |
| `Revisions.ChainHoldsIff` | core/checkpoint.py:37-39 | Over every run the chain holds at every moment exactly when no step is one of those |
| `Revisions.LinkedMeans` | core/checkpoint.py:37-39 | Such a chain is the journal's stated invariant for the path, together with its link to the disk |
| `AutoRollback.LatestAutoMeans` | core/checkpoint.py:251-254 | One is found exactly when some automatic checkpoint lies below the numbering, and it has the highest such marker |
| `AutoRollback.LatestAutoHasEditsIff` | core/checkpoint.py:251-254 | It has edits after it exactly when the journal reaches past it |
| `AutoRollback.UndoingAgainStays` | core/checkpoint.py:262-265 | Undoing twice is undoing once: the second call finds the same marker and changes nothing |
| `DiffChunks.HardSplit` | cli/commit.py:60-69 | An overlong piece is packed line by line, no line divided |
| `DiffChunks.ExpandFile` | cli/commit.py:45-69 | The pieces of one file block: itself when small, else its hunks behind its header |
| `DiffChunks.Coalesce` | cli/commit.py:71-78 | Neighbouring pieces are put together greedily while they fit |
| `DiffChunks.SplitDiff` | cli/commit.py:28-78 | The chunks of a diff |
| `DiffChunkLaws.PackGroupsIsGrouping` | cli/commit.py:71-78 | What the loop packs together is a grouping of the pieces in order |
| `DiffChunkLaws.PackedIsGrouping` | cli/commit.py:71-78 | The chunks are those groups, each put together |
| `DiffChunkLaws.GreedyStaysAhead` | cli/commit.py:71-78 | No order-preserving grouping has fewer groups, and none with as many has a shorter last one |
| `DiffChunkLaws.FewestChunks` | cli/commit.py:71-78 | The chunks are as few as any grouping of the pieces allows |
| `DiffChunkLaws.NeighboursOverflow` | cli/commit.py:71-78 | Any two adjacent chunks together exceed the limit |
| `DiffChunkLaws.ChunksAreSmall` | cli/commit.py:28-78 | Each chunk is within the limit or is one overlong line |
| `DiffChunkLaws.NoLineIsCut` | cli/commit.py:28-78 | The lines of the chunks are the lines of the chunks put together |
| `DiffChunkLaws.ChunksContent` | cli/commit.py:34-78 | The chunks say the diff in order; only a file over the limit has its header said again before each hunk |
| `DiffChunkLaws.ChunksAreTheDiffIff` | cli/commit.py:34-78 | The chunks put together are the diff exactly when no header had to be repeated |
| `DiffChunkLaws.CutsAreAtMarks` | cli/commit.py:37-53 | Every block after the first starts with its mark |
| `DiffChunkLaws.EveryMarkCuts` | cli/commit.py:37-53 | Every marked line starts a block |
| `DiffChunkLaws.BlockContent` | cli/commit.py:49-53 | Header and hunks of a file block put together are the block |
| `DiffCuts.HeaderIs` | cli/commit.py:49-51 | The header of a file block is the text in front of the first line that starts with "@@", and nothing where there is none |
| `DiffCuts.HunksAreCut` | cli/commit.py:51-53 | What follows it is cut in front of exactly the lines that start with "@@ ", nothing empty kept |
| `DiffCuts.FilesAreCut` | cli/commit.py:37-39 | The diff is cut in front of exactly the lines that start with "diff --git " |
| `DiffCuts.CutsAreUnique` | cli/commit.py:37-53 | There is only one way to cut a text at its marks |
| `DiffCuts.SmallFileIsWhole` | cli/commit.py:45-48 | A file within the limit is found whole in some chunk |
| `DiffCuts.HunkKeepsItsHeader` | cli/commit.py:54-57 | Of a larger one every hunk that fits behind the header is found right behind it in some chunk |
| `DiffCuts.LongHunkKeepsItsLines` | cli/commit.py:58-69 | Of a hunk that does not fit, every line is found whole in some chunk, the header's lines too |
| `Changesets.File` | core/changeset.py:237-246 | Files one entry under this actor's paths or under the strangers of its path |
| `Changesets.Attribute` | core/changeset.py:235-246 | This actor's paths in order with their entries, and the other actors per path |
| `Changesets.Describe` | core/changeset.py:256-292 | One row: status, counts, foreign flag, and the diff when both budgets allow |
| `Changesets.CollectRows` | core/changeset.py:250-292 | The rows in order with the byte budget handed from one to the next |
| `Changesets.Inspect` | core/changeset.py:252-256 | What is known of each path: oldest pre-image, last hash, strangers, disk content |
| `Changesets.Collect` | core/changeset.py:212-298 | The changeset of a window |
| `ChangesetLaws.CollectedPaths` | core/changeset.py:235-252 | Lists exactly the paths this actor edited in the window |
| `ChangesetLaws.CollectedRanked` | core/changeset.py:294-296 | Each path once, in strict order of churn and then path |
| `ChangesetLaws.CollectedDiffsFit` | core/changeset.py:283-291 | Kept diffs sum to at most the total budget, and each is within the per-file cap |
| `ChangesetLaws.CollectedRow` | core/changeset.py:252-292 | Every row is the row of its path under some remaining budget |
| `ChangesetRows.RowReads` | core/changeset.py:250-292 | Every row in terms of the window and the tree: counts and diff of a text are those of the oldest pre-image against the disk; the diff is kept unless it is over the file cap or over what the kept diffs of the paths edited before left; a file that is gone or binary has all lines of its pre-image removed; flag and strangers by the entries |
| `ChangesetRows.PathsInOrder` | core/changeset.py:237-249 | Paths are collected in the order of their first edits |
| `ChangesetRows.WholeReads` | core/changeset.py:294-298 | Turn, truncation flag and tier of the whole changeset |
| `ChangesetLaws.ForeignIff` | core/changeset.py:258-269 | A file is flagged exactly when another named actor has an entry for it, or it is gone, or its text is not what the last edit is known to have left |
| `RoundLaws.StepOpening` | core/changeset.py:252-256 | What a row starts from is moved only by a rollback that leaves none of the round's entries for the path, or, where there are none, by a creation with a stale pre-image or a write that is not journaled |
| `RoundLaws.RoundRowIsExactIff` | core/changeset.py:166-298 | When every journaled edit of a path during a round is this agent's, its row diffs the content at window open exactly when there was no such step, or the last one made it start from that content |
| `RoundLaws.RoundRowIsExactUnlessBelow` | core/changeset.py:166-298 | When every step leaves the path to the journal: exactly when no rollback went below the window's opening, or the last that did put that content there |
| `RoundLaws.RoundRowStatus` | core/changeset.py:271-277 | Its status is against what undoing the window would leave |
| `RoundLaws.RoundRow` | core/changeset.py:252-292 | The whole row: from what undoing the window leaves, to what is on disk, by no strangers |
| `RoundLaws.ShallowRollbackKeeps` | core/changeset.py:252-256 | A rollback to a checkpoint of the round itself does not move what a row starts from |
| `RoundLaws.DeepRollbackResets` | core/changeset.py:252-256 | One to an older checkpoint moves it to what that checkpoint held |
| `RoundLaws.OwnRoundIsNotFlagged` | core/changeset.py:258-269 | A round that does not break the path's chain does not flag it as somebody else's |
| `RoundLaws.ItemSpans` | core/changeset.py:252-256 | Such a path is diffed from its oldest pre-image with its last hash known |
| `Rollups.Tally` | core/changeset.py:433-455 | Adds one file row to the merged row of its path |
| `Rollups.TallyAll` | core/changeset.py:430-455 | The merged rows of all files of all rounds, first touched first |
| `Rollups.MergeChangesets` | core/changeset.py:416-460 | The merged changeset |
| `Rollups.SessionRollup` | core/changeset.py:485-503 | The batch rollup: the log, then live rounds whose turn is not in it |
| `Rollups.Rollup.constructor` | core/changeset.py:516-520 | Starts empty with the log unread |
| `Rollups.Rollup.TakeRound` | core/changeset.py:530-541 | Takes a round unless empty, the same object, or a turn already seen |
| `Rollups.Rollup.Load` | core/changeset.py:522-528 | Reads the log the first time and never again |
| `Rollups.Rollup.Add` | core/changeset.py:543-546 | Log first, then the round |
| `Rollups.Rollup.Total` | core/changeset.py:548-550 | The merged changeset of all rounds taken |
| `RollupLaws.MergedFileMeans` | core/changeset.py:427-455 | A merged row sums the counts of its path over all rounds and is flagged when any round's was |
| `RollupLaws.MergedStatus` | core/changeset.py:441-450 | Its status follows from the first and the last round that touched the path |
| `RollupLaws.MergedStatusReads` | core/changeset.py:441-449 | Deleted when the last round says so, else added when the first one did, else what the last one says |
| `RollupLaws.FirstAndLastAre` | core/changeset.py:433-449 | Which row is first and which last |
| `RollupLaws.MergedActors` | core/changeset.py:451-455 | The strangers named are those some flagged round names |
| `RollupLaws.MergedReads` | core/changeset.py:457-460 | Inline up to 3 files and 80 lines, listed up to 50 files, counted beyond; no diff, no turn |
| `RollupLaws.MergeConserves` | core/changeset.py:416-460 | Total added and removed are those of the rounds, each path once, strictly ranked |
| `RollupLaws.MergeIgnoresRoundOrder` | core/changeset.py:416-460 | Every permutation of the rounds gives the same paths, counts, order and tier |
| `RollupLaws.StatusDependsOnOrder` | core/changeset.py:444-449 | Two rounds in two orders give two statuses |
| `RollupStatus.StatusIsOrderFreeIff` | core/changeset.py:441-449 | Every order of the rounds gives a path the same status exactly when its statuses are all alike, or none is "deleted" and at most one is "modified" |
| `RollupStatus.StatusesPermute` | core/changeset.py:430-449 | Reordering the rounds only reorders the statuses of a path |
| `RollupStatus.Reordered` | core/changeset.py:430-449 | Any two rounds that list a path can be put first and last |
| `RollupAgreement.RollupsAgreeIff` | core/changeset.py:485-550 | Incremental and batch rollup hold the same rounds exactly when logged turns are distinct and no untagged round is offered twice |
| `RollupAgreement.RollupsMergeAlike` | core/changeset.py:503-550 | Then they give the same changeset |
| `RollupAgreement.WatchSession` | core/changeset.py:522-550 | Fed round by round, only the first call's view of the log matters |
| `RollupAgreement.BatchTakes` | core/changeset.py:485-503 | The log as it is, then each live round that lists a file and whose turn is not merged yet |
| `RollupAgreement.IncrementalTakes` | core/changeset.py:530-541 | The same terms round by round, and no object twice |
| `SecurityLayers.Clamp` | config/loader.py:554-602 | What is left of a project's section: the governed settings that narrow |
| `SecurityLayers.Merge` | config/loader.py:189-213 | Known keys of a fitting type replace the value, the rest is ignored |
| `SecurityLayers.LoadProjectLayers` | config/loader.py:1023-1037 | Each project layer clamped against what is merged so far, then merged |
| `SecurityLayers.AcceptedIsAsStrict` | config/loader.py:530-547 | A setting that passes the clamp moves the field one way in the clamp's own order |
| `SecurityLayers.ProjectLayersMoveOneWay` | config/loader.py:530-602 | After any number of project layers every governed field has moved only that way, and every other field equals the user's |
| `SecurityEffects.TightensIff` | config/loader.py:530-547 | A value further along the clamp's order permits nothing more in use exactly unless it empties a non-empty allow-list or makes a resource limit negative |
| `SecurityEffects.LoadedLiftsIff` | config/loader.py:1023-1037 | A restriction is lifted in the loaded settings exactly when some layer does so, and none comes back |
| `SecurityEffects.ProjectLayersTightenIff` | config/loader.py:530-602 | After any number of project layers a field permits nothing the user's setting did not, exactly unless that was a non-empty allow-list some layer empties or a resource limit some layer makes negative |
| `SecurityEffects.EmptyAllowListLifts` | tools/shell/main.py:197-198 | An empty list passes the clamp, and a command the user's list refused is let through |
| `SecurityEffects.NegativeLimitLifts` | security/runner.py:162-162 | A processor limit of -1 passes the clamp as lower, and is no limit |
| `SecurityNames.SwitchesStayOn` | config/loader.py:502-533 | `require_sandbox`, `redact_tool_output`, `airgap` and `guard_tool_injection` stay on whatever the layers say |
| `SecurityNames.LinksStayUnfollowed` | config/loader.py:504-535 | `follow_symlinks` stays off |
| `SecurityNames.LimitsDoNotRise` | config/loader.py:505-540 | None of the six limits rises |
| `SecurityNames.NetworkOnlyGoesOff` | config/loader.py:541-542 | `network` is left alone or switched off |
| `SecurityNames.AllowListsShrink` | config/loader.py:508-544 | Entries only leave `env_allow` and `argv_allow` |
| `SecurityNames.DenyListsGrow` | config/loader.py:512-546 | Patterns only join the three deny lists, the built-in globs counting where none are set |
| `SecurityNames.OthersStay` | config/loader.py:580-595 | Every other setting stays the user's |
| `SecurityNames.OneLayerIsExact` | config/loader.py:530-602 | Of two values of the declared type the stricter one is loaded: so a layer that tightens is obeyed, and one that loosens is not |
| `SecurityNames.UnsetGlobsAreTheBuiltIn` | config/loader.py:515-527 | Where no globs are set a list is loaded exactly when it keeps all the built-in ones |
| `SecurityNames.TypedLayersLoad` | config/loader.py:580-602 | Lists where lists belong never make the comparison raise |
| `SecurityNames.NegativeLimits` | security/runner.py:157-194 | A negative value lifts the five limits handed to the kernel, and not the wall clock |
| `SecurityLayers.EmptyDenyListIsRefused` | config/loader.py:509-527 | An empty deny list does not pass for a missing one |
| `PermissionLayers.FilterRules` | config/loader.py:470-488 | A project layer's rules without its allow rules |
| `PermissionLayers.MergePermissions` | config/loader.py:412-493 | The policy of all layers: scalars replayed under the narrowing rules, rules of later layers in front |
| `PermissionLayers.FirstMatchIsLatestLayer` | config/loader.py:490-493 | First match over the merged list is the latest layer with a matching rule |
| `PermissionLayers.ProjectEffect` | config/loader.py:437-488 | Project layers add non-allow rules in front, may only tighten the default and switch the baseline on |
| `PermissionLayers.AllowedWithProjectIff` | security/permissions.py:467-488 | Exactly when a call is allowed with the project's layers loaded |
| `PermissionLayers.ProjectNeverAllows` | config/loader.py:420-422 | Project layers never turn a refusal or a question into permission |
| `PermissionLayers.DenyCanBecomeAsk` | config/loader.py:490-493 | A project's ask rule in front of the user's deny |
| `PermissionLayers.DenyKeptIff` | config/loader.py:437-493 | Exactly when a call the user denies stays denied, whatever session grants stand in front |
| `PermissionRules.LayerKeeps` | config/loader.py:470-488 | A user's layer brings in all its rules, a project's exactly those that do not allow, in order |
| `PermissionRules.FileRuleDecides` | config/loader.py:482-493 | Where no grant matches, the latest layer with a matching rule it may bring in decides, by its first such rule as it stands in the file |
| `PermissionRules.NoRuleDecides` | security/permissions.py:467-488 | Where none has, the first matching built-in rule decides if those are on, else the default |
| `PermissionRules.GrantDecides` | security/permissions.py:467-488 | The first matching session grant goes before everything |
| `PermissionRules.ScalarsAreTheLatest` | config/loader.py:430-468 | The four scalars are those of the latest layer that may set them; a project may default to ask or deny and switch the built-in rules on, nothing else; unset they are allow, on, off and 300 s |
| `SlotLock.StepKeepsWellFormed` | core/gpu_lock.py:65-91 | Every step of every task keeps: each descriptor is the one its task is using, each lock is held by a holding task |
| `SlotLock.RunKeepsWellFormed` | core/gpu_lock.py:65-91 | So does every interleaving |
| `SlotLock.OneHolderPerSlot` | core/gpu_lock.py:67-71 | No slot has two holders |
| `SlotLock.HoldersFillSlots` | core/gpu_lock.py:55-91 | In every reachable state at most `slots` holders, and all slots are locked exactly when there are that many |
| `SlotLock.CrashFreesItsSlots` | core/gpu_lock.py:66-91 | A crash frees exactly the slots of its process, leaves none of its descriptors, and touches nobody else |
| `SlotLock.ReleaseFreesSlot` | core/gpu_lock.py:89-91 | Leaving frees that slot, that descriptor and no other |
| `SlotLock.ScanSees` | core/gpu_lock.py:67-76 | Every slot a scan has passed was in another task's hands at some moment of the scan |
| `SlotLock.FailedScan` | core/gpu_lock.py:67-76 | A scan that returns nothing closed all it opened and saw each slot held at some moment |
| `SlotLock.FreeSlotIsFound` | core/gpu_lock.py:65-76 | A slot nobody else holds during a scan is not missed |
| `SlotLock.SlotsAre` | core/gpu_lock.py:55-63 | As many slots as configured, one at least, in every reachable state |
| `SlotLock.TaskGetsOn` | core/gpu_lock.py:65-88 | What a task does next: open, try, hold the slot exactly when nobody did, else close and go on, sleep past the last, scan again |
| `SlotScan.Kernel.constructor` | core/gpu_lock.py:55-63 | At least one slot, none taken |
| `SlotScan.Kernel.TryLock` | core/gpu_lock.py:69-75 | The lock call: held, closed and passed over, or closed and raised |
| `SlotScan.Kernel.TrySlot` | core/gpu_lock.py:67-75 | One round of the scan, others moving in between |
| `SlotScan.Kernel.TryAcquire` | core/gpu_lock.py:65-76 | Success holds a slot and saw every earlier one held; every other outcome leaves no descriptor and no lock |
| `SlotScan.Kernel.Acquire` | core/gpu_lock.py:78-88 | Scanning again after each sleep; only success leaves a descriptor open |
| `SlotScan.Kernel.Release` | core/gpu_lock.py:89-91 | The `finally` gives up that slot only |
| `SkillFile.IntReads` | skills.py:66-69 | Every printed version number reads back |
| `SkillFile.ParseHead` | skills.py:50-63 | Metadata and body start of a file: fenced front matter, heading, or neither |
| `SkillFile.ParseSkill` | skills.py:41-78 | The metadata of a skill file, with its fallbacks |
| `SkillFile.JoinOfLines` | skills.py:49-65 | The body's lines joined again are the body |
| `SkillFile.HeadReads` | skills.py:53-60 | Printed front matter is read as the fields it was printed from, and the body starts behind it |
| `SkillFile.PrintedReads` | skills.py:41-98 | What a printed skill reads as when its values are single lines: every value trimmed, the file's name for an empty description |
| `SkillFile.ReadIsPlain` | skills.py:56-65 | Whatever the file, the values read are trimmed single lines and the body is trimmed |
| `SkillFile.SkillRoundTrip` | skills.py:41-98 | Printing then parsing gives a skill back exactly when its values are trimmed single lines, the description is not empty and the body is trimmed |
| `SkillFile.HeadingReads` | skills.py:61-78 | A file that starts with a heading is described by it |
| `SkillFile.BareFileReads` | skills.py:65-78 | One that starts with neither is all body, described by its name |
| `SkillFile.UnclosedReads` | skills.py:53-55 | An opening fence that is never closed opens nothing |
| `SkillFile.FieldLineReads` | skills.py:56-59 | A line sets its key, lower-cased and trimmed, to what stands behind the first colon |
| `SkillFences.RenderedLines` | skills.py:87-98 | The lines of a printed skill whose description may span lines |
| `SkillFences.VersionReadsIff` | skills.py:53-69 | The version reads back exactly when no later line of the description closes the front matter, or the fields in front of that line give the same version |
| `SkillFences.ShownReads` | skills.py:41-98 | Where no line does, everything but the description reads back trimmed |
| `SkillFences.HiddenHead` | skills.py:53-65 | Where one does, the fields are those in front of it and the body is all that follows |
| `SkillFences.BodyReadsIff` | skills.py:60-65 | The body reads back exactly when no line does |
| `SkillFences.DescriptionReadsIff` | skills.py:56-72 | The description reads back exactly when it is a trimmed single line and not empty |
| `SkillStore.SlugShape` | skills.py:30-33 | A normalized name has safe characters only, at most 64, and no leading dash |
| `SkillStore.SafeReads` | skills.py:32-32 | Which characters are safe, by code point |
| `SkillStore.NormalizeAgain` | skills.py:30-33 | Normalizing again changes nothing exactly when the name does not end in a dash |
| `SkillStore.WordsAreJoined` | skills.py:30-33 | A run of other characters between two words becomes one dash, and the slug is cut to 64 characters |
| `SkillStore.WordIsKept` | skills.py:30-33 | One word is its own slug |
| `Text.LowerReads` | skills.py:31-31 | Capital letters become small ones in their places |
| `Text.StripReads` | skills.py:31-31 | Blanks go at both ends and nowhere else |
| `SkillStore.SkillLoader.ArchiveCurrent` | skills.py:221-224 | The current file is copied to the archive under its own number |
| `SkillStore.SkillLoader.Save` | skills.py:199-243 | New files and metadata of a save; an empty name or body is an error that changes nothing |
| `SkillStore.SkillLoader.Delete` | skills.py:176-192 | Archives and removes the skill if it is there |
| `SkillStore.SkillLoader.Rollback` | skills.py:269-276 | Saves what the archive holds, or an error when it holds nothing |
| `SkillStore.SkillLoader.Versions` | skills.py:250-256 | Exactly the archived numbers in ascending order |
| `SkillStore.SkillLoader.History` | skills.py:245-261 | Archived versions in order of number, then the current one |
| `SkillRuns.StepKeepsShelved` | skills.py:176-276 | Every operation whose description leaves its version readable keeps the files equal to the account of saves since the last deletion |
| `SkillRuns.RunKeepsShelved` | skills.py:176-276 | So does every run, for every skill |
| `SkillLaws.NumberedIff` | skills.py:218-242 | Whatever the descriptions: since the last deletion saves are numbered 1, 2, 3, ... exactly when every save but the last leaves its version readable |
| `SkillLaws.SavesAreNumbered` | skills.py:218-242 | When every description leaves its version readable, saves are numbered 1, 2, 3, ..., the last is current and each earlier one is archived under its own number as it was written |
| `SkillLaws.ArchiveIsKept` | skills.py:222-225 | While descriptions leave their versions readable and until the skill is deleted, no archived version is written over |
| `SkillLaws.SaveOverwritesIff` | skills.py:176-231 | The next save writes over an archived version exactly when the skill was once deleted with at least as many versions as it has now |
| `SkillLaws.ArchiveHolds` | skills.py:176-231 | The archive holds, per number, the last save that was archived under it, from before deletions too |
| `SkillLaws.LatestSavesAreArchived` | skills.py:222-225 | Since the last deletion these are the saves themselves |
| `SkillLaws.RollbackMakesNewVersion` | skills.py:269-276 | Rolling back to any archived version saves it under the number after the last save, 1 after a deletion; the body as archived exactly when its description did not close the front matter, the description exactly when it was a trimmed single line and not empty |
| `SkillLaws.RollbackHitsItsSkillIff` | skills.py:271-276 | A rollback saves the skill it was asked for exactly when the normalized name does not end in a dash |
| `SkillLaws.CutNameEndsInDash` | skills.py:32-33 | A name that normalizes to one ending in a dash |
| `SkillLaws.HistoryIsAllSaves` | skills.py:245-261 | The history of a never deleted skill is all its saves in order, each read back as saved when it survives printing |
| `SkillLaws.SaveTakesOver` | skills.py:220-241 | Body, origin and time of a save are its own; a description not given is that of the save before, or the name; the time of creation is that of the save before, or now |
| `SkillLaws.CreationIsKept` | skills.py:226-238 | Since the last deletion every save bears the time of the first one as its creation |
| `SkillLaws.RefusalsRead` | skills.py:176-276 | When a save, a rollback or a deletion does nothing, and what it answers then |
| `SkillWitnesses.ThirdSaveOverwrites` | skills.py:220-231 | With a description that reads as version 1 the third save replaces the archived first version by the second |
| `SkillWitnesses.FencedVersionIsLost` | skills.py:53-69 | So it is in a run of three saves whose description is any single line with a fence under it |
| `SkillWitnesses.FencedExample` | skills.py:53-69 | A closed instance |
| `SkillWitnesses.DeletedVersionIsLost` | skills.py:176-231 | A save, a deletion and two saves: the archived version is replaced |
| `SkillWitnesses.DeletedExample` | skills.py:176-231 | A closed instance |
| `RecoveryProbe.Prober.MarkRateLimited` | config/model_probe.py:711-714 | A deadline at least one second ahead, nothing else changed |
| `RecoveryProbe.Prober.ClearRateLimited` | config/model_probe.py:717-723 | Drops that cooldown only |
| `RecoveryProbe.Prober.IsRateLimited` | config/model_probe.py:726-734 | Whether the deadline is ahead; one that has passed is forgotten |
| `RecoveryProbe.Prober.MaybeScheduleRecoveryProbe` | config/model_probe.py:758-793 | Starts a probe only for a named, cooled-down endpoint that is due, reachable and not being probed |
| `RecoveryProbe.Prober.RunRecoveryProbe` | config/model_probe.py:796-819 | Failure doubles the backoff up to the cap and cools down by it, success clears both, cancellation only ends the probe |
| `RecoveryProbe.OneProbePerEndpoint` | config/model_probe.py:771-790 | In every run at most one probe per endpoint is in flight |
| `RecoveryProbe.BackoffIsStreak` | config/model_probe.py:811-817 | After k failures in a row the backoff is min(30 * 2^k, 600) |
| `RecoveryProbe.ProbeOutcome` | config/model_probe.py:810-819 | The cooldown a failure sets equals that backoff; a success clears both |
| `RecoveryProbe.LastStartIsKept` | config/model_probe.py:776-789 | The remembered attempt is the endpoint's last probe start |
| `RecoveryProbe.StartsAfterBackoff` | config/model_probe.py:774-777 | Probe starts are at least the backoff in force apart |
| `RecoveryProbe.ProbesAreRare` | config/model_probe.py:774-777 | n further probes take at least 30 n seconds |
| `RecoveryProbe.NextProbeWindow` | config/model_probe.py:769-814 | After a failure the next probe starts no sooner than the backoff after the last start and only before the cooldown ends |
| `RecoveryProbe.InFlightIff` | config/model_probe.py:750-819 | An endpoint counts as being probed while its probe runs, and for ever once a probe of it never got to run |
| `RecoveryProbe.DroppedIsNeverProbed` | config/model_probe.py:750-755 | Whatever happens then, that endpoint's probe starts stay what they were |
| `RecoveryProbe.DroppedProbe` | config/model_probe.py:750-755 | A run for every endpoint: marked, probe scheduled, probe cancelled in time; no continuation starts another |
| `RecoveryProbe.MarkedIsLimited` | config/model_probe.py:711-714 | A marked endpoint is limited for the seconds given, and one second at least; no other is touched |
| `RecoveryProbe.ClearedIsFree` | config/model_probe.py:717-723 | Clearing lifts one cooldown or all, and nothing else |
| `RecoveryProbe.AskingIsHarmless` | config/model_probe.py:726-734 | Asking changes no answer, then or later |
| `RecoveryProbe.StartsWhenDue` | config/model_probe.py:768-793 | A probe is started exactly for a named, limited endpoint that is not being probed, reachable, and due: 30 seconds after the last one or the backoff it has |
| `RecoveryProbe.ProbeEnds` | config/model_probe.py:808-819 | A failure doubles the wait up to ten minutes and cools down for as long; a success forgets both; either way it is no longer being probed |
| `Confidence.ConfidenceMonitor.constructor` | core/confidence.py:104-139 | Empty lists, window at least 2, as if the last intervention were long ago |
| `Confidence.ConfidenceMonitor.ObserveResult` | core/confidence.py:141-162 | The four lists stay the last `window` entries of the whole history; the seen set and the cost counters follow it |
| `Confidence.ConfidenceMonitor.TickIter` | core/confidence.py:164-173 | The two cost lists stay the last `window` completed iterations |
| `Confidence.ConfidenceMonitor.CurrentSignal` | core/confidence.py:183-232 | The signal is a function of the whole history |
| `Confidence.ConfidenceMonitor.AcknowledgeIntervention` | core/confidence.py:238-240 | Restarts the count of iterations, nothing else |
| `ConfidenceLaws.SamplesExclusive` | core/confidence.py:144-148 | A result is at most one of error, empty and repetition |
| `ConfidenceLaws.SignalBounds` | core/confidence.py:192-205 | The three rates sum to at most 1, the cap of the waste rate never bites, score and schema share lie in [0, 1] |
| `ConfidenceLaws.RepeatedHoweverLongAgo` | core/confidence.py:145-151 | A result is counted as a repetition however long ago its text was seen, also when that has left the window or was an error |
| `ConfidenceLaws.FirstSightIsNoRepeat` | core/confidence.py:145-151 | A text not seen before in the turn is no repetition |
| `ConfidenceLaws.InterventionsAreSpaced` | core/confidence.py:214-240 | Acknowledged triggers are at least `inject_cooldown` iterations apart |
| `ConfidenceLaws.MonitoredBudget` | core/context_budget.py:68-82 | Whatever the turn has seen, the budget stays at or above three quarters of the base, and is the base when half of the results are errors |
| `ConfidenceReads.SampleReads` | core/confidence.py:141-151 | Error, schema error, empty and repeated in plain figures: seven markers in the first 400 characters, 20 characters, any time before in the turn |
| `ConfidenceReads.RatesRead` | core/confidence.py:192-200 | The rates are shares of the recent results, the schema share of the recent errors |
| `ConfidenceReads.ScoreReads` | core/confidence.py:202-209 | Half a point is lost per rate that reaches its threshold, for the worst of the three alone |
| `ConfidenceReads.TriggerReads` | core/confidence.py:211-224 | It fires, once cooled down, when enough results are in and the score is too low, and for a sensitive model at the first schema error; when errors count as schema-bound |
| `ConfidenceReads.SinceReads` | core/confidence.py:164-240 | Iterations since the last intervention, and 999 more before the first |
| `ConfidenceReads.OpenReads` | core/confidence.py:153-173 | Calls and tokens of the iteration under way |
| `ConfidenceReads.CostReads` | core/confidence.py:175-186 | Calls and tokens per iteration are means over the recent ones |
| `ContextBudget.BudgetFitsIff` | core/context_budget.py:43-52 | Budget, reserve and overhead fit the window exactly when it leaves 1024 tokens for the prompt |
| `ContextBudget.HealthBounds` | core/context_budget.py:68-82 | Between max(1024, three quarters of the base) and the base, with the exact cases of both ends |
| `ContextBudget.BudgetIsAntitone` | core/context_budget.py:68-101 | More waste never means a larger budget |
| `ContextBudget.CapIsBackstop` | core/context_budget.py:104-122 | With at least 250 tokens a message the derived message cap is never reached before the token trigger |
| `ContextBudget.TriggerIsEarlierLimit` | core/context_budget.py:85-101 | Compaction fires at the earlier of the two limits, but never below 1024 |
| `ContextBudget.BudgetReads` | core/context_budget.py:26-52 | What the window leaves after the reserve and 500 tokens, 1024 at least; an unset window counts as 32768, the reserve is at most half of it |
| `ContextBudget.TighteningReads` | core/context_budget.py:68-82 | Tightened exactly when more than half was wasted, by half of the waste over one half |
| `ContextBudget.LimitsRead` | core/context_budget.py:85-122 | The configured limit and the message cap in plain figures |

## Left out

- Several processes sharing one checkpoint directory: pruning reads the journal before it takes the lock (`core/checkpoint_store.py:201`), so the model has one process there; interleavings are modelled for the slot lock.
- The vault's encryption, JSON encoding, real file I/O and the file-system write gate: the gate is the set of paths an operation is refused on, and a journal line is either well formed or junk.
- Errors while persisting, which the code logs and ignores.
- Path resolution: two spellings of one file are two paths. The contents a tool writes are arguments: how `patch_file`, `replace_text` and `edit_file` compute them is not modelled, nor is a write by others between a tool's read and its write.
- SHA-256 and the result hash of the monitor are injective; clocks are arguments; floats are reals, so `round` in the signal is not modelled.
- CheckpointSession.Session.RollbackTo: reports sets of paths where the code sorts them into lists, and leaves out the wording of errors.
- CheckpointSession.Session.Setup: the fallback to memory alone when restoring raises is not modelled.
- CheckpointStore.Store.Load: a journal line is well formed or junk; a sequence number that is not a number, which makes the whole load fail, is not modelled.
- CheckpointRuns.RunLoadsItsJournal: requires that nothing is stamped with a time of exactly zero, which the store takes for a missing stamp.
- `difflib` and the counting of diff lines (`core/changeset.py:186-196`): the diff of two contents with its counts and size is a parameter, so the counts are not tied to the edit script.
- Changesets.Collect: leaves out the spill files (`diff_ref`) and the prose of a changeset; what is on disk (text, binary or gone) is given, not sniffed from bytes.
- RoundLaws.RoundRowIsExactIff: takes every file of the tree to be text; a round ends with its process, so no restart is inside one.
- Rollups.SessionRollup: is given the log's rounds; parsing them out of the question log (`core/changeset.py:463-482`) is not modelled. A missing round is an empty one.
- Line ends other than a newline, and characters outside ASCII in `strip`, `lower`, `isdigit` and `int`.
- `_stream` in `cli/commit.py`, which walks the fallback models.
- SecurityEffects.ProjectLayersTightenIff: an allow-list read as null counts as empty, though `scrub_env` would raise on it, and a fractional resource limit counts as that number, though `setrlimit` raises. A negative wall-clock time ends commands at once and lifts nothing.
- SecurityLayers.Clamp: list items are strings; a comparison of other items that raises is one outcome. Sections other than [security] and [permissions], the environment overrides and the remote, serial and MCP clamps are not modelled.
- PermissionLayers.MergePermissions: rule matching is a parameter; session grants and the rules file are one list in front.
- SlotLock.HoldersFillSlots: descriptors are never reused by the kernel, and no lock file is deleted. How long `acquire` waits, and whether it is ever served, is not modelled: nothing makes the lock fair.
- SlotScan.Kernel.Acquire: the scans it makes are listed beforehand, because nothing bounds their number; the last sleep is the one its caller cancels.
- Lookup in the bundled skills, the skills index for the prompt and the slash command: easy facts. Skill files are edited through the store only, and written whole.
- SkillRuns.RunKeepsShelved: requires that an origin and a time handed in are single lines, as every caller passes them, and that each description leaves the version readable; `SkillLaws.NumberedIff` has no such premise and says what happens otherwise.
- SkillFile.PrintedReads: says what all fields read as for single-line values; for descriptions that span lines `SkillFences` says it of version, body and description.
- RecoveryProbe.Prober.RunRecoveryProbe: the request itself is one of three outcomes; closing the client afterwards is left out.
- Confidence.ConfidenceMonitor.CurrentSignal: leaves out the wording of the intervention.
- ContextBudget.BudgetFitsIff: says nothing of the one-time warning about an unprobed window.
- PermissionRules.FileRuleDecides: calls of the security suite itself and of a quarantined process, which are allowed without rules, and failures of the rule engine (`security/permissions.py:475-482`, `:489`) are not modelled.
- `core/attempt_ledger.py` and all LLM, HTTP, sandbox, terminal and user interface code.
