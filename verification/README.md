# A verified model of dir2mcp's crash-safe and text-handling cores

This project models, in Dafny 4.11, the parts of dir2mcp whose correctness depends on the
order of steps, on interleavings, or on text that must be read back: the reindex protocol,
the concurrent indexing state, the corpus.json writers, service installation, the quoting and
redaction of text, the pid record and `down`, the formula bump, cue fusion, the benchmark's
scores and the paged document counts. `dafny verify dfyconfig.toml` checks all of it.

## How it is organised

| file | what it holds |
|---|---|
| ReindexProtocol.dfy | the reindex protocol as a state machine over a disk (live files, backups, commit marker) and a store (hashes, hash snapshot); every step may fail and a crash may strike between any two |
| ReindexSafety.dfy | the invariant of every run, and the theorems of a complete recovery |
| ReindexCoverage.dfy | that each name a run is given is moved aside before any write, and so comes back |
| ReindexWhole.dfy | which copies are complete ones, and where unfinished files come from |
| ReindexSteps.dfy, ReindexTraces.dfy | sequences of steps, and a concrete run from a settled corpus into each failure |
| ReindexDegraded.dfy | where the protocol does not keep its promise, with the exact condition each time |
| ReindexRun.dfy, ReindexCommand.dfy | the command itself as classes and methods; each atomic operation is journalled as a protocol step |
| IndexingState.dfy | the shared state under its inverted lock, interleaved access by access |
| CorpusWriter.dfy | the writers of corpus.json, their path lock and the `queued` flag |
| ServiceInstall.dfy | the file transaction and the systemd and launchd managers against a supervisor that may refuse any command |
| Dotenv.dfy, ShellQuoting.dfy, SystemdQuoting.dfy | text that another reader has to read back |
| SnapshotRedaction.dfy, SnapshotTorn.dfy, UrlRedaction.dfy, UrlScan.dfy | what a support bundle may disclose |
| PidFile.dfy, Down.dfy | the pid record, whose process it names, and `down` |
| Formula.dfy | the Homebrew formula bump |
| Fusion.dfy, FusionMerge.dfy | first-fit grouping of cues and the merge of a group |
| Scoring.dfy, ScoreReport.dfy | the two answer metrics and the report built on them |
| DocCounts.dfy | the two paged counting loops |
| Text.dfy, Prelude.dfy | splitting, joining, trimming and small value types |

Go and Python integers are unbounded `int`s here except where width matters: the 64-bit
counters of the indexing state wrap, and the pid parser rejects what does not fit 64 bits.
Floats are `real`s. Whether a file-system, store or supervisor call works is a parameter. What
a call that works does is assumed: a rename or an unlink is atomic, an SQL statement is, a
supervisor command that succeeds has its effect, and a `disable --now` or `bootout` that
reports "absent" means that nothing of that name runs.

## Where the code and its promise part

Each of these is a result about the code as it is. The first lemma or contract named says
exactly when the promise holds; the one after "reached by" is a concrete run into the failure
from an untouched corpus.

* **Stale marker.** A reindex goes on after it failed to clear a stale commit marker. Staging
  then moves the only copy of each file into a slot that recovery discards
  (`StagingIsSafeIffNoStaleMarker`; reached by `StaleMarkerLosesAFile`). The occupied-slot
  check only helps while a backup is left.
* **Leftover backup.** A backup that could not be discarded outlives a later run over other
  names, whose commit removes the marker. Recovery then puts the superseded file back, unless
  the backup equals what that run last wrote under its name or, where it wrote nothing, what
  was live when it began (`LeftoversComeBackIff`, `UntouchedLeftoversComeBackIff`; reached by
  `LeftoverBackupComesBack`).
* **Unmarked commit, files.** When the marker cannot be written, a crash inside the unlink
  loop mixes generations exactly when some backups are gone and some are not
  (`UnmarkedFilesMixIff`, `CommitIsSafeIffMarkedOrSingle`; reached by `UnmarkedCommitMixes`).
* **Unmarked commit, gate.** An unlink that fails without a marker leaves the old file to be
  adopted under new hashes once the snapshot is dropped, with no crash at all. The gate stays
  behind the index exactly when every unlink worked, or the snapshot stayed, or the rebuild
  had hashed nothing; late documents add a condition on the snapshot (`UnmarkedGateHoldsIff`;
  reached by `GateRunsAheadOfTheIndex`).
* **Files without a predecessor.** An index file the rebuild creates under a name that was not
  moved aside is not removed by a rollback (`WriteIsUndoneIffStaged`,
  `RollbackIsExactIffDirtyUnchanged`; reached by `NewFileIsNotRolledBack`).
* **Partial backups.** The next run moves such a file aside as if it were complete, so a
  backup can be partial. Recovery gives back complete files only, at every point, exactly when
  no rebuild writes a partial file under a name it has not moved aside
  (`RecoveredFilesAreWholeIff`, `StagedCopiesAreWhole`; reached by `PartialFileIsMovedAside`).
  This failure and the one before it need an ingestor that writes index files during the
  rebuild; the one in the repository opens no index (internal/index/backend.go:174-181).
* **Documents new to the corpus.** Restoring hashes touches only rows of the snapshot, so a
  document first hashed by a rebuild that never committed keeps a hash ahead of the restored
  index (`GateSurvivesIffSnapshotHolds`; reached by `NewDocumentKeepsItsHash`).
* **First-time installs.** Rolling back a first-time install reports "rolled back" although a
  unit of that name that was enabled, running or loaded before is left disabled or unloaded.
  Both `Install` contracts give the exact case; reached by `FirstInstallStopsARunningUnit` and
  `FirstInstallUnloadsAService`. After a failed `bootout` the service is what that call left of
  it, not necessarily what it was (`FailedBootoutStopsTheService`).
* **List items with line breaks.** The config writer does not escape a line break inside a list
  item. Such a list is redacted as a list exactly when each line an item goes on with starts
  with a blank (`ListIsReadBackIff`). Of a list that is to be hidden, every one that does not
  stay together is told apart from another that agrees with it on all that may be disclosed
  (`HiddenListIsHiddenIff`); a line of it that reads as a key is shown as one
  (`HiddenTextIsShownAsAKey`), and shown whole if that key is allow-listed
  (`HiddenTextIsShownInClearIff`).
* **Glued URLs.** A URL is redacted exactly when some letter of its scheme, with the scheme
  characters glued to its front, is on a word boundary (`LinkIsBlankedIffMatched`); an
  underscore before a plain scheme leaves none (`UnderscoreKeepsTheUser`).
* **Overtaken release urls.** The bump pairs each release url with its own sha line exactly
  when none is followed by another before a sha line (`EveryUrlIsPairedIff`); an overtaken one
  keeps its old sha without an error (`OvertakenUrlKeepsItsOldSha`).
* **Overflow means active** holds for every delta, not only for nonnegative ones.
* **systemd tokens.** `TokensAreReadBackIff` is exact for whole lists of one-line tokens: an
  empty token, `;` alone, a `$`, and an unprotected leading single quote are not read back.
* **Pid tokens.** `ReadBackIff` is exact: the token must be on one line and end in no blank. A
  leading blank would survive, because it follows `start=`.

## Model

| member | source | states |
|---|---|---|
| ReindexSafety.StepKeepsInv | internal/cli/reindex.go:667-725 | every atomic step of recovery, staging, rebuild, commit and rollback, succeeding or failing, marked or not, keeps the invariant that the old generation is recoverable until the commit point and superseded after it |
| ReindexSafety.EveryRunKeepsInv | internal/cli/reindex.go:816-866 | the invariant holds at every point of every sequence of runs, crashes and recoveries from a settled corpus, with no step excluded |
| ReindexSafety.RecoveryIsOneGeneration | internal/cli/reindex.go:641-687 | whatever the crash, a complete recovery leaves all new files after a marked commit point and all old files before any, outside the names the history lists (unstaged writes, backups lost to or left by a stale marker); after an unmarked commit each file is in one of its two generations |
| ReindexSafety.CleanRunsLoseNothing | internal/cli/reindex.go:653-661 | when no run begins under a stale marker those sets are empty: the marker means all new, backups without it mean old or an unmarked commit, and only unstaged writes survive |
| ReindexSafety.RollbackIsExactIffDirtyUnchanged | internal/cli/reindex.go:849-866 | the recovered directory equals the starting one exactly when no name written without staging, and none whose backup is gone or doomed, differs from before |
| ReindexSafety.GateNeverAheadOfIndex | internal/cli/reindex.go:296-337 | after both halves of recovery an old index has the hashes of its own run and no newer hash than those of documents an uncommitted rebuild hashed first; a new index has no exception; an unmarked commit keeps this as long as the snapshot is there |
| ReindexSafety.NoStepLosesTheOldCopy | internal/cli/reindex.go:510-536 | the only steps that take the last copy of a backup away are a commit's unlinks and a recovery's discards under a marker, and staging never writes an occupied slot |
| ReindexSafety.RecoveryStepKeepsTarget | internal/cli/reindex.go:642-661 | no step of recovery changes what a complete recovery would produce; backups left plus marker never grow, and shrink with every effective step |
| ReindexSafety.RecoveryIsRestartable | internal/cli/reindex.go:653-661 | any number of crashed recovery attempts head for the same world, and an attempt that ends with nothing owed has reached it |
| ReindexWhole.StepKeepsWhole | internal/cli/reindex.go:632-634 | every step keeps unfinished files where history puts them, for rebuilds that finish what they wrote before they report success |
| ReindexWhole.StagedNamesKeepAWholeCopy | internal/cli/reindex.go:857-866 | at every point of every run until its commit point the starting copy of each name moved aside is in its live or backup slot, and is complete exactly when it is not a leftover of an earlier rebuild |
| ReindexWhole.CommittedFilesAreWhole | internal/cli/reindex.go:656-661 | after a commit point, marked or not, every live file is complete, leftovers aside |
| ReindexWhole.LeftoversAreUnstagedWrites | internal/cli/reindex.go:528-536 | without a stale marker a run finds a new leftover exactly where an uncommitted rebuild left a partial file under a name it had not moved aside |
| ReindexWhole.RecoveredFilesAreWholeIff | internal/cli/reindex.go:628-636 | over whole behaviours without a stale marker, recovery leaves complete files only, at every point, exactly when no rebuild writes a partial file under a name it has not moved aside |
| ReindexWhole.StagedCopiesAreWhole | internal/cli/reindex.go:632-634 | then no backup is ever partial: every name moved aside has a complete copy at every point until the commit point |
| ReindexCoverage.EveryRunCovers | internal/cli/reindex.go:923-938 | whatever fails or crashes, no name a run was given that had a file is ever written before it was moved aside |
| ReindexCoverage.GivenNamesAreRestoredIff | internal/cli/reindex.go:849-866 | before the commit point recovery gives back the file of every given name, unless a stale marker took its backup and something else is live in its place; without a stale marker there is no such name |
| ReindexCoverage.StagedRunIsUndoneWhole | internal/cli/reindex.go:452-460 | a run that writes only names it moved aside is undone to exactly the directory it found |
| ReindexSteps.LegalIsBehaviour | internal/cli/reindex.go:454-460 | every legal sequence of steps is a behaviour the theorems cover |
| ReindexSteps.BehaviourIsLegal | internal/cli/reindex.go:454-460 | and every behaviour is the run of its steps |
| ReindexTraces.PartialFileIsMovedAside | internal/cli/reindex.go:632-634 | a settled corpus reaches a run that has a partial file in a backup slot |
| ReindexTraces.NewFileIsNotRolledBack | internal/cli/reindex.go:528-536 | a settled corpus reaches a crash whose recovery keeps a partial new file |
| ReindexTraces.NewDocumentKeepsItsHash | internal/cli/reindex.go:470-495 | a settled corpus reaches a crash whose recovery keeps a hash newer than the index |
| ReindexTraces.GateRunsAheadOfTheIndex | internal/cli/reindex.go:806-815 | one failed unlink of an unmarked commit, without a crash, leaves the old file under the new hash |
| ReindexTraces.UnmarkedCommitMixes | internal/cli/reindex.go:806-815 | a crash inside an unmarked commit of two files leaves one new and one old |
| ReindexTraces.StaleMarkerIsReachable | internal/cli/reindex.go:719-725 | a settled corpus reaches the start of a run with the marker up, no backup and a live file |
| ReindexTraces.StaleMarkerLosesAFile | internal/cli/reindex.go:903-938 | from there a crash right after staging loses the only copy of that file |
| ReindexTraces.LeftoverBackupComesBack | internal/cli/reindex.go:742-745 | a backup that could not be discarded is adopted after a later commit removed the marker |
| ReindexDegraded.StagingIsSafeIffNoStaleMarker | internal/cli/reindex.go:903-938 | staging can be undone after a crash at each of its points exactly when no stale marker is present or nothing is moved |
| ReindexDegraded.CommitIsSafeIffMarkedOrSingle | internal/cli/reindex.go:806-847 | for any outcomes of its unlinks the loop leaves one generation at every crash point exactly when the marker is down, there is one backup, or no unlink works |
| ReindexDegraded.CommitCrashPoint | internal/cli/reindex.go:541-556 | a crash after any tried unlinks mixes generations exactly when the loop is unmarked and some backups are gone and some are not |
| ReindexDegraded.UnmarkedFilesMixIff | internal/cli/reindex.go:809-813 | the same for the protocol's own steps, from the state an unmarked commit starts in |
| ReindexDegraded.UnmarkedGateHoldsIff | internal/cli/reindex.go:806-815 | an unmarked commit leaves the hash gate behind the index exactly when every unlink worked, or the snapshot was dropped and the rebuild hashed nothing, or the snapshot stayed and covers what it hashed, which it always does in a corpus without late documents |
| ReindexDegraded.LeftoversComeBackIff | internal/cli/reindex.go:676-686 | a run that removes the marker leaves every earlier backup, and recovery then gives the new generation exactly when each equals what the run last wrote under its name, or else what was live when it began |
| ReindexDegraded.UntouchedLeftoversComeBackIff | internal/cli/reindex.go:742-745 | for a run that writes none of those names this is settled by the directory the run begins with |
| ReindexDegraded.GateSurvivesIffSnapshotHolds | internal/cli/reindex.go:470-495 | a hash the rebuild writes is undone by recovery exactly when the snapshot holds that document |
| ReindexDegraded.WriteIsUndoneIffStaged | internal/cli/reindex.go:528-536 | an index file the rebuild writes is undone exactly when its name was moved aside, or the write changed nothing |
| ReindexRun.Corpus.RecoverInterruptedReindex | internal/cli/reindex.go:667-687 | without errors the disk becomes what recovery computes; a restore failure stops, a discard failure keeps the marker and the live files |
| ReindexRun.Corpus.FinishInterruptedReindexCommit | internal/cli/reindex.go:699-725 | superseded backups are unlinked and the marker goes last, only when all of them are gone |
| ReindexRun.Corpus.RestoreContentHashes | internal/cli/reindex.go:774-793 | the snapshot is written over the hashes and dropped; the four outcomes and the state each leaves |
| ReindexRun.ReindexStaging.Backup | internal/cli/reindex.go:520-536 | moves one file into a free slot, ignores a missing file, refuses an occupied slot |
| ReindexRun.ReindexStaging.Commit | internal/cli/reindex.go:816-847 | the steps added to the journal are the marker, one unlink for each backup, and the marker's removal exactly when none failed; backups, marker and epoch after each ending |
| ReindexRun.ReindexStaging.Rollback | internal/cli/reindex.go:857-866 | every moved file is renamed back or stays adoptable: live and backups together are unchanged |
| ReindexCommand.PrepareReindexStore | internal/cli/reindex.go:874-981 | exactly when staging succeeds; then exactly the given names with a file are aside, in free slots, every document is without a hash and the snapshot holds the recovered ones; otherwise nothing stays aside unless a rename of the undo fails, and the hashes are back unless their undo fails |
| ReindexCommand.OpenStateForServing | internal/cli/up.go:810-860 | exactly when both halves succeed and whether the marker outlives them; what files and hashes recover to never changes, and with nothing left behind the world is the recovered one |
| ReindexCommand.CommitReindex | internal/cli/reindex.go:315-319 | the journal grows by the file commit, then the snapshot's drop, then the store's close, over unchanged live files and hashes; the backups left are those that cannot be unlinked |
| ReindexCommand.RollbackReindex | internal/cli/reindex.go:332-337 | the journal grows by the hash restore, then the store's close, then one rename for each moved file; the backups left are those that cannot be renamed; what the store recovers to is unchanged |
| ReindexCommand.RunReindex | internal/cli/reindex.go:29-120 | exactly when a run succeeds; success leaves a whole commit in the journal, each index file as the rebuild last wrote it, and hashes of the new generation on exactly the documents it last gave one; failure means recovery brings back the hashes, every given name that had a file unless a stale marker is up, and all else outside the rebuild's unstaged writes |
| ReindexCommand.SucceedsIff | internal/cli/reindex.go:874-957 | a run succeeds exactly when each call it makes works, no given name is stuck or finds its slot taken, and none with a file occurs twice |
| ReindexCommand.EveryCrashPointRecovers | internal/cli/reindex.go:454-460 | the world at every point of every journal of these methods recovers to one generation outside the names history lists, with a gate behind it, or after an unmarked commit to one generation of each file |
| IndexingState.StepKeepsInv | internal/appstate/indexing_state.go:39-80 | every interleaved step keeps the invariant that ties fields, lock holders and the order of effects |
| IndexingState.ProgramMeansApply | internal/appstate/indexing_state.go:142-255 | the field accesses of each method body add up to the documented meaning of the operation |
| IndexingState.EverySnapshotIsLinearized | internal/appstate/indexing_state.go:258-284 | each call takes effect once between its call and its return, and a snapshot equals the fields after the whole operations before it |
| IndexingState.EffectsKeepRealTimeOrder | internal/appstate/indexing_state.go:39-60 | a call that returned before another began takes effect first |
| IndexingState.SnapshotOverflowsMeanActive | internal/appstate/indexing_state.go:235-256 | no snapshot shows an overflow tally of an inactive watcher, for any deltas |
| IndexingState.ResetIsAllOrNothing | internal/appstate/indexing_state.go:118-155 | a snapshot right after a reset sees all seven counters at zero |
| IndexingState.State.ResetProgress | internal/appstate/indexing_state.go:142-155 | the seven counters of a run are zeroed and nothing else changes |
| IndexingState.State.AddWatchOverflow | internal/appstate/indexing_state.go:248-256 | activates the watcher; the tally is the sum where that fits 64 bits and else differs from it by a multiple of 2^64 |
| IndexingState.State.Increase | internal/appstate/indexing_state.go:157-228 | the counter is the sum where that fits 64 bits and else differs from it by a multiple of 2^64; the other twelve fields stay |
| IndexingState.SnapshotShowsTheSum | internal/appstate/indexing_state.go:157-284 | a snapshot shows for each counter what it was at any earlier point of the order of effects plus the deltas since, modulo 2^64, if nothing was stored into it in between |
| IndexingState.LoneCallReturns | internal/appstate/indexing_state.go:39-80 | every operation can be called and returns, and alone it does what it is documented to |
| IndexingState.State.Snapshot | internal/appstate/indexing_state.go:258-284 | a copy of all thirteen fields that changes none |
| CorpusWriter.StepKeepsInv | internal/cli/app.go:2194-2203 | every interleaved step of loop and event loop keeps the lock and flag invariant |
| CorpusWriter.QueuedDescribesTheFile | internal/cli/app.go:2251-2277 | with the lock free after a successful write, `queued` is exactly "the file shows pending work" and the file comes from the latest store read that landed |
| CorpusWriter.SkippedTickMeansNoKnownWork | internal/cli/app.go:2176-2189 | a skipped tick saw no run and no failed write of the loop's own, and with no writer between rename and flag the file shows no known pending work |
| CorpusWriter.WritesDoNotOverlap | internal/cli/app.go:2194-2199 | two writes are never both between store read and rename |
| CorpusWriter.CorpusFile.WriteSnapshotPending | internal/cli/app.go:2251-2277 | on success file, flag and result agree with the read; on failure nothing changes |
| CorpusWriter.RunCorpusWriter | internal/cli/app.go:2144-2191 | every tick is skipped exactly while no run is on, the loop's own newest write landed and the file, whoever wrote it, shows nothing pending; the file is the newest write that landed |
| ServiceInstall.UnitTxn.Begin | internal/cli/service.go:809-824 | remembers bytes, presence and, when it can be read, the mode |
| ServiceInstall.UnitTxn.Rollback | internal/cli/service.go:853-861 | prior bytes and mode, or no file after a first-time install; on error nothing changed |
| ServiceInstall.SystemdManager.RollbackInstall | internal/cli/service_linux.go:140-160 | "rolled back" exactly when the disable if any, the restore, the reload and the restart if any worked, and otherwise exactly those that failed, in order; file and unit after each verdict |
| ServiceInstall.SystemdManager.RestorePriorUnit | internal/cli/service_linux.go:164-181 | without a problem the captured state is re-established from it or from a disabled, stopped unit |
| ServiceInstall.SystemdManager.Install | internal/cli/service_linux.go:71-104 | which verdict is given, exactly, and what it says of file and unit; for first-time installs exactly when the prior unit state is kept |
| ServiceInstall.SystemdManager.Uninstall | internal/cli/service_linux.go:191-213 | the file goes only after a disable that worked or positively found nothing |
| ServiceInstall.LaunchdManager.RollbackInstall | internal/cli/service_darwin.go:126-145 | "rolled back" exactly when the unload if any, the restore and the load if any worked, and otherwise exactly those that failed, in order; file and service after each verdict |
| ServiceInstall.LaunchdManager.Install | internal/cli/service_darwin.go:76-110 | which verdict is given, exactly, and whether the plist and the loaded service are those of before, a failed bootout included |
| ServiceInstall.FirstInstallStopsARunningUnit | internal/cli/service_linux.go:148-160 | a first-time install that reports "rolled back" and leaves a running unit disabled and stopped |
| ServiceInstall.FirstInstallUnloadsAService | internal/cli/service_darwin.go:126-145 | a first-time install that reports "rolled back" and leaves a loaded service unloaded |
| ServiceInstall.FailedBootoutStopsTheService | internal/cli/service_darwin.go:93-98 | a failed bootout that stopped the service is reported as "rolled back" |
| ServiceInstall.LaunchdManager.Uninstall | internal/cli/service_darwin.go:154-172 | the plist goes only after a bootout that worked or positively found nothing |
| Dotenv.SaveEnvLocalKey | internal/cli/app.go:717-743 | the line loop computes the specified file |
| Dotenv.LastSaveWins | internal/cli/app.go:717-743 | saving twice is saving once, and the last save of a key decides its value |
| Dotenv.SaveKeepsTheOtherLines | internal/cli/app.go:728-742 | exactly one line assigns the key, in plain or export form; the other lines stay in order up to trailing blank lines |
| Dotenv.KeptIsTheRest | internal/cli/app.go:728-737 | piece by piece, a save drops the plain and the exported assignments of its key and nothing else |
| Dotenv.SavesOfDistinctKeysAreIndependent | internal/cli/app.go:728-737 | saving one key leaves every assignment of another as it was |
| Dotenv.DotenvHasCredential | internal/cli/service.go:616-642 | true exactly when some line the scanner gets to gives one of the keys a value; false for a file that cannot be opened |
| Dotenv.HitsIff | internal/cli/service.go:626-638 | a line gives a key a value exactly when it is no comment and reads `name=value`, with or without `export `, with the trimmed name among the keys and more than quotes for a value |
| Dotenv.SavedLineHits | internal/cli/service.go:629-636 | the line a save writes is a credential exactly when its value is more than space and quotes |
| Dotenv.CredentialIsFoundAfterSave | internal/cli/service.go:610-642 | after a save the key is found exactly when its value is more than space and quotes, or a line the save overlooks spells the same key |
| ShellQuoting.ClaudeCodeShellCommand | internal/cli/claude_code_cmd.go:221-238 | the appending loop builds the specified command line, which a shell reads as `claude mcp add-json --scope`, the scope, the name and the entry |
| ShellQuoting.BareIffPlain | internal/cli/registration_hint.go:66-81 | an argument is left unquoted exactly when it is not empty and holds letters, digits and `_-./:@+%,=` only |
| ShellQuoting.QuotedArgumentReads | internal/cli/registration_hint.go:66-81 | a quoted argument is read as one word holding exactly that argument |
| ShellQuoting.ShellReadsBackTheArguments | internal/cli/claude_code_cmd.go:221-238 | tokenizing the command by sections 2.2.2 and 2.3 of the POSIX.1-2017 Shell Command Language gives the binary and exactly the arguments |
| ShellQuoting.ShellCommandIsInjective | internal/cli/claude_code_cmd.go:227-234 | different arguments give different commands |
| SystemdQuoting.RenderSystemdExecStart | internal/cli/service.go:991-1006 | the appending loop builds the specified value |
| SystemdQuoting.TokenReads | internal/cli/service.go:993-1004 | a rendered token is read by systemd's quote and backslash rules as one word |
| SystemdQuoting.TokensAreReadBackIff | internal/cli/service.go:988-1021 | systemd starts exactly the rendered tokens if and only if each one-line token is nonempty, holds no `$`, is not `;` and starts with no unprotected single quote |
| SystemdQuoting.RenderedTokenIs | internal/cli/service.go:993-1021 | a token is quoted exactly when it holds a blank, a tab or a quote, and written as it is exactly when it needs neither quotes nor escapes |
| SystemdQuoting.NoPhantom | internal/cli/service.go:993-1005 | an empty token is never made up for by what other tokens are read as |
| SnapshotRedaction.RenderLines | internal/cli/support_bundle_redact.go:280-294 | the index loop appends the rendering of every line from where it stands |
| SnapshotRedaction.RedactConfigSnapshot | internal/cli/support_bundle_redact.go:269-296 | empty, consenting and default modes of the redaction |
| SnapshotRedaction.EachLineIsConsumedOnce | internal/cli/support_bundle_redact.go:281-294 | every line is consumed exactly once, as an entry, in a block, or dropped |
| SnapshotRedaction.EveryShownLineIsAnEntrys | internal/cli/support_bundle_redact.go:280-348 | whatever the text, each line of a default bundle below its header comes from one entry and shows no more of it than its key allows |
| SnapshotRedaction.ChunksAreParsed | internal/cli/support_bundle_redact.go:300-323 | an entry is a line cut at its first colon that starts with no blank and no `#`, with the blank-led lines behind it |
| SnapshotRedaction.ListIsReadBackIff | internal/cli/support_bundle_redact.go:300-323 | a written list, whatever its items hold, is read back as one entry of all its lines exactly when each line an item goes on with starts with a blank |
| SnapshotRedaction.WrittenSnapshotIsReadBack | internal/config/config.go:4728-4770 | the loop sees the text the config writer makes of settings whose lists stay together as exactly those settings |
| SnapshotRedaction.RedactionDisclosesOnlyAllowedData | internal/cli/support_bundle_redact.go:325-348 | snapshots whose lists stay together and that agree on allowed entries, key order, emptiness and list lengths redact to the same text |
| SnapshotTorn.HiddenListIsHiddenIff | internal/cli/support_bundle_redact.go:300-323 | a list outside the allow-list is redacted like every readable setting that agrees with it on what may be disclosed exactly when its lines stay together; otherwise its count is too small |
| SnapshotTorn.HiddenTextIsShownAsAKey | internal/cli/support_bundle_redact.go:280-294 | for every list item that goes on without a blank in text that reads as a key, two snapshots that differ in nothing but that hidden text redact differently |
| SnapshotTorn.HiddenTextIsShownInClearIff | internal/cli/support_bundle_redact.go:326-333 | when that key is allow-listed the whole line is shown: two such lists redact alike only where the credential filter cannot tell their lines apart |
| SnapshotRedaction.AllowedSettingIsKept | internal/cli/support_bundle_redact.go:326-333 | read from its written lines, an allow-listed setting that stays together is kept line by line with only the credential filter applied |
| SnapshotRedaction.HiddenSettingShowsExactly | internal/cli/support_bundle_redact.go:334-347 | read from their written lines, two hidden settings of one key show the same exactly when both are set, both lists take as many lines, or they are the same |
| SnapshotRedaction.HiddenSettingIsMarked | internal/cli/support_bundle_redact.go:334-347 | a hidden scalar shows the marker if it is set and stays as it is if not; a hidden list shows its number of lines |
| UrlRedaction.RedactParamValues | internal/cli/support_bundle.go:614-624 | the overwriting loop blanks the value of every pair that holds one |
| UrlRedaction.UserIsBlanked | internal/cli/support_bundle.go:593-609 | the front of a URL loses exactly its user, and a later `@` in the path stays |
| UrlRedaction.TrimmingIsHarmless | internal/cli/support_bundle.go:565-576 | setting trailing punctuation aside and putting it back does not change what is redacted |
| UrlRedaction.RedactionBlanksTheParts | internal/cli/support_bundle.go:577-588 | redacting a URL is exactly blanking its user and its parameter values |
| UrlRedaction.BlankKeepsTheRest | internal/cli/support_bundle.go:540-562 | what is blanked is the whole user and every parameter value; scheme, site, names and bare components stay |
| UrlRedaction.EveryUrlHasParts | internal/cli/support_bundle.go:577-578 | every matched URL is the rendering of well-formed parts, so the previous theorem covers all of them |
| UrlRedaction.RedactUrlTwice | internal/cli/support_bundle.go:563-590 | redacting one URL a second time changes nothing |
| UrlScan.MatchShape | internal/cli/support_bundle.go:523 | a match of the pattern is a scheme, `://` and the whole nonempty run of URL characters |
| UrlScan.MatchIsTheWholeRun | internal/cli/support_bundle.go:523 | the same character by character: which characters a scheme has and which end a URL |
| UrlScan.RedactTwice | internal/cli/support_bundle.go:563-590 | redacting a text twice is redacting it once: the output holds the same matches |
| UrlScan.RedactSplits | internal/cli/support_bundle.go:563-590 | the work splits wherever no scheme and no match goes on |
| UrlScan.RunIsMatchedFrom | internal/cli/support_bundle.go:523 | the run of scheme characters before "://" is matched from its first letter on a word boundary, or copied |
| UrlScan.LinkIsBlankedIffMatched | internal/cli/support_bundle.go:563-590 | a URL set off or glued to what precedes it is replaced by its blanked parts exactly when the pattern matches it there, and nothing around it moves |
| UrlScan.UnmatchedLinkIsKept | internal/cli/support_bundle.go:519-523 | a URL the pattern does not match there, with no second "://", is kept as it is |
| UrlScan.UnderscoreKeepsTheUser | internal/cli/support_bundle.go:519-523 | an underscore before a plain scheme keeps the user in the output |
| UrlScan.SecretsCannotBeTold | internal/cli/support_bundle.go:526-562 | texts that differ only in the user and parameter values of a matched URL redact to the same text |
| PidFile.ReadBackIff | internal/cli/daemon.go:294-364 | reading a record inverts writing it exactly when the token is on one line and ends in no blank |
| PidFile.TokensAreOneLine | internal/cli/daemon.go:358-362 | no file gives a token with a line break or trailing blanks |
| PidFile.LastStartLineWins | internal/cli/daemon.go:358-362 | of several `start=` lines the last gives the token |
| PidFile.DigitsAre | internal/cli/daemon.go:345-351 | a pid is read digit by digit, and nothing but digits is a number |
| PidFile.ClassifyPidFile | internal/cli/daemon.go:374-391 | a pid is live exactly when it lives and no token speaks against it, recycled exactly when one does |
| PidFile.OwnRecordIsOurs | internal/cli/daemon.go:285-288 | a record this program wrote is taken for its process exactly while the token is kept or cannot be compared |
| Down.StateDir.StopDaemon | internal/cli/daemon.go:476-515 | succeeds exactly when the process is found gone at the first check, in the grace period after a term, or at one of five checks after a kill; which signals go out in each case |
| Down.StateDir.DownWithoutLiveDaemon | internal/cli/down.go:77-106 | nothing is signalled, and the removals tried are the record first and the connection file second |
| Down.StateDir.RunDown | internal/cli/down.go:41-66 | "stopped" exactly when the recorded process may be ours and its stop succeeds; a completed run whose removals succeed leaves neither file; only the recorded pid is signalled; a failed stop leaves both files |
| Down.StateDir.DownAfterAnInterruptedDown | internal/cli/down.go:73-76 | a `down` that dies between its removals is finished by the next one |
| Formula.BumpFormula | scripts/bump_full_formula.py:115-217 | the line loop computes the specified formula or the specified error |
| Formula.BumpedIff | scripts/bump_full_formula.py:152-205 | a bump is carried out exactly when no url is misfiled, each release url with its own sha has a checksum, the last one has a sha after it, and there is one; an error names what is wrong |
| Formula.IsBumpIff | scripts/bump_full_formula.py:124-136 | a bump is real exactly when the first version line names another version or, where there is none, the first tarball url does |
| Formula.OnlyReleaseFieldsChange | scripts/bump_full_formula.py:140-195 | line by line: version and release lines get the new version, a sha line the checksum it awaits, all else stays in place |
| Formula.EachUrlHasItsChecksum | scripts/bump_full_formula.py:152-193 | in the output every release url's sha line holds the checksum of that url's own tarball |
| Formula.EveryUrlIsPairedIff | scripts/bump_full_formula.py:118-122 | after a bump without an error every release url has its own sha line exactly when none of the input is followed by another before a sha line |
| Formula.OvertakenUrlKeepsItsOldSha | scripts/bump_full_formula.py:152-200 | two urls before two sha lines: no error, and the first url's sha stays old |
| Formula.RevisionsGoOnlyOnABump | scripts/bump_full_formula.py:129-150 | revision lines are dropped on a real bump and kept otherwise |
| Formula.BumpIsIdempotent | scripts/bump_full_formula.py:115-217 | a second bump to the same version changes nothing and is no real bump, and each line of the output is one its pattern reads |
| Formula.NameIsReadBack | scripts/bump_full_formula.py:51-53 | a rewritten tarball name is read back by the pattern as the new version on the same platform |
| Fusion.SortSorts | annotator/dirstral_annotator/fusion.py:33 | cues are taken in order of start and end |
| Fusion.SortIsStable | annotator/dirstral_annotator/fusion.py:33 | cues with the same start and end keep their order |
| Fusion.FirstFit | annotator/dirstral_annotator/fusion.py:34-38 | the group found accepts the cue and every earlier group refuses it |
| Fusion.GroupCues | annotator/dirstral_annotator/fusion.py:32-42 | the grouping loop computes the specified groups, which the next three rows describe |
| Fusion.BelongsIff | annotator/dirstral_annotator/fusion.py:54-90 | a group takes a cue exactly when all events agree, they share an entity or one side names nobody, the texts overlap where only they could tell, and the times lie within two seconds at both ends |
| Fusion.CuesGoToTheFirstFit | annotator/dirstral_annotator/fusion.py:33-42 | each cue goes to the first group, as it then stands, whose claim it makes, or starts its own; the other groups stay |
| Fusion.EarlierGroupsRefused | annotator/dirstral_annotator/fusion.py:33-42 | in the output no cue made the claim of an earlier group as that stood when the cue was taken |
| Fusion.GroupsPartitionTheCues | annotator/dirstral_annotator/fusion.py:32-42 | every cue is in exactly one group and nothing is made up |
| Fusion.GroupsAreChained | annotator/dirstral_annotator/fusion.py:54-63 | every group stays in order and each member after the first shares the event, an entity or text where both sides have them, and the time range of earlier members |
| Fusion.OneEvent | annotator/dirstral_annotator/fusion.py:55-56 | a group has one event |
| Fusion.EntitiesConnect | annotator/dirstral_annotator/fusion.py:57-59 | a cue that names entities shares one with an earlier cue unless it is the first to name any |
| Fusion.NoHoleWiderThanGap | annotator/dirstral_annotator/fusion.py:61-63 | inside a group's range every stretch of the merge gap's length meets one of its cues |
| FusionMerge.NoisyOr | annotator/dirstral_annotator/fusion.py:95-104 | the two loops compute the noisy-OR over each source's best confidence |
| FusionMerge.BestIsTheLargest | annotator/dirstral_annotator/fusion.py:98-100 | a source's best is the largest confidence of its own cues, and some cue of it has it |
| FusionMerge.ConfidenceIsBetween | annotator/dirstral_annotator/fusion.py:98-104 | the confidence lies between that of the most confident cue and one |
| FusionMerge.ConfidenceIgnoresOrder | annotator/dirstral_annotator/fusion.py:98-104 | the same cues in any order have the same confidence |
| FusionMerge.RepeatedSourceDoesNotCount | annotator/dirstral_annotator/fusion.py:96-97 | a cue no stronger than one its source already gave changes nothing |
| FusionMerge.NewSourceMultiplies | annotator/dirstral_annotator/fusion.py:101-104 | a cue from a new source multiplies what is left of the confidence by its own doubt |
| FusionMerge.OneCueIsItself | annotator/dirstral_annotator/fusion.py:98-104 | one cue has its own confidence |
| FusionMerge.Absorb | annotator/dirstral_annotator/fusion.py:114-117 | one cue's attributes: first values stay, differing ones are in conflict, in any order of the items |
| FusionMerge.MergeAttributes | annotator/dirstral_annotator/fusion.py:112-119 | the loops compute the specified attributes |
| FusionMerge.KeySurvivesIffAllAgree | annotator/dirstral_annotator/fusion.py:107-119 | a key survives with a value exactly when some cue states it and no stating cue differs |
| FusionMerge.RichestText | annotator/dirstral_annotator/fusion.py:120-122 | the first of the longest texts |
| FusionMerge.MergedSources | annotator/dirstral_annotator/fusion.py:131 | the sources of an annotation are sorted and are exactly the group's, each once |
| FusionMerge.EntitiesInOrder | annotator/dirstral_annotator/fusion.py:106 | the entities come in order of their first appearance |
| FusionMerge.MergedIs | annotator/dirstral_annotator/fusion.py:105-133 | the annotation is the union of the times, the first event, every named entity once, the richest text, the rounded confidence and the sorted sources |
| FusionMerge.Merge | annotator/dirstral_annotator/fusion.py:95-133 | the annotation of a group, field by field |
| FusionMerge.Fuse | annotator/dirstral_annotator/fusion.py:26-51 | the output is the stable sort of the merged groups that reach the floor, over groups that partition the cues |
| FusionMerge.KeptIsAboveTheFloor | annotator/dirstral_annotator/fusion.py:44-48 | an annotation is in the output as often as groups merge to it, if its rounded confidence reaches the floor |
| Scoring.FieldsOfSpaced | bench/prepare.py:39-50 | splitting a normalised text gives back its tokens |
| Scoring.FieldsAre | bench/prepare.py:39-50 | splitting passes over blanks and cuts at each, piece by piece |
| Scoring.ContainedIffRun | bench/score.py:54-57 | a gold answer is contained exactly when its tokens are a contiguous run of the answer's tokens |
| Scoring.RecallBounds | bench/score.py:60-67 | recall is between zero and one, and one exactly when every gold token is matched |
| Scoring.RecallIsTheShareFound | bench/score.py:60-67 | the recall of a gold answer is the number of its tokens found, as often as both have them, over all of them |
| Scoring.RecallIsTheBest | bench/score.py:72-74 | token recall is that of the best gold answer, and zero without one |
| Scoring.ContainedMeansFullRecall | bench/score.py:54-74 | an answer that contains a gold answer has token recall one |
| ScoreReport.CitationStats | bench/score.py:162-181 | the counting loop; span-level precision and supporting rates are at most the file-level ones |
| ScoreReport.SupportingTagsAreCounted | bench/score.py:125-132 | the tags counted are those that name the gold file and, at span level, whose range holds the gold line, both ends included |
| ScoreReport.CountersAddUp | bench/score.py:162-175 | the counters are the sums over the rows of their tags and supporting tags, and the numbers of rows with any |
| ScoreReport.SpanCountsAtMostFileCounts | bench/score.py:125-132 | span counts at most file counts, hits at most supporting citations and answers |
| ScoreReport.CorrectAtMostRecall | bench/score.py:160-202 | the correct answers are at most the sum of the recalls, which is at most the number of answers |
| ScoreReport.CorrectAnswersAreCounted | bench/score.py:160 | the correct answers are those that are no error and hold the tokens of a gold answer as one run |
| ScoreReport.AnswerableRowsAreTaken | bench/score.py:154-156 | the rows scored are the answerable ones with a known question, each as often as it occurs |
| ScoreReport.AnswerFigures | bench/score.py:201-202 | both answer figures, missing only together, with the share of correct answers at most the mean recall |
| ScoreReport.Score | bench/score.py:148-215 | every modelled figure of the report, and on every results file the stricter ones are at most the looser ones |
| DocCounts.CollectDocumentStatusCounts | internal/cli/app.go:2535-2589 | terminates for every page size; tallies exactly the documents read, or reports the failed read |
| DocCounts.CollectActiveDocCounts | internal/cli/app.go:2493-2521 | terminates for every page size; counts exactly the active documents read, by type and in all |
| DocCounts.ReachIsTheLastPage | internal/cli/app.go:2546-2582 | a loop takes page after page of at most 500 while they hold something, and has a result exactly when no read of it fails |
| DocCounts.NonemptyPagesReachTheEnd | internal/cli/app.go:2546-2582 | a store whose pages before the end are nonempty is read to the end |
| DocCounts.ShortReadMeansEmptyPage | internal/cli/app.go:2578-2581 | a loop that succeeds short of the end was given an empty page there |
| DocCounts.ClassesAddUp | internal/cli/app.go:2551-2576 | scanned is the number of documents and the sum of the five classes |
| DocCounts.EachClassIsCounted | internal/cli/app.go:2551-2576 | each figure is the number of documents with that trimmed and folded status |
| DocCounts.EachStatusIsCounted | internal/cli/app.go:2565-2575 | each unexpected status is reported with the number of its documents, a blank one as `<empty>` |
| DocCounts.UnexpectedAddUp | internal/cli/app.go:2565-2575 | the reported unexpected statuses account for every unknown document |
| DocCounts.EachTypeIsCounted | internal/cli/app.go:2503-2513 | each type's count is the number of its active documents, and a type without any is absent |
| DocCounts.TheLoopsAgree | internal/cli/app.go:2479-2589 | the active total is scanned less deleted and the sum over the types |

## Left out

- ReindexWhole.StagedNamesKeepAWholeCopy: rests on the rebuild's word that what it wrote is finished when it reports success; ingestion itself is not modelled.
- UrlScan.LinkIsBlankedIffMatched: scheme characters glued to the front of a URL count as part of its scheme; a URL inside an earlier one, behind its "://", is part of that one.
- SnapshotRedaction.RedactionDisclosesOnlyAllowedData: asks that lists stay together, which ListIsReadBackIff shows to be what the reading needs; the allow-list and the credential filter are parameters.
- Formula.BumpIsIdempotent: lines are given by what the patterns see in them; a url that names two tarballs, and the splitting of the file into lines, are not modelled. Python's splitlines also turns CRLF into LF on the first run.
- Formula.EachUrlHasItsChecksum: says nothing of an overtaken release url, which EveryUrlIsPairedIff singles out.
- FusionMerge.Merge: text overlap, white space and rounding are parameters.
- Dotenv.LastSaveWins: keys and values must be on one line; a value with a line break does not read back as one line, so saves of it are not idempotent.
- CorpusWriter.RunCorpusWriter: whole locked writes, in the order they take the lock; the interleaved machine of the same module has the steps of a write. The loop's end by cancellation is the end of the ticks.
- SystemdQuoting.TokensAreReadBackIff: a quote opens only at the start of an item, as systemd.syntax(7) has it; a reader that also opens quotes inside a word is not modelled.
- Down.StateDir.RunDown: the pid is checked against its token at classification only, as in the source; a pid recycled between that and the signal is not detected.
- IndexingState.EverySnapshotIsLinearized: a nil receiver is not modelled; the class State performs each body as one step, and the interleaving is that of the machine.
- DocCounts.CollectActiveDocCounts: the store's own aggregate, used when it has one, is not modelled; nor is a list that changes while it is read.
- Scoring.ContainedIffRun: lower-casing and the removal of punctuation and articles are one parameter.
- Index files that the store's close writes after a commit, and what a daemon ingests between runs: neither is a step of the protocol. The repository's reindex opens no index, and a run is refused while a daemon lives.
- The rebuild itself: ingestion, embeddings, chunk and representation rows, which the source excludes from the rollback.
- Stores without the hash-snapshot capability, where the hash half of the protocol is a no-op.
- File-system syncing, Windows rename fallbacks, and the filter that takes only regular files with the backup suffix for backups.
- The check that no daemon is running, option parsing, prompts, JSON output and every message text.
- systemd states finer than enabled and active, ExecStart prefixes of the first token, and specifiers other than `%%`.
- Token F1, abstention rates, latency percentiles and the pattern that finds inline tags.
- The example path kept for each unexpected status, and the report printed from it.
- Header-shaped credentials (Authorization and Bearer), which are removed by patterns before URLs are.
