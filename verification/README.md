# Verified models of OpenZen's stateful core

OpenZen is a desktop agent. The parts modelled here keep its data: the checkpoint store an interrupted
run resumes from, the re-keying of tool arguments, the rewriting of the model configuration, the event
log of a run and the history rebuilt from it, and a handful of small protocols. Each module states what
the code computes as a function on values, proves the laws the code promises about that function, and,
where the code works step by step, has the loop or the class with its fields and proves that it computes
the function.

## The modules

- **Checkpoint store** (`WalFormat`, `Wal`, `MmapWal`, `Names`, `Retention`, `CheckpointDisk`,
  `CheckpointListing`, `CheckpointRecovery`, `CheckpointSafety`, `CheckpointRuns`, `CheckpointBounds`,
  `CheckpointDir`, `Codecs`). The write-ahead log is a byte array that is zero-padded, so a reopened log walks its
  own padding as empty records; the invariant is that framed records run up to the cursor and only zeros follow. A
  save is a list of small durable changes (write the snapshot file, remove, create, size and fill the log, append a
  frame byte by byte, remove old files), and a crash may fall between any two of them or inside one. What a reader
  resumes from, how much the log holds and which files stay is proved over every history of saves, crashes and
  loads. The serialiser is a parameter with three assumed properties, and `Codecs` shows a serialiser that has them.
- **Tool arguments** (`ToolArgs`, `ToolArgOrigins`, `ToolArgTables`, `ToolArgPriority`, `ToolArgCall`). Five ordered
  passes and a clean-up over an argument object. The laws are proved from a condition on the tables, and the
  condition is then shown for every table of the source; `ToolArgPriority` says which name wins when a call offers
  several.
- **Configuration** (`MyKey`, `SessionPaths`; `ProviderMigration`, `MigrationMeaning`, `MigrationByName`;
  `ProviderCascade`, `CascadeNames`, `CascadeTables`, `CascadeMeaning`, `DefaultSession`). A tree of TOML tables
  and the sessions it resolves to, by path and by name. The migration of repeated credentials into `[providers]`
  is to preserve those sessions; deleting a provider is to remove the entries that reference it and preserve all
  others. Each promise is proved to hold exactly under a condition on the file, and comes with the inputs that
  fail it.
- **Event log** (`StreamEvents`, `StreamRender`, `StreamLaws`, `StreamCap`, `EventCollector`, `EventBlocks`,
  `History`, `HistoryTurns`). What a reader can see of a log is a flow of tokens plus the last results and readouts;
  compaction keeps it. The collector batches, coalesces and times events; the history is rebuilt from stored
  messages, turn by turn.
- **Small protocols** (`SectionEditor`, `SectionBytes`, `Reminders`, `Cdp`, `Approval`, `PathTrust`). An editor of one
  line of a text file, the reminder loop, replies over one browser connection, approval requests, and the registry of
  approved and denied paths. Concurrent code is a state machine over its locked steps, in any order.

`Wrappers` holds `Option` and `Result`, `Text` white space and trimming, `Collections` a few facts about
sequences and sets. `dafny verify dfyconfig.toml` checks everything.

## What the proofs found

- A crash in the very first save, after the log file was given its size and before its magic bytes are in,
  leaves a log file that fails to open for ever; nothing repairs it (`DeadLogIsReachable`, `DeadLogStays`).
  Saves then depend on the snapshot files alone.
- Snapshot names pad the turn to three digits and are sorted as text (`NamesSortIff`), so turn 1000 sorts before
  every turn from 101 on and clean-up can remove the newest file. With a log that opens nothing is lost; with
  one that does not, the save of turn 1000 is, and a reader goes back to an older one (`DeadLogLosesTurn1000`).
  `FinishedSaveIff` is the exact condition, read off the directory before the save: the file's place among the names
  decides (`TakenIff`).
- A resumed run goes on from the turn it resumed and may save that turn again. Over a torn snapshot that is safe; over
  a whole one only if the log holds that turn too, since the file is overwritten in place: a crash right after the first
  snapshot, a resume, and a crash at the start of saving that turn again leave nothing (`RewriteLosesAll`).
  `CrashSafeIff` says exactly when a crash cannot go back.
- Canonicalisation is idempotent although the alias groups of some tools overlap: what it needs is only that
  a canonical key which also reads like a type key has no aliases and is not the primary key.
- The migration does not keep every configuration's sessions. An entry that lacks only credentials and names a
  provider id which the migration is about to generate becomes a session (`ClaimedIdAddsSession`); so does an
  entry with shared credentials whose `provider` is, say, a number, since it is replaced
  (`ReplacedProviderAddsSession`); and a session in a table at that key is lost
  (`OverwrittenProviderLosesSession`). These are all the cases: `MigrationKeepsIff`. Files without `provider` keys,
  which the migration is for, keep everything (`MigrationKeepsOldFiles`).
- The cascade joins keys with dots and splits them again, so an entry whose own key has a dot always stays, and its
  orphans are counted as deleted (`DottedKeyIsMissed`). An empty top-level key is another obstacle: deleting the orphan
  at `["", x]` removes the entry `x` instead (`EmptyKeyHitsAnother`). `CascadePrunesIff` says that there is no third.
- Deleting a provider can change sessions that do not use it: extra headers called `provider` and `model` are taken
  for an orphan and removed (`HeadersLikeAnOrphanAreLost`), and an entry with such a table for a base URL becomes a
  session (`DroppedFieldAddsSession`). `DeleteKeepsIff` says exactly when nothing of the kind happens.
- `default_session` is cleared only if it names a removed entry itself. If it names a session below a removed entry
  it dangles (`DefaultBelowOrphan`); `DefaultDanglesIff` is exact.
- Compaction keeps the first `tool_input_available` of a call, while the frontend's reader
  (`frontends/src/lib/stores/parts.ts:299-313`) applies the last, so the promise to preserve what it renders
  fails for a call with two payloads (`TwoPayloads`); `LastPayloadIff` is exact.
- Compaction is not idempotent above its cap: the head and the tail that are kept may meet in two deltas of one block,
  which a second compaction merges (`OneTooMany`, `CompactionIsIdempotentIff`). What a reader sees is kept exactly up
  to the cap, or if nothing but empty deltas is dropped (`CompactionRendersTheSameIff`).
- A stored `tool_use_blocks` list that is present but empty wins over the tool messages that follow, whose
  results are then left without their tool uses (`EmptyListWins`; `RunIsPairedIff` is exact).
- The section editor promises to preserve every other byte; it rewrites CRLF line ends as LF and adds a missing last
  newline, since it splits into lines and joins with a newline (`ReturnIsLost`). `SetKeepsBytesIff` and
  `RemoveKeepsBytesIff` say exactly when every other byte is preserved. A line that ends in several carriage returns
  loses one at every edit (`ReturnsAreLost`, `SetTwiceIff`).
- A tick takes the due reminders out of the list and fires them after it has released the lock. A run that is aborted
  in between clears the list, but a reminder of its own that was taken fires all the same, and is armed again if it
  repeats (`TakenReminderOutlivesItsRun`); `AbortStopsIff` is exact.
- A browser command whose send fails leaves its entry in the pending table until its response or the close takes it
  (`EntryStaysUntil`), which is harmless (`FailedSendIsHarmless`).

## Model

| member | source | states |
|---|---|---|
| WalFormat.Le32RoundTrip | crates/oz-core/src/checkpoint.rs:91-109 | the four little-endian length bytes read back as the length, below 2^32 |
| WalFormat.WriteFrame | crates/oz-core/src/checkpoint.rs:91-109 | writing a frame at the end of the records of a zero-padded log gives the log with exactly that record more |
| WalFormat.WriteTornFrame | crates/oz-core/src/checkpoint.rs:91-109 | if only a prefix of the frame gets into the map, even one that cuts the length, the bytes are still a well-formed log, with one torn record more: a run of zeros or the payload cut off by zeros |
| WalFormat.ParseImage | crates/oz-core/src/checkpoint.rs:279-294 | walking a zero-padded log sees the real records first and then the padding as empty records, as many as fit |
| WalFormat.PaddedImage | crates/oz-core/src/checkpoint.rs:36-81 | taking the padding for records leaves a well-formed log with less than four bytes to spare |
| Wal.AllIsDecoded | crates/oz-core/src/checkpoint.rs:131-150 | reading everything back gives the checkpoints of the real records; the padding adds none |
| Wal.OpenImage | crates/oz-core/src/checkpoint.rs:36-81 | reopening a well-formed log succeeds, and although cursor and record count jump over the padding the handle still describes the bytes |
| Wal.AppendHolds | crates/oz-core/src/checkpoint.rs:91-109 | an append, with the growth it may need, keeps the invariant that framed records run up to the cursor and zeros follow, and adds the record |
| Wal.GrowthDoubles | crates/oz-core/src/checkpoint.rs:91-109 | a map that has to grow at least doubles, and is no larger than twice what it was or less than twice what is needed |
| Wal.TornDecodesToNothing | crates/oz-core/src/checkpoint.rs:91-150 | a torn record never parses as a checkpoint |
| Wal.StepHolds | crates/oz-core/src/checkpoint.rs:36-171 | one append, torn append with restart, or restart keeps the invariant and adds exactly the checkpoint whose frame got in whole |
| Wal.RecoveryIsExact | crates/oz-core/src/checkpoint.rs:36-171 | after any run of appends, torn appends and restarts the log opens, `all` is exactly the checkpoints that got in whole, in order, and `latest` is the last of them |
| Codecs.LawfulCodecExists | crates/oz-core/src/checkpoint.rs:112-150 | the three assumptions on the serialiser (nothing parses from nothing, from zeros, or from a cut payload with zeros after it) can be met together |
| MmapWal.MmapWal.Open | crates/oz-core/src/checkpoint.rs:36-81 | the class opens exactly the handle the value model opens, or fails exactly when it does |
| MmapWal.MmapWal.Grow | crates/oz-core/src/checkpoint.rs:162-170 | the old bytes stay, the new ones are zero, and cursor and count stay |
| MmapWal.MmapWal.WriteRecord | crates/oz-core/src/checkpoint.rs:91-109 | the map changes by exactly the frame at the old cursor; cursor and count advance |
| MmapWal.MmapWal.AppendBytes | crates/oz-core/src/checkpoint.rs:91-109 | the new handle is the value model's append of the old one, growth included |
| MmapWal.MmapWal.LatestRecord | crates/oz-core/src/checkpoint.rs:112-128 | the loop over the map returns the last checkpoint that parses |
| MmapWal.MmapWal.AllRecords | crates/oz-core/src/checkpoint.rs:131-150 | the loop over the map returns every checkpoint that parses, oldest first |
| MmapWal.ScanRecordsCounted | crates/oz-core/src/checkpoint.rs:279-294 | the walk over length prefixes ends after the last complete record and counts them |
| MmapWal.ScanFromIsRecords | crates/oz-core/src/checkpoint.rs:279-294 | where the walk ends and what it counts are the total framed length and the number of the records a reader sees |
| MmapWal.RecordsFromIsParse | crates/oz-core/src/checkpoint.rs:112-150 | walking by position sees the same records as parsing the remaining bytes |
| MmapWal.LatestFromIsLast | crates/oz-core/src/checkpoint.rs:112-150 | `latest` is the last element of `all`, from any position |
| Names.SmallNamesSortByTurn | crates/oz-core/src/checkpoint.rs:558-570 | below turn 1000 the file names sort as text in turn order |
| Names.NamesSortIff | crates/oz-core/src/checkpoint.rs:558-570 | exactly how the names of any two turns sort: like the turns if equally long; else the longer number, cut to the length of the shorter, decides, and the longer name comes second on a tie |
| Names.ThousandSortsBefore | crates/oz-core/src/checkpoint.rs:558-570 | below 1000, the turns whose names sort after that of turn 1000 are exactly those from 101 on |
| Names.SnapshotNameInjective | crates/oz-core/src/checkpoint.rs:558-570 | different turns have different file names |
| Retention.CleanupLosesNothing | crates/oz-core/src/checkpoint.rs:778-801 | clean-up splits the listing into kept and removed files, none lost or listed twice |
| Retention.CleanupKeepsLast | crates/oz-core/src/checkpoint.rs:778-801 | the last name is always kept |
| Retention.CleanupIsBounded | crates/oz-core/src/checkpoint.rs:778-804 | at most `keep` files stay, the last name among them, and their bytes are within the budget or that one file's size, as long as no addition to the running total saturates |
| Retention.CleanupIsBoundedForFiles | crates/oz-core/src/checkpoint.rs:786-801 | none does for files below 2^63 bytes, however many there are |
| Retention.TotalIsExactIff | crates/oz-core/src/checkpoint.rs:786-801 | the saturating running total is the bytes kept exactly when no addition saturated, and otherwise too low |
| Retention.SaturationLosesCount | crates/oz-core/src/checkpoint.rs:786-801 | without that the bound fails: three sizes whose kept bytes exceed the budget |
| Retention.RemovedIff | crates/oz-core/src/checkpoint.rs:778-801 | a file goes if and only if at least `keep` come after it in the listing or the byte sweep reaches it |
| Retention.RemovedIffOver | crates/oz-core/src/checkpoint.rs:778-804 | for files below 2^63 bytes that is: if and only if at least `keep` come after it, or it is not the last and with the later ones that are left it does not fit into 20 MiB |
| CheckpointListing.TakenIff | crates/oz-core/src/checkpoint.rs:754-801 | in a directory: if and only if at least `keep` files have names that sort after its own, or the byte sweep reaches it |
| CheckpointListing.LastNameSurvives | crates/oz-core/src/checkpoint.rs:778-801 | clean-up never removes the file whose name sorts last |
| CheckpointListing.SmallTurnsSortLast | crates/oz-core/src/checkpoint.rs:558-570 | below turn 1000 that is the file of the newest turn |
| CheckpointRecovery.FileBestIsTop | crates/oz-core/src/checkpoint.rs:595-668 | parsing only the newest-named turn, or all files if that one does not parse, finds the parseable snapshot with the highest turn |
| CheckpointRecovery.OpenCrash | crates/oz-core/src/checkpoint.rs:36-81 | a crash while a log is opened shows the same latest checkpoint, and the opened log holds it |
| CheckpointRecovery.AppendCrash | crates/oz-core/src/checkpoint.rs:91-109 | a crash inside an append shows the old or the new latest checkpoint; a finished one the new |
| CheckpointRecovery.CompactionCrash | crates/oz-core/src/checkpoint.rs:203-260 | a crash while the log is removed, reopened and refilled shows the old latest checkpoint or none; the finished compaction shows the old one |
| CheckpointSafety.LogIsSafe | crates/oz-core/src/checkpoint.rs:203-260 | the whole log update touches no snapshot file, leaves a log in order that holds, at every point, what it held, nothing, its latest checkpoint, or that and the new one, and ends on these two if the log opens |
| CheckpointSafety.AnyListingWillDo | crates/oz-core/src/checkpoint.rs:595-668 | what a reader gets does not depend on how the listing was obtained: it is the parseable checkpoint with the highest turn, of files and log |
| CheckpointSafety.BestIsNewest | crates/oz-core/src/checkpoint.rs:595-668 | a reader gets a checkpoint if there is a whole snapshot or a logged one, it is the newest of all, and of two of the same turn the logged one |
| CheckpointSafety.UpToIff | crates/oz-core/src/checkpoint.rs:595-668 | no parseable checkpoint is newer than a turn if and only if what a reader gets is not; torn snapshots of any turn do not matter |
| CheckpointSafety.CrashSafeSave | crates/oz-core/src/checkpoint.rs:476-497 | wherever a crash falls in a save at or after the turn a reader would resume from, also one over a torn or an older snapshot of the same turn, the directory stays in order, and if the save is crash-proof a reader gets what it would have got before or the checkpoint being saved |
| CheckpointSafety.CrashSafeIff | crates/oz-core/src/checkpoint.rs:476-497 | that holds at every crash point if and only if, before the save, a whole snapshot of the same turn is backed by the log, and, where the log never opens, clean-up does not take the new file together with the one a reader would resume from |
| CheckpointSafety.CrashGoesBack | crates/oz-core/src/checkpoint.rs:476-497 | otherwise some crash point makes a reader go back to an older turn, or to nothing |
| CheckpointSafety.FinishedSaveIff | crates/oz-core/src/checkpoint.rs:476-497 | a finished save at any turn is what a reader gets if and only if, before it, the log opens or clean-up does not take its file, and clean-up takes every whole snapshot of a newer turn |
| CheckpointRuns.EventIsSafe | crates/oz-core/src/checkpoint.rs:476-668 | one save, crashed save or load keeps the directory in order, and if a finished save lasts and a crashed one is crash-proof a reader gets what it got before or that checkpoint |
| CheckpointRuns.HistoryIsOk | crates/oz-core/src/checkpoint.rs:476-668 | over any history in which runs go on from what they resumed, the directory stays in order, guarded or not |
| CheckpointRuns.ResumeNeverGoesBack | crates/oz-core/src/checkpoint.rs:595-668 | over any history of saves, crashes and loads in which each save is at or after the turn a reader would resume from, torn turns saved again included, resuming gives the last finished save or one attempted after it, never an older one, and never none once a save has finished, if every finished save lasts and every crashed one is crash-proof |
| CheckpointRuns.ResumesFromLastSaveIff | crates/oz-core/src/checkpoint.rs:476-668 | whatever came before, resuming after a finished save gives that save if and only if it lasts: the log opens, or clean-up is off or leaves the file |
| CheckpointRuns.NextSaveGoesBack | crates/oz-core/src/checkpoint.rs:476-668 | whatever came before, a next save that is not crash-proof can be cut off so that resuming goes back to an older turn |
| CheckpointRuns.FinishedIsBacked | crates/oz-core/src/checkpoint.rs:476-497 | after a finished save with a log that opens the same turn may be saved again |
| CheckpointRuns.RewriteLosesAll | crates/oz-core/src/agent_loop.rs:1012 | a crash right after the first snapshot file, a resume from it, and a crash at the start of saving that turn again: nothing is left |
| CheckpointRuns.SmallTurnsAreGuarded | crates/oz-core/src/checkpoint.rs:476-497 | conditions that guard a history: overwritten snapshots are backed by the log, and with a log that does not open turns stay below 1000 and no file has a newer one |
| CheckpointRuns.DeadLogIsReachable | crates/oz-core/src/checkpoint.rs:36-81 | a crash in the first save between sizing the log file and writing its magic leaves a log that does not open |
| CheckpointRuns.DeadLogStays | crates/oz-core/src/checkpoint.rs:203-260 | no later save, crash or load repairs or replaces such a log |
| CheckpointRuns.LostSaveGoesBack | crates/oz-core/src/checkpoint.rs:476-668 | with such a log, when clean-up takes the file of a finished save, a reader gets the newest whole one of the older snapshots that are left |
| CheckpointRuns.DeadLogLosesFirstName | crates/oz-core/src/checkpoint.rs:476-497 | with such a log and five or more snapshots, that happens to a save whose file name sorts before all of theirs |
| CheckpointRuns.DeadLogLosesTurn1000 | crates/oz-core/src/checkpoint.rs:476-497 | so it does to turn 1000 after snapshots of turns 101 to 999: a reader gets an older turn, the very one from before the save if that was the newest file |
| CheckpointBounds.SavedLogIs | crates/oz-core/src/checkpoint.rs:175-260 | after a finished save a log that opens holds the latest checkpoint it had, if any, and the new one, and nothing else |
| CheckpointBounds.CrashedLogIs | crates/oz-core/src/checkpoint.rs:203-260 | wherever a save is cut off, the log holds what it held, nothing, its latest checkpoint, or that and the new one |
| CheckpointBounds.LogStaysShort | crates/oz-core/src/checkpoint.rs:175-260 | over any history of saves, crashes and loads the log never holds more than two checkpoints |
| CheckpointBounds.SavedFilesAre | crates/oz-core/src/checkpoint.rs:476-497 | a finished save with clean-up leaves the file whose name is last, and of the others exactly those with fewer than five names after theirs that fit into 20 MiB with the later ones that are left |
| CheckpointBounds.SavedFilesAreFew | crates/oz-core/src/checkpoint.rs:476-497 | so at most five files |
| CheckpointBounds.SavedFilesHold | crates/oz-core/src/checkpoint.rs:476-502 | the file of the new turn has the new checkpoint, every other file that is left the bytes it had, and without clean-up all are left |
| CheckpointDir.ListingUnique | crates/oz-core/src/checkpoint.rs:754-776 | the listing in name order is determined by the directory |
| CheckpointDir.CheckpointDir.Acquire | crates/oz-core/src/checkpoint.rs:203-260 | the cached handle is used if its file is still there, else the log is opened, with the disk changes of the crash model |
| CheckpointDir.CheckpointDir.Compact | crates/oz-core/src/checkpoint.rs:203-260 | past the record budget the log is rewritten with the newest checkpoint only, with the disk changes of the crash model |
| CheckpointDir.CheckpointDir.AppendCheckpointWalBytes | crates/oz-core/src/checkpoint.rs:203-260 | the log update leaves exactly the disk and the cached handle of the crash model |
| CheckpointDir.CheckpointDir.CollectCheckpoints | crates/oz-core/src/checkpoint.rs:754-776 | the files of the session in name order |
| CheckpointDir.CheckpointDir.RemoveSurplus | crates/oz-core/src/checkpoint.rs:778-785 | the loop removes the oldest names beyond `keep` and no others |
| CheckpointDir.CheckpointDir.RemoveOverBudget | crates/oz-core/src/checkpoint.rs:786-801 | the loop with its running total removes what the sweep over the sizes removes |
| CheckpointDir.CheckpointDir.CleanupSessionCheckpoints | crates/oz-core/src/checkpoint.rs:778-801 | both loops together remove exactly the removals of the retention model |
| CheckpointDir.CheckpointDir.SaveLoopCheckpoint | crates/oz-core/src/checkpoint.rs:476-497 | a save leaves exactly the state the crash model says a finished save leaves |
| CheckpointDir.CheckpointDir.LoadBestLoopCheckpoint | crates/oz-core/src/checkpoint.rs:595-668 | the loops over the files and the log return what the recovery model returns, and leave the log file opened, created if it was missing |
| ToolArgs.PassesSound | crates/oz-core-types/src/tool_args.rs:304-438 | after all five passes every value is one of the call, no canonical key was overwritten, and no pass has anything left to do |
| ToolArgs.NormKeyIs | crates/oz-core-types/src/tool_args.rs:34-39 | names are compared character by character: ASCII letters without their case, digits, and nothing else |
| ToolArgs.SecondRunIsIdle | crates/oz-core-types/src/tool_args.rs:304-464 | on its own result every pass finds nothing to do |
| ToolArgs.CanonicalIsIdempotent | crates/oz-core-types/src/tool_args.rs:304-464 | for any table in which a canonical key that reads like a type key has no aliases and is not primary, canonicalising twice is canonicalising once, whatever order the maps are walked in |
| ToolArgs.CanonicalIsFaithful | crates/oz-core-types/src/tool_args.rs:304-464 | for any such table nothing is overwritten, invented or lost: a key that is gone had its value moved or names a canonical key that is present |
| ToolArgOrigins.ValuesAreNamed | crates/oz-core-types/src/tool_args.rs:304-438 | a value is only moved to a key that its old key names: an alias of its group, a type-like key holding a language, the tool's name or a lone unknown string for the primary key, or the other path name |
| ToolArgOrigins.NothingIsLeft | crates/oz-core-types/src/tool_args.rs:304-464 | no alias of the table and not the tool's own name is left in the result; without the primary key there is no lone string or other path that should have fed it |
| ToolArgTables.TablesAreProtected | crates/oz-core-types/src/tool_args.rs:47-280 | the tables of every curated tool meet the condition the laws need |
| ToolArgTables.CanonicalizeIsIdempotent | crates/oz-core-types/src/tool_args.rs:304-464 | canonicalising the arguments of any call to any tool twice is canonicalising them once |
| ToolArgTables.CanonicalizeIsFaithful | crates/oz-core-types/src/tool_args.rs:304-464 | for every curated tool the only canonical key that can move is code_run's `mode` holding a language with no `type`; every dropped key had its value moved or is an alias of a key that is present |
| ToolArgTables.OthersPassThrough | crates/oz-core-types/src/tool_args.rs:304-322 | a call that holds `__oz_corrupted_call`, a bare value and the arguments of a tool without a table come back as they were |
| ToolArgOrigins.CanonicalizeIsComplete | crates/oz-core-types/src/tool_args.rs:304-464 | for every curated tool values move only to the key they name, and no known name is left |
| ToolArgPriority.CanonicalizePrefers | crates/oz-core-types/src/tool_args.rs:324-438 | for every curated tool a primary parameter the call does not have gets the value of an alias; without one that of the tool's own name; without that of the only unknown string; without that of the other path name; and otherwise nothing is guessed |
| ToolArgPriority.LanguageFeedsType | crates/oz-core-types/src/tool_args.rs:336-366 | a language under a type-like key feeds `type`, even if another name for `type` is there |
| ToolArgCall.AliasLoop | crates/oz-core-types/src/tool_args.rs:368-386 | the loop over the groups computes the alias pass |
| ToolArgCall.RunPasses | crates/oz-core-types/src/tool_args.rs:304-438 | the five passes in place compute the passes of the model |
| ToolArgCall.DropNorms | crates/oz-core-types/src/tool_args.rs:440-451 | the loop lists exactly the names that a key now present makes redundant |
| ToolArgCall.CleanUp | crates/oz-core-types/src/tool_args.rs:440-461 | removing keys in place, in whatever order the map is walked, leaves the arguments of the model |
| ToolArgCall.CanonicalizeToolArgs | crates/oz-core-types/src/tool_args.rs:304-464 | the procedure computes the canonical arguments, and returns a corrupted call, a bare value and the arguments of a tool without a table as they were |
| MyKey.CollectSessions | crates/oz-config/src/mykey.rs:319-349 | the recursive walk inserts the sessions the tree resolves to, in walking order |
| MyKey.FromFile | crates/oz-config/src/mykey.rs:214-384 | loading the file gives the sessions the configuration resolves to |
| MyKey.EntriesAre | crates/oz-config/src/mykey.rs:350-371 | the top-level entries are the tables but the eight reserved ones |
| MyKey.BorrowsWhatItLacks | crates/oz-config/src/mykey.rs:279-317 | an entry keeps all it has itself, and borrows exactly the base URL and the key that it lacks |
| MyKey.BorrowsNothing | crates/oz-config/src/mykey.rs:279-305 | one that names no provider, or an unknown one, borrows nothing |
| MyKey.ProviderWithoutKey | crates/oz-config/src/mykey.rs:121-129 | an entry that names a provider without a key resolves with an empty one |
| MyKey.NoProvider | crates/oz-config/src/mykey.rs:251-274 | a provider table without a base URL, or with a key that is no text, is none |
| SessionPaths.FoundIsAtPath | crates/oz-config/src/mykey.rs:319-384 | every session the walk finds stands at a path on which no table above it is a session |
| SessionPaths.PathIsFound | crates/oz-config/src/mykey.rs:319-384 | every session at such a path is found |
| SessionPaths.FoundIffAtPath | crates/oz-config/src/mykey.rs:214-384 | loading a configuration finds exactly the sessions that stand at some path, under their dotted names, whatever order the tables are walked in |
| ProviderMigration.FirstFreeIsFree | src-tauri/src/commands.rs:1597-1604 | the id found is the first candidate of stem, stem_2, stem_3 … that is not taken |
| ProviderMigration.DeriveProviderId | src-tauri/src/commands.rs:1568-1604 | the search loop ends, because the taken ids run out, with that id |
| ProviderMigration.IdsAreCandidates | src-tauri/src/commands.rs:1520-1540 | every generated id is the stem of some shared base URL, or that with a number |
| ProviderMigration.IdsAreSafe | src-tauri/src/commands.rs:1568-1604 | every generated id is not empty and has only characters that need no quotes in TOML |
| ProviderMigration.StemIsHost | src-tauri/src/commands.rs:1568-1596 | the id of scheme://user@host:port/path starts from host and port, with `_` for every character that is not safe |
| ProviderMigration.AssignIsAssigned | src-tauri/src/commands.rs:1520-1540 | exactly the shared credentials get ids, different ones, and the new table holds each pair under its id |
| ProviderMigration.MigratesExactlyIfNeeded | src-tauri/src/commands.rs:1487-1492 | the rewriting changes the configuration if and only if there is no `[providers]` table and some pair of credentials is shared |
| ProviderMigration.MigrationDeduplicates | src-tauri/src/commands.rs:1520-1563 | afterwards no pair of credentials is written in two entries, exactly the shared ones are declared, and everything that is not an entry is as it was |
| ProviderMigration.UnsharedStays | src-tauri/src/commands.rs:1520-1563 | an entry whose credentials are in no other stays as it is |
| ProviderMigration.MigrationIsIdempotent | src-tauri/src/commands.rs:1520-1563 | a second run, whatever its walk, changes nothing |
| ProviderMigration.CredentialCounts | src-tauri/src/commands.rs:1497-1515 | the counting loop gives for every pair the number of entries that hold it |
| ProviderMigration.NeedsProviderMigration | src-tauri/src/commands.rs:1487-1492 | true if and only if the rewriting changes something |
| ProviderMigration.AssignProviderIds | src-tauri/src/commands.rs:1520-1540 | the loop over the counts gives out the ids of the model |
| ProviderMigration.RewriteEntries | src-tauri/src/commands.rs:1541-1561 | the loop over the entries rewrites each as the model does |
| ProviderMigration.ApplyProviderMigration | src-tauri/src/commands.rs:1520-1563 | the whole procedure computes the migrated configuration |
| MigrationMeaning.BorrowGivesBack | src-tauri/src/commands.rs:1541-1563 | resolving a rewritten entry puts back exactly the credentials that were taken out |
| MigrationMeaning.TableIsBlindIff | src-tauri/src/commands.rs:1520-1563 | the new providers leave what a table is as a session unchanged if and only if it does not claim one: no session, names a new id, lacks a credential, otherwise deserialises |
| MigrationMeaning.NamingAProvider | src-tauri/src/commands.rs:1541-1563 | replacing the `provider` of a table changes nothing else in a session, and makes one exactly where the table deserialises without it |
| MigrationMeaning.MigrationKeepsIff | src-tauri/src/commands.rs:1520-1563 | at every path the session afterwards is the one before, with the provider named where an entry was rewritten, if and only if no walked table claims a new id, and no rewritten entry that is no session would deserialise without its `provider` or has a session in a table there |
| MigrationByName.MigrationKeepsFound | src-tauri/src/commands.rs:1520-1563 | under that condition every session that was found is found under the same name with the same credentials and fields, and no others are, whatever was replaced and whatever order anything is walked in |
| MigrationByName.MigrationKeepsSessions | src-tauri/src/commands.rs:1520-1563 | under that condition, and if no rewritten entry has a table as its `provider`, the same sessions are found under the same names in the same order, with the same credentials and fields, whatever order the credentials are walked in |
| MigrationByName.MigrationKeepsMeaning | src-tauri/src/commands.rs:1520-1563 | the same for the sessions by name, as loading the file returns them |
| MigrationByName.MigrationKeepsUnclaimed | src-tauri/src/commands.rs:1520-1563 | a condition on the file alone: if no table of an entry names an id that some walk may give out, all sessions by name are kept |
| MigrationByName.MigrationKeepsOldFiles | src-tauri/src/commands.rs:1418-1426 | the configurations the migration is for, without any `provider` key, keep all their sessions |
| MigrationByName.ClaimedIdAddsSession | src-tauri/src/commands.rs:1520-1563 | an entry that claims a new id is no session before, and is one and is found afterwards |
| MigrationByName.ClaimingEntry | src-tauri/src/commands.rs:1520-1563 | the smallest configuration with such an entry: two entries share host `h`, a third names provider `h` |
| MigrationByName.ReplacedProviderAddsSession | src-tauri/src/commands.rs:1541-1561 | an entry with shared credentials whose `provider` is no text, and that is otherwise complete, is no session before and is found afterwards |
| MigrationByName.OverwrittenProviderLosesSession | src-tauri/src/commands.rs:1541-1561 | a session in a table at the `provider` of an entry with shared credentials is lost |
| ProviderCascade.SplitJoin | src-tauri/src/commands.rs:1394-1416 | splitting a dotted name gives back the path it was joined from, if no key has a dot |
| ProviderCascade.OrphansAre | src-tauri/src/commands.rs:1363-1389 | an orphan names the provider and has a model, a base URL or a context window |
| ProviderCascade.RemoveUnder | src-tauri/src/commands.rs:1394-1416 | removing several entries below one key empties the parent exactly when the last goes, not before |
| ProviderCascade.PathsArePending | src-tauri/src/commands.rs:1363-1389 | the orphans found are all there, none inside another |
| ProviderCascade.RemovalIsPruning | src-tauri/src/commands.rs:1327-1416 | removing the orphans one after the other is dropping them, and the parents this empties, in one pass over the tree |
| CascadeNames.CascadePrunesIff | src-tauri/src/commands.rs:1327-1416 | through dotted names the same holds if and only if no key on the way to an orphan has a dot and no orphan stands strictly below an entry with an empty name |
| CascadeNames.DottedKeyIsMissed | src-tauri/src/commands.rs:1394-1416 | in every configuration an entry whose own key has a dot stays with all it holds, orphan or not |
| CascadeNames.EmptyKeyHitsAnother | src-tauri/src/commands.rs:1363-1416 | deleting the provider of an orphan x below an entry with an empty name removes the top-level entry x, whatever it is, and if that orphan is the only one, it stays |
| CascadeTables.VanishesIff | src-tauri/src/commands.rs:1394-1416 | pruning leaves nothing of a table if and only if it is an orphan or held only such tables |
| CascadeTables.UsableIff | crates/oz-config/src/mykey.rs:279-349 | what pruning leaves of a table that is no orphan is a session if and only if the table, read off before, is usable: each field deserialises or vanishes, and what vanishes can be borrowed from another provider |
| CascadeTables.SessionStays | src-tauri/src/commands.rs:1363-1416 | a session that is no orphan keeps its credentials and every field except extra headers that read like an orphan |
| CascadeMeaning.PruningByPath | src-tauri/src/commands.rs:1363-1416 | where all is calm, pruning takes away at every path what is at or below an orphan and leaves every other session as it was |
| CascadeMeaning.PruningShows | src-tauri/src/commands.rs:1363-1416 | where it is not, some path shows another session, or one more |
| CascadeMeaning.DeleteKeepsIff | src-tauri/src/commands.rs:1327-1355 | the whole deletion removes the sessions at or below an orphan, keeps every other one with every field, and adds none, if and only if no other session has extra headers that read like an orphan and no other table is usable without being a session |
| CascadeMeaning.DeleteKeepsSurvivors | src-tauri/src/commands.rs:1327-1355 | then the sessions found afterwards are exactly those not at or below an orphan, and none names the provider |
| CascadeMeaning.NoOrphanAfter | src-tauri/src/commands.rs:1363-1389 | a second search for orphans of the provider finds none, calm or not |
| CascadeMeaning.HeadersLikeAnOrphanAreLost | src-tauri/src/commands.rs:1363-1389 | a session whose `extra_headers` read like an orphan stays without them |
| CascadeMeaning.DroppedFieldAddsSession | src-tauri/src/commands.rs:1363-1389 | an entry with an orphan for a base URL is no session before, and borrows the base URL of the provider it names afterwards |
| CascadeMeaning.CollectProviderOrphans | src-tauri/src/commands.rs:1363-1389 | the recursive walk pushes exactly the orphans' dotted names, in walking order |
| CascadeMeaning.DeleteProvider | src-tauri/src/commands.rs:1327-1355 | the procedure returns the configuration of the model and the number of removed entries, or fails exactly when there is no such provider |
| CascadeMeaning.ClearDefaultKeeps | src-tauri/src/commands.rs:1344-1349 | a default that named a removed entry is cleared, and nothing else changes |
| DefaultSession.NameListedIff | src-tauri/src/commands.rs:1344-1349 | the name of a session is among the removed ones if and only if it stood at an orphan that is in no other |
| DefaultSession.DefaultDanglesIff | src-tauri/src/commands.rs:1344-1349 | a default that named a session dangles afterwards if and only if that session stood below an orphan, or is hidden by a table above it that became a session |
| DefaultSession.DefaultBelowOrphan | src-tauri/src/commands.rs:1344-1349 | the smallest configuration where it does: the default is `a.b`, and `a` uses the deleted provider |
| StreamEvents.CompactLoop | crates/oz-core-types/src/event.rs:320-388 | the loop computes the fold of the model |
| StreamEvents.CompactStreamEvents | crates/oz-core-types/src/event.rs:287-405 | the procedure computes the compacted log, cap included |
| StreamRender.StepRepresents | crates/oz-core-types/src/event.rs:320-388 | one iteration keeps the invariant that the output so far shows what the events so far show |
| StreamRender.UncappedRendersTheSame | crates/oz-core-types/src/event.rs:265-405 | before the cap the compacted log shows exactly what the full log shows: every character of every block in its place, first complete arguments or else the deltas, last results, last status readouts, and every other event |
| StreamCap.CompactionRendersTheSameIff | crates/oz-core-types/src/event.rs:287-405 | the stored log shows exactly what the full log shows if and only if it fits the cap, or all that the cap drops is deltas without text |
| StreamCap.UncappedIs | crates/oz-core-types/src/event.rs:287-391 | before the cap the log is the events that nothing makes redundant, and then the last context readout and the last todo list |
| StreamCap.StoredIsHeadAndTail | crates/oz-core-types/src/event.rs:392-404 | a log of up to 6000 events is stored whole, of a longer one the first and the last 3000 |
| StreamCap.ReadoutsSurviveTheCap | crates/oz-core-types/src/event.rs:392-404 | however long the log, at most 6000 events are stored and the last status readouts are those of the full log |
| StreamLaws.CoalescingIsInvisible | crates/oz-core-types/src/event.rs:211-251 | compacting a coalesced stream is compacting the stream, for every list of typed events |
| StreamCap.CompactionIsIdempotentIff | crates/oz-core-types/src/event.rs:287-405 | compacting a log twice is compacting it once if and only if it fits the cap, or the two events that the cap makes neighbours do not merge |
| StreamCap.OneTooMany | crates/oz-core-types/src/event.rs:392-404 | two text blocks that take turns, one event more than the cap: the stored log shows less, and compacting it again changes it |
| StreamLaws.FlowIsRead | crates/oz-core-types/src/event.rs:265-285 | a reader of the shown flow gets the text of each block, the streamed arguments, the first complete arguments and the other events as the events say them |
| StreamLaws.UncappedKeepsReadings | crates/oz-core-types/src/event.rs:265-391 | block by block and call by call these readings are unchanged by compaction before the cap, for every log |
| StreamLaws.CompactionKeepsReadings | crates/oz-core-types/src/event.rs:265-285 | and after it, for a log that fits |
| StreamCap.StoredInput | crates/oz-core-types/src/event.rs:360-404 | what such a reader finds in the stored log is the first payload of the call, unless the cap dropped it, and then nothing |
| StreamCap.LastPayloadIff | crates/oz-core-types/src/event.rs:360-404 | a reader that applies every complete payload, as the frontend does, ends up with the same one after compaction, for logs of any length, if and only if the first and the last of the call are the same and the cap did not drop it |
| StreamCap.TwoPayloads | crates/oz-core-types/src/event.rs:360-366 | two different payloads of one call: the second was applied, the first is stored |
| EventCollector.Collector.AppendCoalesced | crates/oz-core-types/src/event.rs:211-251 | the last event is extended in place exactly if the new one continues it, and the result says so |
| EventCollector.Collector.EmitPending | src-tauri/src/runner.rs:1263-1279 | what is pending becomes one batch, if there is anything |
| EventCollector.Collector.Receive | src-tauri/src/runner.rs:1297-1408 | receiving an event changes the collector as the model says |
| EventCollector.RunKeepsInvariant | src-tauri/src/runner.rs:1284-1411 | in every interleaving of events and ticks the arrivals stay aligned with the coalesced events, and delivered and pending events are the shown ones in order |
| EventCollector.EverythingIsDelivered | src-tauri/src/runner.rs:1284-1411 | at the end the batches are the received events but the tool-call-ready ones, in order, at most 64 in each, and the collected log compacts as if nothing had been coalesced |
| EventCollector.EachIsDelivered | src-tauri/src/runner.rs:1400-1411 | every event is in the batches as often as it was received, and the tool-call-ready ones never |
| EventBlocks.OneForEachBlock | crates/oz-core-types/src/event.rs:211-251 | coalescing keeps one event for every block of deltas of one text or one call, and every other event |
| EventBlocks.CoalescedIsParted | crates/oz-core-types/src/event.rs:211-251 | no event of a coalesced list continues the text or the arguments of the one before it |
| EventBlocks.BatchesAreFull | src-tauri/src/runner.rs:1258-1411 | a received event completes a batch of exactly 64 or none, and then fewer wait |
| EventBlocks.TickDelivers | src-tauri/src/runner.rs:1284-1296 | when the timer fires all that waits goes out as one batch |
| EventBlocks.ArrivalsAreClocks | src-tauri/src/runner.rs:1297-1332 | in every run the arrival stored with a block is the clock at the event that began it, less that at the first event |
| EventBlocks.DurationsAreClocks | src-tauri/src/runner.rs:1585-1614 | with a clock that does not go back the duration stored with a block is the time from its first event to that of the next block, or to the end |
| EventCollector.DurationsAddUp | src-tauri/src/runner.rs:1585-1614 | the stored durations add up to the time from the first arrival to the end if and only if no arrival is later than the next; otherwise to more |
| EventCollector.DurationsCoverTheRun | src-tauri/src/runner.rs:1585-1614 | with a clock that does not go back they add up to the whole time of the run |
| EventCollector.AttachDurations | src-tauri/src/runner.rs:1585-1614 | each event gets the time to the next one or the end |
| History.BuildHistoryMessages | src-tauri/src/runner.rs:203-381 | the loop with its pending results and skip flag computes the conversation of the model |
| History.HistoryIsConserved | src-tauri/src/runner.rs:203-381 | every tool result with an id and every text that is not empty is in the conversation exactly once, in stored order, from the same speaker, and nothing else is |
| History.RunStandsNext | src-tauri/src/runner.rs:203-381 | the results of a run of tool messages stand in the message right after the assistant message before the run |
| HistoryTurns.HistoryIsItsTurns | src-tauri/src/runner.rs:203-381 | the loop rebuilds the conversation turn by turn: one message for the tool results since the last turn, then that of the user or assistant record, and none for a record merged into the one before it |
| HistoryTurns.UserTurnIsOne | src-tauri/src/runner.rs:319-363 | a user record with results that is not merged itself adds one message if it has anything to say: its results, then its own text or that of the record merged into it, which adds none |
| HistoryTurns.ResultAndNextText | src-tauri/src/runner.rs:329-357 | a result without text and a message after it become one message |
| History.AssistantMessageIs | src-tauri/src/runner.rs:277-318 | an assistant message is its text, if any, and then its tool uses in order with id, name and input; a use without an id or with that of an earlier one adds nothing |
| History.RunIsPairedIff | src-tauri/src/runner.rs:243-279 | each of them finds its tool use there if and only if the stored tool uses are missing or name them all |
| History.EmptyListWins | src-tauri/src/runner.rs:243-279 | one assistant message and one result: with an empty stored list the result stands without its tool use, without the list it has it |
| History.MessageIds | src-tauri/src/runner.rs:277-312 | the ids of an emitted assistant message are those of the uses it was made from |
| SectionEditor.EntrySets | src/search_keys.rs:338-347 | the written line is read as setting the key to the quoted value |
| Text.TrimIs | src/search_keys.rs:316-347 | trimming takes away exactly the white space at both ends |
| SectionEditor.HeaderIsRead | src/search_keys.rs:316-336 | a name in brackets begins a section, whatever white space stands around it |
| SectionEditor.KeyIsRead | src/search_keys.rs:338-347 | text before the first `=` is a key, whatever white space stands around it |
| SectionEditor.CommentIsRead | src/search_keys.rs:338-347 | a line that starts with `#` sets nothing |
| SectionEditor.NewEntryPlace | src/search_keys.rs:358-372 | a new entry of a section stands right after the section's last line that is not blank |
| SectionEditor.LinesOfJoined | src/search_keys.rs:350-385 | what is written is read back line by line, but for one carriage return at the end of a line |
| SectionEditor.SetThenGet | src/search_keys.rs:350-385 | in every text, a value that was set is read back |
| SectionEditor.SetKeepsOthers | src/search_keys.rs:350-385 | in every text, every other key of every section reads as before |
| SectionEditor.SetTwiceIff | src/search_keys.rs:350-385 | setting twice gives the text of setting once if and only if no line but the replaced one ends in a carriage return of its own |
| SectionEditor.ReturnsAreLost | src/search_keys.rs:350-385 | a comment that ends in two carriage returns and a newline: setting twice loses both, setting once only one |
| SectionEditor.SetThenRemove | src/search_keys.rs:388-408 | removing a key that was just inserted into an existing section gives back the lines there were, less one carriage return at the end of each |
| SectionEditor.RemoveKeepsOthers | src/search_keys.rs:388-408 | in every text, after removing a key every other key of every section reads as before |
| SectionEditor.UpsertSectionValue | src/search_keys.rs:350-385 | the procedure, with its loop back over blank lines, computes the new text of the model |
| SectionEditor.RemoveSectionValue | src/search_keys.rs:388-408 | the procedure computes the new text of the model and whether a line went |
| SectionBytes.TextIsCut | src/search_keys.rs:350-408 | every text is what stands before the place of an edit, the line that is replaced, if any, and what stands after it |
| SectionBytes.SetKeepsBytesIff | src/search_keys.rs:349-385 | after setting a key, what stood before and after its place is there byte for byte, around what was written, if and only if no line there ends in CRLF and the last one has its newline |
| SectionBytes.RemoveKeepsBytesIff | src/search_keys.rs:387-408 | after removing a line, exactly under the same condition |
| SectionBytes.RemoveNothingIff | src/search_keys.rs:387-408 | if there is no such key, the text stays as it was if and only if every line ends in a newline alone and the text is not one empty line |
| SectionBytes.ReturnIsLost | src/search_keys.rs:349-408 | the smallest text that loses a byte, to setting any key and to removing none: a comment that ends in CRLF |
| Reminders.Schedule | crates/oz-tools/src/schedule_reminder.rs:84-119 | a requested time in the future is kept, and without one the reminder is due as many seconds after the clock as the delay says, 60 if it is missing, between 5 and 3600; it repeats at most ten times, every 5 to 3600 seconds |
| Reminders.ReminderLoop.FireReminder | src-tauri/src/lib.rs:1219-1267 | a fire is recorded, and the reminder is pushed again with one repeat less if it has any left |
| Reminders.ReminderLoop.OnReceive | src-tauri/src/lib.rs:1842-1870 | a received reminder fires at once or waits, as the model says |
| Reminders.ReminderLoop.TakeDue | src-tauri/src/lib.rs:1879-1890 | the loop with removal in place, under the lock, splits the list into due and waiting reminders, in order |
| Reminders.ReminderLoop.FireTaken | src-tauri/src/lib.rs:1891-1902 | the next reminder that was taken fires, or waits again if there is no window |
| Reminders.ReminderLoop.OnTick | src-tauri/src/lib.rs:1871-1906 | a tick in which no run ends takes and fires all that is due |
| Reminders.TickSplits | src-tauri/src/lib.rs:1879-1890 | a tick takes every due reminder out exactly as often as it was there, and no other |
| Reminders.TakeView | src-tauri/src/lib.rs:1879-1890 | taking what is due changes nothing in a series of one reminder |
| Reminders.FireNextView | src-tauri/src/lib.rs:1891-1902 | firing what was taken re-arms its own series and leaves every other as it was |
| Reminders.DueFiresOnArrival | src-tauri/src/lib.rs:1842-1870 | a reminder that is due within 100 ms when it is received fires at once, if it has a session and there is a window |
| Reminders.TickFiresIff | src-tauri/src/lib.rs:1871-1906 | a tick with a window fires a waiting reminder if and only if it is due within 100 ms, and arms it again for its interval later if it has repeats left |
| Reminders.SeriesIsKept | src-tauri/src/lib.rs:1842-1906 | in every run, with run ends also between taking and firing, a series fires at most once more than it may repeat, and never before its time or the time its last fire set; a durable series, and one whose session's runs do not end, is still waiting, unchanged but for time and repeats, or has fired exactly that often |
| Reminders.FiresAreSpaced | src-tauri/src/lib.rs:1219-1267 | any two successive fires of a scheduled reminder are at least its interval less 100 ms apart, so at least 4.9 s, whatever the clock does between them |
| Reminders.SurvivorsOf | src-tauri/src/commands.rs:2699-2749 | the clean-up at the end of a run treats every series by itself |
| Reminders.ReminderLoop.OnRunEnd | src-tauri/src/commands.rs:2716-2749 | the retain loop leaves a reminder as often as it was there if its session is another, it is durable, or the run was not aborted and its time is still to come, and not at all otherwise; it returns how many went |
| Reminders.RunEndDrops | src-tauri/src/commands.rs:2699-2731 | so it is for every list |
| Reminders.AbortStopsIff | src-tauri/src/commands.rs:2699-2731 | aborting a run leaves none of its reminders in the list, and none to fire if and only if the tick in progress had taken none |
| Reminders.TakenReminderOutlivesItsRun | src-tauri/src/lib.rs:1879-1902 | a run in which one had been taken: it fires after the abort and is waiting again |
| Cdp.CdpInner.TakeId | crates/oz-browser/src/cdp.rs:386-391 | an id is given out and the counter moves past it |
| Cdp.CdpInner.Register | crates/oz-browser/src/cdp.rs:393-399 | a request is registered if and only if the connection is open |
| Cdp.CdpInner.TakeSender | crates/oz-browser/src/cdp.rs:428-445 | an entry is removed, and found if it was there |
| Cdp.CdpInner.Close | crates/oz-browser/src/cdp.rs:192-196 | the connection is closed and every pending entry is taken out |
| Cdp.Perform | crates/oz-browser/src/cdp.rs:378-445 | one step of a request or the reader, taken with these methods, leaves the fields of the next state of the model and reaches exactly the requests that get a reply there |
| Cdp.Serve | crates/oz-browser/src/cdp.rs:378-445 | so does any run of them |
| Cdp.RunKeepsInvariant | crates/oz-browser/src/cdp.rs:378-445 | in every interleaving: an id is never given out twice, no entry is left after the close, at most one reply per request, and whoever waits without a reply has its entry |
| Cdp.InboxAfter | crates/oz-browser/src/cdp.rs:428-445 | a step puts into a channel nothing, or the first and only reply: the response with that id or the close |
| Cdp.ReplyIsFinal | crates/oz-browser/src/cdp.rs:428-445 | once a request has its reply no step changes it |
| Cdp.DoneIsFinal | crates/oz-browser/src/cdp.rs:401-426 | a request that is over stays as it ended |
| Cdp.RepliesAreOwn | crates/oz-browser/src/cdp.rs:428-445 | what a request gets is what a response with its own id said, or the end of the connection |
| Cdp.CloseReachesEveryone | crates/oz-browser/src/cdp.rs:192-196 | after the close nothing is pending and nobody waits without a reply |
| Cdp.LateResponseIsDropped | crates/oz-browser/src/cdp.rs:417-423 | a response that comes after a timed-out entry was removed changes nothing |
| Cdp.EntryStaysUntil | crates/oz-browser/src/cdp.rs:401-426 | the entry of a request that is over stays until its response or the close takes it, and no longer |
| Cdp.FailedSendIsHarmless | crates/oz-browser/src/cdp.rs:401-411 | a failed send leaves the table as it is, and whatever happens then the request stays failed |
| Approval.PendingTable.SettleEntry | src-tauri/src/approval.rs:198-217 | an entry taken by a call of another session is put back, else the decision goes through |
| Approval.Perform | src-tauri/src/approval.rs:75-220 | one step of a request or a call, taken with the methods of the table, leaves the table of the next state of the model, hands the call what it took, and sends a decision exactly where one arrives |
| Approval.DecisionWords | src-tauri/src/approval.rs:183-196 | five words are decisions, each its own; any other is refused |
| Approval.RunKeepsInvariant | src-tauri/src/approval.rs:75-220 | in every interleaving the sender of a request is in the table or in the hand of one call, and its channel holds at most one decision |
| Approval.InboxAfter | src-tauri/src/approval.rs:198-217 | a step puts into a channel nothing, or the first and only decision, from a call whose session owns the request |
| Approval.DecisionsAreOwned | src-tauri/src/approval.rs:75-220 | a decision reaches a request at most once, and only from a call that named the owning session, whatever put-backs and timeouts do |
| Approval.OutcomeIsOwned | src-tauri/src/approval.rs:167-172 | a request that ends with a decision got it that way |
| Approval.WaitingIsAnswerable | src-tauri/src/approval.rs:75-220 | in every interleaving a request that waits without a decision has its sender in the table under its owner, or in the hand of a call |
| Approval.AnswerArrivesIff | src-tauri/src/approval.rs:183-220 | a decision by the owning session arrives; one by another session leaves everything as it was |
| Approval.LeavingClears | src-tauri/src/approval.rs:102-119 | a request that is given up takes its own entry out of the table and is over |
| Approval.LateEntryIsHarmless | src-tauri/src/approval.rs:198-217 | a request that is over stays as it ended, even if its entry is put back later |
| PathTrust.Trust.InsertInto | crates/oz-core-types/src/path_trust.rs:45-53 | a full set drops one entry, any one, before the path is added |
| PathTrust.Trust.ApprovePath | crates/oz-core-types/src/path_trust.rs:135-146 | an approval changes the registry as the model says, dropping any session if there are too many |
| PathTrust.Trust.DenyPath | crates/oz-core-types/src/path_trust.rs:149-158 | a denial changes the registry as the model says |
| PathTrust.Trust.ForgetSession | crates/oz-core-types/src/path_trust.rs:185-188 | nothing of the session is approved or denied any more |
| PathTrust.RunIsBounded | crates/oz-core-types/src/path_trust.rs:29-53 | in every run the approved and denied paths of a session are disjoint and at most 64 each |
| PathTrust.RegistryIsHonest | crates/oz-core-types/src/path_trust.rs:135-188 | a path reads as approved only if the latest approve, deny or forget about it was an approve, and as denied only if it was a deny, whatever was dropped |
| PathTrust.RoomyRegistryIsExact | crates/oz-core-types/src/path_trust.rs:135-188 | if nothing ever had to be dropped the registry says exactly the latest decision |

## Left out

- Files and memory maps: I/O errors, flush order below a single durable change, directory creation and file permissions; a change is either done, torn at a byte, or not done.
- Checkpoint contents: a checkpoint is its turn, the number of its messages and the rest as text; the serialiser is a parameter. Payloads are assumed shorter than 2^32 bytes, as their length is stored in 32 bits. The version bytes of the log are never checked by the code and are not modelled.
- Sessions in the checkpoint store: one session. File prefixes of different session ids can overlap, and ids that sanitise alike share files. Git snapshots, purge, garbage collection and `load_latest_loop_checkpoint` are not part of this model.
- CheckpointRuns.ResumeNeverGoesBack: for runs that go on from what a reader would get. A run that starts over below an older checkpoint of the same session is covered for its single saves only (`CheckpointSafety.FinishedSaveIff`).
- Retention.CleanupIsBounded: for running totals that do not saturate, as those of files below 2^63 bytes never do (`Retention.CleanupIsBoundedForFiles`).
- Schema-driven repair of tool arguments (`repair_args_against_schema`): it moves at most one value and would add only easy members.
- Map walks: a hash map or argument object is walked in an arbitrary order given as a parameter; TOML tables are walked in an order that depends only on their keys that are tables, as with sorted tables.
- MigrationByName.MigrationKeepsSessions: the order in which they are found, and so which of two sessions of one name is loaded, only for files in which no rewritten entry has a table as its `provider`; without that table the rest of the entry may be walked in another order. `MigrationByName.MigrationKeepsFound` covers the others.
- MigrationMeaning.MigrationKeepsIff: the new ids depend on the walk of the hash map, and so does the condition; `MigrationByName.MigrationKeepsUnclaimed` has one that does not. Writing the file, its backup and the detection before it are not part of this model.
- CascadeNames.CascadePrunesIff: not for configurations that have both an orphan strictly below an entry with an empty name and one whose dotted name is empty or starts with a dot: there one removal that goes astray may make up for another.
- CascadeMeaning.DeleteKeepsIff: for configurations whose orphans the dotted names lead back to; `CascadeNames.CascadePrunesIff` and `CascadeNames.EmptyKeyHitsAnother` say what happens to others.
- DefaultSession.DefaultDanglesIff: for configurations whose table keys are not empty and have no dots, in which a name fixes its path.
- Reading a session table: TOML floats and dates are kept by identity, and `api_mode` is read as text only.
- Durations attached to events before compaction: the merged event keeps the duration of its first part, so coalescing is invisible up to durations. Truncation of tool outputs happens before the collector and is not modelled; nor are the notifications for questions to the user.
- JSON values are read through the fields the code reads; `rest` stands for all others.
- SectionEditor.SetThenGet: for keys that are trimmed, have no `=` or newline and do not start with `#`, section names without a newline, and values that `validate_key` accepts. Reading is the editor's own reading of a line, not a TOML parser.
- Reminders.FiresAreSpaced: no clock is within an hour of 2^64 milliseconds. Delivery, waking the agent and the persisted list are not modelled; the list lives in one process.
- Cdp: command payloads, reconnects and the launch of the browser; the id counter is unbounded.
- Approval: request ids are fresh by assumption. A put-back that races a timeout leaves an entry in the table; only delivery is proved. The full-access shortcut answers without a request and is not modelled.
- PathTrust: paths are compared in resolved form, which depends on the file system. No bound on the number of sessions is proved, since a denial does not enforce one.
- Pagination of sessions, the daemon, upgrade, platform set-up, user interface, memory calls and audit redaction are not part of this model.
