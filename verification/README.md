# pgSafe: a verified model of its storage, retention and resume logic

pgSafe backs up PostgreSQL clusters. This project models the part of it that decides whether a
backup can be trusted, in Dafny 4.11, and proves what that part promises:

- the fan-out writer and its goroutines, under every schedule and every sink failure (`TeeWriter`,
  `TeeDelivery`);
- concurrent WAL archive pushers racing on one store, how each call ends, and what of their work a crash can
  undo (`Archive`, `ArchivePush`, `PushOutcome`, `PushDurability`);
- retention planning, parent-chain walks, pruning and what restore finds afterwards (`Chains`,
  `Retention`, `Planning`, `Prune`, `Restore`), on top of 64-bit LSN and segment-name arithmetic (`Wal`);
- a whole backup run over a file system that can lose power at any system call (`Crash`, `Posix`,
  `WalWait`, `BackupRun`), and a run over several backends that fail independently (`MultiBackend`);
- resuming: discovery, the reuse plan, and agreement of manifest and storage after any number of
  broken attempts (`Discovery`, `Resume`, `Attempts`), with the digests of the filter chain (`Filter`);
- the manifest printer against its checksum checker (`Scan`, `Manifest`, `ManifestText`) and against a JSON
  reader that gives the builder's fields back (`Json`, `ManifestReader`, `ManifestRoundTrip`, `ManifestBuilder`);
- the RPC envelope and its two encodings (`Framing`, `DualCodec`).

`Common`, `Arith`, `Text`, `Paths`, `Sorting` and `Storage` hold shared vocabulary. `dafny verify dfyconfig.toml`
checks everything.

## How things are modelled

- SHA-256 is a function parameter. A function from all byte strings to 32 bytes cannot be injective,
  so no lemma assumes that it is: a result that needs collision resistance states it for the finite set
  of contents that occur in the run, and the others are equivalences with equality of the two hashes.
- Concurrency is a state machine; a run is the list of steps some scheduler chose. Calls that may
  fail are nondeterministic.
- A crash keeps any subset of the directory changes not yet fsynced, in order, and replaces a file whose
  data was not fsynced by arbitrary bytes. Directory creation counts as durable. Every system call may go
  through, fail, or be where power is lost, so an unconditional postcondition holds at every crash point.
- Compression and encryption are streaming encoders with an inverse; the checkpoint decoder, calendars, the clock,
  the listing of a changing WAL archive and everything PostgreSQL answers are parameters.

## What the proofs found

- `CutoffSafeIff`, `NeededWalSurvives`: prune's cutoff name assumes 16 MiB segments. It is safe exactly for
  segments of at most 16 MiB, or an oldest LSN from 4 GiB up, or one below 16 MiB; for every other cluster the
  segment that holds the oldest needed LSN is deleted. From 4 GiB up it also differs from PostgreSQL's
  name (`CutoffAgrees`), always on the cautious side.
- `DoomedIff`, `HighSegmentsAreNeverPruned`: the cutoff counts 16 MiB units in groups of 2^32 where segment names count
  4 GiB. With the oldest needed LSN from 4 GiB up to 64 PiB, only WAL of the first 4 GiB of the log is ever pruned.
- `PushedKeysAreNeverPruned`: `pruneWAL` only looks at 24-character basenames, and `Push` writes
  `<segment>-<64 hex digits>`, so archived segments are never pruned.
- `KeepsSomethingIff`, `OldArchiveExpires`: the policy's documentation promises a refusal when no rule keeps a
  chain, but only the all-zero policy is refused. The exact condition for keeping something is stated over the
  policy and the chains; negative numbers, or a daily rule over an archive older than its window, get a plan
  that expires every chain.
- `CleanResumable`, `DuplicateBreaksPlan`: with a duplicated path in a checkpoint the reuse plan can name an
  object that the same call deleted; the contract gives the exact condition.
- `FinalizedManifestChecks`: a file path equal to `Manifest-Checksum`, or ending in `"Manifest-Checksum`, makes
  the checker hash only the text before it.
- `OverlapMisreads`: the server codec remembers one request, so from any reachable state a call that starts while
  one of the other encoding is unanswered can have that one's response written in one encoding and read in
  the other. Without such a call it never happens (`ResponsesReadAsWritten`).
- `DivergenceAnswers`, `DivergenceCanBeHidden`: the POSIX listing looks each name up after the readdir and, against
  its own comment, turns one that is gone into "not found" for the whole directory, which `FindSegment` reads as "missing". With two contents
  of a segment committed, a lookup says "missing" exactly when a staging key of the directory vanished under it, and
  otherwise reports the mismatch or fails. `WaitForWAL` and `Get` see the same answer.
- `SeenSuccessCanBeLost`: a push that succeeds because it saw another pusher's key can be undone by a crash, when
  that key's directory was not yet synced; `DurableIffSynced` gives the exact condition over the file system.
- `FrameRoundTripIff`: `writeLenPrefixed` cuts a length to 32 bits without an error.
- `RunSimple`, `RunMulti`, `ForeignIff`, `DottedManifest`: a tar entry whose name cleans to `backup_manifest`, such as
  `./backup_manifest`, passes the traversal test and is uploaded under the manifest's own name in a full backup. The
  run then never succeeds, and once the copying is over every crash shows that entry as the manifest; without such
  an entry a visible manifest keeps its promise.

## Model

| member | source | states |
|---|---|---|
| `TeeWriter.StepKeepsInv` | internal/storage/multi/multi.go:53-139 | every step of the caller or of any goroutine keeps the invariant that ties channels, flags, errors and sinks to the accepted stream, and that stream to a sink that was given all of it |
| `TeeWriter.RunKeepsInv` | internal/storage/multi/multi.go:53-139 | so does every schedule with every pattern of sink failures |
| `TeeWriter.SinksHoldPrefixes` | internal/storage/multi/multi.go:70-130 | at every moment each sink holds a prefix of the accepted bytes, and received chunks plus queue are a prefix of the accepted chunks, all of them while the sink is held |
| `TeeWriter.CleanSinkHoldsEverything` | internal/storage/multi/multi.go:80-150 | after Close a nil error means the sink got exactly the concatenation of all writes and closed cleanly; Close is nil iff some sink is clean; an error is recorded iff the sink was nil, a write failed or its close failed; what was accepted some one sink was given whole |
| `TeeWriter.AcceptedWasGiven` | internal/storage/multi/multi.go:98-129 | after every schedule, with no call in progress, some one sink was given every accepted chunk, in order and nothing else, unless nothing was accepted |
| `TeeDelivery.WriteAcceptedIffGiven` | internal/storage/multi/multi.go:98-129 | over one Write under every schedule each sink is given the chunk at most once, and the call is accepted iff some sink was given it |
| `TeeWriter.NeverStuck` | internal/storage/multi/multi.go:98-139 | while a Write or Close is in progress some step is enabled, for every channel depth including unbuffered |
| `TeeWriter.StepLowersRank` | internal/storage/multi/multi.go:70-139 | every step inside a call, whoever takes it, lowers one measure |
| `TeeWriter.CallsFinish` | internal/storage/multi/multi.go:98-139 | hence every schedule inside a call is bounded and one that cannot go on has returned |
| `Wal.LsnRoundTrip` | internal/manifest/manifest.go:34-62 | parsing a printed LSN gives it back, for all 64-bit values |
| `Wal.NameFields` | internal/backup/wallag.go:19-46 | the 32-bit conversions of a segment name never truncate |
| `Wal.NamesAreUpperCase` | internal/backup/wallag.go:37-46 | segment and cutoff names are 24 characters of 0-9 and A-F |
| `Wal.NameOrder` | internal/backup/wallag.go:37-46 | names of one segment size order lexicographically by timeline, then segment number, and are equal only for the same segment of the same timeline |
| `Wal.WALSegmentsBetween` | internal/backup/wallag.go:56-76 | the names cover [start, stop) exactly: every position is in a named segment, every named segment is needed, consecutive and strictly increasing; empty and single-point ranges as the source returns them |
| `Wal.RangeIsExactCover` | internal/backup/wallag.go:56-76 | a consecutive run of segment numbers is that exact cover |
| `Wal.CutoffAgrees` | internal/retention/prune.go:139-144 | prune's cutoff name is PostgreSQL's 16 MiB name iff the LSN is below 4 GiB |
| `Wal.CutoffSafeIff` | internal/retention/prune.go:139-144 | the cutoff does not pass the segment holding the LSN, iff one of three checkable conditions holds |
| `Archive.ArchivableForms` | internal/wal/archive/archive.go:318-336 | segments, backup labels, partial segments and history files are all archivable |
| `Archive.SegmentKeyInjective` | internal/wal/archive/archive.go:65-84 | a key that starts with a segment's prefix is that segment's, on that timeline; keys differ iff digests do |
| `Archive.BasenameRoundTrip` | internal/wal/archive/archive.go:90-98 | the basename of a committed key gives the name back iff it is a WAL segment name |
| `Archive.CommittedIsNotTmp` | internal/wal/archive/archive.go:74-130 | a committed key is never taken for a staging key |
| `Archive.TmpKeysDiffer` | internal/wal/archive/archive.go:146-216 | staging keys with different random parts differ |
| `Archive.FindSegment` | internal/wal/archive/archive.go:103-130 | the loop over the listing computes the lookup; a listing that ends in "not found" is answered "missing", another error is reported |
| `Archive.ListDir` | internal/storage/posix/posix.go:286-330 | the walk lists the visible names, and reports "not found" iff one of them is gone when it is looked up |
| `Archive.LookupMeans` | internal/wal/archive/archive.go:103-130 | missing, found and mismatch, each with its iff |
| `Archive.Get` | internal/wal/archive/archive.go:263-292 | content comes from the only matching key; divergence is reported iff the listing shows two matches, not archived iff it shows none or ended in "not found" |
| `ArchivePush.RunKeepsInv` | internal/wal/archive/archive.go:146-216 | every interleaving of any number of pushers keeps the archive invariant, with the overwriting rename and with listings that lose an entry |
| `ArchivePush.CommittedNeverChanges` | internal/wal/archive/archive.go:146-216 | the content of a committed key never changes afterwards |
| `ArchivePush.PushIsSafe` | internal/wal/archive/archive.go:146-216 | every committed key holds bytes of its own digest, and a pusher that reported success finds its source bytes under its key |
| `ArchivePush.IdenticalPushersNeverMismatch` | internal/wal/archive/archive.go:171-179 | pushers of identical bytes never report a mismatch |
| `PushOutcome.DivergentPushRefused` | internal/wal/archive/archive.go:164-180 | a push that meets another committed content of its segment never uploads: unless its listing ends in "not found" it is looking, has reported the mismatch or an error, in every continuation, and every completed listing makes it report the mismatch |
| `PushOutcome.RepushIsIdempotent` | internal/wal/archive/archive.go:156-162 | a push of archived bytes only looks at the store, in every run, and its Stat makes it a success |
| `PushOutcome.FailsIffOwnError` | internal/wal/archive/archive.go:146-216 | in every run a push fails iff one of its own calls reported an error |
| `PushOutcome.PushIsBounded` | internal/wal/archive/archive.go:146-216 | whatever the other pushers do, a push takes at most eight steps |
| `PushOutcome.PushCanMove` | internal/wal/archive/archive.go:146-216 | a push that has not returned has a step of its own in which nothing fails |
| `PushOutcome.NoStagingLeft` | internal/wal/archive/archive.go:190-216 | a push that has returned has left no staging key, unless its clean-up delete failed |
| `ArchivePush.CompletedListingDiverges` | internal/wal/archive/archive.go:103-130 | a listing that completes after two contents of a name were committed yields a mismatch, even while pushers run |
| `ArchivePush.DivergenceAnswers` | internal/wal/archive/archive.go:103-130 | a lookup begun after the divergence can answer mismatch, can fail, and can answer "missing" iff a staging key of the directory vanished during it |
| `ArchivePush.DivergenceCanBeHidden` | internal/wal/archive/archive.go:105-109 | a run with two committed contents in which a lookup answers "missing" |
| `ArchivePush.FoundIsGenuine` | internal/wal/archive/archive.go:103-130 | a found key is committed, of exactly that name, holds bytes of its digest, and is the only one present when the listing began |
| `PushDurability.PutFileMeans` | internal/storage/posix/posix.go:105-184 | a Put leaves its file durable and its directory settled, and other directories exactly as they were |
| `PushDurability.StepKeepsLinked` | internal/wal/archive/archive.go:146-216 | every step of a pusher, through the system calls made for it, keeps archive and disk in agreement: an archived key's file is complete, and absent after some crash iff the directory was not synced since |
| `PushDurability.DurableIffSynced` | internal/wal/archive/archive.go:146-216 | in every run a committed segment is durable iff it was there at the start or its directory was synced while it was there; otherwise a crash can leave nothing under its key, and never other bytes |
| `PushDurability.OwnSuccessSurvives` | internal/wal/archive/archive.go:199-202 | the segment of a call whose own Commit returned nil survives every crash from then on, with the call's bytes |
| `PushDurability.SeenSuccessCanBeLost` | internal/wal/archive/archive.go:156-175 | a run in which a call succeeds on another one's unsynced rename and a crash of the file system shows no such key |
| `Chains.RootWithinBound` | internal/retention/retention.go:200-217 | a reachable full is at most as many links away as there are records, cycles and orphans included |
| `Chains.RootOf` | internal/retention/retention.go:200-217 | the loop returns the full reached by following parents iff one is reachable |
| `Chains.ChainFromIff` | internal/restore/chain.go:94-116 | the bounded walk answers with a list iff it is a root-to-leaf chain of parent links within the bound |
| `Chains.ChainHasNoRepeats` | internal/restore/chain.go:94-116 | such a list has no duplicate |
| `Chains.BuildChain` | internal/restore/chain.go:94-116 | the loop returns exactly that list, in restore order |
| `Retention.GroupChains` | internal/retention/retention.go:172-196 | the two loops compute the fulls and, per full, the incrementals whose root it is |
| `Retention.KeepFulls` | internal/retention/retention.go:95-101 | a chain is picked iff fewer than N chains stopped later, or at the same time with a lesser ID, for every map order |
| `Retention.ApplyBucketRule` | internal/retention/retention.go:243-273 | adds one newest chain of every non-empty bucket in the window and nothing else |
| `Planning.Choose` | internal/retention/retention.go:95-121 | the kept set is the union of what each engaged rule picks |
| `Planning.Evaluate` | internal/retention/retention.go:83-152 | the plan of the chosen chains, or the empty-policy error iff every field is zero; the plan keeps something iff an engaged rule has a chain to keep, and every backup of a chain that fewer than keepFulls stopped after, or young enough, is on its kept list |
| `Planning.KeptIff` | internal/retention/retention.go:95-121 | a chain is kept iff fewer than N chains stopped later, or it stopped within the age, or a bucket rule picked it |
| `Planning.CalendarIsKept` | internal/retention/retention.go:243-273 | every chain that stopped in one of the last N days, weeks or months has a kept one of that unit that stopped no earlier; picks lie in their window, one for each unit |
| `Planning.OldestMeans` | internal/retention/retention.go:123-152 | no kept full starts before the plan's LSN, which is one of their starts when all can be read and zero when one cannot |
| `Planning.ChainsAreApart` | internal/retention/retention.go:172-196 | no backup is in two chains |
| `Planning.PlanPartitions` | internal/retention/retention.go:123-152 | kept and expirable are disjoint, together exactly the fulls and the incrementals that reach one, each chain whole, no ID twice |
| `Planning.KeepsSomethingIff` | internal/retention/retention.go:25-121 | the kept set is not empty iff an engaged rule has a chain to keep, a condition on the policy and the chains |
| `Planning.PlanKeepsIff` | internal/retention/retention.go:123-152 | the plan lists a kept backup iff a chain is kept; without one it needs no WAL |
| `Planning.OldArchiveExpires` | internal/retention/retention.go:73-80 | a valid policy, one daily rule, for which an archive older than its window keeps nothing |
| `Prune.Prune` | internal/retention/prune.go:27-58 | whatever fails, only objects of expirable backups and WAL below the cutoff go; a dry run changes nothing; success means all of them are gone; the reported backups, file count and WAL paths are exactly what is, or would be, deleted |
| `Prune.DryRunForetells` | internal/retention/prune.go:33-34 | with one directory per backup the dry run's file count is the real one's |
| `Prune.PruneWal` | internal/retention/prune.go:70-110 | the WAL pass removes exactly the names below their timeline's cutoff |
| `Prune.NeededWalSurvives` | internal/retention/prune.go:70-144 | no segment at or after the oldest needed LSN is doomed on any timeline when the cutoff is safe; when it is not, the segment of that LSN is doomed |
| `Prune.DoomedIff` | internal/retention/prune.go:70-144 | exactly which segments go, by the halves of the two positions |
| `Prune.HighSegmentsAreNeverPruned` | internal/retention/prune.go:70-144 | with the oldest LSN from 4 GiB to 64 PiB, a segment from 4 GiB up is never doomed |
| `Prune.FlatDoomedIff` | internal/retention/prune.go:112-133 | a segment stored without its timeline's directory is judged the same, by the timeline in its name |
| `Prune.UnreadableStartPrunesNothing` | internal/retention/prune.go:70-73 | a kept full whose start LSN cannot be read keeps all WAL |
| `Prune.PushedKeysAreNeverPruned` | internal/retention/prune.go:83-110 | no key written by Push is doomed |
| `Restore.SameWalk` | internal/restore/chain.go:94-116 | restore's walk is the same wherever a parent-closed set of sidecars is the same |
| `Restore.KeptBackupsStayRestorable` | internal/retention/prune.go:35-58 | after executing any plan, even partly, the chain built from every kept backup is the same and every object of its backups is intact |
| `Restore.KeptWalSurvives` | internal/retention/retention.go:123-138 | WAL at or after any kept full's start survives that execution |
| `Crash.MayShowIff` | internal/storage/posix/posix.go:140-184 | the contents a crash may show under a name are exactly those of the name's possible targets |
| `Crash.NowIsReplay` | internal/storage/posix/posix.go:140-184 | the running system sees the directory with every change made |
| `Crash.FlushTargets` | internal/storage/posix/posix.go:167-184 | fsync of a directory settles its names as the running system sees them and leaves other names alone, renames between directories included |
| `Crash.DurableIff` | internal/storage/posix/posix.go:140-184 | a content is durable iff every possible target is a synced file of that content |
| `Posix.Backend.Put` | internal/storage/posix/posix.go:105-125 | opening a writer changes no name but its staging name and names staged for that |
| `Posix.Writer.Write` | internal/storage/posix/posix.go:135-137 | a failed write leaves a prefix; nothing else changes |
| `Posix.Writer.Close` | internal/storage/posix/posix.go:140-184 | at every crash point the final name shows what it could show before or the complete content; after nil the content survives any crash; a second Close does nothing |
| `Posix.Backend.Commit` | internal/storage/posix/posix.go:196-226 | for any two names: an existing final is refused; in every crash image the complete content is under tmp or final; after nil it is durable |
| `Posix.Backend.Delete` | internal/storage/posix/posix.go:344-364 | a missing file is told apart; other names keep their outcomes; the name shows its old content or nothing |
| `Posix.ClosingIsAtomic` | internal/storage/posix/posix.go:140-184 | the state kept through Close implies old-or-complete |
| `Posix.RenameReachable` | internal/storage/posix/posix.go:196-226 | a rename that a crash may lose still leaves the content under one of the two names in each image |
| `Posix.UnsyncedRenameCanVanish` | internal/storage/posix/posix.go:210-226 | a rename to a new name can be lost until its directory is synced, and not afterwards |
| `WalWait.MissingSegments` | internal/backup/wallag.go:138-150 | a segment not reported missing was found during the round; for a reported one a listing of the round did not show it or ended in "not found" |
| `WalWait.WaitForWAL` | internal/backup/wallag.go:102-131 | success means every segment was found while waiting; a timeout comes after the deadline and names segments for which that was so; the polling ends |
| `BackupRun.StoreFile` | internal/backup/backup.go:653-668 | success means the whole wire content is durable, whatever the chunking; failure, even with a partial file committed, touches no other name |
| `BackupRun.Checkpointer.OnAddFile` | internal/backup/resume.go:96-109 | counts, flushes every N-th file, gives up after a failure without failing the run; no crash can show anything under the checkpoint's name but what it could before and the new checkpoint |
| `BackupRun.Flush` | internal/backup/resume.go:111-143 | success means the new checkpoint is durable; only checkpoint names are touched |
| `BackupRun.CopyEntries` | internal/backup/backup.go:553-705 | the loop lists exactly the regular entries in order, each stored under its cleaned name, with all of them durable, none of them absolute or with two dots in a row, and, unless one cleans to its name, no manifest visible |
| `BackupRun.Publish` | internal/backup/backup.go:755-828 | from manifest.tmp to commit: the files stay durable; a manifest that any crash can show is the complete one, with the sidecar durable; a file of the manifest's name makes the commit fail |
| `BackupRun.RunSimple` | internal/backup/backup.go:417-840 | for every tar stream, stopped anywhere: if any crash image shows the manifest, it is the finalized one, every listed file and the sidecar are durable in full, and every bracket segment had been seen in the archive; an entry whose name cleans to the manifest's instead rules out success; and any checkpoint that a crash shows, at whatever point, lists the first files of the stream, each of which, if no other entry or pgSafe uses its name, every crash shows in full |
| `BackupRun.DirsAre` | internal/backup/backup.go:561-570 | the listed directories are the directory entries' names without their trailing slashes, except "" and "." |
| `BackupRun.ForeignIsShown` | internal/backup/backup.go:601-631 | once an entry of the manifest's cleaned name is stored, every crash shows its bytes as the manifest and a commit is refused |
| `BackupRun.ForeignIff` | internal/backup/backup.go:578-628 | the run's condition is that some regular entry's name cleans to `backup_manifest` |
| `BackupRun.DottedManifest` | internal/backup/backup.go:578-628 | `./backup_manifest` passes the traversal test and is joined to the manifest's key |
| `BackupRun.LastWins` | internal/backup/backup.go:553-705 | a stored name holds the content of the last entry that cleans to it |
| `Paths.JoinIsPlace` | internal/backup/backup.go:628-628 | joining the backup's directory and a name is the directory followed by the cleaned name |
| `MultiBackend.TeeRunAllowed` | internal/storage/multi/multi.go:133-150 | every finished run of the fan-out machine gives a report the multi-backend run allows for |
| `MultiBackend.MultiState.PutMulti` | internal/backup/backup.go:356-375 | the sinks are exactly the backends still alive |
| `MultiBackend.MultiState.Merge` | internal/backup/backup.go:378-384 | a backend becomes dead iff its sink reported an error |
| `MultiBackend.MultiState.WriteFile` | internal/backup/backup.go:634-651 | on success every living backend has the whole content; dead ones are not touched; no other key changes |
| `MultiBackend.MultiState.CommitMulti` | internal/backup/backup.go:388-403 | the count is the number of backends left alive, and each of them holds the renamed object |
| `MultiBackend.MultiState.FailedCount` | internal/backup/backup.go:406-414 | the number of dead backends |
| `MultiBackend.CountsAddUp` | internal/backup/backup.go:388-414 | living and dead add up to all backends |
| `MultiBackend.RunMulti` | internal/backup/backup.go:634-828 | wherever it stops, a backend that shows the manifest holds manifest, sidecar and every listed file in full, unless an entry's name cleans to the manifest's, which rules out success; dead is monotone; succeeded plus failed is the number of backends, and all counted ones show the manifest |
| `Discovery.CandidateBackupIDs` | internal/backup/resume.go:278-300 | exactly the top-level names shaped like backup IDs, strictly descending |
| `Discovery.LooksLikeIff` | internal/backup/resume.go:307-326 | the shape test accepts exactly date, T, time, F or I, and any suffix |
| `Discovery.LaterSortsHigher` | internal/backup/resume.go:272-277 | among the fulls, or the incrementals of one parent, the later time sorts higher |
| `Discovery.ReapAbandoned` | internal/backup/resume.go:256-270 | removes nothing outside the directory, and without failed deletions everything listed in it; the counts add up to the listed paths |
| `Discovery.FindResumable` | internal/backup/resume.go:183-248 | over the checkpoint's fields: returns the greatest attempt without a manifest whose checkpoint is readable, of this configuration and has no time, no grace period, or is within it, or none exists; every removed key lay under an attempt whose checkpoint was unreadable or past a positive grace period, whatever call failed; without failures nothing is left of those it passed |
| `Discovery.CompletedBackupsUntouched` | internal/backup/resume.go:183-270 | no key of a completed backup is removed |
| `Discovery.FreshAttemptUntouched` | internal/backup/resume.go:227-245 | nor any key of an attempt whose checkpoint is readable and has no time, no grace period, or is within it, the one to be resumed included |
| `Resume.StorageMatches` | internal/backup/resume.go:490-513 | answers whether the stored object has the recorded size and digest |
| `Resume.CleanResumable` | internal/backup/resume.go:446-482 | only stale objects are removed; a consistent checkpoint gives a sound plan whatever fails; without failures the plan is sound iff no object has a matching entry, none stale before it, and a stale one after it, whatever the spelling of the paths; the plan never names `backup_label`, `backup_manifest` or `tablespace_map`, and with one entry for each object it holds exactly the others that have a storage digest and match storage |
| `Resume.DuplicateBreaksPlan` | internal/backup/resume.go:469-477 | two spellings of one path that violate that condition |
| `Attempts.StepKeepsInv` | internal/backup/resume.go:111-143 | uploads, reuse, checkpoints, crashes, debris, and corruption or loss of objects between attempts keep every record tied to a content once held |
| `Attempts.ManifestAgrees` | internal/backup/backup.go:588-599 | after any number of attempts each manifest entry's plaintext digest and size are those of the plaintext decoded from the object stored at its path |
| `Attempts.CleanForResume` | internal/backup/resume.go:446-482 | the cleaning step of the attempts machine is what the cleaning loop does |
| `Attempts.RecordUpload` | internal/backup/backup.go:670-686 | the upload step of the attempts machine is what the filter chain and the builder record, for encoders that write a header at once too |
| `Filter.ChainWriter.RepoWrite` | internal/filter/filter.go:121-128 | the storage digest covers exactly the bytes the sink took, also on short writes |
| `Filter.ChainWriter.Write` | internal/filter/filter.go:215-220 | until an error, hasher, compressor, encryptor and sink are in step |
| `Filter.ChainWriter.Close` | internal/filter/filter.go:226-254 | on success the sink holds the whole encoding and both digests belong to plaintext and stored bytes |
| `Filter.UnwrapInvertsWrap` | internal/filter/filter.go:154-183 | decrypt and decompress recover the plaintext |
| `Filter.CopyThrough` | internal/filter/filter.go:83-254 | any chunking, any sink failure, headers written on opening included: a reported result fits the stored bytes and the plaintext they decode to |
| `Scan.MarkedMeans` | internal/verify/verify.go:203-207 | the scanner's flag is the presence of the quoted name |
| `Scan.PrefixedMeans` | internal/verify/verify.go:208-212 | and its other flag that of the longer prefix |
| `Manifest.JsonString` | internal/manifest/manifest.go:198-223 | the loop writes the escaped form |
| `Manifest.AppendEscaped` | internal/manifest/manifest.go:198-223 | inside a JSON string no quoted name appears, because an inner quote follows a backslash |
| `Manifest.RenderScan` | internal/manifest/manifest.go:153-185 | the marker occurs in the printed fields iff some path spells it |
| `Manifest.CheckerIsExact` | internal/verify/verify.go:202-221 | on marker-free text the checker accepts iff the recorded digest is the text's |
| `Manifest.CheckerStopsEarly` | internal/verify/verify.go:202-221 | with the marker inside, it hashes only the text before it |
| `ManifestReader.CheckerDecodes` | internal/verify/verify.go:202-221 | on marker-free text the checker accepts iff what the closing field records decodes, in either case, to the digest of the text |
| `ManifestReader.StringReads` | internal/manifest/manifest.go:198-223 | a JSON reader gets every string back from its printed form |
| `Json.ParseInverts` | internal/restore/restore.go:403-416 | the JSON reader recovers a value from its tokens, whatever follows |
| `ManifestRoundTrip.ManifestIsJson` | internal/manifest/manifest.go:153-191 | the finalized text is JSON, punctuation included, and stands for the document with the version, the system identifier, the files, the WAL range and the checksum |
| `ManifestRoundTrip.FinalizedManifestReadsBack` | internal/info/info.go:185-236 | looking the members up by name gives back the system identifier, each file's path, size, stamp, digest and incremental flag in order, timeline, start and stop LSN, and the recorded digest, for every builder |
| `ManifestBuilder.Builder.SetLatestRepoChecksum` | internal/manifest/manifest.go:143-149 | changes the file added last and no other |
| `ManifestBuilder.Builder.Finalize` | internal/manifest/manifest.go:153-191 | the loops print the covered text and the closing field with its digest, and a JSON reader gets every field of the builder back from it |
| `ManifestBuilder.FinalizedManifestChecks` | internal/manifest/manifest.go:153-223 | the checker accepts every finalized manifest without a path that spells the marker; with one, it accepts iff two different texts collide |
| `ManifestBuilder.TamperingIsRejected` | internal/verify/verify.go:202-221 | other marker-free text before the closing field is accepted iff it has the same hash |
| `Framing.FrameRoundTripIff` | internal/transport/rpc/dual_codec.go:62-154 | a frame is read back, with the rest of the stream untouched, iff its tags are known and every length is below 2^32 |
| `Framing.WireLayout` | internal/transport/rpc/dual_codec.go:107-154 | tags, sequence number and lengths stand at their places, numbers most significant byte first, each field behind its length |
| `Framing.EncodeOfParse` | internal/transport/rpc/dual_codec.go:62-154 | the reader accepts only what the writer writes |
| `Framing.StreamRoundTrip` | internal/transport/rpc/dual_codec.go:62-154 | concatenated frames decode to those frames with nothing left |
| `Framing.StreamInverse` | internal/transport/rpc/dual_codec.go:62-154 | a stream that decodes is the encoding of what it decodes to |
| `Framing.Stream.ReadFrame` | internal/transport/rpc/dual_codec.go:62-105 | the reads on the stream compute the parse, all error cases included |
| `Framing.Stream.WriteFrame` | internal/transport/rpc/dual_codec.go:107-128 | appends exactly the encoding |
| `DualCodec.ResponsesReadAsWritten` | internal/transport/rpc/dual_codec.go:205-241 | in every run the client reads a response in its request's encoding; where no call starts while one of the other encoding is unanswered, that is how it was tagged and written, although the server's memory is read twice |
| `DualCodec.OverlapMisreads` | internal/transport/rpc/dual_codec.go:223-241 | from every reachable state a call that starts while one of the other encoding is unanswered has a continuation that misreads that one's response |

## Left out

- Resuming incremental backups, whose ID is recomputed after the checkpoint is found; a resumed multi-storage run, where only the first backend was checked; agreement of reused files with the cluster's current content. The resume theorems are about full backups on one backend, with one tar entry per stored name in an attempt, and about a checkpoint whose recorded ID is its directory, which the code does not compare.
- BackupRun.RunSimple: a stored name holds its last entry's content (`LastWins`), the sidecar's name the sidecar; an entry that uses the name of the temporary manifest or of a checkpoint, or a name ending in the staging suffix `.pgsafe-tmp`, is not claimed to keep any content. Full backups in archive mode only, a fresh ID.
- MultiBackend.RunMulti: the bracket, label and WAL steps are one nondeterministic decision there; their order is proved for one backend.
- Posix.Backend.Commit: when the final name ends in `.pgsafe-tmp`, the privacy of staging files is not claimed to be kept.
- Posix.Backend.Put: keys are taken as given; the backend's own `filepath.IsLocal` test is one of the failures the call may return.
- Paths.JoinIsPlace: names with ".." are not cleaned, since the run refuses them and no checkpoint has one.
- PushDurability.StepKeepsLinked: a Put that fails without leaving a file leaves no trace on the model's disk either.
- Crash durability of newly created parent directories.
- Restore.KeptWalSurvives: under the exact safety condition of `CutoffSafeIff`.
- Prune.PruneWal: the per-timeline cutoff cache is recomputed instead of kept.
- Planning.Evaluate: the bucket functions are given as one integer unit per day, week and month; time zones and daylight saving are not modelled.
- Wal.LsnRoundTrip: the parser model does not skip the leading blanks that fmt.Sscanf skips.
- ManifestRoundTrip.FinalizedManifestReadsBack: the JSON reader knows objects, arrays, strings, natural numbers and `true`, which is all a manifest holds; it takes no surrogate pairs, fractions, signs, `false` or `null`. The start and stop times that info derives from the stamps are not modelled.
- Manifest.JsonString: text is a sequence of characters; bytes that are not valid UTF-8, which Go replaces while ranging, are not modelled.
- ManifestBuilder.Builder.Finalize: modification times are given already formatted, without characters that JSON escapes, and sizes are not negative.
- Filter.ChainWriter.Write: after an error the plaintext hasher's state is left open, since the result is then unused.
- The body encodings of the RPC layer (JSON and gob), age, the compression codecs and the checkpoint's JSON.
- The cloud and SFTP drivers, SSH and local transports, credentials and the tunnel.
- The command line, configuration, info output, check probes and logging.
- pg_basebackup, pg_combinebackup and every SQL query, which are inputs here; stream and walgrab WAL sources.
- The remote-parallel and worker drivers, page checksums, and the lock files that keep backup and prune apart.
