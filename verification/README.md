# GTFS-Realtime archiver: verified model

The archiver fetches GTFS-Realtime feeds on a fixed schedule, commits every response body to disk before recording it,
compacts each local day of a stream into an immutable revision directory, uploads each revision to several remotes,
and deletes local copies only after publication. This project models that path and proves what it promises: a raw
payload is deleted only when every revision listing it was compacted from it and is published, at any interleaving and
with a crash allowed between any two steps. Its bytes are then in the artifacts of those revisions, with the two
exceptions listed below: inputs excluded as unreadable or damaged, and payloads without trip updates in flattened
revisions.

Run `dafny verify dfyconfig.toml` (Dafny 4.11) in this directory.

## How the model is laid out

| file | what it models |
|---|---|
| `Tables`, `StateStore`, `StateLaws` | the SQLite tables as values, one function per transaction; the store class whose methods run the transactions and equal those functions; laws of every transaction and of every run of transactions |
| `Text`, `TextTime` | byte-wise text order, and the stored text timestamps whose SQL order stands in for time order |
| `RawStore`, `RawPaths`, `Recovery`, `PowerLoss`, `RawLiteral` | the raw payload and sidecar commit, file operation by file operation; the identity check; commit, recovery and staging cleanup as methods on a machine that may fail or die at any operation; power loss during recovery and after a commit that makes directories; what recovery does with the check as spelled |
| `Flatten`, `Artifact`, `Tallies`, `Destinations`, `Compact`, `Reconcile` | trip-update flattening; the Parquet writers and validators; the manifest's aggregates and destination snapshot; `Compact` and `VerifyDirectory`; startup adoption of revision directories |
| `Hive` | the publication directory and its base64url key |
| `Ticks`, `Scheduler` | tick arithmetic; N stream loops under a global and per-host semaphores |
| `Fetch`, `Maintenance`, `Upload`, `Retention` | one fetch; the compaction pass and its locks; one upload worker; one cleanup |
| `Lifecycle`, `LifecycleSafety`, `LifecycleTheorems` | the whole archive as one machine (fetching, compaction, upload workers, retention, summaries, operator commands, crashes), its invariant, and the theorems over whole runs |
| `LifecycleWitness`, `LifecycleCases`, `LifecycleExpiry` | runs that reach what the theorems speak of, in worlds where every package is the work of `Compact`; expired optional uploads |
| `Prelude` | options, finite sums and extrema |

The central theorem is `LifecycleTheorems.DeletedBytesAreArchived`. It joins the machine (`RawDeletionIsSafe`), the
content of an artifact (`Artifact.FlatRowsNamed`, `Artifact.NestedCoverage`) and what `Compact` writes
(`Compact.ManifestOf`), with one hash of payloads and one decoder for the raw store, the tables and the artifacts. The
imperative parts are proved against the functions that the machine and the laws use: `StateStore.Store` against
`Tables`, `Compact.Compactor.Compact` against `ManifestOf` and `SaveCompaction`, `Reconcile.All` against `Walk`,
`Retention` against `RetainAll`, `ReleaseAll` and `SummaryPass`, `Upload.Uploader` against the same publication
predicates as the machine.

Hashes, feed decoding, the time-zone database, random jitter, the outcome of each file operation and of each remote
command are parameters, so the results hold for every choice of them. Instants are integers (nanoseconds) except in
`TextTime`, which proves how the text filters of the database relate to them; `Tables.TextWindowIsTextual` carries that
into the tables.

## What the code does not do

Where the code departs from what its documentation or comments say, the model follows the code. Each entry names the lemma
with the exact condition under which the promise holds and, where the departure needs a particular input, the lemma with a
concrete one.

- **Forbidden characters of an identity** (`internal/rawstore/store.go:421`). The set is a raw string, so it holds
  `/`, `\`, `x` and `0` where `/`, `\` and NUL are meant. `RawPaths.CommittedPathsAccepted` says exactly which
  identities pass under any set; every ID generated in a year written with a zero is refused
  (`RawPaths.GeneratedIdsRefused`). Recovery as spelled is safe on every disk (`RawLiteral.SpelledAgrees`,
  `RawLiteral.StartAsSpelled`), but once it has finished, a capture that was on its way is committed if and only if
  its identity has none of the four characters; one that has stays as it was, and removing its expired staged sidecar
  strands its payload. `RawLiteral.Year2026Refused` is a concrete capture that is meant to pass and
  `RawLiteral.Year2026Stranded` what becomes of it.
- **Text timestamps** (`internal/state/store.go:20`). Trailing zeros are trimmed, so text order disagrees with time
  order inside one second exactly when the earlier trimmed fraction is a proper prefix of the later
  (`TextTime.FractionDecides`). A tick in the first second after midnight falls into the text window of the day before
  (`TextTime.DayFilter`).
- **Summaries can wedge.** For that reason `SummarizeDay` is refused by a foreign key exactly when a capture of the
  same stream was scheduled in the first second after the day ends (`StateLaws.SummaryRefusedExactly`,
  `WedgeExample`). A cleanup that meets such a day stops there (`PassStuck`), and so does every later one, whatever
  else happens to the tables, until one of these transactions: a revision of that day is recorded or adopted that is
  not published by the cutoff, an upload of that day is verified after the cutoff, a live capture of that day is
  registered, or the day of the blocking capture is summarised first (`WedgeReleasedExactly`, an if-and-only-if;
  `StuckUntilReleased`, `ReleaseExample`).
- **A day can be skipped.** A day is never compacted, whatever it captured, exactly when all its ticks lie strictly
  inside its first second (`StateLaws.FirstSecondDayIsSkipped`, `SkippedExample`).
- **Excluded inputs are deleted like any other.** A revision lists every capture of its day, and its artifact leaves
  out exactly those whose payload could not be read or did not have the recorded hash (`Compact.ExcludedStaysListed`,
  `ExcludedExample`). They are linked to the revision, so their raw files are deleted with the rest although their
  bytes are nowhere else; `LifecycleTheorems.DeletedBytesAreArchived` says so in every run.
- **Flattened trip-update revisions do not hold every capture.** A payload that reads back intact but does not decode,
  or holds no trip update, is neither in the artifact nor among the exclusions (`Artifact.FlattenedCoverage`, an
  if-and-only-if; `RowlessExample`), and its raw file is later deleted like any other.
- **An optional upload row that retention expired can come back.** It does in some continuation exactly when a worker
  held it and still does (`LifecycleExpiry.ComesBackExactly`); `ExpiredRowRun` reaches a state from which the worker
  ends it verified or, failing, waiting for a retry, with the local files gone. Required rows are safe
  (`LifecycleTheorems.RequiredNeverStranded`).
- **`published_at` moves**, by exactly one transaction: verifying an upload of the published revision at another
  instant (`StateLaws.PublicationMovesExactly`, `LateVerificationExample`), which postpones retention. It never
  returns to NULL.
- **A stream is fetched in some run exactly when its lateness is positive** (`Scheduler.FetchedExactly`): at zero the
  acquisition deadline has always passed.
- **A fetch can start after its window.** A wait whose timer has fired may still take a free token, and then nothing
  checks the time again (`Scheduler.LateTokenExample`). A fetch starts in its window exactly when its last token was
  taken by the deadline (`StartsInWindowExactly`), so without late takes all do (`EveryTickAccountedFor`).
- **The six-hour backoff cap never applies** (`Upload.CapNeverReached`): the delay stops growing at 320 minutes.
- **The publication directory does not name the stream** (`Hive.StreamsOfOneUrlCollide`); it is injective in what it
  does name (`Hive.DirectoryIdentity`).
- **Removing an expired staged sidecar can strand its payload**: exactly when no other staged sidecar completes it
  (`Recovery.NoteRemovalSafeExactly`), as after the refusal above; with nothing left half done in raw/ the removal is
  harmless (`Recovery.Machine.RemoveExpiredStaging`).
- **Recovery is not safe against power loss everywhere** (`internal/rawstore/store.go:390-413`). It does not repeat a
  sync the interrupted commit had not reached, so in two windows a power loss leaves a payload without its staged
  sidecar, or a sidecar without its payload; everywhere else raw/ stays safe (`PowerLoss.RecoveryPowerLossExactly`).
- **A finished commit need not outlast a power loss.** The directories that `Commit` makes on the way are never synced
  into their parents (`internal/rawstore/store.go:141,204-212`), so the first captures of an hour can vanish with its
  directory. A finished commit survives every power loss if and only if it made no directory
  (`PowerLoss.DurableExactly`); raw/ is safe either way (`LossWithDirectoriesSafe`).
- **A tick row can go on saying `running`**: exactly when the last write of its fetch was lost
  (`Fetch.TickRowIsFinal`, `RunningRowExample`). If that was the transaction of a committed capture, registering the
  capture in recovery ends the row (`RecoveryEndsRow`); if it was the record of a failure, nothing does
  (`NothingEndsRow`), unless that fetch left a commit half done which recovery completes.

## Model

| member | source | states |
|---|---|---|
| `Tables.TextWindowIsTextual` | internal/state/store.go:271-301 | the integer window filter selects exactly the ticks SQLite selects by comparing encoded text |
| `StateStore.Store.RecordTick` | internal/state/store.go:81-97 | the upsert keeps stream and scheduled instant of an existing row |
| `StateStore.Store.SaveCapture` | internal/state/store.go:99-143 | the tables end as `Tables.SaveCapture` says, unchanged on a conflict |
| `StateStore.Store.SaveCompaction` | internal/state/store.go:510-543 | the insert loop with its rollback equals `Tables.SaveCompaction` |
| `StateStore.Store.NextRevision` | internal/state/store.go:499-508 | one more than the largest revision number of the day, or 1 |
| `StateStore.Store.AdoptCompaction` | internal/state/store.go:554-603 | the adoption loop with its skips and rollback equals `Tables.AdoptCompaction` |
| `StateStore.Store.MarkUploadAttempt` | internal/state/store.go:683-686 | sets the row uploading, counts the attempt, changes nothing else |
| `StateStore.Store.MarkUploadFailed` | internal/state/store.go:688-691 | sets the failed status and next attempt of one row, changes nothing else |
| `StateStore.Store.MarkUploadVerified` | internal/state/store.go:693-714 | publishes the revision exactly when the count of unsettled required rows is zero after the update |
| `StateStore.Store.EnsureDestinationBackfill` | internal/state/store.go:720-732 | queues one optional row for every revision with local files and none for this destination |
| `StateStore.Store.RetireDestination` | internal/state/store.go:736-773 | settles every unsettled required row of the destination, returns their number, publishes what this releases |
| `Tables.RetiresExactly` | internal/state/store.go:736-773 | the rows it settles are the required ones of the destination neither verified nor retired, and the revisions it publishes those unpublished ones it touched whose required rows are all settled |
| `StateStore.Store.MarkCaptureRetained` | internal/state/store.go:451-454 | replaces both paths of one capture by the retained sentinel |
| `StateStore.Store.MarkParquetRetained` | internal/state/store.go:456-469 | expires the optional unverified rows of one revision and clears its paths |
| `StateStore.Store.SummarizeDay` | internal/state/store.go:380-449 | the counting and deleting transaction equals `Tables.SummarizeDay`, all or nothing; the next rows say what that counts and deletes |
| `Tables.SummaryTakesDay` | internal/state/store.go:434-447 | it takes away exactly the captures of the day, none of them live, with their links, keeps every revision, upload and other summary, and writes one new summary |
| `Tables.SummaryCountsCaptures` | internal/state/store.go:402-433 | captured counts the captures of the day; valid those that parsed and arrived whole, invalid the others |
| `Tables.SummaryCountsStatuses` | internal/state/store.go:402-433 | each parse status is counted by the captures that have it |
| `Tables.SummaryCountsTicks` | internal/state/store.go:385-401 | it deletes exactly the ticks of the stream in the text window, no remaining capture refers to one, and the scheduled, skipped, HTTP and network failure counts are those of their results and categories |
| `StateLaws.ForeignKeysKept` | internal/state/store.go:855-930 | no transaction leaves a dangling reference |
| `StateLaws.GateKept` | internal/state/store.go:510-543 | every transaction keeps: with required uploads, published if and only if all are verified or retired |
| `StateLaws.RunKeepsGate` | internal/state/store.go:693-773 | the gate is exact and references resolve after every admissible run |
| `StateLaws.PublishedStays` | internal/state/store.go:693-773 | no transaction takes a publication back |
| `StateLaws.SettledRowMustNotFail` | internal/state/store.go:688-691 | failing a verified required row would break the gate exactly when its revision is published: why one worker per destination matters |
| `StateLaws.LateVerificationMovesPublication` | internal/state/store.go:693-714 | verifying an upload of a published revision sets its publication instant to now, whether or not it has required uploads |
| `StateLaws.PublicationMovesExactly` | internal/state/store.go:693-773 | of all transactions, exactly that one moves the publication instant of a published revision |
| `StateLaws.LateVerificationExample` | internal/state/store.go:704-711 | a concrete revision published at 100 and, by a late upload, again at 900 |
| `StateLaws.TallyStep` | internal/state/store.go:81-143 | each transaction changes live plus summarised counts by exactly the rows it inserts |
| `StateLaws.RunConserves` | internal/state/store.go:380-449 | over any run, ticks and captures ever inserted equal the live ones plus those the summaries count |
| `StateLaws.RunSummariesBalance` | internal/state/store.go:402-433 | every summary ever written has valid + invalid = captured = sum of its parse counts |
| `StateLaws.SummaryRefusedExactly` | internal/state/store.go:436-447 | a retained day is refused if and only if a capture of its stream was scheduled in the first second after its end |
| `StateLaws.PassStuck` | internal/lifecycle/retention.go:88-107 | a pass that meets a blocked day stops there and leaves the blocking capture in place |
| `StateLaws.PassSummarises` | internal/lifecycle/retention.go:88-107 | a pass summarises only days it is given and changes nothing else; one that runs to its end has summarised each of them but those with live captures |
| `StateLaws.WedgeReleasedExactly` | internal/state/store.go:380-449 | of the transactions run as their callers run them, exactly those that make the day not due or take the blocking capture away end a wedge |
| `StateLaws.StuckUntilReleased` | internal/lifecycle/retention.go:88-107 | over any sequence of cleanups and other transactions without one of those, every cleanup stops at the wedged day, which is never summarised |
| `StateLaws.ReleaseExample` | internal/state/store.go:693-714 | a concrete wedge that a late verification ends |
| `StateLaws.WedgeExample` | internal/state/store.go:442-444 | a concrete retained day that is due for its summary and is refused |
| `StateLaws.NeedsCompactionExactly` | internal/state/store.go:262-301 | a day needs compaction exactly when it has ticks, no summary, and its latest revision does not list precisely its captures or lists inputs without a row |
| `StateLaws.AdoptedShortIsCompactedAgain` | internal/state/store.go:580-588 | a day whose adopted revision left an excluded input unlinked is compacted again |
| `StateLaws.CompactionConverges` | internal/state/store.go:262-301 | compacting the day's captures succeeds, extends the revisions by the next number, and leaves nothing to compact |
| `StateLaws.NumbersExtend` | internal/state/store.go:499-508 | a revision saved under the next number leaves the numbers 1 to n without a gap |
| `StateLaws.LateCaptureReopens` | internal/state/store.go:289-300 | a capture registered after the latest revision makes its day need compaction again |
| `StateLaws.FirstSecondDayIsSkipped` | internal/state/store.go:262-285 | a day without revision or summary does not need compaction exactly when all its ticks lie strictly inside its first second |
| `StateLaws.WindowEmptyExactly` | internal/state/store.go:270-277 | when the text window of a day holds no tick |
| `StateLaws.SkippedExample` | internal/state/store.go:262-285 | a concrete day with a capture that is never compacted |
| `StateLaws.CandidateIsReleased` | internal/state/store.go:310-333 | a raw candidate is listed by a revision, and every revision listing it is published with all required uploads settled |
| `TextTime.SecondsDecide` | internal/state/store.go:20 | across different UTC seconds of the years 0 to 9999 text order is time order |
| `TextTime.FractionDecides` | internal/state/store.go:20 | within one second text order is reversed exactly when the earlier trimmed fraction is a proper prefix of the later |
| `TextTime.BoundaryFilter` | internal/state/store.go:271 | against midnight the text comparison loses exactly the rest of the first second |
| `TextTime.DayFilter` | internal/state/store.go:442 | text membership in a day differs from true membership exactly in the first second after either boundary |
| `TextTime.TextLayout` | internal/state/store.go:20 | where each field of an instant stands in its text, and which digits of the fraction are kept |
| `RawStore.CommitStep` | internal/rawstore/store.go:128-214 | each file operation of a commit moves its own files on and keeps every sidecar in raw/ paired and every lone payload supported by a staged sidecar |
| `RawStore.ConcurrentCommitsSafe` | internal/rawstore/store.go:128-214 | the same for any number of commits under any interleaving, cut anywhere |
| `RawStore.PowerLossSafe` | internal/rawstore/store.go:166-212 | the same after a power loss that keeps any subset of unsynced operations |
| `RawStore.FirstSyncNeeded` | internal/rawstore/store.go:202-209 | without the directory sync between the two renames some power loss leaves a sidecar without its payload |
| `PowerLoss.RecoveryPowerLossExactly` | internal/rawstore/store.go:390-413 | a commit cut anywhere and its recovery cut anywhere survive a power loss exactly outside two windows, where a sync was skipped |
| `PowerLoss.DurableExactly` | internal/rawstore/store.go:141-212 | both files of a finished commit outlast every power loss if and only if MkdirAll had no directory to make |
| `PowerLoss.LossWithDirectoriesSafe` | internal/rawstore/store.go:141-212 | with new directories among the losses raw/ is still safe, wherever the commit was cut |
| `RawPaths.CheckIsSound` | internal/rawstore/store.go:419-444 | accepted captures of different IDs never share a base path, under the intended and the literal set |
| `RawPaths.AcceptedExactly` | internal/rawstore/store.go:419-444 | a record passes if and only if version, identity, hash, zone and instant are sound, its local date is the archive date, and both files are at the place of its source, stream, date, hour, ID and hash |
| `RawPaths.CommittedPathsAccepted` | internal/rawstore/store.go:419-444 | a capture placed by Commit passes exactly when its identity is non-empty and free of forbidden characters |
| `RawPaths.LiteralSetRefuses` | internal/rawstore/store.go:421 | an identity with a zero, an x, a slash or a backslash fails the check as spelled |
| `RawPaths.GeneratedIdsRefused` | internal/model/model.go:217-223 | every ID generated in a year written with a zero is refused |
| `RawLiteral.SpelledAgrees` | internal/rawstore/store.go:419-444 | whatever the check as spelled accepts on any disk is meant to be accepted, with the same base path, so recovery's contracts hold for it on every disk |
| `RawLiteral.StartAsSpelled` | internal/rawstore/store.go:242-476 | restarts with the check as spelled, cut anywhere, then staging cleanup: raw/ safe after the restarts, and once one finishes a pending capture is committed with its row if and only if its identity has none of the four characters, else unchanged, and stranded exactly when its staged sidecar is removed and its payload is in raw/ |
| `RawLiteral.SpelledAccepts` | internal/rawstore/store.go:419-444 | of the captures meant to pass, the check as spelled passes exactly those whose IDs have no slash, backslash, x or zero |
| `RawLiteral.Year2026Refused` | internal/model/model.go:217-223 | a concrete ID of 2026 passes the intended set and is refused by the literal one |
| `RawLiteral.Year2026Stranded` | internal/rawstore/store.go:446-476 | and its payload, cut before the sidecar's move, is stranded once the staged sidecar expires |
| `Recovery.Machine.Commit` | internal/rawstore/store.go:128-214 | wherever it fails or dies raw/ is safe and a payload in raw/ is committed or on its way; undisturbed it succeeds exactly when the base path and ID are free, the ID is safe and the body is there |
| `Recovery.Machine.FinishInterruptedCommits` | internal/rawstore/store.go:348-417 | with any check that accepts no more than is meant: keeps raw/ safe at every death and throws no capture back; left undisturbed for four operations a staged sidecar it finishes, and then every pending capture the check accepts is committed and the others are as they were |
| `Recovery.Machine.FinishEntry` | internal/rawstore/store.go:358-414 | one staged sidecar is finished, dropped as a duplicate or left; it counts as corrupt exactly when it does not decode, fails the check, has another ID than its name, or its payload is missing or has another hash; undisturbed for four operations it succeeds, and no other becomes finishable |
| `Recovery.Machine.Reconcile` | internal/rawstore/store.go:242-346 | a finished run leaves every base path complete (payload, sidecar, row, hash) or absent, or held back by a capture the check refuses; of the captures on their way exactly those it accepts are completed; undisturbed for five operations a staged sidecar and one a sidecar it finishes; after one, another registers nothing; `registered` is the number of rows added and `corrupt` the number of staged sidecars left, sidecars that do not hold, payloads without sidecar and rows without both files |
| `Recovery.Machine.RecoverThroughCrashes` | internal/rawstore/store.go:242-346 | any number of restarts that die or fail anywhere keep raw/ safe and throw no capture back; if the last is left undisturbed for the work of the first disk it finishes, and a capture that was on its way is committed and has its row exactly when the check accepts it or it was committed before |
| `Recovery.Machine.RemoveExpiredStaging` | internal/rawstore/store.go:446-476 | removes only staging files, keeps raw/ safe exactly when each half-committed payload keeps a staged sidecar that completes it, and is harmless when none is left half done |
| `Recovery.ExpiredNoteStrandsPayload` | internal/rawstore/store.go:446-476 | a payload that loses its last such sidecar is never finished |
| `Recovery.NoteRemovalSafeExactly` | internal/rawstore/store.go:446-476 | removing staged sidecars keeps raw/ safe if and only if every lone payload keeps one that completes it |
| `Flatten.ProjectTripUpdateStops` | internal/projection/trip_update_flatten.go:108-196 | the rows are the concatenation, in entity order, of the blocks of the trip-update entities; the next five rows say what each of them carries |
| `Flatten.RowsInOrder` | internal/projection/trip_update_flatten.go:108-127 | an entity with a trip update has one row per stop time update and one if it has none, any other has none; entities follow each other from offset 0 to the end |
| `Flatten.RowCarriesStop` | internal/projection/trip_update_flatten.go:166-193 | row j of an entity carries each named field of its stop j, arrival columns from the arrival and departure columns from the departure; without stops all are unset |
| `Flatten.RowCarriesEntity` | internal/projection/trip_update_flatten.go:111-160 | every row carries the provenance, the header fields, the entity ID and deletion flag, and the timestamp and delay of its trip update |
| `Flatten.RowCarriesTrip` | internal/projection/trip_update_flatten.go:146-153 | every row carries each field of its trip descriptor, with the defaults for unset ones |
| `Flatten.RowCarriesVehicle` | internal/projection/trip_update_flatten.go:154-165 | every row carries each field of its vehicle descriptor and of its trip properties |
| `Flatten.CountProjectedTripUpdateRows` | internal/projection/trip_update_flatten.go:201-218 | counts exactly the rows the projection emits, under any provenance |
| `Flatten.CountStopTimeUpdates` | internal/projection/trip_update_flatten.go:222-233 | counts the stop time updates of all entities |
| `Flatten.RowCount` | internal/projection/trip_update_flatten.go:166-193 | rows are stop time updates plus trip updates that have none |
| `Flatten.BlockInPlace` | internal/projection/trip_update_flatten.go:123-195 | the rows of each entity are one contiguous run at its offset |
| `Flatten.RecoversStops` | internal/projection/trip_update_flatten.go:166-193 | the stop values are recovered from the rows exactly unless a single update sets nothing |
| `Flatten.SameBlock` | internal/projection/trip_update_flatten.go:128-193 | two entities give the same rows exactly when shared columns and recovered stops agree |
| `Artifact.ReadVerified` | internal/compact/compact.go:431-456 | a body is returned only if it hashes to the recorded value; otherwise one of the three stable reasons |
| `Artifact.WriteTripUpdateParquet` | internal/compact/compact.go:498-568 | writes each readable capture's projected rows in order, with the included, excluded and total counts |
| `Artifact.WriteParquet` | internal/compact/compact.go:307-394 | writes one row per readable capture in order, with the included, excluded and entity total |
| `Artifact.ValidateTripUpdateParquet` | internal/compact/compact.go:570-631 | for every batching by the reader, accepts exactly the in-order concatenation of each capture's ID repeated by its projected row count |
| `Artifact.CheckRow` | internal/compact/compact.go:604-619 | one row of that stream is refused exactly when the expected sequence does not go on with it |
| `Artifact.ValidateParquet` | internal/compact/compact.go:633-690 | accepts exactly one matching row per capture, in order, for every batching; the entity recount adds no refusal |
| `Artifact.AcceptedRow` | internal/compact/compact.go:646-668 | a row that differs from its capture in ID, hash, body hash or entity count makes the file refused, and no other does |
| `Artifact.EntityTotalAdds` | internal/compact/compact.go:369-371 | a capture without an entity count adds nothing to the total, any other its count |
| `Artifact.FlatRowsValidate` | internal/compact/compact.go:498-631 | what the trip-update writer wrote is the sequence the validator expects |
| `Artifact.NestedRowsValidate` | internal/compact/compact.go:307-394 | what the nested writer wrote matches its included captures row by row |
| `Artifact.Partition` | internal/compact/compact.go:332-340 | included and excluded partition the inputs, each exclusion with its reason |
| `Artifact.FlattenedCoverage` | internal/compact/compact.go:521-545 | a capture is in a flattened artifact or excluded if and only if it is not a readable payload without trip updates |
| `Artifact.FlatRowsNamed` | internal/compact/compact.go:498-568 | the rows of a flattened artifact that bear a capture's ID are exactly the rows its payload decodes to |
| `Artifact.RowCarriesProvenance` | internal/compact/compact.go:498-568 | each flattened row carries the identity, paths, instants, zone, status and flags of a readable capture, field by field |
| `Artifact.RowlessExample` | internal/compact/compact.go:521-545 | a concrete payload that is in neither |
| `Artifact.NestedCoverage` | internal/compact/compact.go:328-380 | a nested artifact holds the bytes of every capture that is not excluded |
| `Tallies.Aggregate` | internal/compact/compact.go:221-255 | valid + invalid = captures = sum of parse counts, exact counts per status and flag, extreme feed timestamps, largest gap |
| `Tallies.ValidAre` | internal/compact/compact.go:221-255 | the valid captures it counts are exactly those that parsed and arrived whole |
| `Tallies.CountsAre` | internal/compact/compact.go:223-243 | each parse status and each validation flag is counted as often as it occurs over all captures |
| `Tallies.StampsReach` | internal/compact/compact.go:221-255 | the feed timestamps reach over those of exactly these captures, and both ends are theirs |
| `Tallies.GapIsLongest` | internal/compact/compact.go:221-255 | the largest gap, in whole milliseconds, is that between some capture and the next, and none is longer |
| `Destinations.VerifySnapshot` | internal/compact/compact.go:764-782 | accepts exactly named, distinct destinations whose required ones join to the required list |
| `Destinations.SnapshotExactly` | internal/compact/compact.go:764-782 | for IDs without NUL that comparison holds exactly when both lists hold the same IDs equally often |
| `Destinations.SortedEqual` | internal/compact/compact.go:776-780 | sorted lists are equal exactly when the lists are permutations |
| `Destinations.WrittenSnapshotOk` | internal/compact/compact.go:839-857 | the snapshot and the required list Compact writes always agree |
| `Destinations.QueueOfSnapshot` | internal/reconcile/reconcile.go:108-118 | the queue rebuilt from a snapshot is the queue of the configuration it was taken from |
| `Destinations.EmptyRequiredQueuesNone` | internal/reconcile/reconcile.go:108-127 | a verified manifest with no required list queues no required upload, whatever the IDs |
| `Compact.DirectoryNamesOneRevision` | internal/compact/compact.go:115-123 | two revisions never share a directory |
| `Compact.DirectoryLayout` | internal/compact/compact.go:115-123 | the directory of a revision, segment by segment |
| `Compact.VerifyDirectory` | internal/compact/compact.go:710-814 | accepts a directory if and only if, field by field: the stored manifest has the versions, revision, input and entity counts of the record; exclusions are distinct inputs with a known reason; files fit the status; the snapshot is consistent; and each file is there with the recorded hash and size, named after its hash, with the row and entity counts, and is the one the record names |
| `Compact.VerifyExclusions` | internal/compact/compact.go:735-750 | accepts exactly distinct exclusions of listed inputs with a known reason |
| `Compact.WriteArtifact` | internal/compact/compact.go:178-218 | the artifact passes its own re-validation exactly when reading back works and some capture was readable |
| `Compact.ExcludedStaysListed` | internal/compact/compact.go:521-545 | every capture is an input of its revision, and excluded are exactly those whose payload is unreadable or has another hash |
| `Compact.ExcludedExample` | internal/compact/compact.go:431-456 | a concrete revision of two captures that holds one and lists both |
| `Compact.Assemble` | internal/compact/compact.go:135-258 | fills the manifest in exactly when the captures agree on their URL and some payload is readable or none was captured |
| `Compact.ManifestSays` | internal/compact/compact.go:135-258 | the manifest records versions, revision, predecessor, kind, URL, status and one entry per capture with its hash and length |
| `Compact.ManifestSaysOfFile` | internal/compact/compact.go:178-258 | its one file is named after its hash and has the size, rows and entities it records; a revision without captures has none |
| `Compact.WrittenPassesVerification` | internal/compact/compact.go:710-814 | for every pattern of missing or damaged payloads, what Compact writes passes VerifyDirectory, under both schema versions |
| `Compact.Compactor.Compact` | internal/compact/compact.go:83-305 | says exactly when a revision is recorded; then the directory verifies and the tables hold its row, inputs and queue, or nothing if it died before the transaction; a recorded day needs no compaction afterwards |
| `Compact.SavedDayIsDone` | internal/state/store.go:262-301 | saving the revision of all captures of a day succeeds and leaves nothing of it to compact, whatever the day's bounds |
| `Reconcile.VisitDirectory` | internal/reconcile/reconcile.go:31-136 | one directory is passed over, counted corrupt, adopted or fails, as `Judge` says |
| `Reconcile.CorruptExactly` | internal/reconcile/reconcile.go:46-103 | a directory counts as corrupt if and only if its manifest is torn or without a usable header, the row it has does not verify it, or it has none and is misplaced, miscounted, has an unsafe file name or does not verify against the row it would get |
| `Reconcile.AdoptionWrites` | internal/reconcile/reconcile.go:85-131 | field by field, the row, the links and the queue rows an adoption writes, and that it touches no other row |
| `Reconcile.All` | internal/reconcile/reconcile.go:22-138 | the walk over all directories up to the first failing adoption |
| `Reconcile.AdoptionIsSaving` | internal/state/store.go:554-603 | in every database that still holds the inputs with their hashes, adopting equals saving |
| `Reconcile.AdoptionExactly` | internal/state/store.go:576-596 | adoption succeeds exactly when each input is present with its hash or absent and excluded, and links exactly the present ones |
| `Reconcile.WalkSettles` | internal/reconcile/reconcile.go:22-138 | a finished walk leaves nothing to adopt and drops no row |
| `Reconcile.JudgingSettles` | internal/reconcile/reconcile.go:59-131 | an adoption settles its own directory and unsettles no other |
| `Reconcile.WalkKeepsGate` | internal/reconcile/reconcile.go:108-131 | adoption keeps references and the publication gate |
| `Reconcile.LostRowIsAdopted` | internal/reconcile/reconcile.go:85-131 | a directory left without its row is adopted as the transaction it lost |
| `Reconcile.LostRowsAreAdopted` | internal/reconcile/reconcile.go:22-138 | a walk over any number of them ends with the tables those transactions would have written |
| `Reconcile.CompactDiesAndRestarts` | internal/compact/compact.go:272-304 | a compaction that dies after the rename, beside any number of others that lost their rows, then a restart: the tables are what all the transactions would have written |
| `Hive.DecodeEncode` | internal/upload/hive.go:65 | unpadded base64url decoding is a left inverse of encoding |
| `Hive.EncodeVectors` | internal/upload/hive.go:65 | the encoding agrees with the test vectors of section 10 of RFC 4648, and with its URL-safe alphabet |
| `Hive.SegmentCheckNeverFires` | internal/upload/hive.go:45-73 | a directory is given exactly when kind, date, revision and URL pass; the final segment check never refuses |
| `Hive.HiveDirExactly` | internal/upload/hive.go:20-73 | the directory spelled out: the segment of each kind, the date, the encoded URL of the manifest or else of the configured stream, and the revision, or which error there is instead |
| `Hive.DirectoryIdentity` | internal/upload/hive.go:45-73 | two manifests share a directory exactly when feed type, date, URL and revision agree |
| `Hive.StableOnceRecorded` | internal/upload/hive.go:57-64 | a manifest that records its URL keeps its directory under every configuration |
| `Hive.StreamsOfOneUrlCollide` | internal/upload/hive.go:45-73 | two streams fetching one URL get one directory |
| `Ticks.NextTickIsLeast` | internal/scheduler/scheduler.go:170-189 | the least instant strictly after now on the phase, for negative epoch times too, with no overflow one interval inside the range |
| `Ticks.FloorModIsMod` | internal/scheduler/scheduler.go:183-189 | the corrected remainder is the mathematical one |
| `Ticks.AlignmentKept` | internal/scheduler/scheduler.go:83-140 | adding the interval any number of times stays on the phase |
| `Ticks.StablePhase` | internal/scheduler/scheduler.go:161-168 | the phase lies inside the interval and is congruent to the hash of the key |
| `Ticks.EffectiveLateness` | internal/scheduler/scheduler.go:191-199 | the configured lateness if it is below the interval, else half the interval; zero exactly when it is not configured or the interval leaves no room |
| `Scheduler.ConcurrencyBounded` | internal/scheduler/scheduler.go:83-140 | under every interleaving in-flight fetches never exceed the global or a host's capacity, and all tokens are back once all loops returned |
| `Scheduler.TokensFollow` | internal/scheduler/scheduler.go:106-134 | each step puts into and takes out of each channel exactly what its loop holds more or less |
| `Scheduler.EveryTickAccountedFor` | internal/scheduler/scheduler.go:83-140 | disposed ticks are the first and all following without a gap, on the phase, in order, each with one outcome and no fetch before its tick; fetches start in disjoint windows when no timed-out wait takes a token; none at lateness zero; the next three rows say which outcome |
| `Scheduler.ReasonsExactly` | internal/scheduler/scheduler.go:92-139 | over every run a logged tick is `late` if and only if it was judged more than the lateness after its time, `disk_pressure` if and only if it was judged in time while paused, `global_concurrency` or `host_concurrency` if and only if that acquisition was given up, and fetched if and only if a fetch of it ended |
| `Scheduler.PausedTickIsSkipped` | internal/scheduler/scheduler.go:103-107 | a tick judged in time while fetching is paused is logged as skipped for disk pressure at that instant, has no other record, and its loop never comes back to it |
| `Scheduler.DisposedOnce` | internal/scheduler/scheduler.go:83-140 | a disposed tick is logged once and for good |
| `Scheduler.FetchedExactly` | internal/scheduler/scheduler.go:191-231 | a stream is fetched in some run if and only if its lateness is positive |
| `Scheduler.StartsInWindowExactly` | internal/scheduler/scheduler.go:105-125 | only taking the last token starts a fetch, at that instant and never after cancellation, in the window if and only if that is by the deadline |
| `Scheduler.LateTokenExample` | internal/scheduler/scheduler.go:216-231 | a run in which a timed-out wait takes the token and the fetch starts long after its window |
| `Scheduler.MoveShrinks` | internal/scheduler/scheduler.go:92-139 | every step brings its loop nearer to its return, counted at any later instant |
| `Scheduler.ShutdownCompletes` | internal/scheduler/scheduler.go:62-140 | however the clock advances, the steps after cancellation are at most what was left until then, and when none is possible all loops returned and all tokens are back |
| `Fetch.Fetcher.Fetch` | internal/fetch/fetch.go:75-179 | stops at exactly the first attempt that is final (tried again: a missing response that is no cancellation, 408, 425, 429 and server errors), and leaves the one tick row with its result, category, status and attempts, and at most one capture: `captured` exactly when the feed is valid and arrived whole, else `captured_invalid` |
| `Fetch.OneStop` | internal/fetch/fetch.go:94-178 | the number of attempts is determined by the replies and interruptions |
| `Fetch.TickRowIsFinal` | internal/fetch/fetch.go:75-179 | one new tick row with the attempts made, still running if and only if the fetch's last write was lost |
| `Fetch.RecoveryEndsRow` | internal/rawstore/store.go:306-316 | when the lost write was a committed capture's, registering the capture succeeds and ends the row |
| `Fetch.NothingEndsRow` | internal/fetch/fetch.go:264-282 | a row that no transaction writes again stays as it is over every run of transactions, until a summary deletes it |
| `Fetch.RunningRowExample` | internal/fetch/fetch.go:158-162 | a concrete fetch with fresh IDs whose failed transaction leaves its row running |
| `Maintenance.EligibleDays` | internal/service/maintenance.go:80-111 | exactly the closed days from the first tick on that need compaction, in order, up to the first failing check |
| `Maintenance.NeverTogether` | internal/service/maintenance.go:119-172 | two compactions of one stream, or a compaction and a cleanup, never run together |
| `Maintenance.PassCompletes` | internal/service/maintenance.go:119-172 | a pass that ends without cancellation compacted each task exactly as often as it was queued |
| `Maintenance.PassProgresses` | internal/service/maintenance.go:119-172 | while a pass runs some worker or the dispatcher can take a step |
| `Upload.CapNeverReached` | internal/upload/upload.go:295-305 | the delay doubles up to the seventh attempt and stays at 320 minutes |
| `Upload.Uploader.CopyAndVerify` | internal/upload/upload.go:198-211 | adds at most the one object, replaces none, and succeeds exactly when both commands work, the local file has the expected hash, and nothing else is there |
| `Upload.Uploader.Publish` | internal/upload/upload.go:178-196 | whatever fails, no manifest is left without its artifacts; it succeeds exactly when the directory verifies, every command works and every object is absent or equal, and then the remote holds the revision; if an entry's local file is missing or has another hash or size, it fails with a local-integrity error, runs no command and leaves the remote as it was; a remote-integrity error exactly when an object under one of its names differs |
| `Upload.Uploader.ProcessRow` | internal/upload/upload.go:105-153 | one row ends verified exactly when all of that holds for it; permanently failed exactly when its destination is configured and its manifest is unreadable, its directory does not verify, its publication directory is refused as an invalid dataset, or the remote holds another object; else it is to be retried at now plus the jittered backoff of its attempt, and is due again exactly from then on; no other row moves, and a failed write of the row leaves it as it was or uploading |
| `Upload.Uploader.ProcessPending` | internal/upload/upload.go:99-155 | every due row up to the first cancellation or failed write is so settled, all of them if there is none; the gate stays exact, and every newly verified row is proven by the remote |
| `Retention.Retention.RemoveRegular` | internal/lifecycle/retention.go:131-150 | removes one regular file and reports its size; a missing file is not an error |
| `Retention.Retention.Cleanup` | internal/lifecycle/retention.go:31-113 | a capture is marked retained, or a file of captures removed, only if some revision lists the capture and each that does was published by the raw cutoff; a revision is released, or its files removed, only if it was published by the Parquet cutoff; a day is summarised only if its stream is configured and all its revisions were published by the summary cutoff. No file is left of what is marked. It fails exactly when a candidate's file cannot be removed or a summary is refused; else everything due was done, and reported bytes, raw and Parquet files and days are exactly what went |
| `Retention.Retention.RemoveFiles` | internal/lifecycle/retention.go:31-87 | the first two passes: marked rows, removed files and counters agree whatever happens, and it succeeds exactly when no candidate's file is stuck |
| `Retention.DisposableIsReleased` | internal/lifecycle/retention.go:36-87 | every file a cleanup may remove belongs to a released capture or to a published revision without unsettled required uploads |
| `LifecycleTheorems.StepKeeps` | internal/service/maintenance.go:36-53 | every step of the archive keeps the invariant |
| `LifecycleTheorems.RunKeeps` | internal/service/maintenance.go:36-53 | the invariant holds in every reachable state |
| `LifecycleTheorems.RawDeletionIsSafe` | internal/lifecycle/retention.go:36-61 | when a run is about to delete a raw payload, a revision lists it, and every revision listing it records the hash of its row and is published with each required destination retired or holding it; one without required uploads was recorded under local-only cleanup or is held somewhere |
| `LifecycleTheorems.DeletedBytesAreArchived` | internal/lifecycle/retention.go:36-61 | the same down to content: each revision listing the payload was compacted from that capture, with the hash of its row; a payload that hashed to it is in the artifact (nested: its bytes; flattened: the rows they decode to), any other is excluded by the manifest; required destinations hold that artifact by hash |
| `LifecycleWitness.DeletionIsReachable` | internal/lifecycle/retention.go:36-61 | for every capture and every package that can ship it, some run compacts it, uploads it and comes to delete its payload |
| `LifecycleCases.CentralTheoremApplies` | internal/lifecycle/retention.go:36-61 | for every feed, decoder and hash and every readable capture there is a world in which every package is the work of `Compact` and a run that comes to delete the payload, so the central theorem is not vacuous |
| `LifecycleTheorems.RequiredNeverStranded` | internal/state/store.go:335-350 | while a required upload is unsettled its revision keeps both local files and its paths, and the row is not expired |
| `LifecycleTheorems.ExpiredRowComesBack` | internal/service/maintenance.go:174-211 | an optional row expired while in flight still ends verified |
| `LifecycleExpiry.ComesBackExactly` | internal/service/maintenance.go:174-211 | in every reachable state, an expired row leaves that status in some continuation if and only if a worker holds it |
| `LifecycleExpiry.ExpiredRowRun` | internal/service/maintenance.go:174-240 | a run into a state where the row is expired, its files are gone, and its worker ends it verified or waiting for a retry |
| `LifecycleTheorems.GateInEveryRun` | internal/state/store.go:693-773 | the publication gate is exact in every reachable state of the archive |
| `LifecycleTheorems.ManifestIsLast` | internal/upload/upload.go:178-211 | whenever a remote directory holds a manifest its artifacts are there by hash, and a verified row means both are |
| `LifecycleTheorems.NothingRewritten` | internal/compact/compact.go:115-123 | no directory is rewritten, no remote object replaced and no publication undone, however the run goes on |
| `LifecycleTheorems.RevisionsAreGapless` | internal/state/store.go:499-508 | the revisions of a day are 1 to n and at most one directory, n + 1, waits for adoption |
| `LifecycleTheorems.RegisteredOnce` | internal/rawstore/store.go:285-316 | a retained or summarised capture has no files from which it could be registered again |
| `LifecycleTheorems.RunIsTransactions` | internal/state/store.go:81-773 | on its tables a run of the archive is the run of its steps' own transactions, in order |
| `LifecycleTheorems.RowsConserved` | internal/state/store.go:380-449 | over any run of the archive, the tick and capture rows its steps inserted for a stream are its live ones plus those its summaries count |
| `LifecycleTheorems.SummariesBalance` | internal/state/store.go:402-433 | every summary in every reachable state balances |
| `LifecycleSafety.WriteRevisionKeeps` | internal/compact/compact.go:257-280 | writing a revision directory keeps the invariant |
| `LifecycleSafety.SaveRevisionKeeps` | internal/compact/compact.go:282-304 | recording a revision keeps the invariant, with other compactions and uploads in flight |
| `LifecycleSafety.AdoptKeeps` | internal/reconcile/reconcile.go:85-131 | adopting a revision keeps the invariant |
| `LifecycleSafety.FinishUploadKeeps` | internal/upload/upload.go:127-134 | marking a row verified keeps the invariant, with other workers in flight |
| `LifecycleSafety.FailUploadKeeps` | internal/upload/upload.go:135-150 | marking a row failed keeps the invariant |
| `LifecycleSafety.PutManifestKeeps` | internal/upload/upload.go:194-195 | a manifest is stored only when its artifacts were verified |
| `LifecycleSafety.MarkParquetKeeps` | internal/lifecycle/retention.go:66-87 | releasing a published revision keeps the invariant while its optional uploads are in flight |
| `LifecycleSafety.SummariseKeeps` | internal/lifecycle/retention.go:88-107 | replacing a day by its summary keeps the invariant and leaves no file of it behind |
| `LifecycleSafety.RetireKeeps` | internal/state/store.go:736-773 | retiring a destination under the exclusive lock keeps the invariant |

## Left out

- HTTP transport, gzip, TLS, headers, response limits and the classification of errors by message text.
- Protobuf wire decoding: a deterministic function from bytes to an optional message; the flags it raises are carried as data.
- The generated nested projection: a nested row carries the decoded message and the body, not its projected columns.
- Parquet encoding, row groups and flushes: a file is the sequence of rows written. A write error ends `Compact` without effect and is not modelled.
- JSON encoding of manifests and sidecars: a file holds the value that was written, or is torn.
- SQLite: tables are maps with atomic transactions. Rows of compactions and uploads are keyed by their UNIQUE columns, so surrogate row IDs do not appear.
- rclone: an immutable copy that may fail before or after its effect or find another object in place, and a hash query. Interruptions that leave a partial object under the final name are not modelled.
- SHA-256 and FNV are functions with no assumed collision resistance, so "holds the revision" means equal hashes.
- Path cleaning, symlink checks, configuration files, secrets, the command line, logging, metrics and health endpoints.
- Time zones: days are consecutive intervals given by their start instants.
- Retention cutoffs are compared as integers; the stored text differs from that only within one second.
- `Fetch.Fetcher.Fetch`: a request that cannot be built, which ends as a configuration failure before or at an attempt, is not modelled.
- `Recovery.Machine.Reconcile`: the corrupt files are counted in walks of their own beside the registering one; read errors of single files count as corrupt in the code and are not distinguished from damaged content here; a refused capture transaction counts as a failing operation.
- `PowerLoss.DurableExactly`: one commit; the directories it found are taken to be durable, and those recovery makes are not modelled.
- `PowerLoss.RecoveryPowerLossExactly`: one commit and one recovery; a rename that reaches the disk carries its file along.
- `Reconcile.All`: the raw pass that precedes the walk is `Recovery.Machine.Reconcile`; directories are visited in a given order.
- `Scheduler.EveryTickAccountedFor`: the step from the last acquisition to the start of the fetch takes no time, and the windows are promised only for runs in which no timed-out wait takes a token.
- `Upload.Uploader.ProcessPending`: the local files do not change during one call; `Lifecycle` models the interleaving with retention, where a file may vanish between the check and the copy.
- `Compact.Compactor.Compact`: random staging names, the attribution text, licence, application version and day statistics are not carried in the manifest.
- Sorting of the compaction queue by date and stream: the order of tasks is arbitrary.
