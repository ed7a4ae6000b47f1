# SquadReader: a verified model

SquadReader reads a running game server's memory, records each match to a `.sqrx` file with a JSON sidecar, keeps
player statistics and ratings in SQLite, serves finished recordings over HTTP, pushes them to a central server and
updates itself. This project models the parts of it that make promises about whole runs, and proves those promises.

| files | what they model |
|---|---|
| `Lifecycle` | the match states and lifecycle phases that the recorder, the statistics and the HTTP gate share |
| `Recorder`, `RecorderHistory`, `RecorderInvariant`, `RecorderResults`, `RecorderClosing` | the recording state machine, and what holds in every run of it |
| `MetaCache`, `RecorderFiles` | the HTTP gate's metadata cache, interleaved with everything that changes the two files; that the recorder only changes them in these ways |
| `WalkDelta` | the incremental walk over the object array |
| `Versions`, `Updater`, `UpdaterRuns` | version order, the self-update protocol across restarts |
| `Stats`, `StatsHistory` | the lifecycle of the statistics store, with transactions that commit or roll back, and its rows read off the ticks |
| `Rounding`, `Elo`, `EloLedger`, `EloAccounts`, `EloLaws` | percentiles and deltas, live and rebuilt ratings, the books over all runs, and who gains by a match |
| `SynthMatch` | match ids for servers that report none |
| `ProcessMemory`, `Scanner`, `Aob` | reading memory in pieces, and searching it for needles and for patterns |
| `LogTail`, `LogHistory` | crediting wounds and deaths from log lines |
| `Retention`, `Notify` | pruning and message splitting |
| `Backlog`, `BacklogRuns` | the durable push queue, and what becomes of each queueing |
| `Decimals` | decimal numerals, for file names and versions |

The shape is the same throughout. What the source does by changing an object is a class whose methods are proved
against a function from the old state to the new one; what it does with a loop is a method with a loop. A run is a
sequence of events, and `Run(h, n)` is the state after the first n of them. The theorems compare that state with the
history alone: which ticks were accepted, which reads succeeded, which moves another thread made.

Some results are conditions rather than plain promises, because the code keeps the promise only under them:

* One torn but readable tick can split a match with a synthetic id. Torn ticks that do not look like the match held are
  harmless unless three in a row agree with each other (`SynthMatch.IdIsHeld`, `SynthMatch.OnlyThreeTornSplit`). One
  that does look like it becomes what the following ticks are compared with; the next tick keeps the id if and only if
  it continues the torn one, and three good ticks in a row split the match if and only if none of them does
  (`SynthMatch.NextIsComparedWithTheLast`, `SynthMatch.AbsorbedTearSplits`, with the failing run in
  `SynthMatch.OneTornTickSplitsAMatch`: a single `elapsedSec` read 50 s too high).
* A match that is queued for pushing while an older marker of it is there keeps the stats it had then. A queueing is
  kept if and only if it, or a later one of the match, did not find a marker that stood for older stats
  (`BacklogRuns.KeptUnlessMissed`, with the failing run in `BacklogRuns.SupersededThenEnded`: a match taken for ended,
  its stats pushed, and then really ended while its replay is still awaited).
* A rebuild of all ratings agrees with live application if and only if no gated match has a few rated players but
  fewer than the minimum (`EloLedger.RebuildEqualsLive`).
* `find_all` agrees with `match_at` on all haystacks if and only if the pattern has a byte that is no wildcard
  (`Aob.FindAllAgreesWithMatchAt`).
* A rollback brings back the binary that the release was staged over if and only if no install step died between the
  swap and the marker (`UpdaterRuns.RollbackReachesOldRelease`, with the failing runs in
  `UpdaterRuns.UnmarkedSwapLosesTheOldRelease` and `UpdaterRuns.OldReleaseLost`).
* A crash-looping release is promised to be rolled back after MAX_BOOT_ATTEMPTS boots (`sqreader/cli.py:2434-2435`). But
  the install step that counts them is run by the installed release itself, and the unit starts the agent even when the
  step fails (`packaging/install.sh:305`), while the smoke run before the swap tries only `version`. The release is
  taken back if and only if MAX_BOOT_ATTEMPTS + 1 steps get as far as counting
  (`UpdaterRuns.RolledBackExactlyWhenCounted`); each step that does not allows one more start
  (`UpdaterRuns.TrialIsBounded`, reached in `UpdaterRuns.BoundIsReached`), and a release that cannot run the step is
  never taken back (`UpdaterRuns.TrialGoesOn`).
* Drained log events are complete while no more of them than the buffer holds come between two drains
  (`LogHistory.NothingIsLost`); beyond that the queue is the newest ones (`LogHistory.QueueIsTheNewest`).

Where code and comments differ, the model follows the code:

* `find_in_regions` with `max_hits=0` reports one hit: the limit is looked at only after a hit.
* A negative `--min-keep` keeps every recording (`files[-0:]` is the whole list), while 0 keeps none.
* `SyntheticMatchIds` documents three consecutive ticks, and that a single torn read does not split a match; ticks that
  are unreadable or carry a real id in between are passed over, and a single torn read can split a match, as above.
* `_MetaCache` caches the stub of a young recording that has no sidecar; while neither file changes, later requests
  are answered with that stub and the sidecar is not healed (`MetaCache.AskedTwice`).

## Model

| member | source | states |
|---|---|---|
| Recorder.Recorder.HandleSnap | sqreader/recorder.py:349-587 | one snapshot changes the state box and the directory as `Step` says: tick bookkeeping, ambiguous, inactive and active branches |
| Recorder.Recorder.TrackSequence | sqreader/recorder.py:386-427 | a gap, or a missing tick id after a sequenced one, voids both confirmations; only a snapshot without an id is dropped |
| Recorder.Recorder.HandleInactive | sqreader/recorder.py:438-488 | counts known-inactive ticks; the third closes the recording, or drops what waits to be opened |
| Recorder.Recorder.HandleActive | sqreader/recorder.py:490-587 | another id is confirmed three times before the recording is closed and the confirmed frames seed the next one |
| Recorder.Recorder.BufferOrOpen | sqreader/recorder.py:520-584 | buffers until the id is stable and the name known or the buffer full, then opens and flushes in order |
| Recorder.Recorder.ChoosePath | sqreader/recorder.py:563-567 | the first of the candidate names that no file has |
| Recorder.Recorder.FinalizeRecording | sqreader/recorder.py:272-331 | closes the writer, deletes a recording that is too short, and writes finalized only for a confirmed end |
| Recorder.Recorder.WritePositionFrame | sqreader/recorder.py:604-621 | appends to the open writer and changes no tick count, peak, buffer or counter |
| RecorderResults.RecordingsAreFaithful | sqreader/recorder.py:407-601 | in every run, a file's full frames are exactly the accepted InProgress frames of its match, in order, from its first frame until it closes: now if it is open, the proof of the end if it is finalized, the end of its process otherwise |
| RecorderResults.NoFrameTwice | sqreader/recorder.py:493-601 | no snapshot is in two files or twice in one |
| RecorderResults.OneWriter | sqreader/recorder.py:520-584 | at most one writer is open, it is the current recording's, and nothing waits in the pre-open buffer meanwhile |
| RecorderResults.EndsExactlyOnEvidence | sqreader/recorder.py:386-518 | a tick ends the open recording if and only if it completes three gap-free accepted ticks, all known-inactive or all of one other id |
| RecorderResults.ClosedForever | sqreader/recorder.py:272-331 | a closed recording is never reopened, extended, rewritten or deleted by the recorder, nor by a later process |
| RecorderClosing.WhatBecomesOfARecording | sqreader/recorder.py:272-331 | in every run: until there is evidence of its end a recording gains exactly the accepted frames of its match and the position frames; then it is kept with the same lines and finalized if and only if it has `min_ticks` frames, and otherwise deleted; a graceful shutdown keeps it as unverified, a crash as it is |
| RecorderClosing.NewRecordings | sqreader/recorder.py:551-584 | in every run a new recording is opened by a snapshot of its match, under the first of its candidate names that is free, and with an active sidecar |
| RecorderResults.OpensAcrossGaps | sqreader/recorder.py:407-584 | with no writer open, the third accepted frame of a match opens its recording once the name is known, and the tenth in any case, across tick gaps, dropped ticks and up to two known-inactive ticks in a row; it stays open, and its file holds what was buffered of the match before and every accepted frame since |
| RecorderResults.RecordsWhenStable | sqreader/recorder.py:493-584 | from any state, three named frames of one match in a row leave that match being recorded; they must be gap-free only where another match is being recorded |
| RecorderResults.SidecarMatchesFile | sqreader/recorder.py:183-236 | the sidecar written at close agrees with a re-read of the file, and says over exactly when it is finalized |
| RecorderResults.ExtractMetadata | sqreader/recorder.py:138-180 | the counts of a re-read, line by line; it never claims a finished match |
| RecorderInvariant.PositionsKeep | sqreader/recorder.py:604-621 | position frames between ticks keep every part of the invariant |
| MetaCache.Cache.Get | sqreader/httpsrv.py:147-241 | under every interleaving, metadata that passes the gate was at one moment of the call the sidecar of a closed recording; while no two looks agree only the stub is answered; left in peace, it answers what the sidecar says, as not live exactly over a finished one or over an old one without a state, makes up unverified metadata where there is none, heals a recording older than 8 seconds, and caches what it found |
| MetaCache.Cache.Serve | sqreader/httpsrv.py:939-1055 | whatever happens meanwhile, the bytes served are those of the recording at a moment at which it was finished and closed; left in peace, it serves a recording if and only if its sidecar says finalized |
| MetaCache.AskedTwice | sqreader/httpsrv.py:216-241 | the stub of a young recording without a sidecar is cached: as long as neither file changes every later request gets it, and nothing is healed |
| RecorderFiles.ServeRecorded | sqreader/httpsrv.py:954-972 | in every run of the recorder, a request left in peace is served a recording if and only if it was finalized, with all its lines |
| MetaCache.FinishedIsFinal | sqreader/httpsrv.py:984-1024 | after a finished sidecar, the recording keeps its bytes for ever or is gone, as the immutable caching of the answer assumes |
| RecorderFiles.EveryEventIsMoves | sqreader/recorder.py:349-601 | every event of the recorder changes a recording and its sidecar only by moves that the cache is proved against |
| RecorderFiles.LifeIsMoves | sqreader/recorder.py:349-601 | the whole life of the two files of a path is a sequence of those moves |
| MetaCache.Cache.Recheck | sqreader/httpsrv.py:166-176 | a cached entry is used only if both files still have the signatures it is filed under |
| MetaCache.Cache.Confirm | sqreader/httpsrv.py:181-192 | loaded metadata is used and cached only between equal stats of both files |
| MetaCache.Cache.LoadAndRecheck | sqreader/httpsrv.py:178-192 | loaded metadata is used and cached only if both files kept their signatures meanwhile |
| MetaCache.Cache.Load | sqreader/httpsrv.py:216-241 | finished metadata only if the sidecar held it at a moment of the call; otherwise the stub, or healed and unverified metadata |
| MetaCache.HitIsCurrent | sqreader/httpsrv.py:166-176 | two equal stats of both files around a hit enclose a moment at which the sidecar said exactly this and the writer was closed |
| MetaCache.ReadIsFiled | sqreader/httpsrv.py:181-192 | metadata read between equal stats may be filed under them: it belongs to those versions, or the recording is gone for good |
| MetaCache.ClosedGainsNothing | sqreader/httpsrv.py:959-972 | whatever happens later, a closed recording stays byte for byte, or is gone and its name never carries that version again |
| WalkDelta.DeltaWalk.Walk | sqreader/squad/walkdelta.py:105-176 | the ledger after a walk, and the number of slots visited |
| WalkDelta.WalkIsPrecise | sqreader/squad/walkdelta.py:117-175 | in every run a walk leaves of a live slot what the visit says now if the slot changed, is on this tick's stride or is asked for by number or phase, or the walk starts afresh; what was there otherwise; and nothing of an empty slot |
| WalkDelta.VisitsAreTheLooks | sqreader/squad/walkdelta.py:117-176 | a walk visits exactly these slots |
| WalkDelta.MarkStride | sqreader/squad/walkdelta.py:117-175 | strided assignment marks exactly the indices of that remainder |
| WalkDelta.FullWalkLedger | sqreader/squad/walkdelta.py:71-79 | the full walk's ledger, record by record |
| WalkDelta.ReferenceIsFull | sqreader/squad/walkdelta.py:71-79 | the record loop of the full walk collects exactly the contributions of the non-null slots |
| WalkDelta.WalkIsExact | sqreader/squad/walkdelta.py:71-176 | after any sequence of walks, adoptions and state drops, the ledger is the full walk's over the latest columns |
| WalkDelta.NoEntryOutlivesTheWindow | sqreader/squad/walkdelta.py:117-175 | every live slot's entry was derived for its present object within the last `resync_ticks` walks |
| Versions.ParseVersion | sqreader/updater.py:52-65 | the loop reads the leading digits of every dotted part |
| Versions.NewerIsStrictOrder | sqreader/updater.py:52-69 | `is_newer` is irreflexive, asymmetric and transitive, and total on version tuples |
| Versions.DottedIsNewer | sqreader/updater.py:52-69 | of two dotted versions the one with the greater number at the first difference is newer, or the one that goes on where the other ends |
| Versions.EveryTextHasAKey | sqreader/updater.py:52-65 | any text at all has a key: a number for every dotted part, from its leading digits |
| Versions.DottedRoundTrip | sqreader/updater.py:52-65 | a tuple written with dots is read back as it was |
| Updater.StateDir.ApplyStagedUpdate | sqreader/cli.py:2445-2483 | the install step between two processes: swap, count a boot, or roll back and refuse, with a death possible before it has done anything, between any two file operations, and inside a refusal |
| Updater.StateDir.SwapBinary | sqreader/updater.py:276-317 | checksum, copy beside, smoke run, backup, replace; each failure leaves the target alone and refuses |
| Updater.StateDir.ConfirmBoot | sqreader/updater.py:350-376 | only the staged version's own report clears the marker |
| Updater.StateDir.CheckUpdate | sqreader/cli.py:820-855 | stages an accepted release whose download matches, and nothing on a source checkout: the artifact, then the marker, with a death possible between them |
| Updater.Accept | sqreader/updater.py:72-93 | an accepted manifest is signed, well formed and strictly newer than the running and the last handled version |
| Updater.AcceptsExactly | sqreader/updater.py:72-93 | a manifest is accepted if and only if it is signed, for this platform, with a safe artifact name and a checksum, and its numbers are ahead of the running version's and of the last handled one's |
| UpdaterRuns.OnlyVerifiedIsStaged | sqreader/cli.py:820-855 | a check-in stages nothing but such a release, and only with the bytes of its checksum |
| UpdaterRuns.InstallsOrRefuses | sqreader/cli.py:2468-2483 | the step takes a staged release in, or meets an error, keeps the old one and refuses it, or dies |
| UpdaterRuns.CountsOrTakesBack | sqreader/cli.py:2452-2466 | the step counts a boot of a release on trial; after the second it puts the backup back if it can, and refuses the release in any case |
| UpdaterRuns.StagedVersionsRise | sqreader/updater.py:72-194 | over all restarts, refusals and rollbacks, staged versions strictly increase |
| UpdaterRuns.TrialIsBounded | sqreader/cli.py:2445-2466 | an unsettled release is started at most MAX_BOOT_ATTEMPTS + 1 times, plus once for each install step since it was staged that left it pending without counting an allowed boot |
| UpdaterRuns.BoundIsReached | sqreader/cli.py:2445-2466 | for every two releases and every k, a run with k such steps and MAX_BOOT_ATTEMPTS + 1 + k starts, after which the release is still on trial |
| UpdaterRuns.TargetIsAlwaysWhole | sqreader/updater.py:276-333 | the target is complete after every event and holds the old, the staged or the backed-up bytes |
| UpdaterRuns.RollbackRestores | sqreader/cli.py:2452-2466 | the rollback restores the bytes from just before the last swap and remembers the refusal |
| UpdaterRuns.RollbackReachesOldRelease | sqreader/updater.py:276-345 | those are the bytes the release was staged over if and only if no install step died before `mark_applied` |
| UpdaterRuns.UnmarkedSwapLosesTheOldRelease | sqreader/updater.py:276-345 | in every run in which a step dies there and no start serves, the rollback puts the failing release back in its own place |
| UpdaterRuns.OldReleaseLost | sqreader/cli.py:2445-2483 | for every two releases such a run starts from a healthy agent and one offer |
| UpdaterRuns.CrashLoopEnds | sqreader/cli.py:2452-2466 | in every run in which a release never comes up and the install steps that get anywhere meet no error, it is taken back by the step that counts one boot more than allowed and not before, and refused for good, with any check-ins in between |
| UpdaterRuns.RolledBackExactlyWhenCounted | sqreader/cli.py:2452-2466 | in such a run the old bytes are back if and only if MAX_BOOT_ATTEMPTS + 1 steps of the trial got as far as counting |
| UpdaterRuns.TrialGoesOn | sqreader/cli.py:2452-2466 | whatever else fails, until then the target, the trial and the count are those of the steps that counted; steps that stop at once change nothing, however many there are |
| UpdaterRuns.HalfStagedRefusesTheOlder | sqreader/updater.py:123-143 | after a death between artifact and marker, an older release pending under that name is refused by the next step that gets anywhere, and the newer one is still accepted |
| UpdaterRuns.OnlyItselfConfirms | sqreader/updater.py:350-376 | a marker is cleared if and only if the process that runs reports the staged version |
| Stats.StatsStore.RecordTick | sqreader/stats.py:627-722 | one tick on the rows and the in-memory state, with a commit or a rollback |
| Stats.StatsStore.FinalizeOpenMatch | sqreader/stats.py:724-739 | shutdown closes the open match as unverified |
| Stats.OneOpenRow | sqreader/stats.py:604-722 | after every tick, rollback and restart at most one row is open, and it is the one the store believes open |
| Stats.NothingWithoutCommit | sqreader/stats.py:660-722 | an ambiguous or rolled-back tick changes no row, opens and closes nothing and calls no hook |
| Stats.WinnersNeedEvidence | sqreader/stats.py:987-1027 | a row with a winner is finalized, by a committed tick that completed three known-inactive ticks |
| StatsHistory.WinnerHasTheTickets | sqreader/stats.py:1000-1027 | in every run a finalized row names the side with more tickets in the first frame of the evidence, or in the last active one if that lacks a count, nobody on equality, and no winner if both do; no other row names one |
| StatsHistory.RowsAreTheHistory | sqreader/stats.py:627-722 | in every run a match has one row exactly if a committed tick played it, with the number of those ticks, the times of the first and the last, open exactly while the match is, and closed with the time between as its duration |
| StatsHistory.TicketsAreTheHistory | sqreader/stats.py:987-1027 | in every run a row shows the last counts that could be read, or those of the frame that proved the end |
| Stats.FinalizedExactlyOnEvidence | sqreader/stats.py:651-713 | a committed tick finalizes the open match if and only if it completes that evidence |
| Stats.HookFiresOnCommittedEnds | sqreader/stats.py:682-750 | the hook is called exactly for a match whose row became final in a committed transaction, once |
| Stats.StartIsKept | sqreader/stats.py:781-807 | no row is deleted or given another start, however often it is re-opened |
| Elo.Percentiles | sqreader/elo.py:186-214 | the nested tied-block loop gives each player (2 x below + tied - 1) / (2(n-1)), tied counting the player |
| Elo.PercentilesSumToHalf | sqreader/elo.py:186-214 | the percentiles of n players sum to n/2, however many ties there are |
| Elo.PercentilesOrder | sqreader/elo.py:186-214 | percentiles order players as their scores do, strictly |
| Elo.CalcMatchEloChanges | sqreader/elo.py:217-243 | every listed player, and no other, gets the delta that the whole match determines |
| Elo.DeltaIsCapped | sqreader/elo.py:233-243 | no delta leaves [-15, 15] |
| Elo.DeltaIgnoresOrder | sqreader/elo.py:217-243 | deltas do not depend on the order of the players |
| Elo.BetterScoreNeverCosts | sqreader/elo.py:217-243 | all else equal, a better score never gains less |
| Elo.HigherRatingGainsNoMore | sqreader/elo.py:217-243 | all else equal, a higher rating never gains more |
| Elo.OnlyTheOrderMatters | sqreader/elo.py:186-243 | rescaling the performance scores monotonically changes no delta |
| EloLaws.DuelOfEquals | sqreader/elo.py:217-243 | between two equals, result and score are worth 8 points each to a newcomer and 4 to others, up to 15 |
| EloLaws.DuelIsZeroSum | sqreader/elo.py:217-243 | in a match of two with the same weight, one wins what the other loses |
| EloLaws.WinningNeverCosts | sqreader/elo.py:217-284 | in any match, winning pays every player at least as much as any other result, and losing at most |
| EloLaws.TougherOpponentsNeverCost | sqreader/elo.py:217-243 | higher rated opponents never make the same result pay less, and the own team's ratings do not matter |
| EloLedger.EloStore.ApplyMatchElo | sqreader/elo.py:287-354 | the guarded live path: what is rated, what each rating and row becomes, and that a rated match is left alone |
| EloLaws.BookedExactly | sqreader/elo.py:315-354 | a row is rated if and only if its match passes the gates, is not rated yet and the player played long enough; it then gets a capped change, which moves the rating, not below 1, and one more match |
| EloLaws.StrangersKeep | sqreader/elo.py:315-354 | who has no row in the match, and every other match, is not touched |
| EloLedger.EloStore.RecalcAllElo | sqreader/elo.py:357-446 | the rebuild over the stored matches in start order, and how many matches it rates and skips |
| EloLedger.RebuildEqualsLive | sqreader/elo.py:287-440 | both paths agree if and only if no gated match has some, but fewer than the minimum, players over the playtime floor |
| EloAccounts.BooksAlwaysBalance | sqreader/elo.py:315-354 | in every run the match count is the number of rated rows, changes are capped, and the rating is the start plus the changes unless the floor bit |
| SynthMatch.SyntheticMatchIds.Apply | sqreader/synth_match.py:140-185 | one tick: keep, confirm, mint, persist or clear, and the snapshot that results |
| SynthMatch.IdIsHeld | sqreader/synth_match.py:140-228 | an id that is held, with a copy on disk of any earlier sighting, is supplied on every good tick of its match, across breaks, restarts, unreadable ticks, and stray torn ticks unless three in a row agree |
| SynthMatch.OnlyThreeTornSplit | sqreader/synth_match.py:205-228 | a stray torn tick mints another id if and only if it is the third of three in a row that agree |
| SynthMatch.NextIsComparedWithTheLast | sqreader/synth_match.py:162-203 | after a tick that continues the match held, torn or not, the next one keeps the id if and only if it continues that tick: same server and map, elapsed at most 3 s lower, and a start that moved by at most a minute and a tenth of the time between |
| SynthMatch.AbsorbedTearSplits | sqreader/synth_match.py:162-228 | after a torn tick that was taken for the match, three good ones keep its id if and only if one of them still continues the torn one |
| SynthMatch.OneTornTickSplitsAMatch | sqreader/synth_match.py:52-57 | a run in which a single torn read gives a match a second id |
| SynthMatch.NewIdNeedsThree | sqreader/synth_match.py:205-228 | a new id needs three chained sightings, none continuing the held match |
| SynthMatch.ThreeSuffice | sqreader/synth_match.py:205-228 | three chained sightings always end with an id |
| SynthMatch.AnotherMatchGetsAnId | sqreader/synth_match.py:187-274 | three ticks that agree with each other and not with the match held end with the hash of server start, wall-clock match start and map, held and written |
| SynthMatch.DiskIsRecent | sqreader/synth_match.py:264-283 | in every run the disk has the id supplied, with a sighting less than 30 seconds old |
| SynthMatch.RealIdsUntouched | sqreader/synth_match.py:140-160 | a real id is never altered |
| ProcessMemory.Process.IterRegionBytes | sqreader/mem.py:407-428 | the pieces and the number of reads, with failed chunks skipped and short reads continued where they end |
| ProcessMemory.PiecesAreTheImage | sqreader/mem.py:407-428 | of a readable region the pieces are the whole image, however short the reads |
| ProcessMemory.EveryAddressIsTried | sqreader/mem.py:407-428 | of any memory, an address has a byte that a read returned for it, or lies in one piece with a read that failed |
| Scanner.FindInRegions | sqreader/scanner.py:29-83 | all hits of all regions in order, cut at the limit; an empty needle is an error |
| Scanner.SearchRegion | sqreader/scanner.py:49-83 | the carry search over the pieces of one region equals one search of everything that was read |
| Scanner.HitsAreTheOccurrences | sqreader/scanner.py:49-83 | an address is reported if and only if the needle was read there in full, once, in ascending order |
| Scanner.ChunksMakeNoDifference | sqreader/scanner.py:40-83 | a readable region is searched as if in one piece, for every chunk size and every short-read split |
| Scanner.EveryRegionIsSearched | sqreader/scanner.py:29-83 | over a whole call: in readable regions, the hits are exactly the places of every listed region that hold the needle |
| Scanner.LimitMeans | sqreader/scanner.py:66-83 | the limit cuts the list of all hits off, but never before the first |
| Aob.MatchAt | sqreader/aob.py:79-89 | true if and only if the pattern fits at the offset and its fixed bytes are there |
| Aob.FindAll | sqreader/aob.py:92-120 | the accepted offsets in ascending order, with the anchor pre-check |
| Aob.FindAllAgreesWithMatchAt | sqreader/aob.py:79-120 | the two agree on all haystacks if and only if the pattern has a fixed byte |
| Aob.ScanRegion | sqreader/aob.py:155-178 | an address is reported if and only if the pattern is in the bytes read with its own chunk |
| Aob.ChunkIsItsRead | sqreader/aob.py:155-178 | that chunk is the read made at the last chunk start at or before the address, whatever became of the others |
| Aob.ChunksMakeNoDifference | sqreader/aob.py:155-178 | in a readable region that is every match, whatever the chunk size |
| Aob.SelectsEachOnce | sqreader/aob.py:155-178 | reported addresses ascend, so that none comes twice |
| LogTail.DamageLogParser.Feed | sqreader/squad/logtail.py:195-276 | one line on the two maps, the clock and the queue |
| LogTail.DamageLogParser.Gc | sqreader/squad/logtail.py:189-193 | drops exactly the records older than the time to live |
| LogHistory.MapsAreTheHistory | sqreader/squad/logtail.py:189-276 | the two maps hold, for each player, exactly the last hit and the last wound since the last wipe that did not age out |
| LogHistory.EventsAreTheHistory | sqreader/squad/logtail.py:195-298 | every event is the one that the history calls for |
| LogHistory.EventsSay | sqreader/squad/logtail.py:205-298 | what the events of wounds and deaths say, and that no other line gives one: victim, time, flags, the credited hit or else the line's own cause, and nobody as his own attacker |
| LogHistory.NoCreditAcrossAWipe | sqreader/squad/logtail.py:205-276 | whoever is credited hit this victim, and neither a revive nor a death of theirs lies between |
| LogHistory.QueueIsTheNewest | sqreader/squad/logtail.py:180-187 | the queue is the newest events since the last drain |
| LogHistory.NothingIsLost | sqreader/squad/logtail.py:278-303 | while the buffer suffices, drains hand out every event once, in order |
| Retention.Doomed | sqreader/cli.py:2239-2301 | what is removed is a prefix of the eligible files sorted oldest first |
| Retention.OnlyIdleFilesAreEligible | sqreader/cli.py:2239-2249 | eligible is exactly what was listed, could be looked at and was not written to lately |
| Retention.EachPolicyDoomsNoMoreThanItMust | sqreader/cli.py:2257-2301 | age takes every old file, size the shortest prefix that fits, free space the shortest that suffices or nothing, never a keeper |
| Notify.SplitBySize | sqreader/plugins/notify.py:219-239 | keeps content and order, every group may be sent, and no other partition uses fewer groups |
| Backlog.Agent.Enqueue | sqreader/ingest_client.py:233-241 | after it returns the match has a marker; an existing one is left alone |
| Backlog.Agent.StatsStep | sqreader/ingest_client.py:264-271 | the stats are read, received and noted in this order, or the match is not found and dropped; a failure leaves the marker |
| Backlog.Agent.FlushOne | sqreader/ingest_client.py:254-289 | what one match's flush may do, and in calm exactly what it does, step by step; stats noted before are not sent again |
| Backlog.Agent.FlushBacklog | sqreader/ingest_client.py:244-290 | keeps log and markers consistent under failures, lost replies, deaths and new arrivals; in calm it sends what is missing in marker order, leaves only the matches that wait for their replay, and counts both |
| BacklogRuns.Live | sqreader/ingest_client.py:233-290 | every run with restarts has a legal log, with markers as the log says |
| BacklogRuns.KeptUnlessMissed | sqreader/ingest_client.py:233-290 | a queueing is owed, delivered since or looked for in vain since, if and only if it or a later one did not find a marker for older stats |
| BacklogRuns.ReplayFollows | sqreader/ingest_client.py:273-285 | after a queueing that was not missed, and where replays are wanted, a marker is there, or stats and replay were both sent since, or the match was not found |
| BacklogRuns.ReplayAfterStats | sqreader/ingest_client.py:264-282 | a replay is sent only after the stats of the same marker were received |
| BacklogRuns.DoneMeansReceived | sqreader/ingest_client.py:269-282 | a done flag means that central received it under this marker |
| BacklogRuns.SupersededThenEnded | sqreader/ingest_client.py:233-290 | a run without any failure, with replays wanted throughout, in which the final stats of a match are never sent |

## Left out

- Recorder.Recorder.HandleSnap: does not model log warnings, `last_state`, the stall counter, byte counts, wall-clock stamps or file contents beyond one entry per line; a snapshot's `at` stands for its identity. Writing the active sidecar and the final one is taken to succeed.
- Recorder.Recorder.FinalizeRecording: does not model write errors inside it, as the atomic replacement is taken to succeed.
- MetaCache.Cache.Get: does not model a `stat` that fails other than for a missing file. Distinct file versions have distinct stat signatures, a name is not used again once its recording was finalized, and other requests cache only what `Filed` admits, which is what this one is proved to do.
- MetaCache.Cache.Serve: takes the file as read at one moment after the gate; byte ranges, encodings and entity tags are left out.
- WalkDelta.DeltaWalk.Walk: the object array's columns and the visit are inputs; `sqreader/squad/snapshot.py` is not part of this model.
- Updater.StateDir.ApplyStagedUpdate: takes a marker that cannot be written for a death at that point, which leaves the same files. A checksum is modelled by the binary that it pins, a signature by a boolean; the service manager only starts the target after each install step, whatever became of that.
- Versions.ParseVersion: does not model digits outside ASCII, for which `str.isdigit` and `int` disagree.
- Stats.StatsStore.RecordTick: does not model players, kill events, vehicle sessions, the server id or SQL; the rating call is `EloLedger.EloStore.ApplyMatchElo`. `finalize_open_match` is modelled with its default, unverified.
- Elo.CalcMatchEloChanges: does not model binary floating point. Scores are reals, and the expected score is any strictly decreasing function into the open interval from 0 to 1, of which `1 / (1 + 10 ** x)` is one; rounding is half to even as in Python.
- Elo.Percentiles: takes the performance score as given; the weights of `performance_score` are left out.
- EloLedger.EloStore.RecalcAllElo: takes the order of the matches as an input, without repetition; equal start times, which SQL orders arbitrarily, are therefore covered one order at a time.
- SynthMatch.IdIsHeld: starts from a state that doubts nothing and holds an id of which the disk has some sighting, which is how supplying an id and a restart leave it.
- SynthMatch.SyntheticMatchIds.Apply: takes writing the state file to succeed; `_persist` passes over a failure (`sqreader/synth_match.py:280-283`), and after one right at the mint a restart loses the id. It does not model an unreadable or foreign state file beyond "nothing loaded"; the minted string is an input function of its parts.
- ProcessMemory.Process.IterRegionBytes: the generator is modelled by the list of what it yields. A chunk size of zero, with which the loop does not end, is excluded.
- Scanner.FindInRegions: after the limit is reached the source reads no further; the model has read the current region to its end, which changes no result.
- Aob.FindAll: is modelled for a range inside the haystack. Parsing a pattern, `find_first` and `resolve_rip_relative` are not modelled.
- LogTail.DamageLogParser.Feed: starts from classified lines; the regular expressions, weapon names and name resolution are left out.
- Retention.Doomed: does not model the removal itself and its error messages; sizes and free space are those read at the start, in whole bytes and seconds.
- Notify.SplitBySize: takes the size of an embed as given.
- Backlog.Agent.FlushBacklog: does not model foreign or damaged files in the directory, the value of the sequence counter, what the stats are, or two flushes at once; `_safe_id` is taken to be injective, so that a marker stands for one match.
- Reading process memory through the kernel, the C helper, cryptography, compression, HTTP routing, Discord, SQL text and migrations, the read-only queries, the frontend, argument parsing, the catalog and asset scripts are not modelled.
