# FuelMind: a verified model

FuelMind runs on a single computer at a petrol station. A core process reads the point-of-sale
exports, keeps a sales database and a data mart, answers the owner's questions and sends messages;
a launcher supervises the core and updates it unattended. This project models the parts of it that
carry the most state and arithmetic, and proves what they promise over all inputs, runs and power
cuts. `dafny verify dfyconfig.toml` checks everything.

## The parts

**Unattended updates** (`Version`, `VersionText`, `UpdateProtocol`, `UpdateProgress`, `Launcher`,
`CrashLoop`, `Supervisor`, `Probation`). The core and the launcher share a data folder: the current,
previous and pending pointers, the installed versions, the quarantine list and the probation record.
`UpdateProtocol` is a transition system in which every durable write is one step and the power may
fail between any two; its invariants are proved for every run. It is generic in how versions
compare, for any comparison that is antisymmetric and, on the versions in use, transitive; `Semver`
is the program's own. `Version` proves which three parts, and which three versions, it orders
consistently, exactly, and a set of versions on which it is an order; `VersionText` says which text
decides between two versions, and which way. The classes of `Launcher`, `CrashLoop` and `Supervisor`
are the code's own steps. Each records the durable states it passes through, these are proved to be
protocol states, and one trip round the supervision loop is proved to be a run of the protocol, and
with it any number of trips. `Probation` says what a switch, a failed trip and a quick exit leave
behind. What the protocol does not protect is stated too, each time with the exact condition: a lost
rollback target, a lost probation, a failed version that never reaches the quarantine, a bundled
core that is not taken up again until a prune deletes it, a release pruned while it is staged, and a
quarantined bundle. Outside the writes at which a cut loses a rollback target or a failed version,
updates without bundled cores settle whatever cuts and restarts there are (`UpdateProgress`).

**The ingest pipeline** (`Ingest`, `Delivery`, `Normalization`, `Pipeline`, `PipelineSafety`). A
file is parsed into rows and rejects, its rows are grouped by source and stored once each under any
failures and retries, and the normalizer turns raw rows into transactions, one per source and
external id, recording which row replaced which. The classes hold the tables; `PipelineSafety`
proves what every history of ingests and passes keeps, among it that each transaction says column by
column what its raw row says. "The newest export wins" is true when no row fails to normalize, and
otherwise exactly when the row that arrives is newer than the one it replaces.

**Credit, prices and the mart** (`Credit`, `Prices`, `Ledger`, `Mart`, `MartSafety`, `Ask`).
`Ledger` says what a row means in terms of the books alone, as sums over sales and payments, and the
refresh methods are proved to write such rows. The correlated query that stands in for paying sales
off oldest first is proved to agree with doing so; where refunds are tied with sales, exactly when
the order of the ties does not matter. The mart's refresh only upserts: it equals a rebuild if and
only if earlier groups were right, and yields the group-by if and only if, besides, no group became
empty. Money is in paisa and volume in millilitres; cost is in thousandths of a paisa, so that a
volume times a price is exact.

**Answers about the figures** (`Figures`, `Tokens`, `Grounding`, `Replies`, `Answers`, `Routing`,
`AnswerTexts`). A model's reply is shown only if every number in it was given to the model. The
tokenizer, the canonical text, the printer and the check are modelled character by character. A
reply that is shown is proved to split into pieces each of which is justified, with no digit left
over; and the fixed answers that name no product and no price date are proved to pass the same check
when no figure is negative. A negative figure is allowed in no form, but is printed as a minus sign
and digits, so an answer with one passes exactly when those digits are allowed on another account.
`AnswerTexts` gives each fixed answer word for word, and which question gets it. A figure is a
decimal with a sign, `units / 10^scale`; printing rounds ties to even, and the whole-number form
rounds them away from zero, as the code does.

**Small algorithms** (`Pbkdf2`, `RateLimit`, `Phone`, `PhoneBackfill`, `Outbox`, `Decimal`, `Text`).
Key derivation over in-place buffers against section 5.2 of RFC 8018, the fixed-window limiter,
phone canonicalization and its one-time backfill, and the outbox with its retries.

## Where code and documentation disagree

- `internal/storage/phones.go:21-23` says running the backfill twice changes nothing the second time.
  That holds in every order of the first run exactly when no stored phone has a triple zero in front
  of a number still long enough to dial (`PhoneBackfill.SecondRunIdleIff`, from
  `Phone.IdempotentIff` for one number).
- `internal/phone/phone.go:14-22` promises one form per customer. `Phone.SpellingsOfOneNumber` gives
  exactly the spellings that share it; one with a trunk zero kept behind the country code, as in
  +92 (0)300 1234567, has another form for good (`Phone.TrunkZeroStaysApart`).
- `internal/version/version.go:22-25` presents `Compare` as an order on versions. With a part that
  is not an integer it can be cyclic (`Version.OrderCycle`); `Version.VersionsConsistentIff` says
  exactly which three versions it orders.
- `internal/storage/storage.go:202-210` speaks of a corrected export replacing the earlier row. An
  older row that starts to normalize later replaces a newer one as well
  (`PipelineSafety.RowKeepsNewestIff`, `PipelineSafety.CorrectionKeepsNewestIff`).
- `internal/cloudctl/ratelimit.go:8-11` gives the burst as what a sender may send in a window. That is
  so for the limiter's own windows; an interval of the same length can admit up to twice the burst,
  less one (`RateLimit.AnyIntervalBounded`, `RateLimit.BoundIsReached`), so that it stays within the
  burst only for a burst of one (`RateLimit.BurstBoundsIntervalsIff`).

## Model

| member | source | states |
|---|---|---|
| Version.Compare | internal/version/version.go:26-52 | the part-by-part loop, with early exit, computes the order of the two version strings |
| Version.OrderAntisymmetric | internal/version/version.go:26-69 | swapping the arguments negates the comparison, for all strings |
| Version.PartsConsistentIff | internal/version/version.go:56-69 | three parts are ordered consistently if and only if no non-integer part lies, as text, between two integers whose numeric and text order disagree |
| Version.VersionsConsistentIff | internal/version/version.go:26-69 | the comparison is transitive on three versions, in every arrangement, if and only if at the first part where they are not all equal (the pre-releases, when the cores are equal throughout) no non-integer of one lies, as text, between integers of the others whose numeric and text order disagree, with those two versions not ordered as the text has it |
| Version.OrderTransitive | internal/version/version.go:26-69 | the comparison is transitive, and strict when either step is, on versions whose core parts are integers that fit (or start beyond the digits) and whose pre-release is not an integer |
| Version.OrderCycle | internal/version/version.go:56-69 | outside that set it is not an order: 1.9 < 1.10 < 1.1a < 1.9 |
| Version.OrderlyIff | internal/version/version.go:26-69 | a version is outside the ordered set if and only if some part, at any place, is not an integer that fits though it is empty or begins no later than the digits, or its pre-release is an integer |
| Version.OrderIsSign | internal/version/version.go:22-69 | the comparison answers -1, 0 or 1 |
| VersionText.FirstDifferenceDecides | internal/version/version.go:26-69 | the first part in which two version strings differ decides between them, whatever follows: two numbers that fit by value, anything else as text |
| VersionText.SpellingIgnored | internal/version/version.go:56-76 | leading zeros of a number, or an empty part for zero, change nothing |
| VersionText.MissingPartIsZero | internal/version/version.go:33-45 | a missing part counts as zero |
| VersionText.ReleaseAfterPreRelease | internal/version/version.go:22-52 | a release is newer than every pre-release of it |
| VersionText.PreReleasesInOrder | internal/version/version.go:46-69 | pre-releases of one release are ordered by value when both are numbers, otherwise as text |
| VersionText.PrefixAndBuildIgnored | internal/version/version.go:26-29 | a leading v and build metadata change nothing |
| VersionText.ValidIsSafeName | internal/version/version.go:14-20 | a valid version is one plain directory name of at most 64 characters, with nothing in it that climbs or separates |
| VersionText.SafeNameIsValid | internal/version/version.go:14-20 | and every such name of letters, digits, signs and single dots is valid |
| Releases.BestRelease | internal/cloudctl/cloudctl.go:302-316 | the loop's choice, a release replacing an earlier one only when newer, is the choice function the next lemmas speak of |
| Releases.BestIsEligible | internal/cloudctl/cloudctl.go:302-316 | something is offered exactly when some release is eligible, and then an eligible one |
| Releases.BestIsMaximum | internal/cloudctl/cloudctl.go:302-316 | when the eligible releases have orderly versions, none of them is above the one offered |
| Releases.PublicationOrderIrrelevant | internal/cloudctl/cloudctl.go:302-316 | of two publication orders of the same releases, both or neither lead to an offer, and the versions the loop offers compare equal |
| Releases.OfferMeets | internal/cloudctl/cloudctl.go:302-322 | what is offered is in the list, newer than what runs, within the hardware tier and rolled out to the station; nothing is offered exactly when no release is all of that |
| Releases.RolloutReachesShare | internal/version/version.go:84-90 | a rollout of pct per cent reaches exactly pct of the hundred buckets, and raising it leaves none out |
| Releases.UpdateIsFinal | internal/cloudctl/cloudctl.go:302-316 | a station that has taken up what it was offered is offered nothing more of the same releases |
| UpdateProtocol.SemverIsLawful | internal/version/version.go:26-69 | the program's comparison meets the two laws the protocol proofs assume of an ordering |
| UpdateProtocol.StepKeepsInv | internal/launcher/supervisor.go:328-396 | every single durable write, and a power cut before or after it, keeps the crash-consistency invariant |
| UpdateProtocol.EveryRunIsConsistent | internal/launcher/supervisor.go:328-396 | in every run of stage, switch, rollback, adoption, prune and power cuts, current and previous name installed versions and previous <= current <= pending |
| UpdateProtocol.FreshFolderStaysConsistent | internal/launcher/bootstrap.go:27-66 | every state reachable from an empty data folder is so |
| UpdateProtocol.StageSparesNeededBinaries | internal/update/update.go:274-297 | the version whose folder staging deletes is neither current nor previous |
| UpdateProtocol.StagingMakesReady | internal/update/update.go:274-297 | staging left alone ends with the release installed and pending, ready for a handoff |
| UpdateProtocol.CutCanLoseRollbackTarget | internal/launcher/supervisor.go:328-337 | a cut between writing current and deleting pending makes the next handoff set previous to current, so nothing is left to roll back to while current still runs |
| UpdateProtocol.PendingStaysAhead | internal/launcher/supervisor.go:328-337 | in every run without a cut at that one point, a pending version is strictly newer than current |
| UpdateProtocol.SwitchKeepsTargetIff | internal/launcher/supervisor.go:328-337 | a switch leaves a version to roll back to if and only if pending was not current already |
| UpdateProtocol.SwitchesKeepTargets | internal/launcher/supervisor.go:328-337 | so, from an empty folder and without that cut, every switch of every run leaves a version to roll back to |
| UpdateProtocol.ProbationLostIff | internal/launcher/supervisor.go:160-186 | wherever a switch is cut, the new version runs next without probation if and only if it was current already and has no open window; on the update path, that is from the third write on |
| UpdateProtocol.CutCanLoseProbation | internal/launcher/supervisor.go:160-186 | a cut at either point between writing current and recording the window starts the new version without probation |
| UpdateProtocol.BundleBecomesCurrentIff | internal/launcher/bootstrap.go:27-66 | an uncut start makes its bundled core current if and only if nothing is current, or the core is not installed and newer than current |
| UpdateProtocol.BundleResumesIff | internal/launcher/bootstrap.go:27-66 | after a cut in an adoption the next start takes the same bundle up again if and only if it was not yet copied in or nothing is current |
| UpdateProtocol.CutCanLoseBundledUpgrade | internal/launcher/bootstrap.go:27-66 | a cut after the bundled core was copied in, at any write, means the same bundle does not become current at the next start |
| UpdateProtocol.KeptBundleStaysStored | internal/launcher/bootstrap.go:46-66 | nor at any start after that while the copy is there: a start with an installed bundle writes nothing |
| UpdateProtocol.PrunedBundleIsTakenUpIff | internal/launcher/supervisor.go:269-288 | a later start makes a bundle that was stored but not current, and is newer, current after a prune if and only if no pointer named it, which is exactly when the prune deleted it |
| UpdateProtocol.PruneKeepsStagedIff | internal/launcher/supervisor.go:269-288 | a prune between the rename and the pending write leaves the release ready if and only if pending named it already and it is there |
| UpdateProtocol.PruneCanOrphanPending | internal/launcher/supervisor.go:269-288 | otherwise pending dangles, and the next handoff deletes it and changes nothing else |
| UpdateProtocol.StepKeepsQuarantineFree | internal/launcher/rollback.go:107-130 | no write puts a quarantined version into a pointer unless the launcher starts with a quarantined bundle that it will make current |
| UpdateProtocol.PointersNeverQuarantined | internal/update/update.go:215-231 | without such a start current, previous and pending are never quarantined, at any crash point |
| UpdateProtocol.BundledCoreSkipsQuarantineIff | internal/launcher/bootstrap.go:27-66 | a start with a quarantined bundle ends with a quarantined pointer if and only if nothing was current, or the bundle is not installed and newer than current |
| UpdateProtocol.RollbacksNeedForwardMoves | internal/launcher/supervisor.go:341-370 | between two rollbacks a switch or adoption intervenes, in every run with any power cuts |
| UpdateProtocol.StepReturnable | internal/launcher/supervisor.go:328-370 | each write spends or earns the one chance to roll back exactly at a rollback or a forward move |
| UpdateProtocol.StepKeepsListsFailed | internal/launcher/supervisor.go:341-370 | unless support clears the list during a rollback, a rollback has its failed version on the list exactly from the third write on |
| UpdateProtocol.RollbackForgottenIff | internal/launcher/supervisor.go:341-370 | after a cut in a rollback and a restart, current is back at the previous version with the failed one unlisted if and only if the cut fell between those two writes |
| UpdateProtocol.ForgottenIsOfferedAgain | internal/launcher/supervisor.go:341-370 | the forgotten release, if newer and nothing is staged, is then accepted again when offered |
| UpdateProgress.QuarantineForgetsIff | internal/launcher/rollback.go:107-130 | the list of at most twenty forgets its oldest entry if and only if it was full and the version was new, keeps every other and has the version on it |
| UpdateProgress.StepLowersMeasure | internal/launcher/supervisor.go:328-370 | each switch or rollback strictly lowers the pair (releases not yet failed, releases above current), and no other step raises it, a cut or restart included unless it is at one of the three writes that lose a rollback target or a failed version |
| UpdateProgress.UpdatesSettle | internal/update/update.go:137-152 | without bundled cores, a cleared list or a cut at one of three writes, and with at most twenty failing versions, switches and rollbacks of a run together are bounded by the measure at its start, whatever other cuts and restarts it has |
| UpdateProgress.UpdatesBounded | internal/update/update.go:137-152 | with n releases at most n * (n + 1) + n switches and rollbacks in such a run |
| UpdateProgress.FailedNeverReturns | internal/launcher/rollback.go:92-130 | in such a run a version once rolled back from never becomes current again |
| DataFolder.DataDir.Write | internal/launcher/pointer.go:38-55 | an invalid version is refused, otherwise exactly one pointer changes in one durable step |
| DataFolder.DataDir.DeletePending | internal/launcher/pointer.go:96-102 | only pending changes |
| DataFolder.DataDir.ReadProbation | internal/launcher/probation.go:30-48 | returns the window exactly when it is for the current version and still open, and deletes any other |
| DataFolder.DataDir.WriteProbation | internal/launcher/probation.go:50-72 | only the probation record changes |
| DataFolder.DataDir.SwitchTo | internal/launcher/supervisor.go:328-337 | the durable states passed through are previous, current, pending, in that order |
| DataFolder.DataDir.IsVersionQuarantined | internal/launcher/rollback.go:92-104 | the search loop answers membership |
| DataFolder.DataDir.QuarantineVersion | internal/launcher/rollback.go:107-130 | appends once and keeps the newest twenty |
| DataFolder.DataDir.Rollback | internal/launcher/supervisor.go:341-370 | fails, changing nothing, exactly without a usable previous version; otherwise passes through current, pending, quarantine, probation in that order |
| DataFolder.DataDir.Stage | internal/update/update.go:274-297 | refuses an invalid or current version or a bad artifact; otherwise passes through delete, rename, pending |
| DataFolder.DataDir.InstallVersion | internal/launcher/bootstrap.go:86-103 | the copied core appears in one rename |
| DataFolder.DataDir.Adopt | internal/launcher/bootstrap.go:40-66 | stores a bundled core and adopts it when there is no current version or an older one |
| DataFolder.DataDir.Bootstrap | internal/launcher/bootstrap.go:27-66 | fresh install, upgrade, stored only, or nothing to do, with every durable state on the way |
| DataFolder.DataDir.PruneVersions | internal/launcher/supervisor.go:374-396 | deletes, folder by folder, exactly the versions no pointer names |
| DataFolder.PartlyPrunedConsistent | internal/launcher/supervisor.go:374-396 | a prune cut anywhere leaves the pointers consistent |
| DataFolder.SwitchTrailConsistent | internal/launcher/supervisor.go:328-337 | every durable state of the switch method is a protocol state |
| DataFolder.RollbackTrailConsistent | internal/launcher/supervisor.go:341-370 | so is every durable state of the rollback method |
| DataFolder.StageTrailConsistent | internal/update/update.go:274-297 | so is every durable state of staging |
| DataFolder.BootstrapTrailConsistent | internal/launcher/bootstrap.go:27-66 | so is every durable state of adoption |
| CrashLoop.CrashLoopDetector.Filter | internal/launcher/crashloop.go:22-29 | the in-place loop leaves exactly the times after the cutoff, in order |
| CrashLoop.CrashLoopDetector.RecordCrash | internal/launcher/crashloop.go:20-31 | the detector holds exactly the earlier times still inside the window and the new one, and reports whether they reach the limit |
| CrashLoop.CrashLoopDetector.Reset | internal/launcher/crashloop.go:34-36 | forgets everything |
| CrashLoop.LaterCounts | internal/launcher/crashloop.go:20-31 | the times kept after a cutoff are exactly those later than it, and as many |
| CrashLoop.HeldIsTheWindowIff | internal/launcher/crashloop.go:20-31 | for calls with any times, the detector holds exactly the crashes inside the last one's window if and only if each of those survived every call since |
| CrashLoop.HeldIsTheWindow | internal/launcher/crashloop.go:20-31 | a clock that does not go back meets that condition |
| CrashLoop.DroppedEarly | internal/launcher/crashloop.go:20-31 | called with a time that goes back, the detector holds fewer crashes than lie in the last call's window |
| Supervision.Supervisor.constructor | internal/launcher/supervisor.go:107-119 | starting picks up an open probation window of the current version and nothing else |
| Supervision.Supervisor.HandOver | internal/launcher/supervisor.go:160-186 | the handoff branches: nothing pending, dangling pending, switch with a probation window of full length in memory and on disk |
| Supervision.Supervisor.Crashed | internal/launcher/supervisor.go:187-210 | probation counter, crash loop and their fall-through when no rollback is possible |
| Supervision.Supervisor.RunChild | internal/launcher/supervisor.go:269-288 | a window that ends while the child runs is cleared and old versions are pruned, between the child's own writes |
| Supervision.Supervisor.Once | internal/launcher/supervisor.go:137-226 | one trip round the loop changes memory and disk as the trip function says |
| Supervision.Supervisor.Run | internal/launcher/supervisor.go:90-226 | the loop over any sequence of child runs |
| Supervision.TripIsRun | internal/launcher/supervisor.go:137-226 | each trip, with any staging the protocol lets the core do, is an uncut run of the protocol |
| Supervision.LoopHeadsConsistent | internal/launcher/supervisor.go:90-226 | so after any number of trips from a consistent folder the data folder is consistent at the head of the loop |
| Supervision.TripKeepsSynced | internal/launcher/supervisor.go:137-226 | an open window in memory is on disk for the current version with the same count, after every trip |
| Supervision.RestartKeepsProbation | internal/launcher/supervisor.go:112-124 | stopping at any loop head and starting again at any later time restores the same open window and crash count, or none if it has closed |
| Supervision.ForeignWindowIgnored | internal/launcher/probation.go:30-48 | a window is applied if and only if it is for the current version and open |
| Supervision.CountersTrackCrashes | internal/launcher/supervisor.go:187-210 | after any trips since the start the detector and the probation counter are those of the crashes since the last rollback or switch |
| Supervision.CrashRollsBackIff | internal/launcher/supervisor.go:187-210 | in any run of the loop since the start, a crash rolls back exactly when a usable previous version exists and it is at least the second crash of runs begun in probation, or at least three crashes since the last rollback or switch, this one included, lie in the ten minutes ending now |
| Supervision.LateProbationCrashCounts | internal/launcher/supervisor.go:146-200 | a run started inside the window counts even when it crashes long after the window closed |
| DataFolder.TrailEnds | internal/launcher/supervisor.go:328-370 | where a switch, a staging, a rollback and an upgrade leave the pointers when nothing cuts them |
| Probation.SwitchOpensProbation | internal/launcher/supervisor.go:160-186 | after any trips, a handoff to a staged release leaves it current and the old version previous, zero counters, and a window of exactly the given length from the end of the run, in memory and on disk |
| Probation.RestartWithoutRelease | internal/launcher/supervisor.go:160-171 | without a staged release a restart changes nothing but a pending pointer that names nothing |
| Probation.TwoProbationCrashesGoBack | internal/launcher/supervisor.go:160-200 | after a switch, two crashes of runs begun before the end of that window, with no other reset between, lead back to the replaced version whenever it is usable, with the new one quarantined |
| Probation.FailedTripGoesBack | internal/launcher/supervisor.go:136-158 | a missing binary, a failed self-check or a crash too many goes back to a usable previous version, with the failed one quarantined, nothing pending, no window and zero counters; otherwise the version stays |
| Probation.CommitPrunes | internal/launcher/supervisor.go:269-288 | a probation that ends while the child runs ends on disk too, and of the installed versions exactly those a pointer names remain |
| Probation.QuickExitsDoubleWait | internal/launcher/supervisor.go:134-222 | each quick exit doubles the wait, up to a minute |
| Probation.LongRunsAndCrashLoops | internal/launcher/supervisor.go:204-222 | a run of more than two minutes starts the wait over; a crash loop with nowhere to go back to makes it a minute |
| Normalization.ReloadAliases | internal/normalizer/normalizer.go:65-81 | the lookup table, built in any visiting order, holds every alias and its lower case and nothing else |
| Normalization.AliasResolves | internal/normalizer/normalizer.go:128-137 | when case does not distinguish products every spelling of an alias resolves to its product |
| Normalization.AliasesResolveIff | internal/normalizer/normalizer.go:128-137 | every spelling of every alias resolves to its own product if and only if no two aliases that differ only in case stand for different products |
| Normalization.AliasCanBeShadowed | internal/normalizer/normalizer.go:65-81 | in any table with such a pair, one of them in lower case, the visiting order decides which of the two the lower-case one answers with |
| Normalization.WrittenAliasWins | internal/normalizer/normalizer.go:128-137 | an alias in the table that is not all lower case is answered as written, whatever else is in the table |
| Normalization.NormalizesIff | internal/normalizer/normalizer.go:122-190 | a row normalizes exactly when its columns can be read and its alias, case aside, is in the table; it then gets the product of such an alias |
| Normalization.NormalizedRecordsRow | internal/normalizer/normalizer.go:122-190 | volume, price, total, payment method, time and canonical phone are the row's own, and the flags are set exactly when total and volume times price are too far apart and when the volume is negative |
| Normalization.ToleranceIs | internal/normalizer/normalizer.go:193-197 | the tolerance is a rupee up to a total of two hundred rupees and half a per cent beyond, edges included |
| Pipeline.Store.WriteRawTransactions | internal/storage/storage.go:109-146 | inserts the payloads not yet stored, in order, and counts them |
| Pipeline.Store.UnnormalizedTransactions | internal/storage/storage.go:156-183 | lists the rows neither live nor superseded, oldest first, up to the limit |
| Pipeline.Store.WriteNormalizedTransaction | internal/storage/storage.go:211-270 | insert, replace with supersession, or nothing; reports a replacement exactly when one happened |
| Pipeline.Store.RecordNormalizeError | internal/storage/storage.go:275-288 | counts attempts and reports the first |
| Pipeline.Store.Normalize | internal/normalizer/normalizer.go:83-117 | one pass resolves or fails each row that was unresolved when it started, and counts both |
| PipelineSafety.EveryHistoryIsWf | internal/normalizer/normalizer.go:83-190 | every history of ingests and passes keeps the table invariant: one transaction per row and per key, links between rows of one key, and every transaction says column by column what its raw row says |
| PipelineSafety.PassWrites | internal/normalizer/normalizer.go:83-190 | a transaction a pass has written belongs to a row unresolved before, records it, and has the product of an alias spelled, case aside, as in the row; every other transaction was there before |
| PipelineSafety.PassResolvesIff | internal/normalizer/normalizer.go:83-190 | a pass resolves exactly those of the rows it takes up that can be read and whose alias is in the table |
| PipelineSafety.PassTakesAll | internal/storage/storage.go:156-183 | with no limit reached a pass takes up every unresolved row |
| PipelineSafety.PassIsLimited | internal/storage/storage.go:156-183 | a pass takes up no more rows than its limit, and as many unless there are fewer |
| PipelineSafety.PassTakesOldest | internal/storage/storage.go:156-183 | with a limit reached it takes up exactly that many, all older than any left |
| PipelineSafety.EachRowOnce | internal/storage/storage.go:156-158 | after any history a raw row is exactly one of live, superseded, unresolved |
| PipelineSafety.NoCycle | internal/storage/storage.go:211-270 | superseded links never lead back |
| PipelineSafety.ChainEndsLive | internal/storage/storage.go:211-270 | from any superseded row the links end at the live row of the same source and external id |
| PipelineSafety.RevenueIsLiveRows | internal/storage/storage.go:211-270 | total revenue is the sum over the live rows, as they normalize |
| PipelineSafety.CorrectionKeepsNewestIff | internal/storage/storage.go:231-270 | a replacement keeps the newest row live if and only if the arriving row is newer than the one it replaces |
| PipelineSafety.RowKeepsNewestIff | internal/normalizer/normalizer.go:83-117 | taking up any unresolved row keeps the newest row of every key live if and only if it fails to normalize, finds no transaction of its key, or finds an older one |
| PipelineSafety.NewestExportWins | internal/normalizer/normalizer.go:83-117 | when no row ever fails to normalize, the live row of each key has the largest raw id |
| Ingest.ParseFile | internal/posadapter/csvwatch/parse.go:47-129 | fails exactly when a required column is missing; otherwise sorts every line into rows and rejects |
| Ingest.HeaderTakenIff | internal/posadapter/csvwatch/parse.go:15-28 | a file is taken exactly when its header names all eight required columns, in any order |
| Ingest.NoLineLost | internal/posadapter/csvwatch/parse.go:72-126 | every line is blank, or stored in its place, or rejected verbatim under its own line number |
| Ingest.NothingAdded | internal/posadapter/csvwatch/parse.go:72-126 | rows, rejects and blanks add up to the file |
| Ingest.AcceptedRowAgreesWithPayload | internal/posadapter/csvwatch/parse.go:100-139 | the stored source, external id and time are what the stored payload says |
| Ingest.AcceptedSays | internal/posadapter/csvwatch/parse.go:112-139 | an accepted line is stored with all that it says, column by column, and nothing else |
| Ingest.EarlyVerdictIs | internal/posadapter/csvwatch/parse.go:74-98 | which lines are unreadable, blank or too short, in that order of precedence |
| Ingest.LateVerdictIs | internal/posadapter/csvwatch/parse.go:99-126 | a line long enough is rejected when it names no source or its time cannot be read, and is otherwise accepted |
| Ingest.ColumnNameForgives | internal/posadapter/csvwatch/parse.go:56-60 | a byte-order mark before a column name is ignored; the name is trimmed and in lower case |
| Delivery.GroupRows | internal/posadapter/csvwatch/watcher.go:426-445 | groups by source in order of first appearance |
| Delivery.StoreRows | internal/posadapter/csvwatch/watcher.go:426-458 | one attempt with a storage failure at any group: what is committed, and success exactly without failure |
| Delivery.GroupingLosesNothing | internal/posadapter/csvwatch/watcher.go:426-445 | the groups together hold exactly the rows |
| Delivery.SourcesInOrder | internal/posadapter/csvwatch/watcher.go:426-445 | the groups are those of the sources the file names, in the order in which it first names them |
| Delivery.FailedAttemptKeeps | internal/posadapter/csvwatch/watcher.go:426-458 | an attempt that fails at one source keeps the rows of the sources before it, and adds no others |
| Delivery.RetriesConverge | internal/posadapter/csvwatch/watcher.go:281-349 | after any number of failed attempts, the attempt that succeeds leaves the table a first success would have left |
| Delivery.FileStoredOnce | internal/posadapter/csvwatch/watcher.go:426-458 | the table gains exactly the file's new distinct payloads, once each |
| Delivery.UniqueName | internal/posadapter/csvwatch/watcher.go:550-568 | terminates with a name not in use, the plain one when free |
| Delivery.DropFolder.Archive | internal/posadapter/csvwatch/watcher.go:535-548 | moves the file, overwriting nothing |
| Delivery.DropFolder.WriteRejects | internal/posadapter/csvwatch/watcher.go:511-530 | adds one file to the failed archive, overwriting nothing |
| Delivery.DropFolder.ProcessFile | internal/posadapter/csvwatch/watcher.go:281-349 | a file leaves the folder only once its rows are stored or it is known to hold none; unreadable rows are written out before storing, on every attempt |
| Credit.QueryIsOldestFirst | internal/mart/mart.go:160-218 | the running-total query names the day of the first sale left uncovered by paying sales off oldest first, for any order of ties without refunds among them |
| Credit.PositiveBalanceHasUnpaidDay | internal/mart/mart.go:160-218 | with a positive balance an unpaid day exists and is not in the future |
| Credit.PayingNeverAges | internal/mart/mart.go:160-218 | paying more never raises the days overdue |
| Credit.OverdueGrowsDaily | internal/mart/mart.go:160-218 | without payments an account that owes is exactly one day more overdue each day |
| Credit.QueryMatchesAnyOrderIff | internal/mart/mart.go:160-218 | refunds and sales tied in any way, the query agrees with every order of the ties if and only if each moment, at which the earlier total and its positive amounts exceed what was paid, has an uncovered sale on its day or earlier |
| Credit.TiedRefundDependsOnOrder | internal/mart/mart.go:160-218 | a refund tied with the sale whose excess over the payments it takes back: one order stops at the sale, the other and the query find nothing unpaid, for any amounts |
| Ledger.QueryRowIsBalance | internal/mart/mart.go:160-218 | an account has a row exactly when something was bought on credit by the day, and then outstanding is its credit sales less its payments up to the day, count the number of those sales, and the days overdue are zero without a balance and else counted from a sale of the account |
| Ledger.OverdueFromOldestLeft | internal/mart/mart.go:160-218 | with a balance they are counted from the sale left first when paying off oldest first |
| Ledger.PaymentBook.RecordCreditPayment | internal/storage/entry.go:80-95 | a payment of nothing or less is refused, otherwise it is added under the canonical number |
| Ledger.PaymentLowersBalance | internal/storage/entry.go:80-95 | a payment lowers exactly its customer's balance, by its amount, from its day on, and changes no count |
| Ledger.CostIsLatestPrice | internal/mart/mart.go:133-142 | the cost is that of the latest price of the product effective by the day, and there is none exactly when no price is |
| Prices.PriceBook.SetPurchasePrice | internal/storage/entry.go:25-38 | refuses a negative cost, otherwise replaces or adds the price of that product and date |
| Prices.InForceIsLatest | internal/mart/mart.go:122-153 | the as-of join picks the latest price effective on or before the day |
| Prices.PriceReachesNext | internal/mart/mart.go:122-153 | a saved price changes exactly that product's days from its date up to the next recorded date |
| Mart.DataMart.ListDays | internal/mart/mart.go:242-292 | the days with sales or unreadable rows in range and every day between the first sale and yesterday, each once |
| Mart.DataMart.RefreshCredit | internal/mart/mart.go:160-218 | on the listed days every customer who has bought on credit gets their balance as the books have it; every other row stays |
| Mart.DataMart.Refresh | internal/mart/mart.go:42-73 | the refresh of the three tables, told from the books: every group sold in the range its sums of volume, revenue and sales, every such row the cost of the price in force and what it leaves, every account on the scored days its balance; every other row stays |
| Mart.DataMart.RefreshAll | internal/mart/mart.go:75-94 | the full rebuild: up to today every sold group and every account on every scored day has its right row |
| Mart.DailySalesRefresh | internal/mart/mart.go:96-115 | merging the group-by into daily sales gives every group sold in the range its sums and leaves every other row |
| Mart.MarginsRefresh | internal/mart/mart.go:122-153 | merging the price join gives every row in the range its cost and margin, none of either without a price |
| Mart.CreditRowsRefresh | internal/mart/mart.go:160-218 | merging the credit query gives every account on the given days its balance |
| Mart.ScoredIff | internal/mart/mart.go:234-292 | a refresh scores exactly the days in range that have sales or unreadable rows, or are past and not before the first sale |
| Mart.RebuildTellsAll | internal/mart/mart.go:75-94 | the rebuilt tables are right for every group and account up to today |
| MartSafety.DailyRefreshIsRebuildIff | internal/mart/mart.go:42-120 | refreshing daily sales from a day equals rebuilding them if and only if earlier groups were right |
| MartSafety.RefreshIsExactIff | internal/mart/mart.go:96-120 | a refresh yields exactly the group-by if and only if earlier groups were right and no group became empty |
| MartSafety.EmptiedGroupStays | internal/mart/mart.go:96-120 | no refresh removes or corrects the row of an emptied group |
| MartSafety.MovedSaleCountsTwice | internal/mart/mart.go:96-120 | a sale corrected to another day is counted on both |
| MartSafety.RefreshIsRebuild | internal/mart/mart.go:42-94 | with earlier days right and no emptied group, the refresh gives the rebuild's daily sales, margins and credit rows |
| MartSafety.RefreshIdempotent | internal/mart/mart.go:42-73 | refreshing twice changes nothing more |
| MartSafety.IncrementalRefresh | internal/mart/mart.go:42-94 | after a rebuild, when sales, payments and prices change from a day on, refreshing from that day is a rebuild, unless a group became empty |
| MartSafety.PriceRefresh | internal/mart/mart.go:122-153 | after saving a price, refreshing from its date is a rebuild |
| Ask.Accumulate | internal/ask/ask.go:107-126 | margin, cost and revenue are the sums over the costed rows, of the week and of today, and margin + cost = revenue if the refresh wrote the rows; costed days are counted once |
| Ask.AccumulateWeek | internal/ask/ask.go:87-95 | the week's volume and revenue, and the products sold today in table order |
| Ask.SoldOnIs | internal/ask/ask.go:90-94 | today's products are exactly the rows of the day, each with its own volume and revenue |
| Ask.AccumulateCredit | internal/ask/ask.go:96-102 | credit outstanding is the sum of the balances above zero, and their number |
| Ask.RefreshedRow | internal/mart/mart.go:122-153 | which rows are costed, and margin + cost = revenue on them |
| Ask.CostedPlusUncosted | internal/ask/ask.go:107-126 | costed and uncosted rows split the revenue |
| Ask.TodayAddsUpIff | internal/ask/ask.go:107-126 | today's margin and cost make up today's revenue if and only if uncosted sales come to nothing |
| Figures.CanonicalRender | internal/llm/router.go:441-447 | the canonical text of a numeral is its digits without separators, trailing zeros or trailing point |
| Figures.SameValueSameText | internal/llm/router.go:441-447 | without superfluous leading zeros, numerals of equal value have equal canonical text |
| Figures.SameTextSameValue | internal/llm/router.go:441-447 | numerals with equal canonical text have equal value |
| Figures.ParsePrinted | internal/llm/router.go:428-438 | a printed figure reads back as itself |
| Figures.RoundingIsNearest | internal/llm/router.go:428-438 | rounding is exact when there are places enough and otherwise at most half a step off |
| Figures.TiesAre | internal/llm/router.go:428-438 | exactly half a step is rounded to the even neighbour or away from zero, as asked |
| Tokens.TokenText | internal/llm/router.go:352-352 | a number found in a text is digits and separators with an optional fraction |
| Tokens.TokenThen | internal/llm/router.go:352-352 | a number keeps its extent in front of anything that does not continue it |
| Tokens.PercentsPastNumber | internal/llm/router.go:353-353 | a number with no percent sign after it is never read as a percentage, from any of its digits |
| Grounding.AllowedNumbers | internal/llm/router.go:364-394 | the loops collect exactly the forms of the context's figures, products and issue numbers |
| Grounding.HalfGoesUp | internal/llm/router.go:428-438 | exactly half a unit goes up in the whole-number form of a figure |
| Grounding.UngroundedNumbers | internal/llm/router.go:399-423 | percentages first, then known dates, then the rest, each judged in order |
| Grounding.PrintedMeans | internal/llm/router.go:428-447 | a token equals a figure's form only when it has its value; without leading zeros exactly then; never for a negative figure |
| Grounding.AllowedIsGiven | internal/llm/router.go:364-394 | every allowed token has the value of a figure or issue number of the context or of its rounding to 0, 1 or 2 places |
| Grounding.GivenIsAllowed | internal/llm/router.go:364-394 | without superfluous leading zeros every such value is allowed |
| Grounding.WindowIff | internal/llm/router.go:355-359 | the period constants are exactly the values 7, 24, 30 and 100 |
| Grounding.LeadingZerosAllowedIff | internal/llm/router.go:428-447 | a number with a superfluous leading zero is allowed if and only if some issue message holds a number of the same canonical text, whatever its value |
| Grounding.LeadingZerosRejected | internal/llm/router.go:428-447 | so with no issue messages it is never allowed |
| Replies.EveryDigitJustified | internal/llm/router.go:399-423 | a reply that passes splits into digit-free text, percentages of given values, context dates, and numbers quoting a given value or period: no digit escapes |
| Replies.PassesIff | internal/llm/router.go:399-423 | without leading zeros a reply passes exactly when each percentage quotes a given value and each other number that or a period |
| Routing.ShownRepliesAreJustified | internal/llm/router.go:281-295 | a model reply is shown only word for word and only when every digit in it is justified |
| Answers.Commas | internal/llm/router.go:301-318 | the printing loop puts a comma before every third digit from the right of the rounded whole part |
| Answers.SeparatorsAt | internal/llm/router.go:301-318 | counted from the right, every fourth character of a printed whole part is a separator and no other is |
| Answers.CommasToken | internal/llm/router.go:301-318 | a printed non-negative amount is one token whose canonical text is that of the rounded figure |
| Answers.AnswerPassesIff | internal/llm/router.go:399-423 | a sentence with closed-off numbers, a minus sign before any of them or not, passes exactly when each of its numbers is allowed |
| Answers.DatedAnswerPassesIff | internal/llm/router.go:412-418 | a sentence with a date passes exactly when its numbers do and the date is the context's own or its three numbers are accepted |
| Routing.StandardAnswersPassIff | internal/llm/router.go:209-267 | whatever the signs of the figures, a standard answer without a price date passes exactly when the digits of each number it prints are allowed or, outside percentages, a period |
| Routing.TellMoneyText | internal/llm/router.go:298-318 | an answer's sign and digits are what the printing loop gives for the figure |
| Routing.PriceAnswerPassesIff | internal/llm/router.go:214-220 | the price answer passes exactly when its price and octane number do and its date is the context's own or its three numbers are accepted |
| Routing.PriceIsAllowed | internal/llm/router.go:214-220 | a purchase price that is not negative is always accepted |
| Routing.ProductAnswerPassesIff | internal/llm/router.go:251-262 | for non-negative figures, an answer about one product passes unless it names an octane number nothing in the context allows |
| Routing.StandardAnswersPass | internal/llm/router.go:209-267 | every standard answer that names no product and no price date passes the check, for every non-negative context |
| AnswerTexts.FixedAnswerIff | internal/llm/router.go:191-267 | a fixed answer is given exactly to a plain question about prices, margins, sales, credit or the score |
| AnswerTexts.OtherwiseAnswered | internal/llm/router.go:191-295 | which path every other question takes, in order of precedence |
| AnswerTexts.PriceAnswered | internal/llm/router.go:214-219 | the purchase price on record, its product and date, word for word, or that none is recorded |
| AnswerTexts.WeekMarginAnswered | internal/llm/router.go:220-233 | the week's costed revenue, cost and margin behind their own words, and the days they cover, or that no price is recorded |
| AnswerTexts.MarginAnswered | internal/llm/router.go:234-239 | today's revenue, cost, margin and percentage behind their own words, or that no price is recorded |
| AnswerTexts.WeekSalesAnswered | internal/llm/router.go:240-241 | the week's revenue and volume behind their own words |
| AnswerTexts.OtherPeriodAnswered | internal/llm/router.go:242-243 | another period is refused |
| AnswerTexts.CreditAnswered | internal/llm/router.go:244-245 | the credit outstanding and the number of customers behind their own words |
| AnswerTexts.ScoreAnswered | internal/llm/router.go:246-250 | the score, its date and the number of issues behind their own words, or that there is none |
| AnswerTexts.YesterdayAnswered | internal/llm/router.go:251-255 | yesterday's revenue, with the reservation when a product was named |
| AnswerTexts.ProductAnswered | internal/llm/router.go:256-263 | a product's volume and revenue, of its first row in the context, behind its own name |
| AnswerTexts.UnsoldProductAnswered | internal/llm/router.go:256-264 | or that the product has not been sold today |
| AnswerTexts.TodayAnswered | internal/llm/router.go:256-266 | today's revenue, number of sales and volume behind their own words |
| AnswerTexts.OnlyNamedFiguresMatter | internal/llm/router.go:209-267 | a fixed answer is the same in any two contexts that agree on the figures it names |
| AnswerTexts.AmountReadsBack | internal/llm/router.go:298-318 | without its separators a printed amount is the rounded figure, behind a minus sign below zero |
| Pbkdf2.AllBlocks | internal/auth/pbkdf2.go:28-52 | the loop over block numbers yields the blocks one after another |
| Pbkdf2.Key | internal/auth/pbkdf2.go:17-54 | the nested loops over in-place buffers compute PBKDF2 of section 5.2 of RFC 8018, for any PRF of fixed output length |
| Pbkdf2.PutCounter | internal/auth/pbkdf2.go:28-32 | overwrites the last four bytes with the big-endian block number, keeping the salt |
| Pbkdf2.Block | internal/auth/pbkdf2.go:28-52 | one block is the XOR of all its iterations |
| Pbkdf2.CounterIsBigEndian | internal/auth/pbkdf2.go:28-32 | the four counter octets are the base-256 digits of the block number, most significant first, exactly while it fits in 32 bits |
| Pbkdf2.BlocksRepeat | internal/auth/pbkdf2.go:28-32 | beyond 32 bits the counter, and so the block, repeats |
| Pbkdf2.ShorterKeyIsPrefix | internal/auth/pbkdf2.go:17-54 | a shorter key is a prefix of a longer one |
| Pbkdf2.KeyByte | internal/auth/pbkdf2.go:17-54 | each byte of a key is the byte of its block that its position says |
| Pbkdf2.FirstRounds | internal/auth/pbkdf2.go:35-51 | one round is the PRF of salt and counter, each further one adds the PRF of the last |
| RateLimit.Limiter.Purge | internal/cloudctl/ratelimit.go:47-52 | deletes exactly the finished windows, in any order |
| RateLimit.Limiter.Allow | internal/cloudctl/ratelimit.go:42-68 | one request: the new table and the verdict |
| RateLimit.RequestOutcome | internal/cloudctl/ratelimit.go:42-68 | a key whose window is open is counted on and allowed up to the burst, in a full table too; any other key starts a window unless the table is full of open ones; other open windows are untouched |
| RateLimit.WindowAdmitsBurst | internal/cloudctl/ratelimit.go:42-68 | from the request that starts a window to the window's end exactly as many of the key's requests as the burst allows are let through, whatever other keys do |
| RateLimit.TableBounded | internal/cloudctl/ratelimit.go:47-58 | the table never exceeds its key cap |
| RateLimit.AnyIntervalBounded | internal/cloudctl/ratelimit.go:42-68 | any interval of one window length admits at most 2 * burst - 1 requests of a key, in every run, across purges and refusals |
| RateLimit.BoundIsReached | internal/cloudctl/ratelimit.go:42-68 | some run admits exactly that many |
| RateLimit.BurstBoundsIntervalsIff | internal/cloudctl/ratelimit.go:42-68 | every interval of one window length, in every run, stays within the burst if and only if the burst is one |
| Phone.NormalizeCC | internal/phone/phone.go:33-71 | the rune loop and the prefix cases compute the canonical spelling |
| Phone.UndialableKept | internal/phone/phone.go:33-58 | what has letters in it or fewer than seven digits is kept as written, without the blanks around it |
| Phone.IdempotentIff | internal/phone/phone.go:33-71 | normalizing again changes nothing if and only if the digits do not start with three zeros on a number still long enough to dial (four without a country code) |
| Phone.SpellingsOfOneNumber | internal/phone/phone.go:33-71 | exactly the national, double-zero and bare international spellings of one subscriber, however punctuated, share its canonical form |
| Phone.TrunkZeroStaysApart | internal/phone/phone.go:33-71 | a trunk zero kept behind the country code is such a spelling left apart: a second pass keeps it, and it is not the canonical form |
| PhoneBackfill.FindRewrites | internal/storage/phones.go:33-56 | collects exactly the values that are not canonical, with their canonical form |
| PhoneBackfill.RewriteTable | internal/storage/phones.go:58-68 | rewrites a table's phones in some order, counting the rows touched |
| PhoneBackfill.CustomerTables.Canonicalize | internal/storage/phones.go:24-80 | both tables in one transaction, and the derived credit table cleared exactly when something changed |
| PhoneBackfill.OrderIrrelevantIff | internal/storage/phones.go:58-68 | every order of rewrites gives the simultaneous substitution if and only if no rewritten value is itself to be rewritten |
| PhoneBackfill.ChangedIsStaleRows | internal/storage/phones.go:58-68 | the count is then the number of rows not yet canonical |
| PhoneBackfill.NothingChangedIff | internal/storage/phones.go:73-79 | zero is reported exactly when every stored phone was canonical, chains or not |
| PhoneBackfill.SecondRunIdleIff | internal/storage/phones.go:21-80 | every order of a first run leaves a second nothing to do if and only if no stored phone had a triple zero |
| PhoneBackfill.SecondBackfillChangesNothing | internal/storage/phones.go:21-80 | without triple zeros a second run reports zero and leaves both tables as they are, in any order of either run |
| PhoneBackfill.TripleZeroFreeHasNoChain | internal/storage/phones.go:24-80 | data without triple zeros has no chains |
| PhoneBackfill.TripleZeroChains | internal/storage/phones.go:24-80 | a triple zero beside its own canonical form makes the result depend on the order |
| PhoneBackfill.BackfillMergesBalances | internal/storage/phones.go:24-80 | each account's balance afterwards is the sum over its spellings before |
| Outbox.Store.QueueMessage | internal/storage/messages.go:41-61 | adds one queued message, or nothing for a key already present |
| Outbox.Store.MarkMessageSent | internal/storage/messages.go:99-105 | one message becomes sent with one more attempt |
| Outbox.Store.MarkMessageAttempt | internal/storage/messages.go:110-122 | one message counts an attempt and fails at the limit |
| Outbox.Store.Compose | internal/messaging/agent.go:92-127 | queues each message due at this tick |
| Outbox.Store.Drain | internal/messaging/agent.go:180-207 | nothing while the channel is not ready; otherwise one attempt for each of the twenty oldest queued messages |
| Outbox.Store.Once | internal/messaging/agent.go:79-89 | compose, then drain; nothing while messaging is off |
| Outbox.DueIff | internal/messaging/agent.go:92-127 | the hours, thresholds and switches at which each message is called for |
| Outbox.ComposeAddsWhatIsCalled | internal/messaging/agent.go:92-158 | composing keeps every message and adds exactly the day's messages called for and not yet there, untried, to the recipient of the settings |
| Outbox.TickAt | internal/messaging/agent.go:79-207 | one tick attempts a message exactly when messaging is on, the channel ready and the message among the twenty oldest queued, marks it sent exactly when the send succeeds and failed at the fifth failure, and does nothing while messaging is off |
| Outbox.DrainedAt | internal/messaging/agent.go:180-207 | a pass attempts exactly the twenty oldest queued messages, each once, and touches nothing else |
| Outbox.EveryRunIsWf | internal/storage/messages.go:41-122 | in every run queued messages have attempts left, failed ones exactly five, and each key has one message |
| Outbox.SettledIsFinal | internal/storage/messages.go:99-122 | sent and failed are final and no message is ever rewritten |
| Outbox.SettlesInTurn | internal/messaging/agent.go:180-207 | a message with k older ones queued settles within 5 * (k / 20 + 1) ready passes, whatever fails and whatever arrives |
| Outbox.QueueEmpties | internal/messaging/agent.go:180-207 | n queued messages settle within 5 * ceil(n / 20) ready passes |
| Outbox.OnceADay | internal/messaging/agent.go:92-127 | every kind called for is in the outbox once for its day, however often it is composed |
| Outbox.DayKeysDiffer | internal/messaging/agent.go:98-125 | keys of different kinds or days differ |

## Left out

- Write errors other than a power cut: a pointer, table or file write either happens or the process stops before it.
- Stale keep-sets: in the protocol the commit-and-prune step is atomic; `DataFolder.DataDir.PruneVersions` deletes folder by folder, but not against a concurrent stage of the core.
- The rollback record shown on the dashboard, and the reasons and times of the quarantine list.
- Downloading, checking and unpacking an artifact, update windows and polling: a release is offered, and staging succeeds, fails or is cut.
- Starting processes, `/healthz` polling, job objects, folder permissions: a child run is its start, its end, how it ended and what it staged.
- UpdateProgress.UpdatesSettle: assumes no power cut at the three writes at which one loses the rollback target or the failed version (`UpdateProtocol.CutCanLoseRollbackTarget`, `UpdateProtocol.RollbackForgottenIff`), no support reset of the quarantine and no bundled core in the run, and at most twenty failing versions, as the bounded list requires.
- `hardwareAtLeast`: the hardware tier of a station and a release is a number.
- RolloutBucket: a station's bucket is a parameter.
- The SQL engine, JSON and CSV readers: tables are sequences and maps, a raw row is what its payload reads as, a file is its header and lines. Hashes are taken to distinguish payloads.
- The text of the rejects file: what is written for the owner to correct is a parameter.
- Overlapping passes of the normalizer, and rows changed between passes.
- Attendant, pump and other descriptive columns; which unknown payment methods are reported.
- The earliest date `storeRows` hands to the mart, and the sources log.
- `margin_pct`, scores and issues: presentation of the figures proved here.
- Time zones and the reading of dates: days and seconds are ordered numbers.
- IEEE rounding: figures are exact decimals; `FormatFloat` is exact decimal rounding, and `ParseFloat` never overflows.
- Recognising what a question asks: `Routing.Question` says which patterns matched. The texts of help and of the paths that refuse are not modelled, nor is the prompt.
- Lower-casing beyond ASCII in product aliases and column names.
- `Ask`: `MarginPctToday`, the latest price and the rows' seven-day cut-off; the wait itself in `Supervision.Supervisor.Wait`, of which the length is kept.
- Pbkdf2.Key: the PRF is any function of fixed output length; that it is HMAC is not part of this model.
- Sessions, login lockout, configuration, heartbeats, licensing, retention, backups and the web pages.
- Outbox.Store.Drain: database writes succeed and passes do not overlap; whether a send reaches its recipient is a parameter.
