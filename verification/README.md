# Verified model of the release maintenance tooling

This project models, in Dafny, the crash-safe protocols of the release scripts and proves
what they promise over every run, interleaving, refusal and crash.

- `Identity`, `InstallJournal`, `Maintenance*`: the dormant install transaction and the
  current-service transaction as one composed state machine. `Maintenance` has the world,
  the atomic steps and the invariant; `MaintenanceProof` the safety theorems;
  `MaintenanceLife` runs that tell a working installer from a restarted one;
  `MaintenanceProgress` exactly what can still finish; `MaintenanceWitness` the runs that
  cannot; `MaintenanceOps` the operations themselves, each a method that changes the world
  only through a step and may stop after any step.
- `CanonicalJson`, `ServiceLog`, `ServiceLogProof`, `ServiceEventStore`, `InstallerReader`,
  `JsonFormat`: the hash-chained service log at the level of bytes: encoding, torn writes,
  the loader, the appender, and the installer's own second reader. `ServiceRefinement` shows
  that the files behave as the directory of the state machine.
- `DmgJournal`, `DmgPending`, `DmgTransaction`: the notarization journal, what an interrupted
  event write leaves, and the start and recovery runs. `JsonPrefix`: documents cut short.
- `SymlinkResolver`, `TreeDigest`, `Sorting`: the tree hasher. `Relocation`: what its verdict
  on links means in a whole file system.
- `InstallHistory`, `CandidateFreeze`, `JournalExport`, `JournalExportRun`: the three
  intent-then-rename protocols.
- `ProcessGroup`: the bounded command runner. `RustAudit`: the package closure.

## Conventions

- A file write is torn or whole; rename, exclusive rename and exchange are atomic. A torn
  file is any proper prefix of its bytes; `CanonicalJson.TornIsRefused` shows that no reader
  takes a prefix for a document.
- A crash is an operation that ends early. Locks make one operation at a time hold the
  namespace; the candidate freeze takes no lock and is modelled with arbitrary interference
  between its steps.
- Observations, commands, clocks and identifiers are arbitrary values. The maintenance
  operations and the candidate freeze also say when they succeed if nothing disturbs them
  (`calm`): nothing fails, and observations show what is there.
- SHA-256 is a parameter `sha`, any function on texts. Where collisions matter it is required
  to be injective; nothing else about it is used.
- A JSON object is the list of its fields. A document that is read has strictly increasing
  keys at every depth, so none is repeated.
- The first world has no transaction on disk, both services registered and the active
  predecessor installed; the two registrations change only through the transaction.

## What the proofs found

- Three crashes stop the maintenance for good, from every first world of every profile: one
  inside the write of the install journal, one inside the write of the DNS continuation, and
  the eighth interruption of an installation, which uses up the guard segments of the journal
  (`MaintenanceWitness.TornJournalIsReachable`, `TornContinuationIsReachable` and
  `ExhaustionIsReachable`). The second needs a teardown under a guard with running processes;
  no continuation is written over any other (`MaintenanceProof.ContinuationNeedsProcesses`).
  Once the service transaction is published there are no others: restarted processes can
  finish if and only if neither file is torn and a guard segment is free
  (`MaintenanceProgress.CanFinishIff`). A torn service event is harmless
  (`MaintenanceProof.TornEventIsHarmless`).
- For one symlink alone the resolver can be laxer than pathname resolution: it ignores the
  trailing slash of a nested link (`SymlinkResolver.OneLinkCanBeLaxer`). An accepted link
  resolves if and only if every link followed on its way passes the same check
  (`SymlinkResolver.OneLinkIff`). The whole tree is decided link by link, so over it the
  verdicts coincide (`SymlinkResolver.AcceptsIffAllResolve`), and an accepted tree is one
  whose links lead to the same entries wherever it lies (`Relocation.AcceptedIffMovable`).
- A call of the history archive that stops inside a document leaves it torn, and no later call
  gets past it (`InstallHistory.Archive.WriteIntent`, `WriteReceipt` and `RetainRepeatedly`).
  The same holds for a torn export intent and a partial export container
  (`JournalExportRun.Exporter.PublishExternalIntent`, `WritePendingTree` and `Recover`). Every
  other stop is resumable.
- A crash inside the write of a notarization event is undone by the next load unless exactly
  the closing newline is missing: the file then decodes, so it is not discarded, but is not canonical, so
  every later recovery is refused (`DmgPending.UnendedIff`,
  `DmgTransaction.Transaction.LoadAttempt`). A torn submission observation or receipt is
  refused for good too, and over any of the three no later call succeeds
  (`DmgTransaction.Transaction.Perform`).
- The branch of the DMG publication for an already published set, which would append
  `published` straight after `artifact_verified`, is unreachable
  (`DmgTransaction.Transaction.PrepareAndPublishSet`).
- The command runner notes that it cleans up before it signals the group. An interruption in
  between propagates and may leave the group unsignalled
  (`ProcessGroup.RunBoundedProcess`: at most one signal, and none only under an interruption).

## Model

| member | source | states |
|---|---|---|
| `MaintenanceProof.ComposedSafety` | scripts/current_service_transaction.py:1937-2061 | over every interleaving and crash, the bundle is exchanged only at exactly four logged events with both services down, and a log or registration past that point implies the installed journal and the candidate at the target |
| `MaintenanceProof.SwapAtTeardown` | scripts/dormant_app_install.py:3967-4005 | the only step that changes the target does so at the teardown, from the previous to the candidate bundle |
| `MaintenanceProof.ServicesFollowInstall` | scripts/current_service_transaction.py:1937-1971 | services come back only over a proven installation |
| `MaintenanceProof.BundleSafety` | scripts/dormant_app_install.py:3868-4026 | the target is exactly the previous or the candidate bundle, the exchange happens at most once, and afterwards the previous bundle is intact in staging |
| `MaintenanceProof.LayoutByPhase` | scripts/dormant_app_install.py:4045-4055 | for each journal phase, the (target, staged) pairs that are allowed; no run leaves them |
| `MaintenanceProof.TargetBeforeService` | scripts/dormant_app_install.py:3767-3793 | before a service transaction is published the target never changes |
| `MaintenanceProof.RegistrationTracksLog` | scripts/current_service_transaction.py:2063-2092 | the (proxy, authority) pair is that of the last logged phase or of the next one, and exactly one direction of recovery applies |
| `MaintenanceProof.ProxyNeedsAuthority` | scripts/current_service_transaction.py:1881-1914 | over a run the proxy is never registered without the authority |
| `MaintenanceProof.StepKeepsInv` | scripts/current_service_transaction.py:1716-1753 | every atomic step of either transaction keeps the composed invariant |
| `MaintenanceProof.RunInvariant` | scripts/current_service_transaction.py:1856-2061 | the composed invariant holds in every state of every interleaved, crash-interrupted run |
| `MaintenanceProof.NothingIsTakenBack` | scripts/current_service_transaction.py:1273-1337 | over a run, logged events, intent, continuation and terminal journal are never changed or removed |
| `MaintenanceProof.OneGuardChange` | scripts/current_service_transaction.py:1004-1068 | any two guards ever logged are equal or differ in DNS alone, across the four-event boundary only |
| `MaintenanceProof.ContinuationPrecedesInstall` | scripts/current_service_transaction.py:1800-1854 | a DNS continuation appears at exactly four events while no install journal exists, and only once |
| `MaintenanceProof.ContinuationNeedsProcesses` | scripts/dormant_app_install.py:2874-2895 | over a run a continuation, even a torn one, exists only over a first guard with running processes |
| `MaintenanceProof.RunLineage` | scripts/dormant_app_install.py:3591-3645 | over a run the published install revisions form one permitted chain, the sequence is phase rank plus extra guard segments and at most 11, and all segments hold one guard |
| `MaintenanceProof.TornJournalIsFinal` | scripts/dormant_app_install.py:3501-3526 | a torn pending install journal is never discarded: no further step exists |
| `MaintenanceProof.TornContinuationIsFinal` | scripts/current_service_transaction.py:1058-1066 | a torn pending DNS continuation is never discarded: no further step exists |
| `MaintenanceProof.TornEventIsHarmless` | scripts/current_service_transaction.py:1097-1102 | from a torn pending event the only step is discarding it, which restores the state before the append |
| `MaintenanceLife.LifeIsRun` | scripts/dormant_app_install.py:3820-3866 | every life of working and restarted installers is a run, so all run theorems hold in it |
| `MaintenanceLife.LifeInvariant` | scripts/dormant_app_install.py:3820-3866 | the composed invariant holds at every moment of every life |
| `MaintenanceLife.LifeIsSafe` | scripts/current_service_transaction.py:1937-2061 | at every moment at most one exchange has happened, a log past the teardown is over a proven installation, the proxy is registered only with the authority, and the transaction replaces the active predecessor by this release; the exchange happens at the teardown with both services down |
| `MaintenanceLife.ExhaustionIsFinal` | scripts/dormant_app_install.py:3853-3857 | once the installer is gone with all guard segments used, this never changes |
| `MaintenanceProgress.InstallProgress` | scripts/dormant_app_install.py:3868-4026 | the next install step exists, as a publication, the opening of a session or its continuation, and strictly decreases the remaining work |
| `MaintenanceProgress.SessionProgress` | scripts/dormant_app_install.py:3868-4026 | an installer at work always has its next step |
| `MaintenanceProgress.ServiceProgress` | scripts/current_service_transaction.py:1716-1753 | everywhere else the service side has its next step |
| `MaintenanceProgress.SegmentProgress` | scripts/dormant_app_install.py:3853-3866 | a restarted installer may open a new guard segment whenever one is free |
| `MaintenanceProgress.Progress` | scripts/current_service_transaction.py:2063-2092 | in every reachable state that is neither finished nor wedged, with the installer at work or a guard segment free, a step exists that decreases the remaining work and keeps this so |
| `MaintenanceProgress.Completable` | scripts/current_service_transaction.py:2063-2092 | from every such state the steps to the finished state are built; a restarted installer first opens a new guard segment |
| `MaintenanceProgress.CanFinishIff` | scripts/dormant_app_install.py:3820-3866 | in every reachable published state restarted processes can finish if and only if neither pending file is torn and a guard segment is free |
| `MaintenanceProgress.WedgeIsFinal` | scripts/dormant_app_install.py:3501-3526 | nothing durable changes after a torn install journal or continuation |
| `MaintenanceProgress.StuckIff` | scripts/dormant_app_install.py:3501-3526 | nothing durable can change exactly in the finished state, over the two torn files and, with the installer gone, over used-up guard segments |
| `MaintenanceWitness.TornJournalIsReachable` | scripts/dormant_app_install.py:3501-3526 | from every first world a life leads to a torn install journal that no restart gets past |
| `MaintenanceWitness.TornContinuationIsReachable` | scripts/current_service_transaction.py:1829-1852 | from every first world a life, under a guard with running processes, leads to a torn continuation that no restart gets past |
| `MaintenanceWitness.ExhaustionIsReachable` | scripts/dormant_app_install.py:3853-3866 | from every first world interrupted sessions lead to used-up guard segments with both services down, and no restart finishes |
| `MaintenanceOps.Host.Commit` | scripts/dormant_app_install.py:3575-3624 | a durable step is one the process at work, or a restarted one, may take, and is recorded in the history |
| `MaintenanceOps.Host.CaptureDormantGuard` | scripts/dormant_app_install.py:3680-3693 | success means both services are down and the guard repeats the expected one; undisturbed, exactly then |
| `MaintenanceOps.Host.RequireDecommissioned` | scripts/dormant_app_install.py:2930-3136 | succeeds exactly over four events, nothing pending, matching identities and the effective guard, unless an observation refuses |
| `MaintenanceOps.Host.WriteJournal` | scripts/dormant_app_install.py:3591-3624 | success publishes exactly the given revision; stopping anywhere keeps the invariant |
| `MaintenanceOps.Host.LoadJournal` | scripts/dormant_app_install.py:3558-3573 | a whole pending revision is published, and the returned document is the current revision |
| `MaintenanceOps.Host.InstallCandidate` | scripts/dormant_app_install.py:3767-3818 | success means the asked-for installation is proven; undisturbed, it succeeds exactly at the teardown under its guard, for this candidate and predecessor, with no install journal; the service transaction is untouched |
| `MaintenanceOps.Host.OpenInstallation` | scripts/dormant_app_install.py:3795-3818 | the first revision is written and carried to a proven installation |
| `MaintenanceOps.Host.RecoverInstallation` | scripts/dormant_app_install.py:3820-3866 | success means a proven installation; with all guard segments used it always refuses; undisturbed, it succeeds exactly over an unfinished or finished revision that is neither torn nor exhausted, at the teardown under its guard, with the candidate at hand if it must be copied |
| `MaintenanceOps.Host.RecoverLoaded` | scripts/dormant_app_install.py:3840-3866 | terminal verification, capacity refusal or resumption, by the loaded revision |
| `MaintenanceOps.Host.ResumeReopened` | scripts/dormant_app_install.py:3853-3866 | the reopened revision is a permitted successor and is resumed |
| `MaintenanceOps.Host.Resume` | scripts/dormant_app_install.py:3868-4029 | from any phase, success means a proven installation |
| `MaintenanceOps.Host.ResumePrepared` | scripts/dormant_app_install.py:3874-3965 | success leaves the staged revision published over the staged candidate |
| `MaintenanceOps.Host.PrepareStaging` | scripts/dormant_app_install.py:3880-3958 | success leaves exactly the whole candidate in the container, created if need be; a failure names its true reason |
| `MaintenanceOps.Host.StagePayload` | scripts/dormant_app_install.py:3895-3962 | the payload is published only as a whole candidate bundle |
| `MaintenanceOps.Host.CopyCandidate` | scripts/dormant_app_install.py:3935-3943 | the copy may leave anything under the partial name and publishes nothing |
| `MaintenanceOps.Host.ResumeStaged` | scripts/dormant_app_install.py:3967-4005 | success leaves the swapped revision published over the exchanged bundles |
| `MaintenanceOps.Host.ResumeSwapped` | scripts/dormant_app_install.py:4007-4029 | the terminal revision closes the last guard segment |
| `MaintenanceOps.Host.VerifyTerminal` | scripts/dormant_app_install.py:4057-4075 | a terminal journal is confirmed; nothing but an observation can refuse it |
| `MaintenanceOps.Host.LoadService` | scripts/current_service_transaction.py:1113-1166 | loading resolves a pending event or continuation and returns the settled log |
| `MaintenanceOps.Host.SettleDirectory` | scripts/current_service_transaction.py:1058-1109 | a pending continuation or event is published or discarded; a torn continuation is refused |
| `MaintenanceOps.Host.AppendEvent` | scripts/current_service_transaction.py:1273-1337 | success appends exactly the next event with the effective guard |
| `MaintenanceOps.Host.ActOnHost` | scripts/current_service_transaction.py:1716-1753 | success means the registration pair of the next event |
| `MaintenanceOps.Host.ServiceTransition` | scripts/current_service_transaction.py:1716-1753 | one host action, then its event; registration and log stay one phase apart at most |
| `MaintenanceOps.Host.DecommissionServices` | scripts/current_service_transaction.py:1856-1935 | success means exactly the teardown log with both services down over the previous bundle; undisturbed, it succeeds exactly from a loadable state of this release that is not past its teardown, under its guard |
| `MaintenanceOps.Host.DecommissionLoaded` | scripts/current_service_transaction.py:1862-1935 | the same from a loaded transaction |
| `MaintenanceOps.Host.TearDown` | scripts/current_service_transaction.py:1881-1935 | the remaining teardown phases, in order, from any prefix |
| `MaintenanceOps.Host.UnregisterServices` | scripts/current_service_transaction.py:1881-1914 | proxy and then authority are unregistered, as far as it is still due, under an unchanged guard |
| `MaintenanceOps.Host.LogDecommissioned` | scripts/current_service_transaction.py:1915-1935 | success means exactly four events with both services down, appended or already there |
| `MaintenanceOps.Host.CreateService` | scripts/current_service_transaction.py:847-960 | the transaction directory appears atomically with its first event |
| `MaintenanceOps.Host.ProveDecommissioned` | scripts/current_service_transaction.py:1755-1773 | the proof holds only at the teardown with both services down |
| `MaintenanceOps.Host.ContinueAfterDns` | scripts/current_service_transaction.py:1800-1854 | a continuation is recorded only at four events, with a DNS-only change and no install journal; undisturbed, exactly then |
| `MaintenanceOps.Host.ContinueLoaded` | scripts/current_service_transaction.py:1813-1854 | the same from a loaded transaction |
| `MaintenanceOps.Host.RecordContinuation` | scripts/current_service_transaction.py:1840-1854 | success publishes exactly this continuation at the teardown before any install journal |
| `MaintenanceOps.Host.RequireInstalledCandidate` | scripts/current_service_transaction.py:1937-1971 | succeeds exactly over a proven installation, unless an observation refuses |
| `MaintenanceOps.Host.RecommissionServices` | scripts/current_service_transaction.py:1973-2061 | success means seven events, both services registered, candidate installed; undisturbed, it succeeds exactly over the proven installation under the guard of the log |
| `MaintenanceOps.Host.RecommissionLoaded` | scripts/current_service_transaction.py:1980-2060 | the same from a loaded transaction |
| `MaintenanceOps.Host.BringUp` | scripts/current_service_transaction.py:2004-2060 | the remaining phases, in order, from any prefix; success means seven events and both services registered over the proven installation |
| `MaintenanceOps.Host.LogRecommissioned` | scripts/current_service_transaction.py:2029-2060 | the last event is appended, or already there, only with both services proven registered |
| `MaintenanceOps.Host.ProveRecommissioned` | scripts/current_service_transaction.py:1775-1798 | the proof holds only with both services registered |
| `MaintenanceOps.Host.ChooseRecovery` | scripts/current_service_transaction.py:2063-2092 | decommission is chosen exactly when no exchange has happened; the choice is never ambiguous |
| `MaintenanceOps.Host.RecoverServices` | scripts/current_service_transaction.py:2063-2092 | success means decommissioned without an exchange and recommissioned after it |
| `MaintenanceOps.Host.Perform` | scripts/current_service_transaction.py:2063-2092 | success means what the operation is for and is reached, undisturbed, exactly when the stated condition holds; a failure names its true reason; either transaction leaves the files of the other alone, and used-up guard segments stay used up |
| `MaintenanceOps.Host.PerformAll` | scripts/current_service_transaction.py:1856-2092 | any sequence of operations, crashing anywhere, satisfies the safety statements in every state on the way, and used-up guard segments stay used up |
| `InstallJournal.Validate` | scripts/dormant_app_install.py:3168-3280 | the validation loop accepts exactly the declarative validity of a journal |
| `InstallJournal.PermittedKeepsLineage` | scripts/dormant_app_install.py:3329-3404 | a permitted successor of a journal with a lineage has the lineage |
| `InstallJournal.ChainLineage` | scripts/dormant_app_install.py:3250-3279 | in every chain of permitted revisions the sequence counts the revisions, is at most 11, and all segments hold one guard |
| `InstallJournal.ChainGrows` | scripts/dormant_app_install.py:3591-3624 | publishing a permitted revision extends the chain |
| `InstallJournal.FirstIsPermitted` | scripts/dormant_app_install.py:3795-3816 | the first revision validates and may start a chain |
| `InstallJournal.AdvanceIsPermitted` | scripts/dormant_app_install.py:3640-3645 | a phase revision validates and is permitted |
| `InstallJournal.ReopenIsPermitted` | scripts/dormant_app_install.py:3853-3865 | a recovery revision validates and is permitted while a segment is free |
| `InstallJournal.CompleteIsPermitted` | scripts/dormant_app_install.py:4015-4024 | the terminal revision validates and is permitted |
| `CanonicalJson.Decode` | scripts/current_service_transaction.py:195-222 | an accepted text is the canonical text of the returned object, whose keys strictly increase at every depth |
| `CanonicalJson.AsciiIsLawful` | scripts/dormant_app_install.py:628-632 | strings and integers written by the encoder are read back whatever follows them |
| `CanonicalJson.ParseEncode` | scripts/current_service_transaction.py:195-222 | a document followed by anything is read back and the rest is left |
| `CanonicalJson.RoundTrip` | scripts/dormant_app_install.py:628-632 | decoding an encoded object with ordered keys returns it |
| `CanonicalJson.CanonicalInjective` | scripts/dormant_app_install.py:628-632 | equal bytes mean equal documents |
| `CanonicalJson.TornIsRefused` | scripts/current_service_transaction.py:195-222 | no proper prefix of a document is accepted |
| `JsonPrefix.ParseExtends` | scripts/notarization_transaction.py:1288-1297 | more text behind a finished value does not change what is read |
| `JsonPrefix.ObjectPrefix` | scripts/notarization_transaction.py:1288-1297 | the text of an object parses only when all of it is there |
| `CanonicalJson.DigestInjective` | scripts/dormant_app_install.py:628-632 | equal digests of documents mean equal documents, for every injective digest |
| `JsonFormat.TornRecord` | scripts/current_service_transaction.py:195-222 | no proper prefix of a written record is read as a record |
| `JsonFormat.EventRoundTrip` | scripts/current_service_transaction.py:327-382 | a written service event with ordered values is read back |
| `JsonFormat.GuardOrdered` | scripts/dormant_app_install.py:2725-2762 | a valid guard has its keys and those of its processes in order |
| `JsonFormat.PlainEventRoundTrip` | scripts/current_service_transaction.py:327-382 | every event over valid guards, as the appender builds it, is read back |
| `JsonFormat.ContinuationRoundTrip` | scripts/current_service_transaction.py:1829-1852 | every continuation over valid guards, as it is built, is read back |
| `JsonFormat.EventWrittenBack` | scripts/current_service_transaction.py:327-382 | what is read as an event has exactly the bytes that would be written |
| `JsonFormat.IntentRoundTrip` | scripts/current_service_transaction.py:280-324 | a written service intent with ordered values is read back |
| `JsonFormat.IntentWrittenBack` | scripts/current_service_transaction.py:280-324 | what is read as an intent has exactly the bytes that would be written |
| `JsonFormat.JsonIsLawful` | scripts/current_service_transaction.py:195-222 | canonical JSON satisfies every law the log proofs assume of a document format, for every digest function |
| `JsonFormat.EnvironmentShaInjective` | scripts/current_service_transaction.py:1012-1035 | equal environment digests mean equal environments |
| `ServiceLogProof.AcceptedIffBuilt` | scripts/current_service_transaction.py:327-382 | the event validator accepts exactly the event the appender would build |
| `ServiceLogProof.EventShape` | scripts/current_service_transaction.py:1036-1068 | every event of an accepted log is the built one over its predecessor |
| `ServiceLogProof.OneGuardChangeInLog` | scripts/current_service_transaction.py:1004-1068 | in every accepted log guards agree, or differ in DNS alone across the fourth event through the continuation |
| `ServiceLogProof.ChainFixesHistory` | scripts/current_service_transaction.py:1036-1068 | two accepted logs that share one event file share the intent and every earlier event file |
| `ServiceLogProof.GuardsDetermineLog` | scripts/current_service_transaction.py:1036-1068 | intent and guards determine every byte of an accepted log |
| `ServiceLogProof.AppendedIsSettled` | scripts/current_service_transaction.py:1273-1337 | a completed append leaves a settled log one event longer |
| `ServiceLogProof.PendingInvisible` | scripts/current_service_transaction.py:1069-1109 | a pending file does not change what the published events mean |
| `ServiceLogProof.AppendCrashAtomic` | scripts/current_service_transaction.py:1036-1109 | for a stop after any number of bytes the next load gives the old log, or the old log and the event once the file is whole |
| `ServiceLogProof.PublishedContinuationLoads` | scripts/current_service_transaction.py:1058-1068 | publishing a pending continuation gives a loadable directory with the same log |
| `ServiceLogProof.ContinuationAcceptedIff` | scripts/dormant_app_install.py:2874-2895 | the validator accepts exactly the record that would be built, over running processes and an exclusive DNS change |
| `ServiceLogProof.DnsPendingInvisible` | scripts/current_service_transaction.py:1004-1066 | a pending continuation does not change what the published events mean |
| `ServiceLogProof.ContinuationCrash` | scripts/current_service_transaction.py:1058-1068 | for a stop after any number of bytes every load fails until the record is whole, and then publishes it |
| `ServiceLogProof.LoadIsIdempotent` | scripts/current_service_transaction.py:962-1111 | loading what a load left behind returns the same log |
| `ServiceEventStore.Store.Load` | scripts/current_service_transaction.py:962-1111 | the loader computes exactly the specified verdict and directory |
| `ServiceEventStore.Store.ScanNext` | scripts/current_service_transaction.py:1039-1057 | one more event is accepted with the next digest and baseline, or the log is refused |
| `ServiceEventStore.Store.ScanLoop` | scripts/current_service_transaction.py:1036-1057 | the loop with running digest and baseline accepts every event of the specified log, or the log is refused |
| `ServiceEventStore.Store.ScanEvents` | scripts/current_service_transaction.py:1036-1068 | loop and continuation check together accept exactly the specified log |
| `ServiceEventStore.Store.ContinuationOk` | scripts/current_service_transaction.py:1067-1068 | after the scan, the log is accepted exactly when a published continuation binds the scanned events |
| `ServiceEventStore.Store.WritePending` | scripts/current_service_transaction.py:622-655 | the write loop leaves some prefix of the bytes, all of them on success |
| `ServiceEventStore.Store.Append` | scripts/current_service_transaction.py:1273-1337 | wherever it stops the next load returns the old log or the old log and this event |
| `InstallerReader.RequireDecommissioned` | scripts/dormant_app_install.py:2978-3136 | the installer accepts exactly its stated conditions |
| `InstallerReader.CheckEvents` | scripts/dormant_app_install.py:3059-3113 | the loop over four files with running digest and baseline |
| `InstallerReader.SameEventCondition` | scripts/dormant_app_install.py:3059-3113 | the two event conditions coincide on the teardown |
| `InstallerReader.ValidatorsAgree` | scripts/dormant_app_install.py:2978-3136 | the installer and the service store accept exactly the same four-event directories, given the effective guard |
| `InstallerReader.SettledIffLoadedUnchanged` | scripts/current_service_transaction.py:962-1111 | a directory loads unchanged exactly when it is settled |
| `ServiceRefinement.SameEffective` | scripts/current_service_transaction.py:1004-1035 | the guard later observations must repeat is the same in the files and in the state machine |
| `ServiceRefinement.LogTellsFlags` | scripts/current_service_transaction.py:327-382 | the state machine acts as the logged action names say and expects what the logged phase names say |
| `ServiceRefinement.AppendIsWritesEvent` | scripts/current_service_transaction.py:1273-1337 | whatever part of the next event a crash leaves is the state machine writing it, torn or whole |
| `ServiceRefinement.RenameIsPublishesEvent` | scripts/current_service_transaction.py:1273-1337 | the renamed file is the state machine publishing the event |
| `ServiceRefinement.GuardOfIsSound` | scripts/dormant_app_install.py:2725-2762 | the production guard documents, read as typed guards, keep validity, processes and exclusive DNS changes |
| `ServiceRefinement.ContinuableIff` | scripts/dormant_app_install.py:2882-2895 | a continuation gets written exactly over a valid new guard, running processes and an exclusive DNS change |
| `ServiceRefinement.WriteIsWritesContinuation` | scripts/current_service_transaction.py:1829-1852 | whatever part of the continuation a crash leaves is the state machine writing it, torn or whole |
| `ServiceRefinement.LoadIsStep` | scripts/current_service_transaction.py:962-1111 | a successful load is the matching step of the state machine, or none |
| `ServiceRefinement.LoadFailsIff` | scripts/current_service_transaction.py:1058-1109 | over an accepted log a load fails exactly on a torn continuation or a pending file that no append of this log leaves |
| `ServiceRefinement.InstallerReadsTeardown` | scripts/dormant_app_install.py:2978-3136 | the installer accepts the files exactly at the teardown boundary of the state machine |
| `DmgJournal.ValidateJournal` | scripts/dmg_notarization_transaction.py:838-861 | the loop accepts exactly the journals whose events follow the table and name one submission |
| `DmgJournal.LegalGrows` | scripts/dmg_notarization_transaction.py:230-260 | a longer journal is legal exactly when the shorter is and the event is allowed |
| `DmgJournal.SubmittingOnlyOnce` | scripts/dmg_notarization_transaction.py:230-260 | in every legal journal prepared is first and submitting is second, and neither occurs again |
| `DmgJournal.OnlyFirstIsPrepared` | scripts/dmg_notarization_transaction.py:230-260 | no later event is prepared |
| `DmgJournal.TerminalEvents` | scripts/dmg_notarization_transaction.py:230-260 | published and rejected end a journal, and only the sealed boundary leads to published |
| `DmgJournal.DeferralLegalIff` | scripts/dmg_notarization_transaction.py:1551-1585 | exactly when the deferral event of a failed stage follows the table |
| `DmgJournal.DeferralIsTruthful` | scripts/dmg_notarization_transaction.py:1551-1585 | the deferral is a rejection exactly when Apple rejected, otherwise one of the four deferrals, from which recovery goes on, by what is open |
| `DmgJournal.AcceptanceIsRecorded` | scripts/dmg_notarization_transaction.py:230-260 | no later stage and no publication without a recorded acceptance |
| `DmgPending.CutVerdict` | scripts/notarization_transaction.py:2229-2249 | of a document cut anywhere, less than all but the newline is discarded, all but the newline is refused, the whole is loaded |
| `DmgPending.UnendedIff` | scripts/notarization_transaction.py:2229-2249 | exactly one proper prefix is the file that stops every recovery |
| `DmgTransaction.RecordingKeepsInv` | scripts/dmg_notarization_transaction.py:989-1007 | an allowed event keeps the invariant wherever its append stops |
| `DmgTransaction.InvIsLegal` | scripts/dmg_notarization_transaction.py:838-861 | the invariant implies a legal journal |
| `DmgTransaction.AnyIdFits` | scripts/dmg_notarization_transaction.py:1856-1960 | while no durable file names a submission, any identifier may become the one |
| `DmgTransaction.Transaction.Append` | scripts/dmg_notarization_transaction.py:989-1007 | the exact set of disk states an append can leave, with validation after the durable write |
| `DmgTransaction.Transaction.Record` | scripts/dmg_notarization_transaction.py:989-1007 | an allowed append keeps the invariant and never fails for capacity or legality |
| `DmgTransaction.Transaction.RecordDeferred` | scripts/dmg_notarization_transaction.py:1551-1585 | after any failure the journal is unchanged or has one more event, with the given identifier, that is Apple's rejection or a deferral and never a stage of progress |
| `DmgTransaction.DeferralFits` | scripts/dmg_notarization_transaction.py:1551-1585 | the chosen deferral is allowed, says the truth and agrees with the public set |
| `DmgTransaction.Transaction.DeferTo` | scripts/dmg_notarization_transaction.py:1579-1585 | the deferral event is recorded, or the leftover of the failed append stays |
| `DmgTransaction.Transaction.RecordNow` | scripts/dmg_notarization_transaction.py:1579-1585 | a deferral event over a settled journal |
| `DmgTransaction.Transaction.AppendOverLeftover` | scripts/notarization_transaction.py:2275-2332 | after a half-failed append no other event can take its place |
| `DmgTransaction.Transaction.PrepareAndPublishSet` | scripts/dmg_notarization_transaction.py:1353-1503 | sealing and publication; no public set exists when it starts, so the branch for one is unreachable |
| `DmgTransaction.Transaction.PublishSealed` | scripts/dmg_notarization_transaction.py:1445-1503 | the public set appears only over the sealed event |
| `DmgTransaction.Transaction.SealSet` | scripts/dmg_notarization_transaction.py:1394-1444 | a private set is reused only when it names this submission |
| `DmgTransaction.Transaction.Stage` | scripts/dmg_notarization_transaction.py:1506-1548 | one verification stage appends its event or nothing |
| `DmgTransaction.Transaction.FinalizeAccepted` | scripts/dmg_notarization_transaction.py:1506-1548 | at most seven events, six when it fails |
| `DmgTransaction.Transaction.VerifyAccepted` | scripts/dmg_notarization_transaction.py:1506-1535 | the five verification stages |
| `DmgTransaction.Transaction.VerifyTicket` | scripts/dmg_notarization_transaction.py:1219-1258 | Gatekeeper and artifact stages append at most two events |
| `DmgTransaction.Transaction.StapleAndVerify` | scripts/dmg_notarization_transaction.py:1161-1216 | log and staple stages append at most three events |
| `DmgTransaction.Transaction.Staple` | scripts/dmg_notarization_transaction.py:1161-1216 | a leftover staple file is refused; otherwise at most the two staple events |
| `DmgTransaction.Transaction.StartTransaction` | scripts/dmg_notarization_transaction.py:1713-1750 | an existing attempt or set is refused unchanged; success has submitted exactly once |
| `DmgTransaction.Transaction.DirectSubmit` | scripts/dmg_notarization_transaction.py:1588-1710 | the only place that issues the submit command |
| `DmgTransaction.Transaction.IssueSubmit` | scripts/dmg_notarization_transaction.py:1604-1619 | the intent to submit is durable before the one command |
| `DmgTransaction.Transaction.SubmitAndFinalize` | scripts/dmg_notarization_transaction.py:1617-1705 | one submission identifier is fixed before anything names it |
| `DmgTransaction.Transaction.WaitAndFinalize` | scripts/dmg_notarization_transaction.py:1652-1705 | a rejection is raised only while waiting |
| `DmgTransaction.Transaction.AwaitVerdict` | scripts/dmg_notarization_transaction.py:1652-1695 | up to acceptance; a rejection is raised only from the waiting event |
| `DmgTransaction.Transaction.Announce` | scripts/dmg_notarization_transaction.py:1652-1653 | the two events before waiting |
| `DmgTransaction.Transaction.HearVerdict` | scripts/dmg_notarization_transaction.py:1654-1695 | accepted is recorded only for an acceptance, and a rejection is raised only for a rejection |
| `DmgTransaction.Transaction.PersistSubmission` | scripts/dmg_notarization_transaction.py:1630-1651 | observation and receipt name the one submission |
| `DmgTransaction.Transaction.LoadAttempt` | scripts/dmg_notarization_transaction.py:883-986 | admission leaves room for the recovery reserve; a pending event lacking only its newline is refused and stays, a torn observation or receipt is never loaded, and a direct receipt is never without its observation |
| `DmgTransaction.Transaction.KnownId` | scripts/dmg_notarization_transaction.py:1856-1960 | an identifier is known exactly when a durable file names it |
| `DmgTransaction.Transaction.RecoverTransaction` | scripts/dmg_notarization_transaction.py:1841-2002 | at most nine events per recovery; capacity fails only at admission, before anything changed; a halted attempt stays halted |
| `DmgTransaction.Transaction.RecoverLoaded` | scripts/dmg_notarization_transaction.py:1872-2002 | the branches of a loaded attempt, within the reserve |
| `DmgTransaction.Transaction.RecoverUnpublished` | scripts/dmg_notarization_transaction.py:1958-2002 | recovery of an unpublished attempt within the reserve |
| `DmgTransaction.Transaction.BeginRecovery` | scripts/dmg_notarization_transaction.py:1957-1960 | private state is discarded and the one identifier is recorded as recovering |
| `DmgTransaction.Transaction.RecoverRecorded` | scripts/dmg_notarization_transaction.py:1958-2002 | after recovering is recorded every failure ends in a deferral or in Apple's rejection |
| `DmgTransaction.Transaction.DiscardPrivateState` | scripts/dmg_notarization_transaction.py:1286-1306 | only private leftovers are removed |
| `DmgTransaction.Transaction.RecoverAndFinalize` | scripts/dmg_notarization_transaction.py:1753-1838 | acceptance evidence, then finalization, within eight events |
| `DmgTransaction.Transaction.RecoverVerdict` | scripts/dmg_notarization_transaction.py:1961-1987 | accepted is recorded only for an acceptance, after its receipt |
| `DmgTransaction.Transaction.PersistRecoveryReceipt` | scripts/dmg_notarization_transaction.py:1030-1057 | the receipt names the recovered submission, and says that it comes from a recovery exactly when there is no observation |
| `DmgTransaction.Transaction.Enter` | scripts/dmg_notarization_transaction.py:1713-2002 | either entry point keeps what is durable, and a halted attempt halted |
| `DmgTransaction.Transaction.Perform` | scripts/dmg_notarization_transaction.py:1713-2002 | over any sequence of starts and recoveries: legal bounded journal, at most one submit, one identifier, no more acceptances or rejections recorded than Apple gave, public set only over the sealed boundary and an acceptance; over a halted attempt nothing succeeds |
| `SymlinkResolver.CheckLink` | scripts/hash_artifact.py:480-549 | the work-list loop accepts exactly what recursive pathname resolution resolves; set and counter never change the verdict |
| `SymlinkResolver.CheckTree` | scripts/hash_artifact.py:480-549 | every captured link is decided |
| `SymlinkResolver.RevisitNeverResolves` | scripts/hash_artifact.py:505-530 | a repeated state has no resolution |
| `SymlinkResolver.WalkConcat` | scripts/hash_artifact.py:505-549 | a walk over a concatenation is two walks |
| `SymlinkResolver.WalkBudget` | scripts/hash_artifact.py:505-549 | a larger expansion budget changes only what is left of it |
| `SymlinkResolver.PartsDropDots` | scripts/hash_artifact.py:467-473 | the source components are the standard ones without dots |
| `SymlinkResolver.RequiresDirectoryIffDot` | scripts/hash_artifact.py:476-477 | a target demands a directory exactly when its last standard component is a dot |
| `SymlinkResolver.StandardImpliesSource` | scripts/hash_artifact.py:480-549 | what resolves by the standard resolves in the loop, to the same place |
| `SymlinkResolver.SourceImpliesStandard` | scripts/hash_artifact.py:480-549 | when the links followed on the way pass, what the loop resolves also resolves by the standard |
| `SymlinkResolver.StandardFollowedOk` | scripts/hash_artifact.py:480-549 | every link followed in a standard resolution passes the check of the source |
| `SymlinkResolver.OneLinkIff` | scripts/hash_artifact.py:480-549 | an accepted link resolves by the standard exactly when every link followed on its way is accepted |
| `SymlinkResolver.NestedSlashIsMissed` | scripts/hash_artifact.py:476-549 | a link to a link that demands a directory where there is a file is accepted and does not resolve |
| `SymlinkResolver.OneLinkCanBeLaxer` | scripts/hash_artifact.py:476-549 | such well-formed trees exist |
| `SymlinkResolver.AcceptsIffAllResolve` | scripts/hash_artifact.py:480-549 | the tree is accepted exactly when every link resolves by the standard within forty expansions, and in a well-formed tree exactly when each then ends at an entry of the tree or its root |
| `SymlinkResolver.WalkStaysInside` | scripts/hash_artifact.py:480-549 | a resolution ends at the root or at an entry of the tree |
| `Relocation.AcceptedIffMovable` | scripts/hash_artifact.py:480-549 | a tree is accepted if and only if no target is absolute and every link leads, in every file system that holds the tree anywhere, to one and the same entry of the tree or its root |
| `Relocation.CheckedIffMovable` | scripts/hash_artifact.py:480-549 | so the check over the captured entries accepts exactly the movable trees |
| `Relocation.Simulates` | scripts/hash_artifact.py:495-549 | what resolves inside the tree resolves in every file system around it, to the same entry |
| `Relocation.Reflects` | scripts/hash_artifact.py:495-549 | alone in a file system, what does not end outside resolves inside the tree |
| `Relocation.PosixIsClean` | scripts/hash_artifact.py:467-477 | the components of a target are the texts between its slashes, where empty ones matter only at the end |
| `TreeDigest.Scan` | scripts/hash_artifact.py:181-349 | whatever the enumeration order, every entry is recorded exactly once |
| `TreeDigest.BuildManifest` | scripts/hash_artifact.py:644-677 | a digest exists exactly for relocatable trees within the limits on entries and bytes, and is the digest of some enumeration |
| `TreeDigest.SmallIffFits` | scripts/hash_artifact.py:172-179 | the limits hold of every enumeration or of none |
| `TreeDigest.TotalIgnoresOrder` | scripts/hash_artifact.py:293-298 | the byte total does not depend on the enumeration order |
| `TreeDigest.LinesInjective` | scripts/hash_artifact.py:48-62 | the hashed lines can be read apart again |
| `TreeDigest.DocTells` | scripts/hash_artifact.py:48-62 | each hashed document tells path, mode and type of its entry, the target of a link and the digest of a file |
| `TreeDigest.SizesAddUp` | scripts/hash_artifact.py:293-342 | the stated sizes add up to the bytes the limit is about |
| `TreeDigest.HashedInPathOrder` | scripts/hash_artifact.py:454-464 | the entries are hashed in increasing order of their path texts |
| `TreeDigest.DigestIgnoresEnumeration` | scripts/hash_artifact.py:454-464 | the digest does not depend on enumeration order |
| `TreeDigest.DigestDeterminesTree` | scripts/hash_artifact.py:644-677 | equal digests mean equal root modes, names, types, modes, targets and contents |
| `TreeDigest.RenameKeepsTree` | scripts/archive_install_history.py:247-249 | what lies below a renamed directory is unchanged |
| `TreeDigest.RenameMovesArtifact` | scripts/archive_install_history.py:239-249 | a renamed directory is the same artifact, its own mode included, and nothing is left behind |
| `TreeDigest.RenameKeepsDigest` | scripts/archive_install_history.py:239-253 | a renamed directory has exactly the digests it had |
| `TreeDigest.RenamedIsRename` | scripts/archive_install_history.py:239-249 | the file system after an exclusive rename to a free name is a rename and nothing else |
| `Sorting.SortIgnoresOrder` | scripts/hash_artifact.py:464-464 | without ties the sorted order depends on the members alone |
| `InstallHistory.RecomputedIntentAgrees` | scripts/archive_install_history.py:123-139 | the recomputed intent equals the recorded one exactly when executor and superseding build agree, wherever the journals are |
| `InstallHistory.Archive.WriteIntent` | scripts/archive_install_history.py:231-237 | the intent is bound exactly when a durable step is left; a stop leaves it torn exactly when it tears the write |
| `InstallHistory.RenameMovesService` | scripts/archive_install_history.py:239-249 | the rename in the file system is what moves the service journal, with the same artifact at its new place |
| `InstallHistory.Archive.MoveService` | scripts/archive_install_history.py:239-249 | the service directory is renamed unless it already was |
| `InstallHistory.Archive.MoveJournal` | scripts/archive_install_history.py:239-249 | the install journal is renamed after the service directory, unless it already was |
| `InstallHistory.Archive.MoveJournals` | scripts/archive_install_history.py:239-249 | service journal first, install journal second, skipping what moved, and exactly as far as steps are left |
| `InstallHistory.Archive.VerifyMoved` | scripts/archive_install_history.py:250-253 | the moved journals always have the digests the intent recorded |
| `InstallHistory.Archive.WriteReceipt` | scripts/archive_install_history.py:254-264 | the receipt describes the bound intent; a stop leaves it torn exactly when it tears the write |
| `InstallHistory.Archive.VerifyCompleted` | scripts/archive_install_history.py:176-199 | a completed archive is confirmed exactly for the recorded superseding build and tree |
| `InstallHistory.Archive.Examine` | scripts/archive_install_history.py:201-223 | admission, exactly, and an intent that names both transactions, their common candidate and the digests of the contents |
| `InstallHistory.Archive.Finish` | scripts/archive_install_history.py:239-264 | moving, checking again and closing, exactly as far as steps are left |
| `InstallHistory.Archive.RetainOpen` | scripts/archive_install_history.py:224-264 | a durable intent must be the recomputed one |
| `InstallHistory.Archive.RetainUnfinished` | scripts/archive_install_history.py:201-264 | an open archive succeeds only when ready, and then gets exactly as far as steps are left |
| `InstallHistory.Archive.Retain` | scripts/archive_install_history.py:142-264 | contents conserved, one location each, only three location pairs; a ready call gets exactly as far as steps are left, a call that is not stopped succeeds exactly when ready, a retained record is about the expected application and names the installed one as its successor, and a torn document is never got past |
| `InstallHistory.Archive.RetainRepeatedly` | scripts/archive_install_history.py:142-264 | after any sequence of stopped calls, whatever was retained is one receipt over the original contents; over a torn document nothing ever is |
| `CandidateFreeze.StepKeepsInv` | scripts/candidate_freeze.py:1253-1302 | creation, completion and promotion keep exactly one root and at most one intent |
| `CandidateFreeze.StepIsLater` | scripts/candidate_freeze.py:1253-1302 | no other process replaces, finishes or withdraws an intent |
| `CandidateFreeze.RunInvariant` | scripts/candidate_freeze.py:1449-1462 | in every interleaved run exactly one root exists |
| `CandidateFreeze.ConsumptionIsOneWay` | scripts/candidate_freeze.py:1509-1632 | an intent once created keeps its creator and bytes for ever, and a frozen root stays |
| `CandidateFreeze.Candidate.Others` | scripts/candidate_freeze.py:1509-1632 | any number of steps of other processes |
| `CandidateFreeze.Candidate.CreateIntent` | scripts/candidate_freeze.py:1253-1302 | success means this process created the one intent; a refusal says exactly what was found and changes nothing |
| `CandidateFreeze.Candidate.Promote` | scripts/candidate_freeze.py:1409-1440 | success means the root is frozen; the intent is unchanged |
| `CandidateFreeze.Candidate.VerifyExactIntent` | scripts/candidate_freeze.py:1476-1506 | returns the bytes of a finished intent only |
| `CandidateFreeze.Candidate.VerifyPublished` | scripts/candidate_freeze.py:1565-1594 | a receipt carries the digest of the frozen intent |
| `CandidateFreeze.Candidate.Freeze` | scripts/candidate_freeze.py:1509-1594 | succeeds only for the creator, and never when an intent already existed; undisturbed, exactly when there was none; a frozen candidate is reported as consumed |
| `CandidateFreeze.Candidate.Recover` | scripts/candidate_freeze.py:1597-1632 | creates nothing, and its receipt carries the digest of the one intent; undisturbed, it succeeds exactly over a finished intent that the inputs still call for |
| `CandidateFreeze.Candidate.Enter` | scripts/candidate_freeze.py:1509-1632 | either entry point keeps a frozen candidate |
| `CandidateFreeze.Candidate.RunAll` | scripts/candidate_freeze.py:1509-1632 | all receipts of any sequence carry one digest and at most one is fresh |
| `ProcessGroup.Child.KillGroup` | scripts/dormant_app_install.py:1034-1036 | the group is signalled only while the unreaped leader holds its identifier |
| `ProcessGroup.Child.LeaderExited` | scripts/dormant_app_install.py:938-958 | observation does not reap, and fails only as a wait failure or an interruption |
| `ProcessGroup.Child.KillUnreapedLeader` | scripts/dormant_app_install.py:961-998 | no group signal, no signal after reaping |
| `ProcessGroup.Child.Wait` | scripts/dormant_app_install.py:1123-1148 | collected means reaped |
| `ProcessGroup.Child.ProbeGroup` | scripts/dormant_app_install.py:1158-1164 | absence means nothing of the group is left |
| `ProcessGroup.Child.SignalGroup` | scripts/dormant_app_install.py:1031-1112 | exactly one group signal on every path |
| `ProcessGroup.Child.AfterRefusedSignal` | scripts/dormant_app_install.py:1036-1085 | a refused signal is followed by no second one |
| `ProcessGroup.Child.AwaitLeader` | scripts/dormant_app_install.py:1114-1156 | no failure means reaped |
| `ProcessGroup.Child.AwaitAbsence` | scripts/dormant_app_install.py:1158-1226 | no failure means observed absent |
| `ProcessGroup.Child.TerminateGroup` | scripts/dormant_app_install.py:1025-1227 | no failure means reaped and observed absent; one signal, unless an uncaught interruption comes before it |
| `ProcessGroup.ReadReady` | scripts/dormant_app_install.py:1311-1329 | the buffers hold exactly what the pipes delivered; oversized exactly beyond the bound |
| `ProcessGroup.Communicate` | scripts/dormant_app_install.py:1292-1352 | a result needs the terminated group, both streams ended and bounded output; the attempt flag without a signal means an interruption |
| `ProcessGroup.Conclude` | scripts/dormant_app_install.py:1341-1352 | a result carries the leader status and the whole output |
| `ProcessGroup.RunBoundedProcess` | scripts/dormant_app_install.py:1230-1437 | at most one group signal, none after reaping, and none at all only when an interruption propagates; a result, and an error of the command raised without a cleanup failure, only over a reaped leader and an empty group; a result has the whole output, and output beyond the bound is reported as such |
| `JournalExport.IntentRoundTrip` | scripts/ga_acceptance_journal_export.py:509-569 | a written export intent is read back |
| `JournalExport.ReceiptRoundTrip` | scripts/ga_acceptance_journal_export.py:572-606 | a written receipt is read back |
| `JournalExport.IntentWrittenBack` | scripts/ga_acceptance_journal_export.py:509-569 | an accepted intent has exactly its canonical bytes |
| `JournalExport.IntentBytesInjective` | scripts/ga_acceptance_journal_export.py:476-506 | equal bytes mean equal intents |
| `JournalExport.TornIntentIsRefused` | scripts/ga_acceptance_journal_export.py:509-569 | no proper prefix of an intent is accepted |
| `JournalExport.RecordsDetermineFiles` | scripts/ga_acceptance_journal_export.py:328-330 | file records determine the files, for every injective digest |
| `JournalExport.TreeShaDetermines` | scripts/ga_acceptance_journal_export.py:360-378 | a tree digest determines the files above and inside the service directory |
| `JournalExport.ServiceTreeDetermines` | scripts/ga_acceptance_journal_export.py:381-382 | so does the digest of the service directory |
| `JournalExport.ReceiptBinds` | scripts/ga_acceptance_journal_export.py:572-580 | a receipt belongs to one intent |
| `JournalExport.PendingNameInjective` | scripts/ga_acceptance_journal_export.py:476-506 | different transactions use different pending names |
| `JournalExport.IntentDeterminesSources` | scripts/ga_acceptance_journal_export.py:476-506 | equal intents mean equal source journals |
| `JournalExport.ReadFilesOf` | scripts/ga_acceptance_journal_export.py:664-727 | a written container is read back |
| `JournalExport.ExportRoundTrip` | scripts/ga_acceptance_journal_export.py:741-850 | the exported container verifies, and its view reports what the journals' own validators read of one completed migration, the recorded intent and the digest of all files |
| `JournalExport.AcceptedIsExport` | scripts/ga_acceptance_journal_export.py:741-850 | whatever verifies is the export of its own journals under the external intent, and its view reports them |
| `JournalExport.ContainerIsUnique` | scripts/ga_acceptance_journal_export.py:741-850 | one external intent admits one container, byte for byte |
| `JournalExportRun.ProductionIsLawful` | scripts/ga_acceptance_journal_export.py:476-616 | the production documents satisfy every law the durable steps assume |
| `JournalExportRun.PartialDiffers` | scripts/ga_acceptance_journal_export.py:978-983 | a partial or torn container is never the expected one |
| `JournalExportRun.Exporter.PublishExternalIntent` | scripts/ga_acceptance_journal_export.py:868-912 | the intent becomes durable under its pending name and is then promoted; a stop leaves exactly the part that was written |
| `JournalExportRun.Exporter.WritePendingTree` | scripts/ga_acceptance_journal_export.py:619-661 | file by file; a stop leaves exactly the files that were whole and the part of the next one |
| `JournalExportRun.Exporter.VerifyPublished` | scripts/ga_acceptance_journal_export.py:1112-1151 | succeeds exactly on a published export and returns the source view, which reports the journals (JournalExport.ViewReports) |
| `JournalExport.ViewReports` | scripts/ga_acceptance_journal_export.py:811-850 | what each field of a view is: candidate, previous, documents and events of the journals' own readings, intent, and digest of the container |
| `JournalExportRun.Exporter.ExportIsTruthful` | scripts/ga_acceptance_journal_export.py:811-850 | with the production documents an exported view reports the sources, the observed environment, the recorded intent and the published files |
| `JournalExportRun.Exporter.CompleteExport` | scripts/ga_acceptance_journal_export.py:954-1018 | a partial pending container is refused and left; otherwise it gets exactly as far as steps are left |
| `JournalExportRun.Exporter.Export` | scripts/ga_acceptance_journal_export.py:1021-1047 | on a clear namespace with closed journals it gets exactly as far as steps are left, and succeeds exactly when published and the repeated snapshot is the same; its view is truthful; otherwise it refuses and changes nothing |
| `JournalExportRun.Exporter.ExternalIntentBytes` | scripts/ga_acceptance_journal_export.py:853-865 | the recorded bytes, torn or whole |
| `JournalExportRun.Exporter.BoundIntent` | scripts/ga_acceptance_journal_export.py:1058-1066 | the intent is recovered exactly when it is whole and the sources are the ones it was made from |
| `JournalExportRun.Exporter.PromotePending` | scripts/ga_acceptance_journal_export.py:1066-1086 | an intent under its pending name is promoted unless the call stops first; nothing else changes |
| `JournalExportRun.Exporter.ResumeExport` | scripts/ga_acceptance_journal_export.py:1066-1109 | promotion and completion, exactly as far as steps are left |
| `JournalExportRun.Exporter.Recover` | scripts/ga_acceptance_journal_export.py:1050-1109 | with unchanged sources, from every stop between whole steps, it publishes the very container of the uninterrupted export and succeeds exactly when the repeated snapshot is the same, with a truthful view; otherwise it refuses and changes nothing |
| `RustAudit.IndexNodes` | scripts/audit_rust_target.py:106-117 | fails exactly on malformed or duplicate nodes |
| `RustAudit.Closure` | scripts/audit_rust_target.py:119-141 | the worklist ends and returns exactly the transitive closure, or fails exactly when the closure is malformed |
| `RustAudit.AppendDependencies` | scripts/audit_rust_target.py:134-140 | fails exactly on an invalid dependency |
| `RustAudit.FrontierIsClosure` | scripts/audit_rust_target.py:119-141 | an empty worklist means closure |
| `RustAudit.ReachablePackageIds` | scripts/audit_rust_target.py:99-141 | exactly the closure of the workspace members |
| `RustAudit.IndexPackages` | scripts/audit_rust_target.py:149-166 | exactly the name, version and source listed for each identifier; fails exactly on incomplete or duplicate packages |
| `RustAudit.ImageSize` | scripts/audit_rust_target.py:174-176 | counting keys decides whether two packages share one |
| `RustAudit.TargetPackageKeys` | scripts/audit_rust_target.py:144-177 | exactly the names, versions and sources of the closure; fails exactly when one is missing or shared |
| `RustAudit.KeysDefinedIff` | scripts/audit_rust_target.py:149-177 | keys are well defined exactly when the raw fields are |
| `RustAudit.SelectLockedPackages` | scripts/audit_rust_target.py:180-225 | succeeds exactly when every wanted name, version and source is locked once, and returns those packages in order |
| `RustAudit.ScanLock` | scripts/audit_rust_target.py:189-209 | the scan fails exactly on an incomplete package or a wanted key that occurs again |
| `RustAudit.SelectionIsBijective` | scripts/audit_rust_target.py:189-225 | the selection is sorted and in bijection with the wanted keys |
| `RustAudit.LockMatchesIff` | scripts/audit_rust_target.py:189-216 | every wanted key is locked once exactly when every package within reach is |
| `RustAudit.SelectionIsExact` | scripts/audit_rust_target.py:189-225 | the selection agrees with the closure field by field |
| `RustAudit.AuditSelection` | scripts/audit_rust_target.py:99-225 | over the raw fields: it succeeds exactly when the closure is sound and locked once; each package within reach then agrees with exactly one selected package in name, version and source, nothing else is selected, and the order is by name, version and source |

## Left out

- Descriptor, inode, owner, mode, link-count and path-identity checks, fsync variants and the foreign rename calls: atomic steps that may fail.
- codesign, spctl, stapler, notarytool, launchctl and ps: arbitrary observations.
- Text shapes of digests, versions, hardware models and start times in the typed models, and size limits of single documents: they only refuse more.
- Floats in JSON: no journal document has them.
- The older tree algorithm and the hash of a single-file root in `scripts/hash_artifact.py`.
- TreeDigest.BuildManifest: the tree does not change while it is scanned, so the second enumeration is left out, and a file with several links, which the source refuses, is not a value of the model.
- InstallJournal.Validate: a journal is a typed value, so the document name, the schema number, the textual shapes of the identifier and of the digests and the staging name derived from the identifier are not checked.
- Starting a command: argument, environment and home checks in `scripts/dormant_app_install.py`.
- Rendering of the audit lockfile and parsing of the audit report: text plumbing.
- Command-line fronts, messages, exception notes, the release identity registry and network receipts.
- DmgPending.CutVerdict: the reader is given in the spelling the writer uses; other spellings of JSON, which no prefix of a written event has, are not modelled.
- DmgTransaction.Transaction.Perform: states safety over all runs and no completion, because every stage depends on external commands.
- CandidateFreeze.Candidate.Freeze: an intent being written is unreadable until it is whole; the moment between the last byte and its fsync is not a separate state.
- JournalExport.ExportRoundTrip: the journals' own validators are parameters, and documents are written with escaped non-ASCII characters; the export's writer leaves those unescaped, which makes no difference on the ASCII documents exported here.
- JournalExportRun.Exporter.Export: the refusals are one outcome, as are the stops; which error class each of them raises is not modelled.
- InstallHistory.Archive.Retain: the terminal snapshots are pure readings of the journals' contents, and no file appears in the archive directory besides the four names.
- ProcessGroup.RunBoundedProcess: time is a count of loop passes left before each deadline.
- RustAudit.AuditSelection: `None` stands for every value of the wrong shape, so the individual error messages are not distinguished.
