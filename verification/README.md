# Verified models of the coding harness's protocols, scanners and orders

This project models nine parts of the harness in Dafny and proves what they promise over every run
and every input. Each part has its own files:

| part | source | files |
|---|---|---|
| Provider admission: a permit scheduler per provider scope with a concurrency cap, a bounded queue with aging and title deferral, a cooldown, and restart | `src/provider-admission.ts` | `AdmissionModel`, `AdmissionPump`, `AdmissionSteps`, `AdmissionRuns`, `AdmissionPermits`, `AdmissionTheorems`, `AdmissionScheduling`, `AdmissionTraces`, `AdmissionRestart`, `AdmissionController` |
| Standalone role runs: a durable checkpoint, an exclusive session, crashes between any two writes | `src/cli.ts` (`runRoleStandalone`) | `StandaloneModel`, `StandaloneSafety`, `StandaloneOwnership`, `StandaloneTraces`, `StandaloneCompletion`, `StandaloneRecord`, `StandaloneResume` |
| The credential store's cross-process lock | `src/auth/credential-store.ts` | `CredentialLockModel`, `CredentialLockSafety`, `CredentialUpdates` |
| The JSON artifact in a role's output | `evals/runner/report.ts` | `JsonGrammar`, `ArtifactExtraction` |
| The JSON object in a registry command's output | `scripts/wait-registry-readiness.ts` | `JsonGrammar`, `RegistryReadiness`, `RegistryLines` |
| The session spend controller | `src/session-limits.ts` | `SessionLimits` |
| Terminal text and line editing | `src/cli/console.ts` | `TerminalText`, `TerminalUnits`, `LineEditing`, `LineKeys` |
| Version order, the changelog and the version gate | `scripts/check-release.ts`, `scripts/check-version.ts` | `VersionOrder`, `VersionClaims`, `VersionSyntax` |
| The admission failures as message texts | `src/provider-admission.ts` | `AdmissionErrors` |

`JavaScriptText` holds the string operations of JavaScript the scanners and scripts use, `Wrappers` an
option type.

## How it is built

Where the source changes objects or variables step by step, the model is a class or a method with
loops (`AdmissionController`, `SessionLimits`, `LineEditing`, the scanners, the comparison and claim
loops). Each method is proved to compute a function of its inputs or of the old state, and the
theorems are about those functions. The standalone run and the credential lock are protocols between
processes; they are state machines whose steps are the durable writes and the system calls, and the
theorems quantify over every sequence of steps.

Every admission step takes one reading of a clock that does not go back. `Inv` (AdmissionSteps) is the
invariant every operation keeps; a *permit* is held by a token that is admitted or uncertain and not
settled; *debt* is what a scope counts beyond the permits its tokens hold.

How a token is reached matters for what callers can do with it. `admit` and the wrapped methods hand a
token out once it is admitted, so a caller of the public interface only ever names admitted tokens. A
token that still waits, the uncertain token of a restart and the tombstones are kept in private fields;
`cancel()` on a waiting token, `resolveUncertain` and `releaseToken` exist for whoever gets past them.
The runs called *given* name only admitted tokens and the uncertain one, and the theorems about them
have no further condition. The theorems about all runs let every operation name any token but a
tombstone, and say exactly what such calls do.

## What the code does that its own comments do not say

Each of these is a lemma; where a promise holds under a condition, that is one too.

* **Permits.** While callers use the tokens they were given, permits are conserved without condition
  (`ConservationForCallers`, `FreshCallersStayWithinCap`). Past the interface two calls take a permit
  nobody gave them, and leave two calls in flight under a cap of one: `cancel()` followed by `release()`
  on a waiting token (`CancelThenReleaseOverruns`), and `releaseToken` for a waiting token, which is
  granted later with its permit already given back (`ReturnedWaiterOverruns`). Over all runs
  conservation holds exactly when every operation takes as many such permits as it grants to tokens that
  have already settled (`PermitConservation`), which, while no waiting token is returned directly, is
  when none takes one for a cancelled token (`OrderlyConservation`).
* **Aging.** `assertConfig` accepts every order of the classes, but an aged entry is safe from later
  arrivals exactly when interactive is listed before background or the queue has room for one entry only
  (`BoundedOvertaking`, `UnfairOvertakes`); where title stands does not matter.
* **Restart.** A restored token has no controller, so `release()` on an uncertain one returns nothing
  and `resolveUncertain` then refuses it, although the comment on `release()` says it returns the
  permit; only `releaseToken` on the controller still does (`ReleaseStrandsUncertain`). Of a scope saved
  with n permits out, one token comes back; the other n - 1 stay counted (`RestoreFidelity`). Tombstones
  keep their queue slots for good, so a scope restored with a full queue never queues again
  (`TombstonesOccupy`).
* **Standalone runs.** A resume that read `running` and was overtaken may mark a completed run as
  failed and run it again (`CompletedRunIsRunAgain`); a launcher that loses the session lease records
  its failure over a live run, after which a late finalization can clear an operation of another
  process (`ForeignOperationCleared`). A completed run stays completed exactly when no process is left at
  a place from which it can still write (`CompletedStaysExactly`). A finalization closes its own
  operation whenever every unchecked failure write is made by the owner of the record
  (`FinalizesOwnOperation`); the one write in `ForeignOperationCleared` that is not is the note of a
  contender that could not open the session. The branch at `src/cli.ts:1191-1215` is never taken: a prior
  record that said `running` has been replaced by then (`NeverClaimsRunning`).
  A start whose session could not be created leaves a failed record that asks for a retry, but no resume
  of it is ever served (`FailedStartIsLost`); of every other run that is not over one is
  (`ResumeServedExactly`).
* **Credential lock.** The comparison and the unlink of a stale lock are two system calls. Exclusion is
  safe along a run exactly when no stale unlink of it removes the lock of a live process
  (`ExclusionExactly`), as it can once the name has changed hands in between
  (`SeparatedUnlinkLetsTwoIn`). A process that dies between creating the lock file and writing its pid
  leaves a lock that stays exactly as long as no unlink is separated from its comparison
  (`OrphanForever`); otherwise exactly the locks with a pid are recoverable
  (`RecoverableExactlyWithMetadata`).
* **Artifact extraction.** The comment at the unclosed-bracket branch says that resuming at the next line
  keeps a real answer there reachable; the later check for an unclosed bracket stops the scan at the first
  span that parses, so nothing behind one is ever accepted (`NothingAfterUnclosed`).
* **Console.** A carriage return at the end of one paste swallows a line feed at the beginning of the
  next (`PasteExactlyFolds`, `SecondPasteLosesLineFeed`); the size ceiling holds every pasted byte but
  line endings, so a message of any length whose bytes past the ceiling are line endings is dispatched
  (`CeilingExactly`, `PastedMessageIsDispatched`). A BEL ends every control string, so the rest of a
  character string that contains one comes out as text (`CharacterStringTrace`).
* **Versions.** Every heading that lacks one of its three numbers makes the changelog check accept some
  wrong order around it (`EveryOddHeadingSeparates`). The version gate ignores what stands behind a second
  dash and compares prerelease texts as they stand (`SecondDashIgnored`, `PrereleaseIsText`).

## Model

| member | source | states |
|---|---|---|
| AdmissionModel.Best | src/provider-admission.ts:566-598 | the scheduler's choice is an eligible entry no eligible entry outranks, and there is none exactly when no entry is eligible |
| AdmissionScheduling.AcceptedConfigs | src/provider-admission.ts:83-109 | a configuration is accepted exactly when its amounts are positive and its classes are the three there are, in any order |
| AdmissionScheduling.ChoiceExactly | src/provider-admission.ts:566-601 | of the owned entries that are no deferred title, the choice is exactly the one that goes first by the place of its class in the configuration, an aged entry counting as interactive, then by age, then by its place in the queue |
| AdmissionScheduling.DeclinesExactly | src/provider-admission.ts:577-598 | the scheduler declines exactly a queue of tombstones |
| AdmissionScheduling.PumpAllHandsOut | src/provider-admission.ts:543-549 | a pump hands out in every scope the smaller of what the cap leaves, nothing during a cooldown, and the owned entries waiting |
| AdmissionScheduling.ReservationExactly | src/provider-admission.ts:485-513 | a request is admitted at once exactly when the cap leaves more, outside a cooldown, than owned entries wait; otherwise those are served first and it is parked last, with its class and its time, or refused at a queue still full |
| AdmissionScheduling.ReturnExactly | src/provider-admission.ts:614-635 | after a permit came back every scope has handed out the smaller of what it may and what waits |
| AdmissionScheduling.ReturnServes | src/provider-admission.ts:614-635 | the first such permit goes to the scheduler's choice |
| AdmissionScheduling.ReservationServes | src/provider-admission.ts:496-501 | so does the first one at or after the end of a cooldown, before the request itself |
| AdmissionPump.ChoiceRespectsAge | src/provider-admission.ts:566-601 | with interactive before background, the choice is an aged waiter itself or an entry ahead of it |
| AdmissionPump.PumpEffect | src/provider-admission.ts:626-635 | a pump gives permits to waiters only, keeps the order of the rest and every tombstone, and leaves no owned waiter behind a free permit |
| AdmissionRuns.StepKeeps | src/provider-admission.ts:370-389 | every operation, a direct releaseToken included, keeps the invariant; whoever leaves a queue has a permit or was cancelled, permits are gained only after the cooldown, the caps are not exceeded |
| AdmissionPermits.AccountLaw | src/provider-admission.ts:551-624 | what a scope counts, less the permits its tokens hold, plus the permits given back by tokens that never had one, changes only when a permit is given back at a count of zero |
| AdmissionPermits.DebtLaw | src/provider-admission.ts:604-624 | an operation changes what a scope counts beyond its holders only by taking a permit nobody gave it and by granting one to a token that has already settled |
| AdmissionPermits.StepTokens | src/provider-admission.ts:335-390 | an operation settles the token it names, admits or cancels waiting ones, adds fresh ones, and changes no other token |
| AdmissionTheorems.RunKeepsInv | src/provider-admission.ts:392-797 | the invariant holds in every state of every run |
| AdmissionTheorems.PermitConservation | src/provider-admission.ts:551-624 | over any run naming any tokens, each scope's count equals the permits its tokens hold all along if and only if every operation takes as many unheld permits as it grants to settled tokens |
| AdmissionTheorems.OrderlyConservation | src/provider-admission.ts:370-389 | while no waiting token is returned directly, that is when no operation takes a permit for a cancelled token while one is out |
| AdmissionTheorems.ConservationForCallers | src/provider-admission.ts:655-667 | while callers use the tokens they were given, the counts are exact over every run, without any condition |
| AdmissionTheorems.FreshCallersStayWithinCap | src/provider-admission.ts:543-558 | from a fresh start never more tokens hold permits of a scope than the cap allows |
| AdmissionTraces.CancelThenReleaseOverruns | src/provider-admission.ts:370-389 | with a waiting token, taken from the private queue, a fresh controller under the default configuration reaches two permits out at a cap of one |
| AdmissionTraces.ReturnedWaiterOverruns | src/provider-admission.ts:614-624 | so it does when releaseToken is called for a waiting token, with nothing cancelled |
| AdmissionTheorems.CapNeverExceeded | src/provider-admission.ts:502-513 | over every run a scope's count and queue stay within the configured caps |
| AdmissionTheorems.FirstReturn | src/provider-admission.ts:604-624 | the first settle, release or rejection of an admitted token settles it |
| AdmissionTheorems.SettledForGood | src/provider-admission.ts:604-624 | over every run a settled token stays settled and a token past the queue keeps its state |
| AdmissionTheorems.ReturnedOnce | src/provider-admission.ts:604-624 | whatever run follows, each later settle, release, direct return or resolution of that token moves no permit |
| AdmissionTheorems.ReturnConservesWork | src/provider-admission.ts:614-635 | after a permit came back no scope has both an owned waiter and a permit it could take |
| AdmissionTheorems.ReserveConservesWork | src/provider-admission.ts:490-513 | a direct grant happens only when no owned waiter remains; a request is parked or refused only when no permit may be granted, and refused only at a full queue |
| AdmissionTheorems.CooldownMoves | src/provider-admission.ts:638-653 | only a limit rejection moves the cooldown of its scope, and it overwrites it with now plus the hint, at most the configured bound, or plus the configured delay, which has no bound |
| AdmissionTheorems.RejectionGrantsNobody | src/provider-admission.ts:709-716 | a rejection with a positive delay grants nobody in its scope, although it returns a permit and pumps |
| AdmissionTheorems.CooldownBarrier | src/provider-admission.ts:543-549 | over any run of operations inside a cooldown nobody gains a permit of the scope |
| AdmissionTheorems.GoneForGood | src/provider-admission.ts:560-563 | a token that left a queue never comes back to it |
| AdmissionTheorems.LeavesDecided | src/provider-admission.ts:515-531 | over any run an entry leaves the queue only with a permit or by cancellation |
| AdmissionTheorems.FinalForGood | src/provider-admission.ts:370-376 | over any run an admitted token stays admitted and a cancelled one cancelled |
| AdmissionTheorems.BoundedOvertaking | src/provider-admission.ts:566-601 | with interactive before background, or a queue of one, from the moment an owned entry is aged every permit of its scope goes to it or to an entry that was ahead of it |
| AdmissionTheorems.BoundedWait | src/provider-admission.ts:566-635 | one grant more than there are owned entries ahead of an aged one decides it |
| AdmissionTheorems.CallersAreServed | src/provider-admission.ts:655-667 | as no caller can cancel what waits, such an entry then has its permit |
| AdmissionTraces.UnfairOvertakes | src/provider-admission.ts:94-106 | under every other configuration a fresh controller reaches a state in which the next return of a permit goes to an entry behind an aged one |
| AdmissionTraces.Fills | src/provider-admission.ts:502-506 | reservations of a fresh controller take its permits one after another |
| AdmissionRestart.RestoreFidelity | src/provider-admission.ts:420-482 | restoring any version-1 snapshot gives a well-formed state that saves as that snapshot, with one holder for the permits of a scope in flight |
| AdmissionRestart.RestoredCallersConserve | src/provider-admission.ts:443-454 | after a restart whose scopes count their uncertain call only, the counts stay exact over every run of callers |
| AdmissionRestart.RestoreReplaces | src/provider-admission.ts:424-456 | loading into a controller in use replaces the scopes the snapshot has by what it says, keeps the others and their order, and puts new ones last |
| AdmissionRestart.SecondRestore | src/provider-admission.ts:420-423 | a second restore changes nothing; another version is refused |
| AdmissionRestart.TombstonesForever | src/provider-admission.ts:431-442 | over every run tombstones keep their order and slots and are never granted |
| AdmissionRestart.TombstonesOccupy | src/provider-admission.ts:508-510 | a scope whose queue is full of tombstones parks nobody, ever |
| AdmissionRestart.InFlightExactRun | src/provider-admission.ts:443-454 | at a cap of one the in-flight token is present exactly while one permit is out, over every run that takes no unheld permit and returns no waiting token directly |
| AdmissionRestart.InFlightExactForCallers | src/provider-admission.ts:443-454 | so over every run of callers, from a fresh start and from such a restart, without any condition |
| AdmissionRestart.ResolveReturnsPermit | src/provider-admission.ts:460-465 | resolving the uncertain call returns its permit once, and hands the capacity on |
| AdmissionRestart.RestoredCallResolves | src/provider-admission.ts:443-465 | the call in flight at a restart can be resolved: its permit is off the count, nobody gets it, and the tombstones stay |
| AdmissionRestart.ReleaseStrandsUncertain | src/provider-admission.ts:378-389 | after release() on a restored uncertain token its permit stays out exactly until releaseToken is called for it on the controller |
| AdmissionModel.WithoutFirst | src/provider-admission.ts:560-563 | removing the first entry of a token, found by its index |
| AdmissionController.ProviderAdmissionController.AnyInteractiveWaiting | src/provider-admission.ts:573-579 | finds whether an owned entry is interactive or aged |
| AdmissionController.ProviderAdmissionController.DequeueCandidate | src/provider-admission.ts:566-601 | the loop takes exactly the best entry out of the queue, and changes nothing when there is none |
| AdmissionController.ProviderAdmissionController.PumpKey | src/provider-admission.ts:628-632 | the loop over one scope leaves the scope and the tokens PumpScope gives |
| AdmissionController.ProviderAdmissionController.PumpAll | src/provider-admission.ts:626-635 | all scopes in order, then the store holds the snapshot of the result |
| AdmissionController.ProviderAdmissionController.ReservePermit | src/provider-admission.ts:485-532 | the new state, the outcome and the stored snapshot of a reservation |
| AdmissionController.ProviderAdmissionController.ReleaseToken | src/provider-admission.ts:614-624 | the new state of a permit's return, stored whenever the token was not settled |
| AdmissionController.ProviderAdmissionController.SettleToken | src/provider-admission.ts:604-607 | the new state of a settlement |
| AdmissionController.ProviderAdmissionController.CancelToken | src/provider-admission.ts:370-376 | the new state of a cancellation with the removal it causes |
| AdmissionController.ProviderAdmissionController.ReleaseByCaller | src/provider-admission.ts:378-389 | the new state of a caller's release, for queued, attached and restored tokens |
| AdmissionController.ProviderAdmissionController.OpenScopeCooldown | src/provider-admission.ts:638-647 | the new cooldown, stored |
| AdmissionController.ProviderAdmissionController.RejectWithLimit | src/provider-admission.ts:709-716 | cooldown first, settlement second |
| AdmissionController.ProviderAdmissionController.ResolveUncertain | src/provider-admission.ts:461-465 | the new state of resolving an uncertain call |
| AdmissionController.ProviderAdmissionController.RestoreFrom | src/provider-admission.ts:420-458 | the loops over scopes and entries build the state Restore gives, at most once |
| StandaloneSafety.RunKeeps | src/cli.ts:1050-1431 | over every interleaving and crash the session has one holder and every process's place agrees with the record |
| StandaloneSafety.SettledNeverReplayed | src/cli.ts:1344-1348 | once a settled operation is durable, no crash, failure, interruption or resume calls the runner or replaces the operation before a finalization writes its outcome |
| StandaloneSafety.OneAtTheRunner | src/cli.ts:1159-1187 | no two processes are at the role runner |
| StandaloneSafety.VerdictDurable | src/cli.ts:1281-1285 | a durable verdict stays; only a process at the runner replaces it, by its own verdict |
| StandaloneSafety.ResumesReturnTheVerdict | src/cli.ts:1123-1141 | every later resume that supplies a capture returns the durable verdict or nothing, without a runner call |
| StandaloneSafety.NeverClaimsRunning | src/cli.ts:1189-1215 | over every run a process that opens or holds the session to resume works from a record that does not say running |
| StandaloneRecord.FirstRecord | src/cli.ts:1252-1270 | the first record says that its process is starting and nothing more, and a start never replaces one |
| StandaloneRecord.FieldsMove | src/cli.ts:817-860 | over any step usage, verdict, settled operation and owner are what the last report, persisted verdict, settlement or finalization and claim made them, and every write takes the next version |
| StandaloneRecord.ResultMoves | src/cli.ts:942-1046 | the result is what the last finalization or finished verdict left, and a claim drops it |
| StandaloneRecord.StatusMoves | src/cli.ts:1050-1431 | which step can lead to which status; a run becomes complete only by finalizing an operation without a closeout or from its verdict |
| StandaloneRecord.EndsAs | src/cli.ts:1358-1428 | a stage limit pauses the run with that limit, an interrupt pauses it, any other failure fails it; so do a session that cannot be opened and a finalization, each with its own record |
| StandaloneRecord.RecordExplained | src/cli.ts:884-1046 | over every run a complete record has an uncut result and no pause or failure, a paused one its pause, with the answer so far after a closeout, and a failed one its failure |
| StandaloneRecord.LeaseMoves | src/cli.ts:1159-1236 | the session is taken by opening it and given back by its holder's closing, failure, lost claim or death |
| StandaloneRecord.CapturedMoves | src/cli.ts:1281-1285 | a captured verdict was acknowledged by the store or read back from it |
| StandaloneRecord.AnythingMayHappen | src/cli.ts:1286-1349 | the runner may report, persist a verdict where one is collected, return or fail at any time, and a finalization may fail until it writes |
| StandaloneRecord.ChecksExactly | src/cli.ts:927-952 | a check can stop a process only before it holds anything, and only a resumed attempt that called the runner can find its answer stale |
| StandaloneRecord.VerdictOutlivesFailure | src/cli.ts:1355-1357 | after a failure a process with an acknowledged verdict can complete the run with it and return it, without another call |
| StandaloneRecord.FailureIsRecorded | src/cli.ts:1349-1431 | one without can record why it failed, and leaves the session free |
| StandaloneResume.CallsRunner | src/cli.ts:1216-1237 | of a run left behind a resume reaches the runner, owning the record, with usage and verdict kept |
| StandaloneResume.FinalizesFound | src/cli.ts:1239-1240 | a settled operation it finds is finalized, without the runner |
| StandaloneResume.CollectsVerdict | src/cli.ts:1123-1141 | a durable verdict is returned, and the run is complete |
| StandaloneResume.ResumeServedExactly | src/cli.ts:1050-1240 | once its processes are gone a resume is served exactly when the record is there and not complete without a verdict, and there is a session, or it may still be created, or the verdict is all that is asked for |
| StandaloneResume.AbandonedRunResumes | src/cli.ts:1050-1240 | so from every state of every run |
| StandaloneResume.FailedStartIsLost | src/cli.ts:898-906 | a start whose session could not be created leaves a failed record that no resume takes up |
| StandaloneCompletion.RunPlaced | src/cli.ts:1050-1285 | over every run each process holds, place by place, what its place implies of the record, the session and the verdict |
| StandaloneCompletion.CompletedStays | src/cli.ts:1071-1076 | with nobody left who can write, a completed run without a verdict is never changed or run again |
| StandaloneCompletion.CompletedStaysExactly | src/cli.ts:1071-1121 | of every reachable state with a completed run: its record can still change exactly when some process stands at a place from which it can write |
| StandaloneOwnership.PoliteRunOwned | src/cli.ts:1216-1231 | while unchecked failure writes are the owner's own, every working process owns the record |
| StandaloneOwnership.FinalizesOwnOperation | src/cli.ts:911-1012 | in such runs a finalization closes exactly the durable operation, in the process that owns the record |
| StandaloneTraces.CompletedRunIsRunAgain | src/cli.ts:1077-1121 | a run in which a completed record is marked orphaned by a late resume and the runner is called again |
| StandaloneTraces.ForeignOperationCleared | src/cli.ts:884-909 | a run in which a losing contender's failure write lets a late finalization remove another process's operation |
| CredentialLockSafety.MutualExclusionAndNoLostUpdates | src/auth/credential-store.ts:376-406 | over every interleaving with crashes in which no stale unlink removes a live process's lock, at most one live instance is in the critical section, and the stored map is the operations that took effect applied in lock order |
| CredentialLockSafety.ExclusionExactly | src/auth/credential-store.ts:244-258 | exclusion is safe along a run if and only if that is so of it |
| CredentialLockSafety.UndisturbedSpares | src/auth/credential-store.ts:244-258 | a comparison that no change of the name separates from its unlink ensures it |
| CredentialLockSafety.PublishKeeps | src/auth/credential-store.ts:449-498 | a publication applies its operation to the map the previous one left |
| CredentialUpdates.StoreMoves | src/auth/credential-store.ts:376-406 | a publication puts the credential of its own id, or deletes it, by what is stored then, or declines, and changes no other id; nothing else writes |
| CredentialUpdates.LastWriteWins | src/auth/credential-store.ts:376-406 | over every such run each id holds what the last operation that wrote it put, or nothing when that deleted it, and otherwise what it held |
| CredentialUpdates.ThrowingPublishesNothing | src/auth/credential-store.ts:385-386 | a callback that throws on what is stored publishes nothing |
| CredentialUpdates.CompletesWhenFree | src/auth/credential-store.ts:500-545 | an instance that finds the lock free can complete its operation, with that effect, and leaves the lock free, also when its callback throws |
| CredentialLockSafety.HolderKeepsLock | src/auth/credential-store.ts:525-530 | a live holder's lock leaves only by the holder's own unlink |
| CredentialLockSafety.OrphanForever | src/auth/credential-store.ts:569-571 | a lock file without its metadata, of a dead process, stays exactly as long as no stale unlink is separated from its comparison |
| CredentialLockSafety.DeadOwnerRecovered | src/auth/credential-store.ts:547-590 | a later instance that waits out the bound removes a dead owner's lock whose pid was written, and changes nothing stored |
| CredentialUpdates.NotBeforeBound | src/auth/credential-store.ts:569 | before the bound nobody removes an abandoned lock, over every run that ends earlier |
| CredentialUpdates.AgeCountsFromPid | src/auth/credential-store.ts:520-523 | the bound counts from the writing of the pid |
| CredentialUpdates.InspectionExactly | src/auth/credential-store.ts:551-581 | an inspection removes exactly an old lock of a dead process, fails exactly on an old one without a pid, and otherwise waits |
| CredentialLockSafety.RecoverableExactlyWithMetadata | src/auth/credential-store.ts:566-581 | of the locks dead processes leave, exactly those with a pid are recoverable |
| CredentialLockSafety.SeparatedUnlinkLetsTwoIn | src/auth/credential-store.ts:244-258 | a run in which the name changes hands between comparison and unlink and two live instances are inside together |
| JsonGrammar.RenderBalanced | evals/runner/report.ts:118-140 | every JSON text of RFC 8259 nests its brackets outside strings and ends all its strings |
| JsonGrammar.EnclosedStaysOpen | evals/runner/report.ts:118-140 | inside a bracketed balanced text its own closing bracket is owed at every point |
| ArtifactExtraction.BalancedSpan | evals/runner/report.ts:118-140 | the loop returns the text up to the first return of the count to zero, or nothing when there is none |
| ArtifactExtraction.ExtractJsonArtifact | evals/runner/report.ts:163-214 | the loop returns the last accepted span, or the error the scan determines |
| ArtifactExtraction.TallyProjects | evals/runner/report.ts:118-140 | counting one kind of bracket is that kind's share of the nesting, wherever brackets nest |
| ArtifactExtraction.SpanIsExact | evals/runner/report.ts:117-140 | whatever surrounds a serialized array or object, the span found at it is that serialization |
| ArtifactExtraction.CutNeverCloses | evals/runner/report.ts:117-140 | a serialization cut short has no span |
| ArtifactExtraction.LastValueIsTheAnswer | evals/runner/report.ts:142-162 | of serialized arrays and objects among prose without opening brackets the last one is the answer |
| ArtifactExtraction.CutValueIsNoAnswer | evals/runner/report.ts:192-197 | output that stops inside a value is unterminated, or answered by the values before it, never by a part of the cut one |
| ArtifactExtraction.NothingAfterUnclosed | evals/runner/report.ts:172-197 | after an unclosed bracket no span is accepted, on any later line |
| ArtifactExtraction.AcceptedAreTopLevel | evals/runner/report.ts:159-161 | of any output the accepted spans parse, are disjoint and in order, and are all the top-level spans that parse before the first unclosed top-level bracket |
| ArtifactExtraction.AnswerIsJson | evals/runner/report.ts:198-205 | an answer is a piece of the output and the serialization of an array or object |
| ArtifactExtraction.NoArtifactMeans | evals/runner/report.ts:205 | no artifact is reported exactly when nothing opens a bracket |
| ArtifactExtraction.ErrorsExactly | evals/runner/report.ts:205-213 | the output is unterminated exactly when some bracket never closes and nothing before it can be read, and unreadable exactly when every bracket closes around something that is not JSON |
| RegistryReadiness.CompleteValue | scripts/wait-registry-readiness.ts:122-149 | the loop finds where all brackets since the start have closed by their own kind, first of all |
| RegistryReadiness.CollectValues | scripts/wait-registry-readiness.ts:112-158 | the loop collects exactly the complete values, or refuses |
| RegistryReadiness.JoinResidual | scripts/wait-registry-readiness.ts:164-171 | what stands around the values, joined by line feeds |
| RegistryReadiness.ReadJsonObject | scripts/wait-registry-readiness.ts:110-188 | the result of reading an output with its exit code |
| RegistryReadiness.AloneIsRead | scripts/wait-registry-readiness.ts:110-188 | one bracketed JSON text with no bracket and no parsable line around it is read, to its object or nothing |
| RegistryReadiness.FreeYieldsNothing | scripts/wait-registry-readiness.ts:172-188 | output without brackets yields no object, whatever its lines are |
| RegistryReadiness.ReadExactlyWhenAlone | scripts/wait-registry-readiness.ts:110-188 | an object is returned exactly when one such text stands alone and is that object or an array of just that object |
| RegistryLines.QuietExactly | scripts/wait-registry-readiness.ts:172-180 | the lines around the values yield nothing exactly when none of them is a JSON text between white space |
| RegistryLines.ObjectReadExactly | scripts/wait-registry-readiness.ts:110-188 | spelled out on the text: an object is returned exactly for exit code zero and an output of one bracketed JSON text that is that object or an array of just it, without a bracket around it and without another JSON text on a line around it |
| SessionLimits.SessionLimitController.Configure | src/session-limits.ts:35-58 | a controller with the configured limits, or none when they are no non-negative integer and amount |
| SessionLimits.SessionLimitController.AssertNoBoundaryFailure | src/session-limits.ts:89-92 | the last refusal |
| SessionLimits.SessionLimitController.Restore | src/session-limits.ts:60-71 | the new state: ignored when used, refused on other limits |
| SessionLimits.SessionLimitController.TakeSnapshot | src/session-limits.ts:73-82 | the snapshot, with the current reason |
| SessionLimits.SessionLimitController.AssertActive | src/session-limits.ts:94-112 | the current refusal, in the order latch, turns, cost, call in flight |
| SessionLimits.SessionLimitController.Reserve | src/session-limits.ts:114-123 | a refused call changes nothing but the remembered refusal; an admitted one counts |
| SessionLimits.SessionLimitController.Settle | src/session-limits.ts:125-134 | the new state of a settlement, known or unknown cost |
| SessionLimits.SpendBound | src/session-limits.ts:94-134 | over every run under a cost limit at most one call is in flight, every known cost is accounted for, and less than the limit was spent before the last settlement |
| SessionLimits.TurnBound | src/session-limits.ts:102-104 | admitted turns never exceed the limit |
| SessionLimits.AdmittedExactly | src/session-limits.ts:94-123 | after any run a call is admitted if and only if fewer calls than the turn limit were admitted, and under a cost limit every cost was known, less than the limit was spent and no call is in flight |
| SessionLimits.RefusalExactly | src/session-limits.ts:94-112 | a refusal names the first of unknown cost, turns, cost and call in flight that holds of the run, with the limit and what was counted |
| SessionLimits.RestoredOnce | src/session-limits.ts:60-71 | usage is restored only into an unused controller, refused under other limits, and void once there is any |
| SessionLimits.NeverAdmitsAgain | src/session-limits.ts:94-112 | once the reason is turns, cost or unknown cost, no call is ever admitted again |
| SessionLimits.InFlightPasses | src/session-limits.ts:108-110 | a call in flight is the one refusal that passes: the next call is admitted exactly when the cost that settles is known and leaves something of the limit |
| SessionLimits.RestartFidelity | src/session-limits.ts:60-82 | restoring the snapshot of any reachable controller gives an equal snapshot, and the same state unless it was refusing |
| SessionLimits.RestartSimulates | src/session-limits.ts:60-123 | a restarted controller admits and refuses the same calls ever after, and refuses all when the original was refusing |
| TerminalText.SanitizeTerminalText | src/cli/console.ts:259-302 | the loop computes the transducer's output |
| TerminalText.OutputIsPlainSubsequence | src/cli/console.ts:258-302 | the output is a subsequence of the input, of characters that control nothing |
| TerminalText.UnchangedExactlyWhenPlain | src/cli/console.ts:292-301 | exactly the inputs without stripped characters are unchanged; sanitizing twice is sanitizing once |
| TerminalText.InsertableExactly | src/cli/console.ts:259-302 | exactly the texts that read as nothing and end in text can be inserted wherever text is read |
| TerminalText.ControlLeavesNoTrace | src/cli/console.ts:263-291 | every control sequence and every command string of ECMA-48 leaves no trace where text is read |
| TerminalText.CharacterStringTrace | src/cli/console.ts:263-270 | exactly which character strings leave no trace |
| TerminalText.CharacterStringLeaks | src/cli/console.ts:263-266 | a character string whose rest comes out as text |
| TerminalUnits.TextIsUnits | src/cli/console.ts:259-302 | every text is a sequence of single characters, escape and control sequences and control strings, with at most one cut off at its end |
| TerminalUnits.SanitizedUnits | src/cli/console.ts:259-302 | of such a text exactly the single characters come out that are a tab, a line feed or no control character |
| TerminalUnits.InvisibleExactly | src/cli/console.ts:259-302 | a text leaves no trace exactly when it is made of whole units of which none comes out |
| LineEditing.LineEditor.FeedByte | src/cli/console.ts:1464-1567 | the new state after one byte from the terminal |
| LineEditing.LineEditor.QueueLine | src/cli/console.ts:1338-1342 | a blank line is dropped, any other one queued |
| LineEditing.BlankExactly | src/cli/console.ts:1339 | a UTF-8 line is blank exactly when its text is all white space to trim() |
| LineEditing.LineEditor.EscapeDeadline | src/cli/console.ts:1415-1420 | the deadline of a lone escape interrupts and returns to text |
| LineEditing.LineEditor.FeedChunk | src/cli/console.ts:1462-1567 | the new state after a chunk; nothing is read after the console has stopped |
| LineEditing.LineEditor.EraseLast | src/cli/console.ts:1551-1555 | the loop pops back to the byte that starts a code point |
| LineEditing.ChunksAreJoined | src/cli/console.ts:1462-1464 | where the stream is cut into chunks makes no difference |
| LineEditing.PasteFoldsAnyChunks | src/cli/console.ts:1515-1535 | inside a paste of any length, for any chunking, the bytes are appended with every CRLF or CR replaced by a line feed, all of them exactly when every byte at or past the ceiling is a line ending |
| LineEditing.PasteExactlyFolds | src/cli/console.ts:1524-1528 | a whole paste frame appends its folded bytes exactly when they fit and it does not begin with a line feed while a carriage return of an earlier paste is pending |
| LineEditing.SecondPasteLosesLineFeed | src/cli/console.ts:1524-1528 | two pastes of which the second loses its first line feed |
| LineEditing.CeilingExactly | src/cli/console.ts:1515-1541 | a paste stops the console exactly when some byte at or past the ceiling is no line ending, and grows the line past the ceiling exactly when the byte at it is one |
| LineEditing.PastedMessageIsDispatched | src/cli/console.ts:1543-1550 | a pasted message that is not stopped is dispatched as it is, unless it is blank |
| LineEditing.EraseRemovesOneCodePoint | src/cli/console.ts:1551-1555 | on a UTF-8 line one erase removes the last code point |
| LineEditing.TypeThenErase | src/cli/console.ts:1543-1567 | typing any text that fits and erasing n times leaves it without its last n code points |
| LineKeys.KeysAreRead | src/cli/console.ts:1464-1567 | any sequence of letters, Enter, Rubout, Escape, function keys and closing keys edits, sends, interrupts and ends as the same keys do on the text itself |
| LineKeys.FunctionKeyIgnored | src/cli/console.ts:1494-1504 | a function key changes nothing, pasting or not |
| LineKeys.EscapeInterrupts | src/cli/console.ts:1467-1493 | an escape that begins no sequence interrupts, once however often it repeats, and the key behind it counts |
| LineKeys.LoneEscapeInterrupts | src/cli/console.ts:1415-1420 | with nothing behind it the deadline interrupts, unless a sequence has begun |
| LineKeys.PastedRubout | src/cli/console.ts:1533-1557 | in a paste Rubout erases below the ceiling and stops the console at it |
| LineKeys.EncodedExactly | src/cli/console.ts:1551-1555 | the bytes of a letter are those of RFC 3629 |
| VersionOrder.CompareSemver | scripts/check-release.ts:45-72 | the loops compute the comparison, NaN included |
| VersionOrder.CompareIsLex | scripts/check-release.ts:45-72 | on every comparable string the comparison is one lexicographic order of keys |
| VersionOrder.CompareIsOrder | scripts/check-release.ts:45-72 | it is total, antisymmetric and transitive there |
| VersionOrder.ShownSplits | scripts/check-release.ts:34-43 | splitting a shown version gives its numbers and identifiers back |
| VersionOrder.CompareRefinesPrecedence | scripts/check-release.ts:53-55 | on valid versions it is the precedence of section 11 of SemVer 2.0.0 |
| VersionOrder.CheckOrder | scripts/check-release.ts:102-143 | the loop finds the first neighbours out of order, if any |
| VersionOrder.AdjacentOrdersAll | scripts/check-release.ts:18-22 | comparing neighbours accepts exactly the changelogs in which every earlier entry is in order with every later one |
| VersionOrder.NotComparableSeparates | scripts/check-release.ts:126 | a heading that lacks a number lets versions that share its numbers before that one pass around it in any order |
| VersionOrder.EveryOddHeadingSeparates | scripts/check-release.ts:126 | for every such heading there are versions that pass around it in the wrong order |
| VersionSyntax.ParsesExactly | scripts/check-version.ts:23-25 | a text is taken for a version exactly when it is three numbers, and behind a dash letters, digits, dots and dashes |
| VersionSyntax.SemverRead | scripts/check-version.ts:25-30 | its numbers are read, and the text behind the first dash up to a second |
| VersionSyntax.OrderExactly | scripts/check-version.ts:33-47 | versions are ordered by the three numbers, then a prerelease before the release, then by the first character in which the prereleases differ |
| VersionClaims.ParsedIsOrder | scripts/check-version.ts:33-47 | the gate's order of parsed versions is total, antisymmetric and transitive |
| VersionClaims.AgreesWithoutPrerelease | scripts/check-version.ts:34-47 | it agrees in sign with the release check on versions without a prerelease |
| VersionClaims.SecondDashIgnored | scripts/check-version.ts:27 | what stands behind a second dash plays no part in it |
| VersionClaims.PrereleaseIsText | scripts/check-version.ts:41-45 | prereleases are compared as texts |
| VersionClaims.ReadOpenClaims | scripts/check-version.ts:178-265 | the loop gives the claims of the listed refs, or the first refusal |
| VersionClaims.ClaimsAreExact | scripts/check-version.ts:224-262 | claims that were read are those of exactly the foreign refs that are no ancestors of the base |
| VersionClaims.NoneSkipped | scripts/check-version.ts:152-177 | no foreign open ref is passed over silently |
| VersionClaims.HighestOpenClaim | scripts/check-version.ts:288-296 | the result is one of the claims, at least every claim that parses, and missing exactly when none parses |
| VersionClaims.GateExactly | scripts/check-version.ts:76-121 | a run passes if and only if it is not on main, its version is valid, above the base's and the title's, git answers, and no ref but its own branch, main, merged work and the alias fails to declare a version or declares this one |
| VersionClaims.AlreadyClaimedExactly | scripts/check-version.ts:298-304 | a refusal as already claimed names exactly the foreign open refs that declare the run's version |
| VersionClaims.PassingIsAbove | scripts/check-version.ts:93-100 | a branch that passes is strictly above the base |
| VersionClaims.Ladder | scripts/check-version.ts:112-120 | branches, open locally or as remote-tracking refs, that all pass on one state of the refs declare pairwise distinct versions, each strictly above the base |
| AdmissionErrors.LabelsAreQuotable | src/provider-admission.ts:116-125 | every label that is accepted is one the formats can carry |
| AdmissionErrors.MessageRoundTrip | src/provider-admission.ts:148-216 | for every label and count a failure's message gives back the failure, and gives nothing to a caller with another label |
| AdmissionErrors.RecoveredExactly | src/provider-admission.ts:191-216 | a text is recovered exactly when it is of one of the two formats and names the caller's label |
| AdmissionErrors.FormatsNeverOverlap | src/provider-admission.ts:180-190 | no text is of both formats |
| AdmissionErrors.MessagesAreDistinct | src/provider-admission.ts:156-174 | different failures have different messages |

## Left out

* Admission: the several clock readings inside one operation are one, `cancel()` and the removal it
  triggers a microtask later are one step, and a queue entry names its token by an index in place of
  the object. Proxies, promises, stream forwarding and the store's files are left out, and so is how a
  limit is recognised in an error. The scope key stands for the SHA-256 digest it is.
* A tombstone is named by no operation: its token has no handle outside the private queue.
* The token state `settled` is declared in the source but never assigned; the model has no such phase.
* Standalone runs: one state machine over all processes, in place of an object with methods, because the
  theorems are about interleavings. The project store is a compare-and-swap register, the session an
  exclusive lease; inspecting a process is exact, and not being able to tell is a refusal. Usage is one
  number; the fields that only report (last recovery, stop request, task and model identity) are left out.
* Credential lock: a state machine for the same reason. Inodes and process ids are not reused and the
  clock does not go back. File permissions, owners, links, directory handling, temporary names and the
  validation of credentials are left out; publication by rename is one step.
* JSON: parsing is a parameter that accepts exactly the grammar of RFC 8259 and returns the tree a text
  denotes. Duplicate member names and number precision play no part. Texts are sequences of Unicode
  characters, without the lone surrogates a JavaScript string may hold.
* Session limits: costs are exact reals, and the wrapped model methods are left out but for the order
  reserve, call, settle.
* Console: rendering, what becomes of a queued line, the size check of a whole message at the end of input
  and input that is not a terminal are left out. Which lines end the console is a parameter.
* Versions: numbers are unbounded where JavaScript's lose precision above 2^53. Reading the files, the
  release heading of the package version, the text of a title and the messages are left out; git's
  answers are inputs.
* Admission failures: a count is the length of a queue, so JavaScript writes and reads all its digits.
