# Verified model of the MyCFCoimbra core

A Dafny 4.11 model of the parts of the MyCFCoimbra repository whose correctness rests on an argument rather than on one
branch: canonical forms of Terraform data, member classification with an audit log and dated intervals, a
preview-and-confirm protocol, a one-time destructive release, the migration ledger, event seats under a row lock, an
email outbox with several workers, a bounded capture, a plan gate, calendar arithmetic and a small text codec.
`dafny verify dfyconfig.toml` checks everything.

| file | models |
|---|---|
| `Text.dfy`, `Sorting.dfy`, `CivilDates.dfy` | code-point order, separators, numerals; stable sorting and unique sorted rearrangements; Gregorian days and their text |
| `Json.dfy`, `PlanNormalization.dfy`, `PlanVariation.dfy` | the canonical printer with a reader that inverts it; the normalisation of plans before they are digested; what it does to the texts, and the documents of the two roles |
| `StateUntaint.dfy`, `StateRepair.dfy` | the comparison that accepts a state repair; the states that pass it, field by field |
| `SportAssignments.dfy` | corrections of modalities and crafts, their audit events and versions |
| `DatedParticipation.dfy`, `TransitionPreview.dfy` | dated intervals and next-day transitions; the preview that looks for the interval to close |
| `ConfirmationTokens.dfy`, `ConfirmationProtocol.dfy` | signed expiring tokens; preview, confirm, optimistic version, commit |
| `ReleaseProtocol.dfy`, `ReleaseConditions.dfy` | preflight, fence, replacement, retry, fresh initialisation, and what may migrate; the exact conditions in stored fields |
| `MigrationLedger.dfy` | three start states, marking, pending scripts, commit or rollback |
| `EventSeats.dfy`, `Audiences.dfy` | answers, confirmations and check-ins as interleaved transactions; the audience of an event |
| `EmailOutbox.dfy` | claims, sends, guarded updates, backoff, expiry, draining |
| `BoundedCapture.dfy` | the streaming truncator |
| `BootstrapPolicy.dfy`, `BootstrapPlan.dfy` | the pass over a plan's resource changes; the plans it accepts, entry by entry |
| `CalendarGrid.dfy`, `Announcements.dfy` | the month grid and the leaderboard windows; the document header and its parser |

How it is built. Values are datatypes and expressions are functions; tables and streams that the code changes are fields
of classes (`Service`, `Handler`, `Server`, `Database`, `Store`, `Outbox`, `BoundedStream`), and every loop of the code
is a loop in a method that is proved against a specification function or predicate. The theorems are about those
specifications: over every run, every interleaving, every chunking or every input. Runs are sequences of steps of a total
machine, so a theorem about `After(start, run)` for an arbitrary `run` covers crashes, retries and concurrent actors. Each
decision is also stated a second time in stored fields and literal texts, without the functions that make it.
SHA-256 and HMAC are ideal: hashes are injective, and a token verifies only if its payload was signed. Clocks,
identifiers, failures of statements and verdicts of code that is not modelled are inputs.

Five promises turned out to hold only under a condition; each has a concrete failing input and an exact condition.

* Nothing is sent after completion or failure: exactly when no delivery outlasts the five minutes of a stale claim
  (`EmailOutbox.NoSendAfterEndIff`; failing runs: `EmailOutbox.SlowDelivery`).
* An announcement comes back as submitted: a form without a document exactly unless its body starts with a well-formed
  header, a form with one exactly when its URL is valid and its URL, source and date are single lines that are not empty;
  the source is only checked for its length, so it may have several lines (`Announcements.RoundTripIff`; failing inputs:
  `Announcements.BodyMayForgeADocument`, `Announcements.LineBreakLosesTheDocument`).
* What the preview accepts, the transaction closes: only in the submitted season (`TransitionPreview.GuardIffPreview`;
  failing input: `TransitionPreview.PreviewAloneIsNotEnough`).
* A database whose ledger has gone beyond the predecessor is never replaced again: exactly unless a release stands between
  its second preflight and its commit, since migrations take another lock (`ReleaseProtocol.SealedForeverIff`; failing run:
  `ReleaseProtocol.SealedTooLate`). What is written after a replacement always survives (`ReleaseProtocol.WritesSurvive`).
* The predecessor role cannot log in on a replaced schema: in every run, exactly unless a role bootstrap that reaches its
  name was carried out after the last fence (`ReleaseProtocol.PredecessorStaysOut`). An unstamped binary can do that after
  the replacement and, since role bootstraps do not take the release lock, also between the fence and the replacement
  (failing runs: `ReleaseProtocol.OpenedAfterReplacement`, `ReleaseProtocol.OpenedBeforeReplacement`).

Two further observations: the early exit of the baseline marking is right exactly for listings that are unbroken at the
cutoff, and files are listed by name, which is version order only while versions avoid characters up to the dot
(`MigrationLedger.BreakIsRightIff`, `MigrationLedger.FileOrderIsNotAlwaysVersionOrder`); and answering Going again keeps
a seat but clears a registered presence (`EventSeats.AnsweringAgainUndoesCheckIn`).

## Model

| member | source | states |
|---|---|---|
| `Json.PrintInjective` | `scripts/terraform-plan-hmac.py:38-56` | The canonical printer is injective over all nested values: equal output means equal values, numbers by lexeme, objects as key-to-value maps. |
| `Json.ReadPrinted` | `scripts/terraform-plan-hmac.py:38-56` | A reader of the JSON grammar inverts the printer on every well-formed value, whatever text follows that does not continue a number. |
| `Json.SortedKeysAscend` | `scripts/terraform-plan-hmac.py:52-55` | The keys of an object are printed in strictly ascending order, each once, for any set of keys. |
| `Json.PrintLeqIsStrict` | `scripts/terraform-plan-hmac.py:147` | Ordering values by their printed form is strict on distinct values, so the sorted list is unique. |
| `Json.PlainText` | `scripts/terraform-plan-hmac.py:46-47` | Text without quotation marks, backslashes and control characters is printed as it is, in whatever script. |
| `Sorting.SortSorts` | `scripts/terraform-plan-hmac.py:147-152` | The stable sort yields a sorted rearrangement for every total preorder. |
| `Sorting.SortCanonical` | `scripts/terraform-plan-hmac.py:147-152` | Two lists sort to the same list exactly when they are rearrangements of each other, when the order is strict on them. |
| `Sorting.MatchesIffSameNormalForms` | `scripts/terraform-plan-hmac.py:142-152` | Normalising each element and comparing as multisets agrees with a pairing of equivalent elements in some order. |
| `PlanNormalization.MatchArnComplete` | `scripts/terraform-plan-hmac.py:14-17` | The scanner finds the partition, account and session of every plan or apply role ARN, whatever the session contains. |
| `PlanNormalization.IdentityIff` | `scripts/terraform-plan-hmac.py:79-97` | Two identities normalise alike exactly when they differ only in the plan or apply role and the role part of the user id. |
| `PlanNormalization.LookupIff` | `scripts/terraform-plan-hmac.py:127-134` | Two zone lookups normalise alike exactly when they differ only in the permissions of zones. |
| `PlanNormalization.RecordIff` | `scripts/terraform-plan-hmac.py:59-134` | Two records normalise alike exactly when they are equal up to the identity and zone variations at the verified positions. |
| `PlanNormalization.ModuleIff` | `scripts/terraform-plan-hmac.py:137-152` | Two modules normalise alike exactly when they are equivalent up to order of resources and child modules at every depth. |
| `PlanNormalization.PlanIff` | `scripts/terraform-plan-hmac.py:155-186` | Two plans have the same normal form exactly when they differ only in the stated variations; inputs must not already carry the marker text. |
| `PlanNormalization.NormModuleIdempotent` | `scripts/terraform-plan-hmac.py:137-152` | Normalising a module twice is normalising it once. |
| `PlanNormalization.NormPlanIdempotent` | `scripts/terraform-plan-hmac.py:155-186` | Normalising a plan twice is normalising it once, on all well-formed plans. |
| `PlanNormalization.DigestIff` | `scripts/terraform-plan-hmac.py:189-190` | With an ideal keyed hash, two digests agree exactly for the same backend and equivalent plans. |
| `PlanNormalization.MarkerCollision` | `scripts/terraform-plan-hmac.py:86-90` | Without the marker assumption the digest equates too much: for every role ARN, an ARN that already carries the marker collides with it. |
| `PlanVariation.RoleArnIff` | `scripts/terraform-plan-hmac.py:14-17` | The scan returns three parts exactly for the ARNs, written out character by character, of the plan role or the apply role with those parts. |
| `PlanVariation.UserSuffixIff` | `scripts/terraform-plan-hmac.py:18` | A user id has a suffix exactly when it is a role id of capitals and digits, a colon, and that suffix on one line. |
| `PlanVariation.RoleIdentity` | `scripts/terraform-plan-hmac.py:79-97` | An identity of either role, whatever its other entries, becomes the one with the marked ARN text and, for a user id of the role, the marker and the suffix. |
| `PlanVariation.OtherUserKept` | `scripts/terraform-plan-hmac.py:91-97` | With any other user id, or none, only the ARN changes. |
| `PlanVariation.OtherIdentityKept` | `scripts/terraform-plan-hmac.py:79-85` | An identity with any other ARN, or none, is left as it is. |
| `PlanVariation.RecordForm` | `scripts/terraform-plan-hmac.py:59-134` | Caller and zone records are recognised by four texts, and normalised at the named entries and phases and nowhere else; no other record changes. |
| `PlanVariation.PlanAndApplyAgree` | `scripts/terraform-plan-hmac.py:155-186` | The documents of the plan role and of the apply role for one session, in Terraform's own texts, each with its own user id, zone permissions and time, and with caller and zone records in every collection and in a child module, have the same normal form. |
| `PlanNormalization.NormalizeResources` | `scripts/terraform-plan-hmac.py:140-147` | The loop over resources followed by the sort computes the specified list. |
| `PlanNormalization.NormalizeModule` | `scripts/terraform-plan-hmac.py:137-152` | The recursive procedure computes the specified module. |
| `PlanNormalization.NormalizeChildren` | `scripts/terraform-plan-hmac.py:148-152` | The loop over child modules followed by the sort computes the specified list. |
| `StateUntaint.CanonicalIff` | `scripts/terraform-v2-exact-untaint.py:116-157` | Two states with valid check identities have the same canonical form exactly when they differ only in the order of checks and of objects within a check. |
| `StateUntaint.SurroundingsAfterChange` | `scripts/terraform-v2-exact-untaint.py:77-101` | Editing only the status of the target leaves every other identity requirement as it was. |
| `StateUntaint.AcceptsSound` | `scripts/terraform-v2-exact-untaint.py:165-178` | An accepted pair differs only by serial plus one and the cleared taint. |
| `StateUntaint.AcceptsIff` | `scripts/terraform-v2-exact-untaint.py:165-178` | The comparison accepts exactly the pairs in which the first state is identified as tainted and the second is the first with serial plus one and the taint cleared, up to order. |
| `StateUntaint.ObjectsAreOk` | `scripts/terraform-v2-exact-untaint.py:143-149` | The loop with its set of seen addresses accepts exactly the lists of well-shaped objects with distinct addresses. |
| `StateUntaint.CanonicalizeCheck` | `scripts/terraform-v2-exact-untaint.py:130-150` | One check is refused exactly when malformed, and otherwise returned with its objects sorted. |
| `StateUntaint.CanonicalizeChecks` | `scripts/terraform-v2-exact-untaint.py:129-151` | The loop refuses exactly the lists with a malformed check or a repeated identity, and otherwise sorts. |
| `StateUntaint.CanonicalizeState` | `scripts/terraform-v2-exact-untaint.py:116-152` | The procedure computes the canonical state, or refuses exactly when the check results are malformed. |
| `StateUntaint.SameCanonicalBytes` | `scripts/terraform-v2-exact-untaint.py:168-178` | The two edited copies are compared in canonical form. |
| `StateUntaint.CompareSteps` | `scripts/terraform-v2-exact-untaint.py:165-178` | The steps of the comparison return exactly when the specified acceptance holds. |
| `StateUntaint.Compare` | `scripts/terraform-v2-exact-untaint.py:165-178` | The procedure accepts exactly the states in which only the taint was removed. |
| `StateRepair.IdentityCheckIff` | `scripts/terraform-v2-exact-untaint.py:72-102` | A state passes the identity check with a serial exactly when it has every required field, each written out, and none of the three forbidden resources. |
| `StateRepair.AcceptedFields` | `scripts/terraform-v2-exact-untaint.py:165-167` | In an accepted pair both states have all these fields, and the serial goes up by one. |
| `StateRepair.ChecksShapeIff` | `scripts/terraform-v2-exact-untaint.py:129-151` | Check results are not refused exactly when they have the written-out shape and no identity occurs twice. |
| `StateRepair.StateRequired` | `scripts/terraform-v2-exact-untaint.py:72-102` | A state built from a serial, a lineage, a suffix, a version id, other resources and check results has every required field. |
| `StateRepair.RepairAcceptedIff` | `scripts/terraform-v2-exact-untaint.py:165-178` | For every such tainted state the guard accepts exactly the state with the next serial and the taint gone or replaced by the ready mark, up to order. |
| `StateRepair.RepairIsAccepted` | `scripts/terraform-v2-exact-untaint.py:165-178` | In particular it accepts that state, with or without the ready mark, for every order of the check results. |
| `SportAssignments.ChangesReachTarget` | `internal/db/sport_assignment_service.go:181-242` | Playing the removals, cascaded removals and additions of a correction is coherent at every event and ends in the requested sets. |
| `SportAssignments.CommittedReplaces` | `internal/db/sport_assignment_service.go:54-244` | A committed correction reaches the requested sets and logs exactly the events that lead there. |
| `SportAssignments.OutcomeIff` | `internal/db/sport_assignment_service.go:54-155` | Every outcome, written out: complete input with codes of its kind, an active actor who is administrator or holds a grant, an eligible member, the current version, and CANOEING under crafts. |
| `SportAssignments.CommittedSets` | `internal/db/sport_assignment_service.go:180-242` | After a commit the axis holds exactly the submitted codes, crafts are gone without CANOEING, and no other member is touched. |
| `SportAssignments.CommittedEvents` | `internal/db/sport_assignment_service.go:175-179` | The log grows by one event for each change, with the operation, the member, the actor, the trimmed reason, and the grant only of an actor who needed one. |
| `SportAssignments.ChangesAreOrdered` | `internal/db/sport_assignment_service.go:180-242` | Lost crafts are removed first, then codes are removed, then added, each group in code order. |
| `SportAssignments.RunsAreSound` | `internal/db/sport_assignment_service.go:54-244` | Over every run from empty tables, replaying a member's events gives exactly the current modality and craft sets. |
| `SportAssignments.EveryPrefixCoherent` | `internal/db/sport_assignment_service.go:180-208` | Every prefix of every log satisfies: any craft implies CANOEING. |
| `SportAssignments.ActionsAlternate` | `internal/db/sport_assignment_service.go:176-179` | ADDED and REMOVED alternate per code in every reachable log. |
| `SportAssignments.FirstIsAddition` | `internal/db/sport_assignment_service.go:176-179` | The first event about a code in a good log is an addition. |
| `SportAssignments.VersionNeverReturns` | `internal/db/classification_version.go:18-25` | A version read before an effective correction is never the current version again, even after the change is reversed. |
| `SportAssignments.OldVersionIsStale` | `internal/db/sport_assignment_service.go:136-144` | A correction carrying such a version is refused and changes nothing. |
| `SportAssignments.NoChangesIff` | `internal/db/sport_assignment_service.go:209-219` | A correction logs nothing exactly when the sets already are as requested. |
| `SportAssignments.CodeOrderIrrelevant` | `internal/db/sport_assignment_service.go:72-78` | The order of the submitted codes does not influence tables, events or outcome. |
| `SportAssignments.Service.Missing` | `internal/db/sport_assignment_service.go:209-221` | Collecting codes in any map order and sorting gives the same list. |
| `SportAssignments.Service.Logged` | `internal/db/sport_assignment_service.go:176-179` | One row change and its event, exactly when two statements succeed. |
| `SportAssignments.Service.ChangeInOrder` | `internal/db/sport_assignment_service.go:222-242` | The loop applies and logs the sorted codes one by one, exactly when the statements for all of them succeed. |
| `SportAssignments.Service.Correct` | `internal/db/sport_assignment_service.go:180-242` | Cascade, removals and additions apply exactly the changes of the specification, exactly when their statements succeed. |
| `SportAssignments.Service.Replace` | `internal/db/sport_assignment_service.go:54-244` | The transaction commits the whole specified correction, and fails exactly when a statement of an admitted one fails, leaving the tables as they were. |
| `CivilDates.OrdinalOrder` | `internal/db/dated_participation_service.go:95-99` | Day numbers order Gregorian dates with leap years and determine them. |
| `CivilDates.NextDayOrdinal` | `internal/db/dated_participation_service.go:95` | Adding one day to a date is the next day number, across months and years. |
| `CivilDates.FormatOrder` | `internal/handlers/classification.go:383-403` | Comparing zero-padded YYYY-MM-DD texts compares the dates. |
| `CivilDates.DayTextOrdered` | `internal/handlers/classification_confirmation.go:106` | The same on day numbers, for all days with a four-digit year. |
| `CivilDates.GregorianCycle` | `internal/db/dated_participation_service.go:95` | Day numbers repeat after 400 years, a whole number of weeks, and put the first of January 1970 on a Thursday. |
| `CivilDates.YearsInDays` | `internal/db/dated_participation_service.go:95` | The days before a year are 365 for each year and one for each leap year, counted by fours, centuries and fours of centuries. |
| `DatedParticipation.RunsAreExclusive` | `internal/db/dated_participation_service.go:81-202` | Over every run from an empty table, no two intervals of a member share a day. |
| `DatedParticipation.OneIntervalPerDay` | `internal/db/schema.sql:228` | The exclusion constraint means at most one interval of a member on any day. |
| `DatedParticipation.WriteKeeps` | `internal/db/dated_participation_service.go:167-201` | A write keeps exclusivity and proper intervals. |
| `DatedParticipation.WriteKeepsHistory` | `internal/db/dated_participation_service.go:167-201` | A write alters no participation on a day up to today and adds none before today. |
| `DatedParticipation.RunKeepsHistory` | `internal/db/dated_participation_service.go:81-202` | With a clock that never goes back, no run alters the participations up to today. |
| `DatedParticipation.HeldForever` | `internal/db/dated_participation_service.go:71-75` | A participation held on a day not in the future is held by the same row, and no other, after every later run. |
| `DatedParticipation.TransitionIsSeamless` | `internal/db/dated_participation_service.go:71-75` | After a transition the old row alone covers today and the new row alone covers tomorrow. |
| `DatedParticipation.GateIff` | `internal/db/dated_participation_service.go:81-166` | The window, authority and version errors, written out, in the order in which they are checked. |
| `DatedParticipation.CommitsIff` | `internal/db/dated_participation_service.go:81-202` | A write commits exactly when it is timely, authorised, up to date, closes an interval that goes on, stays in the season, and takes no day of another interval; else nothing changes. |
| `DatedParticipation.CommittedRows` | `internal/db/dated_participation_service.go:167-201` | After a commit there is the new row with its member, season, programme, category, team, days and exception, the closed row, and every other row as it was. |
| `DatedParticipation.Service.Close` | `internal/db/dated_participation_service.go:167-177` | The guarded update closes the one matching row or reports why not. |
| `DatedParticipation.Service.Insert` | `internal/db/dated_participation_service.go:178-197` | The insert succeeds exactly when no constraint objects. |
| `DatedParticipation.Service.Write` | `internal/db/dated_participation_service.go:81-202` | The transaction commits both changes of the specification, or leaves the table as it was, wherever it fails, an overlapping insert included. |
| `ConfirmationTokens.SignVerify` | `internal/handlers/classification_confirmation.go:35-57` | A signed token verifies exactly for its own binding and exactly from its issue second until 900 seconds later. |
| `ConfirmationTokens.VerifiedPayload` | `internal/handlers/classification_confirmation.go:41-57` | An accepted token carries the binding asked for, an expiry in the window and the authentication of its own first three fields. |
| `ConfirmationTokens.ParseFormatted` | `internal/handlers/classification_confirmation.go:46` | Parsing a formatted 64-bit integer returns it. |
| `ConfirmationTokens.PayloadFields` | `internal/handlers/classification_confirmation.go:36` | A payload of dot-free fields determines them. |
| `TransitionPreview.DatedPreview` | `internal/handlers/classification_confirmation.go:97-129` | The loop over the view finds a closable row, a cross-programme refusal, or reports that there is none. |
| `TransitionPreview.FoundInView` | `internal/handlers/classification_confirmation.go:106` | Its text comparisons are the day comparisons of the guard. |
| `TransitionPreview.GuardIffPreview` | `internal/db/dated_participation_service.go:168-176` | For an authorised actor the guard closes the row exactly when the preview of the same state accepts and the row is in the submitted season. |
| `TransitionPreview.ClosableIsPreviewed` | `internal/handlers/classification_confirmation.go:103-128` | Whatever the guard would close, the preview finds. |
| `TransitionPreview.PreviewedIsClosable` | `internal/handlers/classification_confirmation.go:103-128` | What the preview accepts, the guard closes if the season is the submitted one. |
| `TransitionPreview.PreviewedIff` | `internal/handlers/classification_confirmation.go:97-129` | The preview accepts exactly an interval of the member begun before today and not over tomorrow; for a coach also in the submitted programme, granted, and in a current season. |
| `TransitionPreview.PreviewAloneIsNotEnough` | `internal/db/dated_participation_service.go:168-176` | Without the season the preview may accept what the guard refuses: for every day, a storable row and a transition into another current season that ends with the transition error. |
| `ConfirmationProtocol.CommitsArePreviewed` | `internal/handlers/classification.go:554-603` | In every run, each committed write has the actor, member and values of a preview issued less than 900 seconds before its check, made on the same data as the committing transaction sees; the row has exactly the exception that was previewed. |
| `ConfirmationProtocol.StepKeeps` | `internal/handlers/classification.go:554-603` | Each preview, check, write and foreign change keeps that. |
| `ConfirmationProtocol.CheckedHasPreview` | `internal/handlers/classification.go:585-592` | An unforged token that passes the check goes back to a preview of the same request. |
| `ConfirmationProtocol.CommittedOnExpected` | `internal/db/dated_participation_service.go:140-148` | A committed write was made on data with the expected version. |
| `ConfirmationProtocol.CheckPassesIff` | `internal/handlers/classification.go:585-592` | The preview's own token passes exactly while it is fresh and the data is unchanged. |
| `ConfirmationProtocol.Handler.PostPreview` | `internal/handlers/classification.go:556-584` | A token is handed out exactly when both version reads agree. |
| `ConfirmationProtocol.Handler.PostConfirm` | `internal/handlers/classification.go:585-602` | A confirmation is admitted exactly when the token verifies and its version is current. |
| `ConfirmationProtocol.Handler.WriteAdmitted` | `internal/handlers/classification.go:602-603` | The admitted confirmation runs the dated transaction with the expected version. |
| `ReleaseProtocol.SealedForever` | `internal/db/disposable_release.go:78-89` | Once the ledger holds a version the predecessor lacks and no release stands between its second preflight and its commit, no sequence of runs, crashes, retries, role bootstraps, migrations, fresh initialisations or losses of the completion record, by whatever binaries, replaces the database again, and everything written survives. |
| `ReleaseProtocol.SealedForeverIff` | `internal/db/disposable_release.go:85-112` | The exception is exact: some continuation still replaces a sealed database precisely while a release stands between its second preflight and its commit and its new schema passes the contract. |
| `ReleaseProtocol.SealedTooLate` | `internal/db/bootstrap.go:562-564` | Failing input: a migration, which takes another lock, commits after the second preflight of any release that is going to replace; the database is sealed, and the next statement replaces it all the same, losing what it held. |
| `ReleaseProtocol.WritesSurvive` | `internal/db/disposable_release.go:72-77` | No release is ever due on a replaced database: in every run, everything written after the replacement survives every later run, and the database stays sealed and is not replaced again. |
| `ReleaseProtocol.ReplacedAtMostOnce` | `internal/db/disposable_release.go:28-196` | From a database never replaced, the destructive replacement commits at most once in every run, whatever binaries run beside it, and a replaced database is sealed. |
| `ReleaseProtocol.StepKeepsSeal` | `internal/db/disposable_release.go:198-239` | Step by step: with no release between its second preflight and its commit, a sealed database stays sealed, keeps its data, is not replaced, and no release gets there. |
| `ReleaseProtocol.EntitlementSeals` | `cmd/server/main.go:231-248` | A matching completion, a matching fresh receipt and the right to migrate each imply a sealed database; a database ready for replacement is not sealed. |
| `ReleaseProtocol.FreshInitialisation` | `internal/db/fresh_init.go:20-82` | A fresh initialisation seals from its migration on, entitles its binary exactly once the receipt row exists, and never runs twice. |
| `ReleaseProtocol.PredecessorStaysOut` | `internal/db/disposable_release.go:64-71` | In every state of every run, the predecessor role can log in on a replaced database exactly when a role bootstrap opened it again after the last fence. |
| `ReleaseProtocol.OpenedIff` | `cmd/server/main.go:250-264` | That is: some role bootstrap was carried out, reached the predecessor name, and no fence followed it. |
| `ReleaseProtocol.PredecessorWritesIff` | `internal/db/disposable_release.go:21-25` | In every run, a predecessor write reaches a replaced database exactly when the predecessor connected through such an opening and is still inside. |
| `ReleaseProtocol.FenceOpensIff` | `cmd/server/main.go:250-264` | Step by step, from any state with a ledger: the role can log in afterwards exactly after an opening, or when it could before and the step is no fence; without a protected receipt only an unstamped binary opens. |
| `ReleaseProtocol.OpenedAfterReplacement` | `cmd/server/main.go:251-253` | Failing input: after any replacement, an unstamped role bootstrap naming the predecessor lets it log in, connect and write. |
| `ReleaseProtocol.OpenedBeforeReplacement` | `internal/db/disposable_release.go:66-96` | Failing input: the same bootstrap between the terminations and the replacement, which it is not excluded from, has the same effect. |
| `ReleaseProtocol.ConcreteRelease` | `internal/db/disposable_release.go:198-239` | A concrete predecessor database, release and development binary that meet the assumptions of the failing runs. |
| `ReleaseProtocol.StopLeavesOnlyTheFence` | `internal/db/disposable_release.go:49-96` | Stopped after any statement before its commit, the release leaves the database as it was but for the fence, from the third statement on, and the ended sessions, from the fourth. |
| `ReleaseProtocol.ReplacementKeepsAdmins` | `internal/db/disposable_release.go:96-112` | A committed replacement keeps exactly the active, independent administrators whose eighteenth birthday has come, unchanged, at least one of them verified, and is recognised as complete. |
| `ReleaseProtocol.CommitsIff` | `internal/db/disposable_release.go:99-112` | A replacement that passed the second preflight commits exactly when the new schema is accepted, every active adult administrator has an address and a bcrypt password, and one of them is verified. |
| `ReleaseProtocol.ReplacementEntitles` | `internal/db/disposable_release.go:179-191` | After a committed replacement its own binary may migrate exactly unless a receipt that does not fit is in the way, and after a loss of the completion record only under a matching receipt. |
| `ReleaseProtocol.ReplacementFrame` | `internal/db/disposable_release.go:122-125` | The role statements inside the replacement leave the predecessor role alone, because the login names were checked twice. |
| `ReleaseProtocol.RetryConverges` | `internal/db/disposable_release.go:64-96` | Stopped after any statement and run again, the release leaves the database that one uninterrupted run leaves. |
| `ReleaseProtocol.FenceIsInvisible` | `internal/db/disposable_release.go:198-239` | Neither preflight nor the administrator check depends on the fence. |
| `ReleaseProtocol.Server.FreshInitializationMatches` | `internal/db/fresh_init.go:87-139` | The stepwise inspection computes the specified verdict. |
| `ReleaseProtocol.Server.RequireDisposableCompletion` | `cmd/server/main.go:231-248` | The decision chain proceeds exactly as specified, and for a stamped binary only on a sealed database. |
| `ReleaseProtocol.Server.BootstrapDisposableRelease` | `internal/db/disposable_release.go:28-196` | The sequential program leaves the database as the machine does when stopped after the last statement reached; it succeeds exactly under the stated conditions and then the fence holds. |
| `ReleaseProtocol.Server.ReplacementTransaction` | `internal/db/disposable_release.go:96-196` | The statements from the table lock to the commit, run one by one on a copy, commit the replacement exactly when the new schema is valid, every active adult administrator has an address and a bcrypt password, and one is verified; then exactly those administrators remain. |
| `ReleaseConditions.ReleaseReplacesIff` | `internal/db/disposable_release.go:28-196` | The uninterrupted release replaces a database exactly under the written-out conditions on binary, run, credentials, database and administrators, once, and keeps exactly the active adult administrators. |
| `ReleaseConditions.ReadyIff` | `internal/db/disposable_release.go:198-239` | Preflight finds a database ready exactly when it is the predecessor as it was left. |
| `ReleaseConditions.BoundIff` | `internal/db/disposable_release.go:28-48` | The binding checks pass exactly for the stamped binary's own run, with logins that neither share a name nor take one of the two web role names. |
| `ReleaseConditions.FreshIff` | `internal/db/fresh_init.go:87-139` | A fresh receipt lets a run through exactly if its one protected row is the run's own or the genesis release's. |
| `ReleaseConditions.StampedMigratesIff` | `cmd/server/main.go:231-248` | A stamped binary may migrate exactly on its own run, with such a receipt, or without any and with one completion row of this very release. |
| `ReleaseConditions.MigrationIsEntitled` | `cmd/server/main.go:231-248` | At any moment of any release a migration by a stamped binary without that changes nothing. |
| `ReleaseConditions.BootstrapIsEntitled` | `cmd/server/main.go:250-264` | Nor does a role bootstrap by a stamped binary without such a receipt. |
| `ReleaseConditions.InitialisationIsFresh` | `internal/db/fresh_init.go:20-52` | A fresh initialisation starts only on an empty database, for the superuser, with every login named. |
| `MigrationLedger.LedgerAfter` | `internal/db/bootstrap.go:555-613` | From a marked, legacy unmarked or empty start, a successful run makes the ledger the old one plus the marker plus every embedded version. |
| `MigrationLedger.RunsInOrder` | `internal/db/bootstrap.go:714-740` | A run executes scripts the ledger did not hold, each once, ascending when the listing ascends. |
| `MigrationLedger.CommitsSoundly` | `internal/db/bootstrap.go:555-628` | A run commits only from a marked, an unmarked complete, or an empty start given the baseline through the cutoff; the logged scripts lead from there to the committed schema, which passed role boundary and postcondition. |
| `MigrationLedger.SecondRunIsIdle` | `internal/db/bootstrap.go:714-740` | A second run of the same binary executes and changes nothing. |
| `MigrationLedger.NoScriptTwice` | `internal/db/bootstrap.go:555-613` | Over every sequence of starts, failures and crashes, of any binaries, no script is executed twice. |
| `MigrationLedger.BreakIsRightIff` | `internal/db/bootstrap.go:684-693` | Stopping at the first version above the cutoff records the versions through the cutoff exactly when none of them comes later in the listing. |
| `MigrationLedger.AscendingIsUnbroken` | `internal/db/bootstrap.go:684-693` | An ascending listing is of that kind. |
| `MigrationLedger.FileOrderIsVersionOrder` | `internal/db/bootstrap.go:679-685` | Files are listed by name; that is version order when versions only use characters after the dot. |
| `MigrationLedger.FileOrderIsNotAlwaysVersionOrder` | `internal/db/bootstrap.go:742-745` | Otherwise it need not be: a concrete pair of names. |
| `MigrationLedger.VersionOfFileName` | `internal/db/bootstrap.go:742-745` | The version of a migration file name is the name without directory and extension. |
| `MigrationLedger.FreshAndUpgradedConverge` | `internal/db/bootstrap.go:555-613` | When the baseline equals the scripts through the cutoff, a fresh database and one upgraded from any consistent point, marked or not, end with the same schema and ledger, and succeed together. |
| `MigrationLedger.RecordBaselineMigrations` | `internal/db/bootstrap.go:678-698` | The marking loop with its early exit records the leading versions and requires the cutoff among them. |
| `MigrationLedger.ApplyIncrementalMigrations` | `internal/db/bootstrap.go:714-740` | The script loop runs the pending scripts in order, or fails exactly when one of them does. |
| `MigrationLedger.Database.ApplyBaseline` | `internal/db/bootstrap.go:555-628` | The transaction commits the specified result or leaves ledger, schema and log as they were. |
| `EventSeats.SeatsNeverExceedCapacity` | `internal/handlers/events.go:520-558` | From any table within capacity, over every interleaving of answers, confirmations, check-ins, erasures, cancellations and failures, seats never exceed the capacity. |
| `EventSeats.StepKeeps` | `internal/handlers/events.go:520-558` | Each statement of each transaction keeps the invariant of the row lock and the reserved seat. |
| `EventSeats.WhoGivesASeat` | `internal/handlers/events.go:614-647` | A step that gives a member a seat is the commit of that member's own Going answer or of a confirmation while waitlisted. |
| `EventSeats.WhoTakesASeat` | `internal/handlers/events.go:540-556` | A seat is lost only by the member's own refusal or by erasure, so never by answering Going again. |
| `EventSeats.WaitlistedOnlyWhenFull` | `internal/handlers/events.go:547-557` | In every run, erasures included, a transaction that puts its member on the waitlist has counted a full event under the lock that it has held ever since. |
| `EventSeats.CommitsAreAtomic` | `internal/handlers/events.go:520-558` | While no row is erased, each commit writes exactly what the whole request would write alone on the table it commits to. |
| `EventSeats.CommitWrites` | `internal/handlers/events.go:520-558` | In every run without erasures each commit writes one row: a Going answer gets a seat exactly when the member has one, the capacity is open or a seat is free, else the waitlist; a confirmation and a check-in their rows. |
| `EventSeats.CommitsAreAdmitted` | `internal/handlers/events.go:520-539` | In every run, what a transaction decides, writes or commits was permitted under the lock, and neither too late nor too early. |
| `EventSeats.CancelledIsFinal` | `internal/db/queries/events.sql:178-180` | After a cancellation no answer, confirmation or check-in is committed any more. |
| `EventSeats.CancelEnds` | `internal/db/queries/events.sql:178-180` | A cancellation takes effect exactly while no transaction holds the lock. |
| `EventSeats.StepKeepsSerial` | `internal/handlers/events.go:520-558` | What the holder of the lock has read stays current, step by step. |
| `EventSeats.AnsweringAgainUndoesCheckIn` | `internal/db/queries/events.sql:212-217` | Answering Going again keeps the seat and clears the registered presence. |
| `EventSeats.Store.Respond` | `internal/handlers/events.go:520-558` | Each outcome written out; a committed Going answer gets a seat exactly when the member has one, the capacity is open or a seat is free, else the waitlist, with actor and time; otherwise nothing changes. |
| `EventSeats.Store.StaffAction` | `internal/handlers/events.go:585-659` | A confirmation commits exactly for a waitlisted member while a seat is free, a check-in exactly for a seat holder not yet checked in once the event has begun; the row is written out, otherwise nothing changes. |
| `Audiences.Selected` | `internal/handlers/events.go:754-773` | The form loop keeps exactly the well-formed values, once each, and counts every other one as an error. |
| `Audiences.SameIds` | `internal/handlers/events.go:988-1002` | The comparison returns equality of lengths and inclusion of the right elements in the left. |
| `Audiences.SameAudience` | `internal/handlers/events.go:225-234` | Under the primary key of the stored audience, the check of an update decides exactly whether the well-formed submitted identifiers are the stored set. |
| `Audiences.SameIdsMeansSetEquality` | `internal/handlers/events.go:988-1002` | On a de-duplicated right side the comparison is set equality and absence of repetition on the left. |
| `Audiences.RepetitionFoolsSameIds` | `internal/handlers/events.go:988-1002` | On its own the comparison needs both sides free of repetition: one failing input for each side, neither of which reaches it. |
| `EmailOutbox.RetryDelay` | `internal/emailverification/worker.go:192-201` | The doubling loop returns min(3600, 30 * 2^(n-1)) seconds for every attempt n from 1, and 30 below. |
| `EmailOutbox.DelayAscends` | `internal/emailverification/worker.go:192-201` | The delay never decreases with the attempt. |
| `EmailOutbox.BudgetBound` | `internal/emailverification/worker.go:158-175` | Any set of rescheduled attempts costs at most 11010 seconds in all. |
| `EmailOutbox.BackoffAndExpiry` | `internal/emailverification/worker.go:149-183` | In every run with overlapping, slow or crashing workers: no token message is put back at or after its expiry, no attempt is put back twice, and the backoff of a message stays within 11010 seconds. |
| `EmailOutbox.StepKeepsBooks` | `internal/db/queries/email_verification.sql:87-97` | Each claim, send, guarded update, crash and cancellation keeps that account. |
| `EmailOutbox.NoSendAfterEndIff` | `internal/emailverification/worker.go:18-22` | No message is sent after it was completed or failed, for any number of workers, exactly when no delivery outlasts the five minutes after which a claim is stale. |
| `EmailOutbox.StepKeepsOwned` | `internal/db/queries/email_token_outbox.sql:4-31` | While deliveries are that fast, a claim that is not stale owns its message. |
| `EmailOutbox.SlowDelivery` | `internal/emailverification/worker.go:99-157` | For every longer bound, a run with two workers that sends after completion. |
| `EmailOutbox.Outbox.ClaimNext` | `internal/db/queries/email_token_outbox.sql:4-22` | The claim takes the first candidate in query order that is due or was claimed more than five minutes ago and has not expired, counts the attempt, or takes nothing when there is none. |
| `EmailOutbox.Outbox.Deliver` | `internal/emailverification/worker.go:99-184` | After a delivery a message is sent exactly if it was delivered, failed exactly after a permanent failure, or a temporary one on the tenth attempt or with a token that expires before the retry, and else due again after the wait. |
| `EmailOutbox.SendThenSettle` | `internal/emailverification/worker.go:149-183` | In every interleaving, the update of a worker leaves a message that is no longer being sent alone, and stores any other as the result of this worker's attempt says. |
| `EmailOutbox.WaitTable` | `internal/emailverification/worker.go:192-201` | The waits are 30, 60, 120, 240, 480, 960 and 1920 seconds, and 3600 from the eighth attempt on. |
| `EmailOutbox.Outbox.Drain` | `internal/emailverification/worker.go:71-97` | Draining a fixed set of messages ends after a bounded number of claims, with nothing left to claim and ended messages untouched. |
| `BoundedCapture.KeptIsLongest` | `scripts/terraform-structured-diagnostic.py:51-67` | The retained part is the longest beginning within the byte cap that stops after the last allowed newline. |
| `BoundedCapture.KeptConcat` | `scripts/terraform-structured-diagnostic.py:51-67` | Appending a chunk to what was retained retains the same as seeing all bytes at once. |
| `BoundedCapture.OverflowIff` | `scripts/terraform-structured-diagnostic.py:66-67` | Something is dropped exactly when the stream exceeds the byte cap or goes on after the last allowed newline. |
| `BoundedCapture.CutAfter` | `scripts/terraform-structured-diagnostic.py:58-62` | The search loop cuts just after the last allowed newline. |
| `BoundedCapture.Trim` | `scripts/terraform-structured-diagnostic.py:54-62` | The written chunk is the data cut to the remaining bytes, then to the remaining lines. |
| `BoundedCapture.IndexOfNewline` | `scripts/terraform-structured-diagnostic.py:61` | The first newline from a position on. |
| `BoundedCapture.BoundedStream.Append` | `scripts/terraform-structured-diagnostic.py:51-67` | The file stays what is retained of everything received, and the flag says whether something was dropped. |
| `BoundedCapture.Capture` | `scripts/terraform-structured-diagnostic.py:143-149` | File and overflow flag depend only on the concatenation of the chunks. |
| `BootstrapPolicy.Validate` | `scripts/terraform-v2-bootstrap-policy.py:267-429` | The pass over the resource changes and the comparisons after it accept exactly the declarative policy. |
| `BootstrapPolicy.CheckEntry` | `scripts/terraform-v2-bootstrap-policy.py:275-328` | The checks of one entry, in their order, decide the entry clause of the policy. |
| `BootstrapPolicy.Conclude` | `scripts/terraform-v2-bootstrap-policy.py:332-429` | The dictionary comparisons after the loop decide the inventory clause. |
| `BootstrapPolicy.Find` | `scripts/terraform-v2-bootstrap-policy.py:385-388` | The search returns the entry of an address. |
| `BootstrapPolicy.OrderDoesNotMatter` | `scripts/terraform-v2-bootstrap-policy.py:274-331` | Permuting the resource changes does not change the verdict. |
| `BootstrapPolicy.AcceptedPlanIsTheManifest` | `scripts/terraform-v2-bootstrap-policy.py:332-365` | An accepted plan creates exactly the manifest, repeats no address, imports nothing, and has both legacy resources as no-ops, both moved, or none moved and both known, unchanged and bound to each other. |
| `BootstrapPolicy.ChangedIsExpectedIff` | `scripts/terraform-v2-bootstrap-policy.py:329-337` | Equality of the two dictionaries is the manifest clause. |
| `BootstrapPolicy.MovesIff` | `scripts/terraform-v2-bootstrap-policy.py:310-318` | The gathered moves are empty or complete exactly when none or both legacy resources moved. |
| `BootstrapPlan.AcceptsPlanIff` | `scripts/terraform-v2-bootstrap-policy.py:267-429` | The gate accepts exactly the plans described entry by entry: the new container and version with their fields, the two legacy entries, moved or bound to each other, and other entries that leave everything alone. |
| `BootstrapPlan.GateIsPassable` | `scripts/terraform-v2-bootstrap-policy.py:267-429` | The gate is passable in each of its situations: concrete entries for a first attempt, moved or not, and for a continuation, beside any other entries that leave everything alone. |
| `CalendarGrid.AnchorIsNext` | `internal/handlers/calendar.go:20-31` | The anchor is the earliest entry not before now, or now when there is none. |
| `CalendarGrid.GridCoversMonth` | `internal/handlers/calendar.go:32-33` | The grid starts on a Monday at most six days before the month and its 42 days reach past the end of it. |
| `CalendarGrid.MutedIff` | `internal/handlers/calendar.go:47` | A cell shows another month number exactly when its day lies outside the anchor month. |
| `CalendarGrid.UnmutedCellsAreTheMonth` | `internal/handlers/calendar.go:41-52` | The unmuted cells are exactly the days of the month, numbered 1 to its length, in order. |
| `CalendarGrid.EachEntryOnce` | `internal/handlers/calendar.go:35-50` | The cells together show each entry dated inside the grid exactly once and nothing else. |
| `CalendarGrid.AnchorIsShown` | `internal/handlers/calendar.go:29-33` | The day of the anchor is one of the unmuted cells. |
| `CalendarGrid.KeyInjective` | `internal/handlers/calendar.go:38` | Different days have different map keys. |
| `CalendarGrid.FutureAnchor` | `internal/handlers/calendar.go:20-31` | The loop finds the specified anchor. |
| `CalendarGrid.ByDate` | `internal/handlers/calendar.go:35-40` | Grouping under the text of the day gives each day its entries in input order. |
| `CalendarGrid.OnDayInOrder` | `internal/handlers/calendar.go:35-40` | A day shows title, link and kind of exactly its entries, at ascending positions of the input. |
| `CalendarGrid.BasicCalendarMonth` | `internal/handlers/calendar.go:16-53` | The procedure fills each of the 42 cells as specified. |
| `CalendarGrid.WindowContainsNow` | `internal/handlers/dashboard.go:288-306` | The week, month and year windows contain the day they are taken for. |
| `CalendarGrid.WindowsDoNotOverlap` | `internal/handlers/dashboard.go:288-306` | Every day of a window has that same window. |
| `CalendarGrid.WindowsLeaveNoGap` | `internal/handlers/dashboard.go:288-306` | The next window starts where one ends. |
| `CalendarGrid.WindowShape` | `internal/handlers/dashboard.go:288-306` | A week starts on a Monday and has seven days; a month and a year start on their first day and end on that of the next. |
| `Announcements.RoundTripIff` | `internal/handlers/announcements.go:484-505` | Body and document come back as submitted exactly when the document fields are publishable, or there is no document and the body does not itself start with a header. |
| `Announcements.TextRoundTrip` | `internal/handlers/announcements.go:484-505` | The stored text of an announcement with a document, written out, and that it is read back as that document and body. |
| `Announcements.DocumentIff` | `internal/handlers/announcements.go:491-505` | A document is found exactly in the texts that start with a well-formed header; every other text is returned unchanged. |
| `Announcements.HeaderParses` | `internal/handlers/announcements.go:491-505` | A well-formed header is split off whole, whatever follows. |
| `Announcements.BodyMayForgeADocument` | `internal/handlers/announcements.go:485-487` | A form without a document whose body is a printed document is read back as that document. |
| `Announcements.LineBreakLosesTheDocument` | `internal/handlers/announcements.go:305-307` | Failing input: with a source of two lines, which the length check accepts, the whole printed text is returned as the body and the document is lost. |
| `Announcements.ParsedIsPublishable` | `internal/handlers/announcements.go:500-503` | Every parsed document has a valid URL and non-empty single-line fields. |
| `Announcements.LinesSplit` | `internal/handlers/announcements.go:492` | The first empty line after non-empty lines ends the head. |

## Left out

Contracts that deliberately say less than the whole behaviour:

- PlanNormalization.PlanIff: assumes that no caller identity already carries the marker text; `MarkerCollision` shows that the digest equates more without that. The top-level timestamp, which the script drops, is one of the variations.
- Json.PrintInjective: numbers are compared by their lexeme, as the plan script keeps them, and strings are sequences of scalar values, so lone surrogates do not occur.
- StateUntaint.AcceptsIff: this script parses numbers, so it identifies `4` with `4.0` and `1.0` with `1.00`; the model compares their printed form. Copies are values, so aliasing inside a parsed state is not modelled.
- PlanNormalization.NormalizeModule: returns the new value instead of changing the parsed dictionary in place.
- SportAssignments.Service.Replace: a transaction runs alone, as serialisable isolation allows; identifiers of events are their positions, so gaps left by rolled-back inserts are not modelled.
- DatedParticipation.RunsAreExclusive: the verdicts of the triggers about categories and history on other tables are inputs of each step, and other writers of the table are not steps.
- TransitionPreview.GuardIffPreview: for days in the years 1 to 9999, and for an actor whose authority the transaction and the view evaluate alike; the descriptive texts of the preview are not modelled.
- ConfirmationProtocol.CommitsArePreviewed: measures the 15 minutes up to the check of the token, as the code does; the write may follow later. The first rendering, the sport and craft branches of the page and the form checks before the preview are not modelled.
- ReleaseProtocol.ReplacedAtMostOnce: the statements of the replacement from its table lock to its commit are one step; the second preflight is a step of its own. Nobody edits the ledger by hand, and every binary that begins the release names the same predecessor inventory and a final inventory that goes beyond it.
- ReleaseProtocol.Server.BootstrapDisposableRelease: runs without interference between its statements; the machine adds the interference. Catalogue inspections, patterns of versions and the reading of later stable versions are inputs.
- MigrationLedger.FreshAndUpgradedConverge: the equality of baseline and scripts is an assumption about SQL text that is not modelled.
- EventSeats.SeatsNeverExceedCapacity: the capacity is fixed; the edit of an event, whose guard is in a query of its own, is not a step.
- EventSeats.CommitsAreAtomic: for runs in which no response row is erased; erasure frees a seat between the count and the commit, so a member may then be on the waitlist of an event that is no longer full.
- EmailOutbox.BackoffAndExpiry: the recipient checks of guardian messages are outside the claim condition; they only make fewer messages claimable.
- EmailOutbox.Outbox.Drain: one worker, updates that succeed, and a context that is not cancelled.
- BootstrapPolicy.Validate: the secret phase only; equality of values, numbers that are false, the live key proof, the inspection of the secret value and the walk over the configuration are inputs, and every raised exception is a refusal.
- CalendarGrid.BasicCalendarMonth: wall-clock days and seconds; instants that a change of summer time repeats or skips are not modelled, nor days before year 1.
- CalendarGrid.WindowsLeaveNoGap: in days, so a midnight that a zone skips is not modelled.

What the repository does that the model does not:

- HTTP handling, templates, page models, navigation, flash messages, sessions and routing: no property beyond one body.
- Privilege SQL, role definitions other than login, triggers and PL/pgSQL bodies: only their effect on login, ledger, schema and data is modelled.
- Guardian authority and age handoff: their state machine is in database functions.
- The classification of captured diagnostics: one pass whose claims are read off its branches.
- The host-policy phase of the plan gate, drift inspection, plan loading and target manifests.
- `classificationState`, the search and the sport selection pages: easy members.
- Component diagnostics of the plan digest, live inspection of the state repair, AWS, SSM, Secrets Manager, S3, SMTP, Docker and subprocess calls: input and output.
- Strength of HMAC, AES-GCM and bcrypt: ideal functions.
- Configuration validation, feature flags, administrator commands, activity providers, media and asset loading.
