# Verified model of the evidence and tenant rules

A Dafny model of the parts of the application whose job is to keep stored evidence and tenant
boundaries sound, with proofs over every input and every run.

* **Transactional store.** `Artifacts` and `Approvals` hold the tables, row guards, constraints and
  deferred checks of releases, preservations, publications and fixed approvals, with SQL's
  three-valued logic (`Sql`) wherever a null decides a guard. `Ledger` defines transactions and runs;
  `Database` executes them on mutable tables. `ArtifactHistory`, `ArtifactInvariants`,
  `Publications`, `ApprovalHistory`, `LedgerTheorems` and `LegacySwitch` prove what every statement,
  transaction and run keeps. `Creation`, `Requests` and `Decisions` say exactly when a publication is
  created, and an approval asked for, switched over and decided. `FileGuards` and `ApprovalGuards`
  state every guard as one condition on plain columns, and `FileWrites` exactly which writes of
  releases and preservations are accepted. `Download` resolves a public file,
  `Paging` reads a version page by page, and `Notifications` writes and reads the messages about
  approval events.
* **Tenant scope.** `TenantScope` is the ownership filter and the flush validator over any acyclic
  schema, `FlushSafety` the closure and frame theorems, `FrameLimits` the proof that the frame's condition is
  exact, `Ownership` the application's own table of owners, its keys, and the statement hook.
* **Algorithms.** `ReadCache`, `RateLimit`, `Shards`, `Verification`, `Renaming` and `Splice`;
  `Counting` holds the pigeonhole facts they share.

`dafny verify dfyconfig.toml` checks the project.

Nulls behave as in SQL and are cases of the model, not hypotheses: a null parent lease disables the
lease comparison, a manifest without `files` makes the length comparison unknown, and a null
`byte_size` passes its CHECK. `ArtifactInvariants.NullLeaseSelects` and `NullsReachReady` show each of
them happening; the theorems hold all the same.

## Model

| member | source | states |
|---|---|---|
| `LedgerTheorems.RunKeepsCommitted` | alembic/versions/c9e3f6a1d547_add_fixed_approvals.py:286-405 | from a committed state every sequence of transactions, accepted or rolled back, ends in a committed state (all table constraints and guard invariants, and every request, import and publication complete) in which nothing frozen or recorded earlier has changed |
| `LedgerTheorems.UntouchedStaysComplete` | alembic/versions/c9e3f6a1d547_add_fixed_approvals.py:364-405 | the deferred checks run only for touched rows, yet no statement can make an untouched request, import or publication incomplete |
| `LedgerTheorems.UntouchedRequestIsUnchanged` | alembic/versions/c9e3f6a1d547_add_fixed_approvals.py:343-405 | a transaction that does not write a complete request changes neither its row nor its set of events nor its set of bases |
| `LedgerTheorems.CommittedApproval` | alembic/versions/c9e3f6a1d547_add_fixed_approvals.py:364-378 | a complete request is sealed and has exactly one event (seq 1, by the requester) while pending, and exactly two once decided: the second carries the status as its action and, unless cancelled, is by the approver, who is not the requester; rejections and cancellations have a reason |
| `LedgerTheorems.DecisionIsFinal` | alembic/versions/c9e3f6a1d547_add_fixed_approvals.py:330-338 | a decided request keeps its row, both events and all bases in every later committed state |
| `LedgerTheorems.AgreedBasesAreSound` | alembic/versions/c9e3f6a1d547_add_fixed_approvals.py:352-358 | in a committed state the approval an agreed basis names is a sealed, approved requirement request of the basis's project and source, whose recorded requirement digest is the basis's subject digest; it is complete and decided by the event named, by its designated approver, who did not request it |
| `LedgerTheorems.EvidenceNeverDecays` | alembic/versions/c9e3f6a1d547_add_fixed_approvals.py:286-362 | that evidence (basis, approval and decision event), column by column, is the same in every later state |
| `LedgerTheorems.ApprovedDocument` | alembic/versions/c9e3f6a1d547_add_fixed_approvals.py:379-386 | an approved request has exactly `basis_count` bases, each agreed on such evidence |
| `LedgerTheorems.DownloadIsStableOverRuns` | app/repositories/publication_download.py:35-96 | over any run of transactions a committed publication answers a download the same way: same object, key and digest, or the same error; only the tenant is read anew from the project |
| `LedgerTheorems.EmptyIsCommitted` | alembic/versions/c9e3f6a1d547_add_fixed_approvals.py:26-278 | the empty database is a committed state |
| `ApprovalHistory.StepKeepsInv` | alembic/versions/c9e3f6a1d547_add_fixed_approvals.py:283-442 | every accepted statement keeps the shape of requests, events, bases and legacy links, inside a transaction as well |
| `ApprovalHistory.NoFurtherEvent` | alembic/versions/c9e3f6a1d547_add_fixed_approvals.py:211-224 | an event that the guard would let a complete request gain always violates the uniqueness of seq |
| `ApprovalHistory.UntouchedGainsNothing` | alembic/versions/c9e3f6a1d547_add_fixed_approvals.py:343-405 | no accepted statement other than a write of the request itself adds or removes one of its events or bases |
| `ApprovalHistory.SwitchStaysComplete` | alembic/versions/c9e3f6a1d547_add_fixed_approvals.py:433-441 | a complete switch import stays complete although its check never runs again |
| `Requests.AskCommitsExactlyWhen` | app/services/fixed_approval.py:431-526 | asking (request, first event, any bases, seal) commits if and only if the request names its release, node, preservation and legacy import as they are and repeats nothing, the first event is the requester's, every basis is a new requirement node of the document's release with sound evidence or a reason, and `basis_count` is their number; the state then is the old one plus the sealed request and these rows |
| `Requests.SwitchCommitsExactlyWhen` | alembic/versions/c9e3f6a1d547_add_fixed_approvals.py:407-441 | a switch (import, then such a request) commits if and only if the import is the snapshot of an old approval of the project and repeats none, the request fits, and it continues the import |
| `Requests.CheckAsked` | alembic/versions/c9e3f6a1d547_add_fixed_approvals.py:364-386 | the deferred check of a new request comes down to the number of its bases |
| `Requests.SomeAskCommits` | app/services/fixed_approval.py:431-526 | a request that commits |
| `Requests.ForeignEvidenceIsRefused` | alembic/versions/c9e3f6a1d547_add_fixed_approvals.py:352-358 | an ask with a basis agreed on an approval of another project, source or digest, or on no sealed approval of a requirement, never commits |
| `Requests.SomeDocumentCommits` | app/services/fixed_approval.py:431-526 | a document whose one requirement is agreed on a matching approval: asking for it commits |
| `Decisions.DecisionCommitsExactlyWhen` | alembic/versions/c9e3f6a1d547_add_fixed_approvals.py:330-405 | a pending request is decided exactly when: the word is one of the four decisions; the event is new, records that word and scope, is by the approver unless it is a cancellation, and is a new operation; a rejection or cancellation has a reason; approval finds no exception among the bases, approval with exceptions finds one and concerns a document. The state then is the old one plus the decision and its event |
| `Decisions.CheckAfter` | alembic/versions/c9e3f6a1d547_add_fixed_approvals.py:364-388 | the deferred check after a decision accepts exactly the decisions that suit the bases and give a due reason |
| `Database.Tables.Execute` | alembic/versions/c9e3f6a1d547_add_fixed_approvals.py:285-442 | one statement: refused without effect exactly when its guard raises or a constraint fails, otherwise exactly its effect |
| `Database.Tables.RunDeferredChecks` | alembic/versions/c9e3f6a1d547_add_fixed_approvals.py:389-390 | the queued checks pass together exactly when each holds of the final state |
| `Database.Tables.Commit` | alembic/versions/c9e3f6a1d547_add_fixed_approvals.py:389-441 | a transaction commits exactly when every statement is accepted and every queued check passes; the tables then hold all of it, otherwise what they held before |
| `LegacySwitch.SwitchIsExactlyOnce` | alembic/versions/c9e3f6a1d547_add_fixed_approvals.py:78-84 | after any run without harmful moves each switched legacy approval has one switch import and exactly one fixed request continuing it, in the import's project |
| `LegacySwitch.SwitchIsExactlyOnceFromEmpty` | alembic/versions/c9e3f6a1d547_add_fixed_approvals.py:78-84 | the same for every such run from the empty database, with no further hypothesis |
| `LegacySwitch.NoSecondSwitch` | alembic/versions/c9e3f6a1d547_add_fixed_approvals.py:407-419 | a second switch import of an approval that the guard would admit violates the unique index, whatever its project |
| `LegacySwitch.MoveKeepsSwitch` | alembic/versions/c9e3f6a1d547_add_fixed_approvals.py:421-429 | moving a document keeps the single-switch invariant if and only if it stays in its project or holds no switched approval: such a move is harmless |
| `LegacySwitch.SecondSwitchExactlyWhen` | alembic/versions/c9e3f6a1d547_add_fixed_approvals.py:78-84 | after the document of a pending old approval has moved, a further switch of it in the new project is accepted if and only if that project has none yet |
| `LegacySwitch.HarmfulMoveBreaksTheSwitch` | alembic/versions/c9e3f6a1d547_add_fixed_approvals.py:407-431 | so a harmful move leaves two switch imports of one old approval possible, and its row open to updates |
| `LegacySwitch.RunKeepsSwitch` | alembic/versions/c9e3f6a1d547_add_fixed_approvals.py:407-431 | the single-switch invariant survives every run without harmful moves |
| `LegacySwitch.SwitchedRowIsFrozen` | alembic/versions/c9e3f6a1d547_add_fixed_approvals.py:421-431 | over such a run the old row of a switched approval is never rewritten, and while it exists it is still pending: only the new system can decide it |
| `LegacySwitch.MovingDecidesTheGuard` | alembic/versions/c9e3f6a1d547_add_fixed_approvals.py:421-429 | after its document moves, a switched row is still protected if and only if the new project has a switch import of it |
| `ApprovalGuards.AskingForApproval` | alembic/versions/c9e3f6a1d547_add_fixed_approvals.py:303-329 | the insert guard of a request as one condition on columns: node and sealed release of the project, ready preservation, continued import, and a fresh undecided row |
| `ApprovalGuards.MovingARequest` | alembic/versions/c9e3f6a1d547_add_fixed_approvals.py:330-338 | a request moves only by being sealed, or by one of the four decisions; every other column is equal before and after |
| `ApprovalGuards.AddingABasis` | alembic/versions/c9e3f6a1d547_add_fixed_approvals.py:343-360 | a basis is admitted exactly for an unsealed document request, on a requirement node of its release, and if agreed on an approval and event of the same project, source and digest |
| `ApprovalGuards.KindOfBasis` | alembic/versions/c9e3f6a1d547_add_fixed_approvals.py:246-249 | a basis is agreed, with both references and no reason, or an exception with neither and a reason that is not blank |
| `ApprovalGuards.RecordingAnEvent` | alembic/versions/c9e3f6a1d547_add_fixed_approvals.py:392-403 | event 1 is the requester's, before the seal; event 2 repeats the decision, by the approver unless it is a cancellation; both carry the request's scope digest |
| `ApprovalGuards.ImportingAnApproval` | alembic/versions/c9e3f6a1d547_add_fixed_approvals.py:407-417 | an import must be the snapshot of an old approval of the project, and a switch that of a pending document or requirement |
| `ApprovalGuards.RewritingAnOldApproval` | alembic/versions/c9e3f6a1d547_add_fixed_approvals.py:421-429 | an old row may be rewritten exactly when no switch import of it is in its document's project |
| `ApprovalGuards.CompleteSpelledOut` | alembic/versions/c9e3f6a1d547_add_fixed_approvals.py:364-388 | the deferred check of a request: sealed, as many events as its version, the first and the decision as recorded, and bases that suit its status |
| `ApprovalGuards.SwitchSpelledOut` | alembic/versions/c9e3f6a1d547_add_fixed_approvals.py:433-439 | the deferred check of a switch: a request of its project continues it |
| `ApprovalGuards.SelfApprovalIsRefused` | alembic/versions/c9e3f6a1d547_add_fixed_approvals.py:123-125 | no statement makes a request whose requester is its approver |
| `ApprovalGuards.SecondPendingRequestIsRefused` | alembic/versions/c9e3f6a1d547_add_fixed_approvals.py:177-184 | a second pending request for the same target is refused |
| `ApprovalGuards.RepeatedRequestIsRefused` | alembic/versions/c9e3f6a1d547_add_fixed_approvals.py:157-162 | so is the repetition of an operation by its requester in the project |
| `ApprovalGuards.SecondEventOfANumberIsRefused` | alembic/versions/c9e3f6a1d547_add_fixed_approvals.py:221-224 | an approval gets no second event with the same number or operation |
| `ApprovalGuards.EventsAreNumberedOneOrTwo` | alembic/versions/c9e3f6a1d547_add_fixed_approvals.py:211 | and none with any number but 1 and 2 |
| `ArtifactHistory.StepIsLater` | alembic/versions/a7c1e4f9b325_add_artifact_preservations.py:114-162 | no statement, in whatever state, changes a sealed release or its nodes, a ready preservation, a preservation's identity, an object's identity, a selected object's evidence, the selection of a ready preservation, or a sealed publication or its nodes |
| `ArtifactHistory.LaterTransitive` | alembic/versions/f6b0d3e8c214_add_artifact_releases.py:94-128 | these freezes compose over any number of statements |
| `ArtifactHistory.StepsAreLater` | alembic/versions/a7c1e4f9b325_add_artifact_preservations.py:114-162 | they hold over every interleaving of statements of any number of workers |
| `ArtifactInvariants.StepKeepsInv` | alembic/versions/a7c1e4f9b325_add_artifact_preservations.py:114-162 | every statement keeps: constraints, ready preservations complete, and every publication matching its sealed release and ready preservation |
| `ArtifactInvariants.SourcesFrozen` | alembic/versions/dae4b7c2e658_add_artifact_publications.py:135-158 | what a publication header was checked against can no longer change |
| `ArtifactInvariants.ReadyFreeze` | alembic/versions/a7c1e4f9b325_add_artifact_preservations.py:124-133 | a ready preservation keeps its row and its verified winners under any interleaving; the winners number exactly the selection and sit in pairwise distinct slots |
| `ArtifactInvariants.SlotsFillSelection` | alembic/versions/a7c1e4f9b325_add_artifact_preservations.py:107-113 | if no winner lies outside the selection the winners' slots are exactly 0..n-1 |
| `ArtifactInvariants.SelectionRule` | alembic/versions/a7c1e4f9b325_add_artifact_preservations.py:152-156 | an update selects an object exactly when it was not abandoned, the parent is preparing, and the parent lease is null or the object's own |
| `ArtifactInvariants.LeaseFencing` | alembic/versions/a7c1e4f9b325_add_artifact_preservations.py:139-160 | while a preservation's lease stays non-null and different, the winners of the old lease stay exactly the same over any interleaving; that no object of it is reserved either is `FileGuards.FencedWorkersReserveNothing` |
| `FileGuards.ReservationRule` | alembic/versions/a7c1e4f9b325_add_artifact_preservations.py:146-151 | a worker may reserve an object exactly when the parent is preparing, its lease is null or the worker's own, and the object is reserved and unselected |
| `FileGuards.FencedWorkersReserveNothing` | alembic/versions/a7c1e4f9b325_add_artifact_preservations.py:139-160 | while a preservation's lease stays non-null and different, the set of all objects of the old lease, selected or not, is the same over any interleaving |
| `FileGuards.UpdatingAnObject` | alembic/versions/a7c1e4f9b325_add_artifact_preservations.py:152-158 | what an update may do to an object: never move it, never change its content once selected, nothing once its preservation is ready, and select it only under the current lease |
| `FileGuards.MovingAPreservation` | alembic/versions/a7c1e4f9b325_add_artifact_preservations.py:124-134 | what an update may do to a preservation: never change its plan, never leave ready or cancelled, and become ready only with manifest, digest, time, and as many listed files and verified winners as were selected |
| `FileGuards.SealingARelease` | alembic/versions/f6b0d3e8c214_add_artifact_releases.py:103-107 | a release changes only by being sealed, with every other column equal |
| `FileGuards.ChangingAReleaseNode` | alembic/versions/f6b0d3e8c214_add_artifact_releases.py:111-126 | nodes of a sealed release are neither changed nor removed, and a node never moves; a sealed release is never removed |
| `FileWrites.ReservingIsAccepted` | alembic/versions/a7c1e4f9b325_add_artifact_preservations.py:73-151 | over any tables that satisfy the constraints, a reservation is accepted if and only if the parent is preparing under the worker's lease or none, the object is new, reserved and unselected, its slot is one of twenty and its storage key unused |
| `FileWrites.UpdatingIsAccepted` | alembic/versions/a7c1e4f9b325_add_artifact_preservations.py:89-158 | an update of an object is accepted if and only if the guard admits it and, if the object is then selected, it is verified content and the only winner of its slot |
| `FileWrites.StartingIsAccepted` | alembic/versions/a7c1e4f9b325_add_artifact_preservations.py:45-123 | a preservation may be started if and only if it is new and empty, belongs to a release, selects 1 to 20 files, and repeats no request |
| `FileWrites.MovingIsAccepted` | alembic/versions/a7c1e4f9b325_add_artifact_preservations.py:124-135 | an update of a preservation that the guard admits breaks no constraint |
| `FileWrites.OpeningIsAccepted` | alembic/versions/f6b0d3e8c214_add_artifact_releases.py:45-47 | a release may be opened if and only if it is new and repeats no request of its creator in the project |
| `FileWrites.SealingIsAccepted` | alembic/versions/f6b0d3e8c214_add_artifact_releases.py:103-107 | a seal that the guard admits breaks no constraint |
| `FileWrites.AddingNodesIsAccepted` | alembic/versions/f6b0d3e8c214_add_artifact_releases.py:71-126 | nodes may be added if and only if their releases are open, and each has its parent in its own release, among them or there already, and a number of its own |
| `FileWrites.ChangingANodeIsAccepted` | alembic/versions/f6b0d3e8c214_add_artifact_releases.py:71-126 | a node of an open release may be changed if and only if it stays in its release and still fits among the others |
| `FileWrites.RemovingANodeIsAccepted` | alembic/versions/f6b0d3e8c214_add_artifact_releases.py:71-126 | a node of an open release may be removed if and only if it is no node's parent |
| `FileWrites.RemovingAReleaseIsAccepted` | alembic/versions/f6b0d3e8c214_add_artifact_releases.py:97-102 | a release may be removed if and only if it is open and no node, preservation or publication refers to it |
| `ArtifactInvariants.SlotWinnerIsFinal` | alembic/versions/a7c1e4f9b325_add_artifact_preservations.py:107-113 | a slot has one winner for good, with the same digest, size and storage key |
| `ArtifactInvariants.NullLeaseSelects` | alembic/versions/a7c1e4f9b325_add_artifact_preservations.py:147-156 | a concrete state in which a null parent lease admits an outdated worker that a fresh lease refuses |
| `ArtifactInvariants.NullsReachReady` | alembic/versions/a7c1e4f9b325_add_artifact_preservations.py:96-133 | a concrete state in which a null size and a manifest without files still reach a ready preservation |
| `ArtifactInvariants.ReadyListsFilesExactlyWhen` | alembic/versions/a7c1e4f9b325_add_artifact_preservations.py:129-132 | after any interleaving the manifest of a ready preservation lists as many files as were selected exactly when it has a file list at all |
| `ArtifactInvariants.SelectedHasSizeExactlyWhen` | alembic/versions/a7c1e4f9b325_add_artifact_preservations.py:96-99 | after any interleaving a selected object is verified, has a digest, and has a positive size exactly when it has a size at all |
| `Publications.CompleteStays` | alembic/versions/dae4b7c2e658_add_artifact_publications.py:163-194 | a complete publication stays complete and its header unchanged, although its check never runs again |
| `Publications.OrdinalsHaveNoGap` | alembic/versions/dae4b7c2e658_add_artifact_publications.py:95-97 | uniqueness, count, minimum and maximum force the ordinals to be exactly 0..node_count-1 |
| `Publications.EveryNodeReachesRoot` | alembic/versions/dae4b7c2e658_add_artifact_publications.py:183-190 | parent links of a complete publication form a forest: each node reaches a root in at most its ordinal steps |
| `FileGuards.MatchingIsMirroring` | alembic/versions/dae4b7c2e658_add_artifact_publications.py:135-158 | the two header checks mean: body digest, source kinds and source references of the sealed release, and a file list of the preserved length with the same fields at every position, or an empty one |
| `FileGuards.PublicationsMirrorTheirSources` | alembic/versions/dae4b7c2e658_add_artifact_publications.py:124-162 | after any interleaving every publication mirrors its release and its preserved files in that sense |
| `FileGuards.OpeningAPublication` | alembic/versions/dae4b7c2e658_add_artifact_publications.py:132-159 | a header is admitted exactly when it is new, unsealed and mirrors its sources |
| `FileGuards.SealingAPublication` | alembic/versions/dae4b7c2e658_add_artifact_publications.py:128-159 | a header changes only by being sealed, while it mirrors its sources |
| `FileGuards.WritingPublicationNodes` | alembic/versions/dae4b7c2e658_add_artifact_publications.py:163-175 | nodes are added only to publications that exist and are unsealed |
| `Creation.CreationCommitsExactlyWhen` | app/repositories/artifact_publication.py:46-64 | insert header, insert the nodes in any batches, seal commits if and only if the header fits its sources and is no repetition, each batch is new and has its parents in itself or an earlier one, and the nodes form a forest numbered 0..node_count-1 from parents to children; the state then is the old one plus the sealed header and these nodes |
| `Creation.BatchingDoesNotMatter` | app/repositories/artifact_publication.py:51-60 | nodes sent in the order of their numbers may be cut into batches anywhere: creation commits exactly when the header fits and the nodes are new and form such a forest |
| `Creation.CompleteExactlyWhen` | alembic/versions/dae4b7c2e658_add_artifact_publications.py:178-194 | the deferred check over a publication's rows is exactly the gap-free numbered forest of the expected size |
| `Creation.UnfaithfulHeaderIsRefused` | alembic/versions/dae4b7c2e658_add_artifact_publications.py:135-158 | a creation whose header does not mirror its release and its preserved files never commits |
| `Creation.PartialListIsRefused` | alembic/versions/dae4b7c2e658_add_artifact_publications.py:148-155 | in particular one that omits a preserved file, adds one, or shows one with other fields |
| `Download.DownloadIsStable` | app/repositories/publication_download.py:35-96 | for a complete publication resolution gives the same outcome in every later state, composing the freezes of release, preservation, objects and header; the tenant in it is the one the project then has |
| `Download.OnlyPreservedObjectsAreDelivered` | app/repositories/publication_download.py:64-95 | a delivery names a selected, verified object of the publication's own ready preservation with the recorded size, digest and key; its filename, size and digest are those of one list entry, the first with the requested id, and the preserved list has the same at the object's slot; both digests and all cross references held |
| `Download.DeliveredExactlyWhen` | app/repositories/publication_download.py:54-82 | file k of a guarded publication is delivered exactly when the publication is of the first projection version, both manifest digests hold and slot k has a winner with the listed digest and size |
| `Download.AnswerForFile` | app/repositories/publication_download.py:64-95 | the full answer for file k when both digests hold and slot k has a winner: unavailable if the winner has another digest or size, otherwise the winner with project, tenant, filename, size, digest and storage key |
| `Download.AnswerWithoutObject` | app/repositories/publication_download.py:54-76 | the other answers for file k: unavailable when a digest is broken, not found when no object won the slot |
| `Download.UnlistedIsNotFound` | app/repositories/publication_download.py:37-53 | an id that is not listed, or any id of a publication without a preservation, is not found |
| `Download.OtherVersionsAreNotFound` | app/repositories/publication_download.py:64-66 | a listed file of a publication of another version is never delivered: not found when both digests hold, unavailable otherwise |
| `Download.SecondVersionIsNotFound` | alembic/versions/d6e0f3b8a214_objective_projection.py:18-22 | two committed states that differ in the projection version alone: the file of the first is delivered, that of the second is not found |
| `Download.ListedSlot` | app/services/artifact_publication_projection.py:276-292 | the id listed for file k is that of slot k exactly in the first version; in any other it is the id of no slot, because the resolver computes ids of the first |
| `Download.NeverCrashes` | app/repositories/publication_download.py:64 | the lookup of a missing `files` key cannot happen for a publication the guards admitted |
| `Paging.ListingIsComplete` | app/repositories/artifact_publication.py:66-78 | the ordered query returns each remaining node exactly once, in strictly increasing order |
| `Paging.PagesConcatenate` | app/repositories/artifact_publication.py:66-78 | for any positive page sizes and byte budgets, following the last ordinal kept yields a prefix of the full listing, and all of it after at most as many pages as nodes |
| `Paging.PublicationPaging` | app/repositories/artifact_publication.py:66-78 | paging through a committed publication, with arbitrary other statements between pages, returns each node once, node k being numbered k |
| `Paging.ParentsComeFirst` | alembic/versions/dae4b7c2e658_add_artifact_publications.py:185-187 | in that reading a parent precedes its children |
| `Paging.PublicationCursorEndsExactly` | app/services/artifact_publication.py:303-320 | a next cursor is offered exactly when nodes remain |
| `Paging.ReleasePaging` | app/repositories/artifact_release.py:59-71 | the same for a sealed release, whose ordinals are only known to be distinct |
| `Paging.ReleaseCursorIsExact` | app/services/artifact_release.py:338-353 | the release service, which ignores the extra row, offers a next cursor exactly while nodes remain if and only if exactly one node is numbered node_count - 1 or more |
| `Paging.ServiceIsCompleteExactlyWhen` | app/services/artifact_release.py:326-354 | whatever the page sizes, following the service's cursor reads every remaining node if and only if no two of them are numbered node_count - 1 or more |
| `Paging.HarmfulGap` | app/services/artifact_release.py:341-345 | ordinals 0, 3, 4 with a node count of 3: the last node is not served |
| `Paging.GappyReleaseIsCutShort` | alembic/versions/f6b0d3e8c214_add_artifact_releases.py:94-128 | header, nodes and seal of such a release, accepted one after the other from the empty tables, leave a sealed release of three nodes that the service does not serve completely |
| `Paging.HarmlessGap` | app/services/artifact_release.py:341-345 | ordinals 0 and 2 with a node count of 2: a gap, and everything is served |
| `Paging.ExtraRowMeansMore` | app/repositories/artifact_release.py:59-71 | the extra row arrives exactly when more nodes remain, and is the row the next page starts with |
| `Notifications.OneEventPerAction` | alembic/versions/c9e3f6a1d547_add_fixed_approvals.py:392-403 | no two events of an approval carry the same action, even inside a transaction |
| `Notifications.SourceIsUnique` | app/repositories/fixed_approval_notification.py:241-260 | the event lookup never finds two rows, and for a complete request finds one exactly for `requested` and for its decision |
| `Notifications.WriterMeetsReader` | app/repositories/fixed_approval_notification.py:159-185 | the message about an event is in a user's internal list if and only if the user is among the event's recipients, is no guest, and has access |
| `Notifications.InternalListShows` | app/repositories/fixed_approval_notification.py:116-185 | the internal list shows a row exactly when it is, column by column, the message about an event of a sealed request to a user other than the actor, who plays the due part and may read the contents |
| `Notifications.InternalAccessNeeds` | app/repositories/fixed_approval_notification.py:70-114 | access is an active identity in the project's tenant and every permission that the release's kinds of sources and a preservation call for |
| `Notifications.WhoIsAddressed` | app/repositories/fixed_approval_notification.py:262-268 | a request addresses the approver, a decision the requester, a cancellation the parties other than the one who cancelled |
| `Notifications.ToldExactlyWhen` | app/repositories/fixed_approval_notification.py:269-319 | after an event was served exactly those have been told who had been before, or are addressed and may see it, guests by the guest's rule |
| `Notifications.Inbox.InsertUnlessPresent` | app/repositories/fixed_approval_notification.py:299-319 | appends a row unless the event already reached the recipient |
| `Notifications.Inbox.Emit` | app/repositories/fixed_approval_notification.py:237-325 | raises without effect unless the event is unique; otherwise every permitted recipient has been told, once, nothing else is written, no message goes to the actor, and each new internal message is in its recipient's internal list |
| `TenantScope.ScopesAreDisjoint` | app/db/tenant_scope.py:142-192 | for any acyclic schema no row of a covered table is in the scope of two tenants, including tables owned through all or one of several parents |
| `TenantScope.UserScopeIsSmaller` | app/db/tenant_scope.py:142-192 | the user-restricted filter is a subset of the tenant filter |
| `TenantScope.PassesAreAcceptance` | app/db/tenant_scope.py:314-340 | collecting rows and references into sets and looking them up decides exactly the row-by-row acceptance rule |
| `TenantScope.NeedsIgnoreTenants` | app/db/tenant_scope.py:266-313 | stamping tenants does not change which references must be looked up, so the order of the pass does not matter |
| `TenantScope.Collect` | app/db/tenant_scope.py:251-313 | the first pass stamps new rows in place, refuses a rewritten or foreign tenant, and collects exactly the persisted rows and the references; what a stamp is, is `TenantScope.StampFillsIn` |
| `TenantScope.ValidateTenantWrites` | app/db/tenant_scope.py:244-340 | the flush hook forbids a batch exactly when it breaks the rule stated on the batch as handed in (a foreign or rewritten tenant, a row out of scope, a reference not found), and does nothing without a tenant; after an unforbidden flush every written covered row with a tenant column carries the tenant, new ones that had none have been filled in, and every other row and field is as it was |
| `TenantScope.StampFillsIn` | app/db/tenant_scope.py:262-269 | a stamp fills in the tenant of a new row of a covered table with a tenant column that has none, and changes nothing else |
| `TenantScope.StampedIsAcceptable` | app/db/tenant_scope.py:262-340 | the rule on the stamped batch and the rule on the batch as handed in accept the same flushes |
| `TenantScope.BareNewRowIsAdmitted` | app/db/tenant_scope.py:266-269 | a batch of one new row without a tenant, with no key into a checked table filled in, is never forbidden |
| `TenantScope.LookedUpExactlyWhen` | app/db/tenant_scope.py:271-313 | a value is looked up exactly when a completely filled key to a covered table holds it, and it is neither the row's own id nor that of a row new in the flush |
| `TenantScope.UserScopeExactlyWhen` | app/db/tenant_scope.py:142-192 | a row is in a user's scope exactly when it is in the tenant's and every root it is reached from is the user's |
| `FlushSafety.OwnerIsOurs` | app/db/tenant_scope.py:271-340 | the owner named by an accepted written row is new in the same flush or already the tenant's, when its column is a key of its own or part of a composite key that the row fills |
| `FlushSafety.OthersKeepTheirs` | app/db/tenant_scope.py:244-340 | every row of another tenant is still that tenant's, unchanged |
| `FlushSafety.OthersGainNothing` | app/db/tenant_scope.py:244-340 | no row comes into another tenant's scope of a table where each row the flush writes, there and above, has one owner vouched for by a filled key where all must agree, and every named one where one suffices |
| `FlushSafety.FlushFrame` | app/db/tenant_scope.py:244-340 | an accepted flush of one tenant leaves every other tenant's scope of such a table exactly as it was |
| `FlushSafety.SafeMeansSafeIn` | app/db/tenant_scope.py:271-313 | when the schema itself sees to that (keys of the owner column alone, or composite ones whose other columns are NOT NULL), it holds of every flush |
| `FlushSafety.FlushClosure` | app/db/tenant_scope.py:244-340 | every row written, and every row the tenant had, that still exists lies in the tenant's scope afterwards, whether its owners were new, changed or left alone |
| `FrameLimits.FrameIsExact` | app/db/tenant_scope.py:244-340 | over any well-keyed schema, no accepted flush with its NOT NULL columns filled brings a row of the table into another tenant's scope if and only if the schema makes the table safe; for an unsafe one the proof builds the tables and the write |
| `FrameLimits.NewRowIntrudes` | app/db/tenant_scope.py:271-299 | in every state a new row that fills its single owner column and no key to a checked table may name any row of another tenant: it is accepted and enters that tenant's scope |
| `Ownership.OwnershipIsAcyclic` | app/db/tenant_scope.py:12-139 | the real ownership table is acyclic and leads every covered table to a tenant column, so disjointness and the user filter apply to it |
| `Ownership.ApplicationFrame` | app/db/tenant_scope.py:12-340 | with the real keys of the owner columns, the frame theorem holds for every covered table but the two of notification mail and the publication events |
| `Ownership.ApplicationFrameIsExact` | app/db/tenant_scope.py:276-299 | and those three are exactly the tables for which it fails |
| `Ownership.EventsFrame` | alembic/versions/e1f5a8c3b769_publication_access.sql:113-139 | it holds for publication events in every flush whose events all name a publication or a participation |
| `Ownership.BareEventBreaksTheFrame` | alembic/versions/e1f5a8c3b769_publication_access.sql:113-139 | in every state a flush of one tenant may add an event that names a project of another and nothing else: its incomplete keys are skipped |
| `Ownership.UncheckedOwnerBreaksTheFrame` | app/db/tenant_scope.py:295-299 | in every state a flush of one tenant may add a delivery to any notification of another |
| `Ownership.OwnerKeysAreWellKeyed` | app/db/tenant_scope.py:12-139 | the keys of the owner columns meet the hypothesis of the exact theorem |
| `Ownership.OwnerKeysFit` | app/models/artifact_publication_access.py:61-158 | and those of the application's theorems |
| `Ownership.BackedOutsideOpen` | app/db/tenant_scope.py:12-139 | every owner of the other tables and of their ancestors is checked, which the closure theorem needs |
| `Ownership.StatementScope.Scope` | app/db/tenant_scope.py:212-241 | a statement gets the criteria of the current context, whatever context the cached ones were built for |
| `Ownership.WhomAStatementShows` | app/db/tenant_scope.py:224-233 | each statement is narrowed to the tenant on every table, and to the user on all but projects, memberships and audit logs |
| `Ownership.WhatIsLookedUp` | app/db/tenant_scope.py:271-313 | a filled key of a written row is looked up exactly when it does not lead to notifications, drafts, audit logs or an uncovered table, unless its value is the row's own id or comes with the same flush |
| `Ownership.OwnersAreNamed` | app/db/tenant_scope.py:271-281 | where NOT NULL holds, every owner column of a written row of a table owned through all its parents is filled, but for connection requests and the requirement change log |
| `ReadCache.Session.CachedRead` | app/db/read_cache.py:34-55 | returns what loading gives in the view its answer is from: the view of the entry when the context is the same and nothing is pending, otherwise the view of now |
| `ReadCache.Session.Clear` | app/db/read_cache.py:58-63 | empties every cache on the stack |
| `ReadCache.Session.Run` | app/db/read_cache.py:15-63 | any nested program of scopes, reads, edits, flushes, transaction ends, context switches and foreign commits returns exactly the values of its specification with remembered views, and leaves the stack and the caller's cache as they were |
| `ReadCache.TransparentExactlyWhen` | app/db/read_cache.py:34-55 | a program reads the same with and without cache, whatever the loader, if and only if each answer found in a cache was remembered in the view of the moment; nothing need be loaded to find out |
| `ReadCache.QuietProgramsAreTransparent` | app/db/read_cache.py:15-63 | when others commit only while no transaction is open, the cache cannot be told from no cache |
| `ReadCache.ReadsAreRepeatable` | app/db/read_cache.py:34-55 | within a scope a key read again reads the same, whatever is read in between, in nested scopes too, and whatever others commit meanwhile |
| `ReadCache.ReadsThatLoad` | app/db/read_cache.py:34-55 | with pending edits, outside any scope, or in a context the key was not read in, a read loads in the current view; with pending edits it is not remembered |
| `ReadCache.NestingDoesNotMatter` | app/db/read_cache.py:15-31 | in such a program nesting reads in scopes does not change what cached reads return |
| `ReadCache.NestingMattersOtherwise` | app/db/read_cache.py:15-31 | a program with a foreign commit inside the transaction whose cached reads depend on the nesting |
| `RateLimit.Limiter.Dispatch` | app/core/ingress.py:84-99 | one request does to the table, and answers, exactly what the window rule says; the table never outgrows its capacity |
| `RateLimit.NewcomerIsTurnedAwayExactlyWhen` | app/core/ingress.py:89-99 | a client without a window is turned away exactly when the table is full and stays full when the expired windows are dropped; otherwise it is admitted and its window starts |
| `RateLimit.KnownClientIsAdmittedExactlyWhen` | app/core/ingress.py:84-99 | a client with a window is admitted exactly while it has room or is over, and nobody else's window changes |
| `RateLimit.RunningWindowsAreKept` | app/core/ingress.py:89-96 | a running window survives whatever another client asks for |
| `RateLimit.TableIsBounded` | app/core/ingress.py:89-96 | over any run the table never holds more than `max_buckets` entries |
| `RateLimit.AtMostTwiceTheLimit` | app/core/ingress.py:84-99 | under a monotone clock any half-open 60-second interval admits at most 479 requests of a client, or 19 logins, one less than twice the limit, whoever else calls and whatever is evicted |
| `RateLimit.TheBoundIsTight` | app/core/ingress.py:84-99 | a run that reaches that number |
| `RateLimit.EvictionIsHarmless` | app/core/ingress.py:89-96 | every request that is not turned away for want of room gets the verdict of a limiter that never evicts |
| `RateLimit.RetryAfterIsExact` | app/core/ingress.py:97-131 | Retry-After lies in 1..60; waiting it out lifts the client's own count rejection, waiting a second less does not, whatever others do meanwhile |
| `Shards.SlicesPartition` | scripts/pytest_reporter.py:34-40 | the file at position p belongs to shard p mod total + 1 and to no other |
| `Shards.SortedIsUnique` | scripts/pytest_reporter.py:34 | the sorted file list depends only on the set of files, so shards that collect in different orders agree on it |
| `Shards.EachTestHasOneShard` | scripts/pytest_reporter.py:28-48 | shards that collect the same tests, in any order, keep each test in exactly one shard |
| `Shards.Collection.ModifyItems` | scripts/pytest_reporter.py:28-50 | overwrites the items with those kept, in order, loses none between kept and dropped, and is a usage error exactly for a bad shard |
| `Shards.KeptExactlyWhen` | scripts/pytest_reporter.py:28-48 | a collected test is kept exactly when its file is selected, or all are, or it needs no database, and its file's place in the sorted list falls to the shard |
| `Shards.KeptInOrder` | scripts/pytest_reporter.py:28-48 | what is kept stays in the order of the collection |
| `Shards.FileEndsAtTheColons` | scripts/pytest_reporter.py:28-40 | the file of a test id is what comes before its first double colon |
| `Verification.Record` | scripts/verification.py:116-122 | reports a duplicate exactly when a row names an unselected test or repeats a phase, and otherwise records every phase with its outcome |
| `Verification.FailuresAreCounted` | scripts/verification.py:128-138 | the failure counter is present, and positive, exactly when some row failed |
| `Verification.CountersCount` | scripts/verification.py:123-138 | every counter is the number of rows that fall under its name, and is absent when there is none |
| `Verification.Summarize` | scripts/verification.py:112-155 | complete and passed mean exactly what the rows show: each selected test has setup and teardown, and a call if its setup passed, once each, and nothing failed |
| `Verification.Check` | scripts/check_verification.py:8-37 | accepts exactly when each shard appears once, passed and complete, all collected the same tests, and every test ran in one shard |
| `Verification.AcceptedMeansEveryTestRan` | scripts/check_verification.py:8-37 | if the checker accepts honest summaries, every collected test ran fully, without failure, one report per phase, in exactly one shard, and no other shard recorded anything of it |
| `Verification.PassingShardsAreAccepted` | scripts/check_verification.py:8-37 | passing shards that collect the same tests and run their slice are accepted |
| `Renaming.PrintIsInjective` | alembic/versions/9e0f1a2b3c4d_multiple_pattern_expectations.py:44-46 | zero-padded printing never maps two numbers to one code |
| `Renaming.PrintedCode` | alembic/versions/9e0f1a2b3c4d_multiple_pattern_expectations.py:44-46 | a code is P and the number in decimal, padded with zeros to three digits and no further |
| `Renaming.FindFree` | alembic/versions/9e0f1a2b3c4d_multiple_pattern_expectations.py:43-45 | the search ends within as many steps as there are codes, at the least free number |
| `Renaming.RenamedIsNew` | alembic/versions/9e0f1a2b3c4d_multiple_pattern_expectations.py:36-47 | a renamed code differs from every original code of its group and from every earlier row's code |
| `Renaming.DistinctStaysDistinct` | alembic/versions/9e0f1a2b3c4d_multiple_pattern_expectations.py:36-52 | two patterns of a group share a code afterwards only if both were left alone and shared it before |
| `Renaming.ChangedExactlyWhen` | alembic/versions/9e0f1a2b3c4d_multiple_pattern_expectations.py:48-53 | the changed designs are exactly those owning a renamed pattern |
| `Renaming.PatternTables.Upgrade` | alembic/versions/9e0f1a2b3c4d_multiple_pattern_expectations.py:27-59 | the loops leave every row with the code the row-by-row specification gives it, and raise the version of each changed design by exactly one and of no other |
| `Splice.RoundTrip` | alembic/versions/a3b7c0e5d981_guest_fixed_approvals.py:56-71 | forward splicing succeeds exactly when the word BEGIN is present and the marker absent; the fragment then occurs once, reverse splicing returns the original text, and a second forward splice is refused |
| `Splice.FragmentOccursOnce` | alembic/versions/a3b7c0e5d981_guest_fixed_approvals.py:62-64 | after insertion the fragment occurs at the insertion point and nowhere else |
| `Splice.FragmentFollowsBegin` | alembic/versions/a3b7c0e5d981_guest_fixed_approvals.py:65-71 | the fragment goes right after the first BEGIN that is a word of its own; without one, or with the marker present, splicing is refused |
| `Splice.RemovalTakesOutTheOnlyOne` | alembic/versions/a3b7c0e5d981_guest_fixed_approvals.py:60-64 | removal takes out the only occurrence, and is refused when there is none or another after it |
| `Splice.MarkedBodyIsWholeLines` | alembic/versions/a3b7c0e5d981_guest_fixed_approvals.py:18-53 | a marker line followed by whole lines without the marker has the shape the round trip needs |
| `Splice.Functions.Splice` | alembic/versions/a3b7c0e5d981_guest_fixed_approvals.py:56-71 | the loop over the functions succeeds exactly when every definition fits, and then has rewritten each of them and nothing else |
| `Splice.DowngradeRestores` | alembic/versions/a3b7c0e5d981_guest_fixed_approvals.py:56-71 | downgrading after upgrading always succeeds and restores every definition; upgrading twice is refused |

## Left out

- Statements whose guard always raises (deleting a preservation, object, publication, request, event, basis or import; updating an event, basis, import or publication node) are not operations of the model: they could only be refused.
- Columns no guard or CHECK of a modelled publication reads are one `rest` map per row; other CHECKs on them and the foreign keys to users and projects only reject more and are not modelled, so "accepted" and "commits" are exact up to them.
- Transactions run one after another. Interleaving is modelled statement by statement for the preservation ledger (the guards lock the parent row, so a statement is one atomic step); snapshot visibility between concurrently open transactions, and savepoints inside them, are not.
- Guest bindings, the fragments spliced into the approval guards, and the publication access columns added by later migrations only add rejections or lie outside the frozen header; the base guards are modelled.
- `basis_count` and legacy ids are read as optional integers; a value that does not cast to an integer is not distinguished from a refused statement.
- A uuid is its canonical text, so casting it to text is the identity; uuid generation is left out.
- LegacySwitch.SwitchIsExactlyOnce: holds for runs whose document moves are harmless; `LegacySwitch.MoveKeepsSwitch` and `LegacySwitch.MovingDecidesTheGuard` say exactly which moves break the invariant and the row guard.
- LegacySwitch.RunKeepsSwitch: the same hypothesis on moves.
- LegacySwitch.SwitchedRowIsFrozen: the same hypothesis on moves.
- Ids of the old approval table are never handed out twice, and requirement documents are not deleted; deleting one would delete old approval rows with it, which the theorems allow.
- Download.DownloadIsStable: the tenant id of a delivery is read from the project, which is not frozen, so it is the tenant of the moment; the file content is not read.
- Download.DeliveredExactlyWhen: assumes that `public_id` is injective in version, preservation and slot, and that the public list carries the ids the projection computes in the publication's own version; the hash functions are otherwise arbitrary.
- Requests.AskCommitsExactlyWhen: the guest variant inserts a binding as well and is not modelled; event and bases go in this order, although either could come first.
- Decisions.DecisionCommitsExactlyWhen: the guards let anybody cancel; who may cancel is decided by the service, which is not part of this model.
- Creation.CreationCommitsExactlyWhen: node identities arrive as keys of maps, so a list that repeats an id within one statement, which the primary key refuses, is not expressible; an empty node list is refused by the check rather than by the insert. How the driver cuts the list into statements is left open: every cut is covered.
- Paging.ReleasePaging: is the repository query followed as far as rows remain; what the release service makes of it is `Paging.ServiceIsCompleteExactlyWhen`. That release ordinals have no gaps is not enforced by the tables and not assumed.
- Release creation has no deferred check and is not modelled beyond its three statements.
- Cursor signing and the page's byte measure; a page keeps at least one row or the service raises, and the model takes the number of kept rows as a parameter.
- Notifications.WriterMeetsReader: speaks of the internal reader; the shared (guest) reader and the guest's visibility query are a parameter. Snapshot and context documents and the e-mail queue are left out.
- TenantScope.ValidateTenantWrites: the identity checks of users referenced by a write (member and guest sets) are flat membership tests and are left out, as is the flush that fills in keys from relationships after validation. A row key is one integer called `id`.
- FrameLimits.FrameIsExact: the tables it builds for an unsafe table obey the validator, the one-owner rule and NOT NULL, not further constraints. Schemas in which a required key made of owner columns checks none of them are excluded by `WellKeyed`, which the application's keys satisfy.
- Ownership.ApplicationFrame: takes the application's foreign keys as any superset of the owner columns' own keys; the other keys only make the validator look up more. NOT NULL is a hypothesis on the written rows.
- Ownership.ApplicationFrameIsExact: for the publication events also assumes, as the tables have it, that no further key of theirs makes the project be looked up.
- FlushSafety.FlushClosure: additionally needs the written rows' owner columns to be non-null and vouched for, and foreign keys to hold in the resulting tables.
- TenantScope.ScopesAreDisjoint: for the comment-mention table it uses the rule that exactly one of the four owner columns is filled.
- ReadCache.Session.Run: the loader is pure; a loader that flushes by itself is a flush before the read. Values are integers. A foreign commit is seen at once, as under READ COMMITTED, so the program may return a value that has changed meanwhile; exactly when is `ReadCache.TransparentExactlyWhen`.
- RateLimit.AtMostTwiceTheLimit: times are exact reals and the clock is monotone; the shared database budget that follows the in-process limiter is left out. The informal bound of twice the limit is met with one to spare.
- Shards.Collection.ModifyItems: the shard text "n/total" is a pair of integers; parsing it and the pytest hooks are left out.
- Verification.Check: the order of result files is that of the list; file search and JSON parsing are left out, as are phase timings, the failure list and the exit code fields of the summary.
- Renaming.PatternTables.Upgrade: which codes are numbered, and with which number, is an arbitrary parser, so Unicode digits need no treatment; the rows arrive in the order of the query. The constraint changes around the loops are left out.
- Splice.Functions.Splice: reading a function definition returns the stored text verbatim; after a refusal the enclosing migration transaction undoes the functions already rewritten. That each of the four fragments is a marker line followed by whole lines without the marker is read off the source, not proved about its text.
- Presenters, HTTP, authentication, mail, demo data and the remaining repositories and migrations would only add easy members.
