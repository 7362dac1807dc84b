/**
 * Fixed approvals: requests, events, requirement bases and legacy imports, with the row guards
 * and the two deferred checks. Guards read the artifact tables, given as `files`.
 */
module Approvals {
  import opened Sql
  import Artifacts

  /** A request's status, or an event's action. */
  datatype Word =
    | Requested | Approved | ApprovedWithExceptions | Rejected | Cancelled
    | OtherWord(text: string)

  const REQUIREMENT := "requirement"
  const DOCUMENT := "requirement_document"

  /** Keys of `scope_manifest` that a guard reads; None when the key is absent. */
  datatype Scope = Scope(
    bodyDigest: Option<string>, preservationDigest: Option<string>,
    requirementDigest: Option<string>, basisCount: Option<int>, rest: Columns)

  datatype Request = Request(
    projectId: int, releaseId: Uuid, targetNodeId: Uuid, targetKind: string, sourceId: int,
    preservationId: Option<Uuid>, scope: Scope, scopeDigest: string, requesterId: int,
    approverId: int, status: Word, version: int, sealed: bool, finalizedAt: Option<int>,
    operationId: Uuid, legacyImportId: Option<Uuid>, rest: Columns)

  datatype Event = Event(
    approvalId: Uuid, number: int, operationId: Uuid, actorId: int, action: Word,
    reason: Option<string>, scopeDigest: string, rest: Columns)

  datatype BasisKind = Agreed | Exception | OtherKind(text: string)

  datatype Basis = Basis(
    approvalId: Uuid, releaseId: Uuid, targetNodeId: Uuid, sourceId: int, subjectDigest: string,
    kind: BasisKind, agreedApprovalId: Option<Uuid>, agreedEventId: Option<Uuid>,
    reason: Option<string>, rest: Columns)

  /** Keys of the imported snapshot that a guard reads. */
  datatype LegacySource = LegacySource(
    id: Option<int>, status: Option<string>, targetId: Option<int>, targetType: Option<string>)

  datatype Mode = Archive | Switch | OtherMode(text: string)

  datatype Import = Import(
    projectId: int, legacyApprovalId: int, source: LegacySource, sourceDigest: string, mode: Mode,
    createdBy: int, operationId: Uuid, rest: Columns)

  /** A row of the old approval table. */
  datatype OldApproval = OldApproval(
    documentId: int, status: string, targetId: int, targetType: string, rest: Columns)

  /** `issued` are the ids the old table has handed out; an id is never handed out twice. */
  datatype State = State(
    requests: map<Uuid, Request>, events: map<Uuid, Event>, bases: map<Uuid, Basis>,
    imports: map<Uuid, Import>, oldApprovals: map<int, OldApproval>, issued: set<int>,
    documents: map<int, int>)

  datatype Op =
    | InsertRequest(id: Uuid, request: Request)
    | UpdateRequest(id: Uuid, request: Request)
    | InsertEvent(id: Uuid, event: Event)
    | InsertBasis(id: Uuid, basis: Basis)
    | InsertImport(id: Uuid, imported: Import)
    | InsertOldApproval(oldId: int, approval: OldApproval)
    | UpdateOldApproval(oldId: int, approval: OldApproval)
    | DeleteOldApproval(oldId: int)
    | InsertDocument(document: int, project: int)
    | MoveDocument(document: int, project: int)

  const EMPTY := State(map[], map[], map[], map[], map[], {}, map[])

  predicate Blank(text: string) {
    forall i | 0 <= i < |text| :: text[i] == ' '
  }

  predicate NonBlank(reason: Option<string>) {
    reason.Some? && !Blank(reason.value)
  }

  function EventsOf(s: State, id: Uuid): set<Uuid> {
    set e | e in s.events && s.events[e].approvalId == id
  }

  function BasesOf(s: State, id: Uuid): set<Uuid> {
    set b | b in s.bases && s.bases[b].approvalId == id
  }

  // Table constraints.

  predicate RequestConstraints(s: State) {
    && (forall r | r in s.requests ::
          var row := s.requests[r];
          && !row.status.OtherWord?
          && (row.targetKind == REQUIREMENT || row.targetKind == DOCUMENT)
          && row.requesterId != row.approverId
          && (row.version == 1 || row.version == 2)
          && (row.legacyImportId.Some? ==> row.legacyImportId.value in s.imports))
    && (forall a, b | a in s.requests && b in s.requests
                      && s.requests[a].projectId == s.requests[b].projectId
                      && s.requests[a].requesterId == s.requests[b].requesterId
                      && s.requests[a].operationId == s.requests[b].operationId :: a == b)
    && (forall a, b | a in s.requests && b in s.requests
                      && s.requests[a].status == Requested == s.requests[b].status
                      && s.requests[a].projectId == s.requests[b].projectId
                      && s.requests[a].releaseId == s.requests[b].releaseId
                      && s.requests[a].targetNodeId == s.requests[b].targetNodeId
                      && s.requests[a].preservationId == s.requests[b].preservationId :: a == b)
  }

  predicate EventConstraints(s: State) {
    && (forall e | e in s.events ::
          s.events[e].approvalId in s.requests && (s.events[e].number == 1 || s.events[e].number == 2))
    && (forall a, b | a in s.events && b in s.events
                      && s.events[a].approvalId == s.events[b].approvalId
                      && s.events[a].number == s.events[b].number :: a == b)
    && (forall a, b | a in s.events && b in s.events
                      && s.events[a].approvalId == s.events[b].approvalId
                      && s.events[a].operationId == s.events[b].operationId :: a == b)
  }

  /** The CHECK on the basis kind: agreed with its two references, or an exception with a reason. */
  predicate BasisKindCheck(b: Basis) {
    || (b.kind == Agreed && b.agreedApprovalId.Some? && b.agreedEventId.Some? && b.reason.None?)
    || (b.kind == Exception && b.agreedApprovalId.None? && b.agreedEventId.None?
        && NonBlank(b.reason))
  }

  predicate BasisConstraints(s: State) {
    && (forall b | b in s.bases ::
          && s.bases[b].approvalId in s.requests
          && BasisKindCheck(s.bases[b])
          && (s.bases[b].agreedApprovalId.Some? ==> s.bases[b].agreedApprovalId.value in s.requests)
          && (s.bases[b].agreedEventId.Some? ==> s.bases[b].agreedEventId.value in s.events))
    && (forall a, b | a in s.bases && b in s.bases
                      && s.bases[a].approvalId == s.bases[b].approvalId
                      && s.bases[a].targetNodeId == s.bases[b].targetNodeId :: a == b)
  }

  predicate ImportConstraints(s: State) {
    && (forall i | i in s.imports :: !s.imports[i].mode.OtherMode?)
    && (forall a, b | a in s.imports && b in s.imports
                      && s.imports[a].projectId == s.imports[b].projectId
                      && s.imports[a].createdBy == s.imports[b].createdBy
                      && s.imports[a].operationId == s.imports[b].operationId :: a == b)
    && (forall a, b | a in s.imports && b in s.imports
                      && s.imports[a].projectId == s.imports[b].projectId
                      && s.imports[a].legacyApprovalId == s.imports[b].legacyApprovalId
                      && s.imports[a].sourceDigest == s.imports[b].sourceDigest
                      && s.imports[a].mode == s.imports[b].mode :: a == b)
    && (forall a, b | a in s.imports && b in s.imports
                      && s.imports[a].mode == Switch == s.imports[b].mode
                      && s.imports[a].projectId == s.imports[b].projectId
                      && s.imports[a].legacyApprovalId == s.imports[b].legacyApprovalId :: a == b)
  }

  predicate OldConstraints(s: State) {
    forall o | o in s.oldApprovals :: s.oldApprovals[o].documentId in s.documents
  }

  predicate Constraints(s: State) {
    && RequestConstraints(s)
    && EventConstraints(s)
    && BasisConstraints(s)
    && ImportConstraints(s)
    && OldConstraints(s)
  }

  // Row guards.

  predicate NodeIs(files: Artifacts.State, release: Uuid, node: Uuid, kind: string, source: int) {
    && node in files.releaseNodes
    && files.releaseNodes[node].releaseId == release
    && files.releaseNodes[node].nodeKind == kind
    && files.releaseNodes[node].sourceId == source
  }

  /** The request names a node of a sealed release of its project, with the recorded body digest. */
  predicate ScopeHolds(files: Artifacts.State, r: Request) {
    && Artifacts.SealedRelease(files, r.releaseId)
    && files.releases[r.releaseId].projectId == r.projectId
    && NodeIs(files, r.releaseId, r.targetNodeId, r.targetKind, r.sourceId)
    && r.scope.bodyDigest == Some(files.releases[r.releaseId].contentDigest)
  }

  predicate PreservationHolds(files: Artifacts.State, r: Request) {
    r.preservationId.Some? ==>
      var p := r.preservationId.value;
      && Artifacts.ReadyPreservation(files, p)
      && files.preservations[p].releaseId == r.releaseId
      && r.scope.preservationDigest.Some?
      && files.preservations[p].manifestDigest == r.scope.preservationDigest
  }

  function KindOfLegacy(targetType: Option<string>): string {
    if targetType == Some("requirement_item") then REQUIREMENT
    else if targetType == Some("document") then DOCUMENT
    else ""
  }

  predicate LegacyHolds(s: State, r: Request) {
    r.legacyImportId.Some? ==>
      var i := r.legacyImportId.value;
      && i in s.imports
      && s.imports[i].projectId == r.projectId
      && s.imports[i].source.targetId == Some(r.sourceId)
      && KindOfLegacy(s.imports[i].source.targetType) == r.targetKind
      && (s.imports[i].mode == Switch
          || s.imports[i].source.status == Some("approved")
          || s.imports[i].source.status == Some("rejected"))
      && (s.imports[i].mode == Switch ==>
            forall a | a in s.requests :: s.requests[a].legacyImportId != Some(i))
  }

  predicate InsertRequestAllowed(files: Artifacts.State, s: State, r: Request) {
    && ScopeHolds(files, r)
    && r.status == Requested && r.version == 1 && !r.sealed && r.finalizedAt.None?
    && PreservationHolds(files, r)
    && LegacyHolds(s, r)
  }

  predicate IsDecision(w: Word) {
    w == Approved || w == ApprovedWithExceptions || w == Rejected || w == Cancelled
  }

  /** Seal once, then decide once; no other column ever changes. */
  predicate UpdateRequestAllowed(before: Request, after: Request) {
    if !before.sealed then after.sealed && after.(sealed := before.sealed) == before
    else
      && before.status == Requested && IsDecision(after.status)
      && after.version == before.version + 1 && after.finalizedAt.Some?
      && after.(status := before.status, version := before.version,
                finalizedAt := before.finalizedAt) == before
  }

  /** The approval an "agreed" basis relies on: approved by decision, same project and subject. */
  predicate AgreedEvidence(s: State, b: Basis, project: int) {
    && b.agreedApprovalId.Some? && b.agreedApprovalId.value in s.requests
    && b.agreedEventId.Some? && b.agreedEventId.value in s.events
    && (var a, e := s.requests[b.agreedApprovalId.value], s.events[b.agreedEventId.value];
        && e.approvalId == b.agreedApprovalId.value
        && a.sealed && a.status == Approved && a.targetKind == REQUIREMENT
        && a.projectId == project && a.sourceId == b.sourceId
        && e.number == 2 && e.action == Approved
        && a.scope.requirementDigest == Some(b.subjectDigest))
  }

  predicate InsertBasisAllowed(files: Artifacts.State, s: State, b: Basis) {
    && b.approvalId in s.requests
    && (var req := s.requests[b.approvalId];
        && !req.sealed && req.targetKind == DOCUMENT && req.releaseId == b.releaseId
        && NodeIs(files, b.releaseId, b.targetNodeId, REQUIREMENT, b.sourceId)
        && (b.kind == Agreed ==> AgreedEvidence(s, b, req.projectId)))
  }

  predicate InsertEventAllowed(s: State, e: Event) {
    && e.approvalId in s.requests
    && (var req := s.requests[e.approvalId];
        && e.scopeDigest == req.scopeDigest
        && (e.number == 1 ==> !req.sealed && e.action == Requested && e.actorId == req.requesterId)
        && (e.number == 2 ==>
              && req.sealed && req.version == 2 && e.action == req.status
              && (e.action == Cancelled || e.actorId == req.approverId)))
  }

  /** The snapshot is that of an existing old approval of the project; only a pending one switches. */
  predicate InsertImportAllowed(s: State, i: Import) {
    && i.legacyApprovalId in s.oldApprovals
    && (var row := s.oldApprovals[i.legacyApprovalId];
        && row.documentId in s.documents && s.documents[row.documentId] == i.projectId
        && i.source == LegacySource(Some(i.legacyApprovalId), Some(row.status),
                                    Some(row.targetId), Some(row.targetType))
        && (i.mode == Switch ==>
              row.status == "requested"
              && (row.targetType == "document" || row.targetType == "requirement_item")))
  }

  /** A switch import of this old approval exists in the project its document belongs to. */
  predicate Migrated(s: State, oldId: int) {
    && oldId in s.oldApprovals
    && s.oldApprovals[oldId].documentId in s.documents
    && exists i | i in s.imports ::
         && s.imports[i].legacyApprovalId == oldId && s.imports[i].mode == Switch
         && s.imports[i].projectId == s.documents[s.oldApprovals[oldId].documentId]
  }

  predicate GuardAllows(files: Artifacts.State, s: State, op: Op) {
    match op
    case InsertRequest(id, row) => id !in s.requests && InsertRequestAllowed(files, s, row)
    case UpdateRequest(id, row) => id in s.requests && UpdateRequestAllowed(s.requests[id], row)
    case InsertEvent(id, row) => id !in s.events && InsertEventAllowed(s, row)
    case InsertBasis(id, row) => id !in s.bases && InsertBasisAllowed(files, s, row)
    case InsertImport(id, row) => id !in s.imports && InsertImportAllowed(s, row)
    case InsertOldApproval(id, row) => id !in s.issued
    case UpdateOldApproval(id, row) => id in s.oldApprovals && !Migrated(s, id)
    case DeleteOldApproval(id) => id in s.oldApprovals
    case InsertDocument(document, project) => document !in s.documents
    case MoveDocument(document, project) => document in s.documents
  }

  function Effect(s: State, op: Op): State {
    match op
    case InsertRequest(id, row) => s.(requests := s.requests[id := row])
    case UpdateRequest(id, row) => s.(requests := s.requests[id := row])
    case InsertEvent(id, row) => s.(events := s.events[id := row])
    case InsertBasis(id, row) => s.(bases := s.bases[id := row])
    case InsertImport(id, row) => s.(imports := s.imports[id := row])
    case InsertOldApproval(id, row) =>
      s.(oldApprovals := s.oldApprovals[id := row], issued := s.issued + {id})
    case UpdateOldApproval(id, row) => s.(oldApprovals := s.oldApprovals[id := row])
    case DeleteOldApproval(id) => s.(oldApprovals := s.oldApprovals - {id})
    case InsertDocument(document, project) => s.(documents := s.documents[document := project])
    case MoveDocument(document, project) => s.(documents := s.documents[document := project])
  }

  predicate Accepts(files: Artifacts.State, s: State, op: Op) {
    GuardAllows(files, s, op) && Constraints(Effect(s, op))
  }

  function TouchedRequests(op: Op): set<Uuid> {
    match op
    case InsertRequest(id, _) => {id}
    case UpdateRequest(id, _) => {id}
    case _ => {}
  }

  function TouchedImports(op: Op): set<Uuid> {
    if op.InsertImport? then {op.id} else {}
  }

  // Deferred checks.

  predicate FirstEvent(s: State, id: Uuid, e: Uuid)
    requires id in s.requests
  {
    && e in EventsOf(s, id) && s.events[e].number == 1 && s.events[e].action == Requested
    && s.events[e].actorId == s.requests[id].requesterId
    && s.events[e].scopeDigest == s.requests[id].scopeDigest
  }

  predicate DecisionEvent(s: State, id: Uuid, e: Uuid)
    requires id in s.requests
  {
    var req := s.requests[id];
    && e in EventsOf(s, id) && s.events[e].number == 2 && s.events[e].action == req.status
    && s.events[e].scopeDigest == req.scopeDigest
    && (req.status == Cancelled || s.events[e].actorId == req.approverId)
    && (req.status == Rejected || req.status == Cancelled ==> NonBlank(s.events[e].reason))
  }

  predicate HasException(s: State, id: Uuid) {
    exists b | b in BasesOf(s, id) :: s.bases[b].kind == Exception
  }

  predicate RequestComplete(s: State, id: Uuid) {
    && id in s.requests
    && (var req := s.requests[id];
        && req.sealed && |EventsOf(s, id)| == req.version
        && (exists e | e in EventsOf(s, id) :: FirstEvent(s, id, e))
        && (req.version == 2 ==> exists e | e in EventsOf(s, id) :: DecisionEvent(s, id, e))
        && req.scope.basisCount == Some(|BasesOf(s, id)|)
        && (req.status == Approved ==> !HasException(s, id))
        && (req.status == ApprovedWithExceptions ==>
              req.targetKind == DOCUMENT && HasException(s, id)))
  }

  predicate SwitchComplete(s: State, i: Uuid) {
    && i in s.imports
    && (s.imports[i].mode == Switch ==>
          exists r | r in s.requests ::
            s.requests[r].legacyImportId == Some(i)
            && s.requests[r].projectId == s.imports[i].projectId)
  }
}
