/** The guards and deferred checks of the approval tables, each as one condition on plain columns. */
module ApprovalGuards {
  import opened Sql
  import opened Approvals
  import Artifacts

  // Requests.

  /** The named node of the release has this kind and source. */
  ghost predicate IsNode(files: Artifacts.State, release: Uuid, node: Uuid, kind: string, source: int) {
    node in files.releaseNodes
    && (var n := files.releaseNodes[node]; n.releaseId == release && n.nodeKind == kind && n.sourceId == source)
  }

  ghost predicate NamesItsRelease(files: Artifacts.State, r: Request) {
    && r.releaseId in files.releases
    && (var rel := files.releases[r.releaseId];
        rel.sealed && rel.projectId == r.projectId && r.scope.bodyDigest == Some(rel.contentDigest))
    && IsNode(files, r.releaseId, r.targetNodeId, r.targetKind, r.sourceId)
  }

  ghost predicate NamesItsPreservation(files: Artifacts.State, r: Request) {
    r.preservationId.Some? ==>
      && r.preservationId.value in files.preservations
      && (var p := files.preservations[r.preservationId.value];
          && p.releaseId == r.releaseId && p.status == Artifacts.Ready
          && p.manifestDigest.Some? && r.scope.preservationDigest == p.manifestDigest)
  }

  /** A legacy import continued by the request is of the same target; an archived one was decided, and a
      switched one is continued by no other request. */
  ghost predicate ContinuesItsImport(s: State, r: Request) {
    r.legacyImportId.Some? ==>
      && r.legacyImportId.value in s.imports
      && (var i := s.imports[r.legacyImportId.value];
          && i.projectId == r.projectId && i.source.targetId == Some(r.sourceId)
          && (|| (i.source.targetType == Some("requirement_item") && r.targetKind == "requirement")
              || (i.source.targetType == Some("document") && r.targetKind == "requirement_document")
              || (i.source.targetType != Some("requirement_item") && i.source.targetType != Some("document")
                  && r.targetKind == ""))
          && (i.mode != Switch ==> i.source.status == Some("approved") || i.source.status == Some("rejected"))
          && (i.mode == Switch ==>
                forall a :: a in s.requests ==> s.requests[a].legacyImportId != r.legacyImportId))
  }

  lemma AskingForApproval(files: Artifacts.State, s: State, id: Uuid, r: Request)
    ensures GuardAllows(files, s, InsertRequest(id, r)) <==>
              && id !in s.requests && NamesItsRelease(files, r) && NamesItsPreservation(files, r)
              && ContinuesItsImport(s, r)
              && r.status == Requested && r.version == 1 && !r.sealed && r.finalizedAt == None
  {
  }

  ghost predicate SameRequest(a: Request, b: Request) {
    && a.projectId == b.projectId && a.releaseId == b.releaseId && a.targetNodeId == b.targetNodeId
    && a.targetKind == b.targetKind && a.sourceId == b.sourceId && a.preservationId == b.preservationId
    && a.scope == b.scope && a.scopeDigest == b.scopeDigest && a.requesterId == b.requesterId
    && a.approverId == b.approverId && a.operationId == b.operationId && a.legacyImportId == b.legacyImportId
    && a.rest == b.rest
  }

  lemma MovingARequest(files: Artifacts.State, s: State, id: Uuid, r: Request)
    ensures GuardAllows(files, s, UpdateRequest(id, r)) <==>
              && id in s.requests && SameRequest(r, s.requests[id])
              && (var before := s.requests[id];
                  if !before.sealed
                  then r.sealed && r.status == before.status && r.version == before.version
                       && r.finalizedAt == before.finalizedAt
                  else r.sealed && before.status == Requested && r.version == before.version + 1
                       && r.finalizedAt.Some?
                       && (r.status == Approved || r.status == ApprovedWithExceptions || r.status == Rejected
                           || r.status == Cancelled))
  {
  }

  // Events and bases.

  lemma RecordingAnEvent(files: Artifacts.State, s: State, id: Uuid, e: Event)
    ensures GuardAllows(files, s, InsertEvent(id, e)) <==>
              && id !in s.events && e.approvalId in s.requests
              && (var r := s.requests[e.approvalId];
                  && e.scopeDigest == r.scopeDigest
                  && (e.number == 1 ==> !r.sealed && e.action == Requested && e.actorId == r.requesterId)
                  && (e.number == 2 ==> r.sealed && r.version == 2 && e.action == r.status
                                        && (e.action != Cancelled ==> e.actorId == r.approverId)))
  {
  }

  /** The approval and event a basis names are an approval of the same requirement. */
  ghost predicate NamesAnApproval(s: State, b: Basis, project: int) {
    && b.agreedApprovalId.Some? && b.agreedApprovalId.value in s.requests
    && b.agreedEventId.Some? && b.agreedEventId.value in s.events
    && (var a, e := s.requests[b.agreedApprovalId.value], s.events[b.agreedEventId.value];
        && a.sealed && a.status == Approved && a.targetKind == "requirement" && a.projectId == project
        && a.sourceId == b.sourceId && a.scope.requirementDigest == Some(b.subjectDigest)
        && e.approvalId == b.agreedApprovalId.value && e.number == 2 && e.action == Approved)
  }

  lemma AddingABasis(files: Artifacts.State, s: State, id: Uuid, b: Basis)
    ensures GuardAllows(files, s, InsertBasis(id, b)) <==>
              && id !in s.bases && b.approvalId in s.requests
              && (var r := s.requests[b.approvalId];
                  && !r.sealed && r.targetKind == "requirement_document" && r.releaseId == b.releaseId
                  && IsNode(files, b.releaseId, b.targetNodeId, "requirement", b.sourceId)
                  && (b.kind == Agreed ==> NamesAnApproval(s, b, r.projectId)))
  {
  }

  lemma KindOfBasis(b: Basis)
    ensures BasisKindCheck(b) <==>
              || (b.kind == Agreed && b.agreedApprovalId.Some? && b.agreedEventId.Some? && b.reason == None)
              || (b.kind == Exception && b.agreedApprovalId == None && b.agreedEventId == None && b.reason.Some?
                  && exists i :: 0 <= i < |b.reason.value| && b.reason.value[i] != ' ')
  {
  }

  /** A reason counts when it has a character other than a space. */
  lemma ReasonIsGiven(reason: Option<string>)
    ensures NonBlank(reason) <==>
              reason.Some? && exists i :: 0 <= i < |reason.value| && reason.value[i] != ' '
  {
  }

  // Legacy imports.

  lemma ImportingAnApproval(files: Artifacts.State, s: State, id: Uuid, i: Import)
    ensures GuardAllows(files, s, InsertImport(id, i)) <==>
              && id !in s.imports && i.legacyApprovalId in s.oldApprovals
              && (var row := s.oldApprovals[i.legacyApprovalId];
                  && row.documentId in s.documents && s.documents[row.documentId] == i.projectId
                  && i.source.id == Some(i.legacyApprovalId) && i.source.status == Some(row.status)
                  && i.source.targetId == Some(row.targetId) && i.source.targetType == Some(row.targetType)
                  && (i.mode == Switch ==>
                        && row.status == "requested"
                        && (row.targetType == "document" || row.targetType == "requirement_item")))
  {
  }

  lemma RewritingAnOldApproval(files: Artifacts.State, s: State, o: int, row: OldApproval)
    requires o in s.oldApprovals && s.oldApprovals[o].documentId in s.documents
    ensures GuardAllows(files, s, UpdateOldApproval(o, row)) <==>
              forall i :: i in s.imports && s.imports[i].legacyApprovalId == o && s.imports[i].mode == Switch ==>
                            s.imports[i].projectId != s.documents[s.oldApprovals[o].documentId]
  {
  }

  // Deferred checks.

  ghost predicate EventIs(s: State, e: Uuid, id: Uuid, number: int, action: Word) {
    e in s.events && s.events[e].approvalId == id && s.events[e].number == number && s.events[e].action == action
    && id in s.requests && s.events[e].scopeDigest == s.requests[id].scopeDigest
  }

  ghost predicate ExceptionIs(s: State, b: Uuid, id: Uuid) {
    b in s.bases && s.bases[b].approvalId == id && s.bases[b].kind == Exception
  }

  ghost predicate Given(reason: Option<string>) {
    reason.Some? && exists i :: 0 <= i < |reason.value| && reason.value[i] != ' '
  }

  ghost predicate BasesSuit(s: State, id: Uuid)
    requires id in s.requests
  {
    var r := s.requests[id];
    && r.scope.basisCount == Some(|set b | b in s.bases && s.bases[b].approvalId == id|)
    && (r.status == Approved ==> forall b :: !ExceptionIs(s, b, id))
    && (r.status == ApprovedWithExceptions ==>
          r.targetKind == "requirement_document" && exists b :: ExceptionIs(s, b, id))
  }

  ghost predicate DecisionIs(s: State, d: Uuid, id: Uuid)
    requires id in s.requests
  {
    var r := s.requests[id];
    && EventIs(s, d, id, 2, r.status)
    && (r.status != Cancelled ==> s.events[d].actorId == r.approverId)
    && (r.status == Rejected || r.status == Cancelled ==> Given(s.events[d].reason))
  }

  lemma CompleteSpelledOut(s: State, id: Uuid)
    requires id in s.requests
    ensures RequestComplete(s, id) <==>
              && s.requests[id].sealed
              && |set e | e in s.events && s.events[e].approvalId == id| == s.requests[id].version
              && (exists e :: EventIs(s, e, id, 1, Requested) && s.events[e].actorId == s.requests[id].requesterId)
              && (s.requests[id].version == 2 ==> exists d :: DecisionIs(s, d, id))
              && BasesSuit(s, id)
  {
    assert EventsOf(s, id) == set e | e in s.events && s.events[e].approvalId == id;
    assert BasesOf(s, id) == set b | b in s.bases && s.bases[b].approvalId == id;
    forall e ensures e in EventsOf(s, id) && FirstEvent(s, id, e) <==>
                       EventIs(s, e, id, 1, Requested) && s.events[e].actorId == s.requests[id].requesterId
    {
    }
    forall d ensures d in EventsOf(s, id) && DecisionEvent(s, id, d) <==> DecisionIs(s, d, id) {
      if d in s.events {
        ReasonIsGiven(s.events[d].reason);
      }
    }
    forall b ensures b in BasesOf(s, id) && s.bases[b].kind == Exception <==> ExceptionIs(s, b, id) {
    }
  }

  lemma SwitchSpelledOut(s: State, i: Uuid)
    requires i in s.imports
    ensures SwitchComplete(s, i) <==>
              (s.imports[i].mode == Switch ==>
                 exists r :: r in s.requests && s.requests[r].legacyImportId == Some(i)
                             && s.requests[r].projectId == s.imports[i].projectId)
  {
  }

  // What the constraints refuse.

  /** Nobody approves their own request. */
  lemma SelfApprovalIsRefused(files: Artifacts.State, s: State, id: Uuid, r: Request)
    requires r.requesterId == r.approverId
    ensures !Accepts(files, s, InsertRequest(id, r)) && !Accepts(files, s, UpdateRequest(id, r))
  {
    var t := s.(requests := s.requests[id := r]);
    assert t.requests[id] == r;
  }

  lemma SecondPendingRequestIsRefused(files: Artifacts.State, s: State, id: Uuid, r: Request, p: Uuid)
    requires p in s.requests && p != id && s.requests[p].status == Requested && r.status == Requested
    requires s.requests[p].projectId == r.projectId && s.requests[p].releaseId == r.releaseId
    requires s.requests[p].targetNodeId == r.targetNodeId && s.requests[p].preservationId == r.preservationId
    ensures !Accepts(files, s, InsertRequest(id, r))
  {
    var t := s.(requests := s.requests[id := r]);
    assert t.requests[p] == s.requests[p] && t.requests[id] == r;
  }

  lemma RepeatedRequestIsRefused(files: Artifacts.State, s: State, id: Uuid, r: Request, p: Uuid)
    requires p in s.requests && p != id && s.requests[p].projectId == r.projectId
    requires s.requests[p].requesterId == r.requesterId && s.requests[p].operationId == r.operationId
    ensures !Accepts(files, s, InsertRequest(id, r))
  {
    var t := s.(requests := s.requests[id := r]);
    assert t.requests[p] == s.requests[p] && t.requests[id] == r;
  }

  lemma SecondEventOfANumberIsRefused(files: Artifacts.State, s: State, id: Uuid, e: Event, x: Uuid)
    requires x in s.events && x != id && s.events[x].approvalId == e.approvalId
    requires s.events[x].number == e.number || s.events[x].operationId == e.operationId
    ensures !Accepts(files, s, InsertEvent(id, e))
  {
    var t := s.(events := s.events[id := e]);
    assert t.events[x] == s.events[x] && t.events[id] == e;
  }

  lemma EventsAreNumberedOneOrTwo(files: Artifacts.State, s: State, id: Uuid, e: Event)
    requires e.number != 1 && e.number != 2
    ensures !Accepts(files, s, InsertEvent(id, e))
  {
    var t := s.(events := s.events[id := e]);
    assert t.events[id] == e;
  }
}
