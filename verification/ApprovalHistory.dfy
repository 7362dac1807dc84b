/** What the approval guards keep over every run, transaction by transaction and in between. */
module ApprovalHistory {
  import opened Sql
  import opened Approvals
  import Artifacts

  // What can no longer change.

  ghost predicate RequestsKept(a: State, b: State) {
    forall r :: r in a.requests ==>
      && r in b.requests
      && (var x, y := a.requests[r], b.requests[r];
          && y.(sealed := x.sealed, status := x.status, version := x.version,
                finalizedAt := x.finalizedAt) == x
          && (x.sealed ==> y.sealed)
          && (x.sealed && x.status != Requested ==> y == x))
  }

  ghost predicate EvidenceKept(a: State, b: State) {
    && (forall e :: e in a.events ==> e in b.events && b.events[e] == a.events[e])
    && (forall k :: k in a.bases ==> k in b.bases && b.bases[k] == a.bases[k])
    && (forall i :: i in a.imports ==> i in b.imports && b.imports[i] == a.imports[i])
    && a.issued <= b.issued
  }

  ghost predicate Kept(a: State, b: State) {
    RequestsKept(a, b) && EvidenceKept(a, b)
  }

  lemma KeptTransitive(a: State, b: State, c: State)
    requires Kept(a, b) && Kept(b, c)
    ensures Kept(a, c)
  {
  }

  lemma StepKeeps(files: Artifacts.State, s: State, op: Op)
    requires GuardAllows(files, s, op)
    ensures Kept(s, Effect(s, op))
  {
  }

  // Invariants of every state, inside a transaction as well.

  /** A request is undecided, or sealed and decided once. */
  ghost predicate RequestShape(s: State) {
    forall r :: r in s.requests ==>
      && (s.requests[r].version == 1 <==> s.requests[r].status == Requested)
      && (!s.requests[r].sealed ==> s.requests[r].status == Requested)
  }

  ghost predicate EventShape(s: State) {
    forall e :: e in s.events && s.events[e].approvalId in s.requests ==>
      var ev, req := s.events[e], s.requests[s.events[e].approvalId];
      && ev.scopeDigest == req.scopeDigest
      && (ev.number == 1 ==> ev.action == Requested && ev.actorId == req.requesterId)
      && (ev.number == 2 ==>
            && req.sealed && req.version == 2 && ev.action == req.status
            && (ev.action == Cancelled || ev.actorId == req.approverId))
  }

  ghost predicate BasisShape(s: State) {
    forall b :: b in s.bases && s.bases[b].approvalId in s.requests ==>
      var req := s.requests[s.bases[b].approvalId];
      && req.targetKind == DOCUMENT && req.releaseId == s.bases[b].releaseId
      && (s.bases[b].kind == Agreed ==> AgreedEvidence(s, s.bases[b], req.projectId))
  }

  ghost predicate LegacyShape(s: State) {
    && (forall r :: r in s.requests && s.requests[r].legacyImportId.Some? ==>
          && s.requests[r].legacyImportId.value in s.imports
          && s.imports[s.requests[r].legacyImportId.value].projectId == s.requests[r].projectId)
    && (forall p, q, i :: p in s.requests && q in s.requests && i in s.imports
                          && s.imports[i].mode == Switch
                          && s.requests[p].legacyImportId == Some(i) == s.requests[q].legacyImportId
          ==> p == q)
    && (forall i :: i in s.imports ==> s.imports[i].legacyApprovalId in s.issued)
    && (forall o :: o in s.oldApprovals ==> o in s.issued)
  }

  ghost predicate Inv(s: State) {
    Constraints(s) && RequestShape(s) && EventShape(s) && BasisShape(s) && LegacyShape(s)
  }

  lemma EmptyHolds()
    ensures Inv(EMPTY)
  {
  }

  lemma RequestShapeStep(files: Artifacts.State, s: State, op: Op)
    requires RequestShape(s) && RequestConstraints(s) && GuardAllows(files, s, op)
    ensures RequestShape(Effect(s, op))
  {
  }

  lemma EventShapeStep(files: Artifacts.State, s: State, op: Op)
    requires RequestShape(s) && EventShape(s) && EventConstraints(s) && GuardAllows(files, s, op)
    ensures EventShape(Effect(s, op))
  {
  }

  lemma EvidenceStays(a: State, b: State, basis: Basis, project: int)
    requires Kept(a, b) && AgreedEvidence(a, basis, project)
    ensures AgreedEvidence(b, basis, project)
  {
  }

  lemma BasisShapeStep(files: Artifacts.State, s: State, op: Op)
    requires BasisShape(s) && BasisConstraints(s) && GuardAllows(files, s, op)
    ensures BasisShape(Effect(s, op))
  {
    var t := Effect(s, op);
    StepKeeps(files, s, op);
    forall b | b in t.bases && t.bases[b].approvalId in t.requests
      ensures
        var req := t.requests[t.bases[b].approvalId];
        && req.targetKind == DOCUMENT && req.releaseId == t.bases[b].releaseId
        && (t.bases[b].kind == Agreed ==> AgreedEvidence(t, t.bases[b], req.projectId))
    {
      var basis := t.bases[b];
      assert basis.approvalId in s.requests;
      if basis.kind == Agreed {
        EvidenceStays(s, t, basis, s.requests[basis.approvalId].projectId);
      }
    }
  }

  lemma LegacyShapeStep(files: Artifacts.State, s: State, op: Op)
    requires LegacyShape(s) && GuardAllows(files, s, op)
    ensures LegacyShape(Effect(s, op))
  {
  }

  lemma StepKeepsInv(files: Artifacts.State, s: State, op: Op)
    requires Inv(s) && Accepts(files, s, op)
    ensures Inv(Effect(s, op))
  {
    RequestShapeStep(files, s, op);
    EventShapeStep(files, s, op);
    BasisShapeStep(files, s, op);
    LegacyShapeStep(files, s, op);
  }

  // Deferred checks hold for what a transaction does not touch.

  /** Sealing closes number 1 and the recorded decision occupies number 2. */
  lemma NoFurtherEvent(s: State, id: Uuid, e: Uuid, row: Event)
    requires RequestComplete(s, id) && row.approvalId == id && e !in s.events
    requires InsertEventAllowed(s, row)
    ensures !EventConstraints(s.(events := s.events[e := row]))
  {
    var t := s.(events := s.events[e := row]);
    assert t.events[e] == row;
    if row.number == 2 {
      var d :| d in EventsOf(s, id) && DecisionEvent(s, id, d);
      assert t.events[d] == s.events[d] && d != e;
    }
  }

  lemma UntouchedRows(files: Artifacts.State, s: State, op: Op, id: Uuid)
    requires id in s.requests && s.requests[id].sealed
    requires GuardAllows(files, s, op) && id !in TouchedRequests(op)
    requires op.InsertEvent? ==> op.event.approvalId != id
    ensures EventsOf(Effect(s, op), id) == EventsOf(s, id)
    ensures BasesOf(Effect(s, op), id) == BasesOf(s, id)
    ensures id in Effect(s, op).requests && Effect(s, op).requests[id] == s.requests[id]
  {
  }

  /** A complete request gains no event and no basis without being touched itself. */
  lemma UntouchedGainsNothing(files: Artifacts.State, s: State, op: Op, id: Uuid)
    requires RequestComplete(s, id)
    requires Accepts(files, s, op) && id !in TouchedRequests(op)
    ensures EventsOf(Effect(s, op), id) == EventsOf(s, id)
    ensures BasesOf(Effect(s, op), id) == BasesOf(s, id)
    ensures id in Effect(s, op).requests && Effect(s, op).requests[id] == s.requests[id]
  {
    if op.InsertEvent? && op.event.approvalId == id {
      NoFurtherEvent(s, id, op.id, op.event);
      assert false;
    }
    UntouchedRows(files, s, op, id);
  }

  /** Completeness reads only the request, its events and its bases. */
  lemma SameRowsSameCheck(s: State, t: State, id: Uuid)
    requires RequestComplete(s, id) && Kept(s, t)
    requires EventsOf(t, id) == EventsOf(s, id) && BasesOf(t, id) == BasesOf(s, id)
    requires id in t.requests && t.requests[id] == s.requests[id]
    ensures RequestComplete(t, id)
  {
    var e :| e in EventsOf(s, id) && FirstEvent(s, id, e);
    assert FirstEvent(t, id, e);
    if s.requests[id].version == 2 {
      var d :| d in EventsOf(s, id) && DecisionEvent(s, id, d);
      assert DecisionEvent(t, id, d);
    }
    assert HasException(t, id) == HasException(s, id) by {
      assert forall b :: b in BasesOf(s, id) ==> t.bases[b] == s.bases[b];
    }
  }

  lemma UntouchedStaysComplete(files: Artifacts.State, s: State, op: Op, id: Uuid)
    requires RequestComplete(s, id)
    requires Accepts(files, s, op) && id !in TouchedRequests(op)
    ensures RequestComplete(Effect(s, op), id)
  {
    UntouchedGainsNothing(files, s, op, id);
    StepKeeps(files, s, op);
    SameRowsSameCheck(s, Effect(s, op), id);
  }

  lemma SwitchStaysComplete(a: State, b: State, i: Uuid)
    requires Kept(a, b) && SwitchComplete(a, i)
    ensures SwitchComplete(b, i)
  {
    if a.imports[i].mode == Switch {
      var r :| r in a.requests && a.requests[r].legacyImportId == Some(i)
               && a.requests[r].projectId == a.imports[i].projectId;
      assert r in b.requests && b.requests[r].legacyImportId == Some(i);
    }
  }
}
