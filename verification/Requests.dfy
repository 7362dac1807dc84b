/**
 * Asking for an approval: the request, its first event, its bases and the seal, in one transaction;
 * and the same after the import of an old approval, which is how a switch is made.
 */
module Requests {
  import opened Sql
  import opened Ledger
  import F = Artifacts
  import A = Approvals

  type Bases = map<Uuid, A.Basis>

  datatype NewBasis = NewBasis(id: Uuid, basis: A.Basis)

  /** The bases are inserted one by one, then the request is sealed. */
  function Rest(id: Uuid, req: A.Request, bases: seq<NewBasis>): seq<Op>
    decreases |bases|
  {
    if bases == [] then [OnApprovals(A.UpdateRequest(id, req.(sealed := true)))]
    else [OnApprovals(A.InsertBasis(bases[0].id, bases[0].basis))] + Rest(id, req, bases[1..])
  }

  function Ask(id: Uuid, req: A.Request, e: Uuid, event: A.Event, bases: seq<NewBasis>): seq<Op> {
    [OnApprovals(A.InsertRequest(id, req))] + ([OnApprovals(A.InsertEvent(e, event))] + Rest(id, req, bases))
  }

  /** The rows as the service builds them. */
  predicate IsNew(req: A.Request) {
    req.status == A.Requested && req.version == 1 && !req.sealed && req.finalizedAt.None?
  }

  ghost predicate Belong(bases: seq<NewBasis>, id: Uuid) {
    forall k :: 0 <= k < |bases| ==> bases[k].basis.approvalId == id
  }

  // The conditions.

  /** The same operation, or two pending requests for the same target. */
  predicate Collides(a: A.Request, b: A.Request) {
    || (a.projectId == b.projectId && a.requesterId == b.requesterId && a.operationId == b.operationId)
    || (a.status == A.Requested == b.status && a.projectId == b.projectId && a.releaseId == b.releaseId
        && a.targetNodeId == b.targetNodeId && a.preservationId == b.preservationId)
  }

  /** The request names a node of a sealed release and its preservation as they are, its legacy import
      if any fits, and it is neither a repetition nor a second pending request for the target. */
  ghost predicate RequestFits(files: F.State, s: A.State, id: Uuid, req: A.Request) {
    && id !in s.requests
    && A.ScopeHolds(files, req) && A.PreservationHolds(files, req) && A.LegacyHolds(s, req)
    && (req.targetKind == A.REQUIREMENT || req.targetKind == A.DOCUMENT)
    && req.requesterId != req.approverId
    && (forall p :: p in s.requests ==> !Collides(s.requests[p], req))
  }

  ghost predicate FirstFits(s: A.State, req: A.Request, e: Uuid, event: A.Event) {
    && e !in s.events && event.scopeDigest == req.scopeDigest
    && event.action == A.Requested && event.actorId == req.requesterId
  }

  /** A basis is a requirement of the document's release, agreed on evidence or excepted for a reason. */
  ghost predicate BasisFits(files: F.State, s: A.State, req: A.Request, b: A.Basis) {
    && req.targetKind == A.DOCUMENT && req.releaseId == b.releaseId
    && A.NodeIs(files, b.releaseId, b.targetNodeId, A.REQUIREMENT, b.sourceId)
    && A.BasisKindCheck(b)
    && (b.kind == A.Agreed ==> A.AgreedEvidence(s, b, req.projectId))
  }

  function Joined(soFar: Bases, bases: seq<NewBasis>): Bases
    decreases |bases|
  {
    if bases == [] then soFar else Joined(soFar[bases[0].id := bases[0].basis], bases[1..])
  }

  ghost predicate NodeIsNew(soFar: Bases, b: A.Basis) {
    forall x :: x in soFar ==> soFar[x].targetNodeId != b.targetNodeId
  }

  /** Every basis fits, is new, and is the only one for its node. */
  ghost predicate Joins(files: F.State, s: A.State, req: A.Request, soFar: Bases, bases: seq<NewBasis>)
    decreases |bases|
  {
    bases == []
    || (bases[0].id !in s.bases && bases[0].id !in soFar && BasisFits(files, s, req, bases[0].basis)
        && NodeIsNew(soFar, bases[0].basis)
        && Joins(files, s, req, soFar[bases[0].id := bases[0].basis], bases[1..]))
  }

  // The request.

  function Opened(s: A.State, id: Uuid, req: A.Request): A.State {
    s.(requests := s.requests[id := req])
  }

  lemma RequestGuard(files: F.State, s: A.State, id: Uuid, req: A.Request)
    requires IsNew(req)
    ensures A.GuardAllows(files, s, A.InsertRequest(id, req)) <==>
              id !in s.requests && A.ScopeHolds(files, req) && A.PreservationHolds(files, req) && A.LegacyHolds(s, req)
  {
  }

  predicate RowFits(s: A.State, row: A.Request) {
    && !row.status.OtherWord?
    && (row.targetKind == A.REQUIREMENT || row.targetKind == A.DOCUMENT)
    && row.requesterId != row.approverId
    && (row.version == 1 || row.version == 2)
    && (row.legacyImportId.Some? ==> row.legacyImportId.value in s.imports)
  }

  lemma ConstraintsAsRows(s: A.State)
    ensures A.RequestConstraints(s) <==>
              && (forall r :: r in s.requests ==> RowFits(s, s.requests[r]))
              && (forall a, b :: a in s.requests && b in s.requests && Collides(s.requests[a], s.requests[b]) ==> a == b)
  {
    if A.RequestConstraints(s) {
      forall r | r in s.requests ensures RowFits(s, s.requests[r]) {
      }
    }
    if (forall r :: r in s.requests ==> RowFits(s, s.requests[r]))
       && (forall a, b :: a in s.requests && b in s.requests && Collides(s.requests[a], s.requests[b]) ==> a == b) {
      forall r | r in s.requests ensures RowFits(s, s.requests[r]) {
      }
    }
  }

  lemma OpenedConstraints(s: A.State, id: Uuid, req: A.Request)
    requires A.RequestConstraints(s) && id !in s.requests && IsNew(req) && A.LegacyHolds(s, req)
    ensures A.RequestConstraints(Opened(s, id, req)) <==>
              && (req.targetKind == A.REQUIREMENT || req.targetKind == A.DOCUMENT)
              && req.requesterId != req.approverId
              && (forall p :: p in s.requests ==> !Collides(s.requests[p], req))
  {
    var t := Opened(s, id, req);
    ConstraintsAsRows(s);
    ConstraintsAsRows(t);
    assert t.requests[id] == req;
    forall p | p in s.requests ensures p != id && t.requests[p] == s.requests[p] {
    }
  }

  lemma MoreRequests(s: A.State, t: A.State)
    requires A.EventConstraints(s) && A.BasisConstraints(s) && A.ImportConstraints(s) && A.OldConstraints(s)
    requires t == s.(requests := t.requests) && s.requests.Keys <= t.requests.Keys
    ensures A.EventConstraints(t) && A.BasisConstraints(t) && A.ImportConstraints(t) && A.OldConstraints(t)
  {
  }

  lemma RequestAccepted(files: F.State, s: A.State, id: Uuid, req: A.Request)
    requires A.Constraints(s) && IsNew(req)
    ensures A.Accepts(files, s, A.InsertRequest(id, req)) <==> RequestFits(files, s, id, req)
  {
    RequestGuard(files, s, id, req);
    if id !in s.requests && A.LegacyHolds(s, req) {
      OpenedConstraints(s, id, req);
      MoreRequests(s, Opened(s, id, req));
    }
  }

  // The first event.

  function Begun(s: A.State, id: Uuid, req: A.Request, e: Uuid, event: A.Event): A.State {
    Opened(s, id, req).(events := s.events[e := event])
  }

  lemma FirstGuard(files: F.State, s: A.State, id: Uuid, req: A.Request, e: Uuid, event: A.Event)
    requires IsNew(req) && event.approvalId == id && event.number == 1
    ensures A.GuardAllows(files, Opened(s, id, req), A.InsertEvent(e, event)) <==> FirstFits(s, req, e, event)
  {
  }

  lemma FirstConstraints(s: A.State, id: Uuid, req: A.Request, e: Uuid, event: A.Event)
    requires A.EventConstraints(s) && id !in s.requests && e !in s.events
    requires event.approvalId == id && event.number == 1
    ensures A.EventConstraints(Begun(s, id, req, e, event))
  {
    var t := Begun(s, id, req, e, event);
    forall x | x in s.events ensures x != e && t.events[x] == s.events[x] && s.events[x].approvalId != id {
    }
  }

  lemma MoreEvents(t: A.State, u: A.State)
    requires A.RequestConstraints(t) && A.BasisConstraints(t) && A.ImportConstraints(t) && A.OldConstraints(t)
    requires u == t.(events := u.events) && t.events.Keys <= u.events.Keys
    ensures A.RequestConstraints(u) && A.BasisConstraints(u) && A.ImportConstraints(u) && A.OldConstraints(u)
  {
  }

  lemma FirstAccepted(files: F.State, s: A.State, id: Uuid, req: A.Request, e: Uuid, event: A.Event)
    requires A.EventConstraints(s) && id !in s.requests && A.Constraints(Opened(s, id, req)) && IsNew(req)
    requires event.approvalId == id && event.number == 1
    ensures A.Accepts(files, Opened(s, id, req), A.InsertEvent(e, event)) <==> FirstFits(s, req, e, event)
  {
    FirstGuard(files, s, id, req, e, event);
    if e !in s.events {
      FirstConstraints(s, id, req, e, event);
      MoreEvents(Opened(s, id, req), Begun(s, id, req, e, event));
    }
  }

  // The bases.

  function With(s: A.State, id: Uuid, req: A.Request, e: Uuid, event: A.Event, rows: Bases): A.State {
    Begun(s, id, req, e, event).(bases := s.bases + rows)
  }

  /** Neither the new request nor its event can be evidence. */
  lemma EvidenceIsOlder(s: A.State, id: Uuid, req: A.Request, e: Uuid, event: A.Event, rows: Bases, b: A.Basis)
    requires id !in s.requests && e !in s.events && IsNew(req) && event.number == 1
    ensures A.AgreedEvidence(With(s, id, req, e, event, rows), b, req.projectId) <==> A.AgreedEvidence(s, b, req.projectId)
  {
  }

  lemma BasisGuard(files: F.State, s: A.State, id: Uuid, req: A.Request, e: Uuid, event: A.Event, rows: Bases, n: NewBasis)
    requires id !in s.requests && e !in s.events && IsNew(req) && event.number == 1 && n.basis.approvalId == id
    ensures A.GuardAllows(files, With(s, id, req, e, event, rows), A.InsertBasis(n.id, n.basis)) <==>
              && n.id !in s.bases && n.id !in rows
              && req.targetKind == A.DOCUMENT && req.releaseId == n.basis.releaseId
              && A.NodeIs(files, n.basis.releaseId, n.basis.targetNodeId, A.REQUIREMENT, n.basis.sourceId)
              && (n.basis.kind == A.Agreed ==> A.AgreedEvidence(s, n.basis, req.projectId))
  {
    EvidenceIsOlder(s, id, req, e, event, rows, n.basis);
  }

  ghost predicate RowsBelong(rows: Bases, id: Uuid) {
    forall x :: x in rows ==> rows[x].approvalId == id
  }

  /** The new row against the table as it is. */
  lemma BasisConstraints(t: A.State, k: Uuid, b: A.Basis)
    requires A.BasisConstraints(t) && k !in t.bases && b.approvalId in t.requests
    requires b.kind == A.Agreed && A.BasisKindCheck(b) ==>
               b.agreedApprovalId.value in t.requests && b.agreedEventId.value in t.events
    ensures A.BasisConstraints(t.(bases := t.bases[k := b])) <==>
              && A.BasisKindCheck(b)
              && forall x :: x in t.bases && t.bases[x].approvalId == b.approvalId ==>
                               t.bases[x].targetNodeId != b.targetNodeId
  {
    var u := t.(bases := t.bases[k := b]);
    assert u.bases[k] == b;
    forall x | x in t.bases ensures x != k && u.bases[x] == t.bases[x] {
    }
  }

  /** The request's own bases are the new ones. */
  lemma OwnBases(s: A.State, id: Uuid, rows: Bases, b: A.Basis)
    requires A.BasisConstraints(s) && id !in s.requests && RowsBelong(rows, id) && rows.Keys !! s.bases.Keys
    ensures (forall x :: x in s.bases + rows && (s.bases + rows)[x].approvalId == id ==>
                           (s.bases + rows)[x].targetNodeId != b.targetNodeId)
            <==> NodeIsNew(rows, b)
  {
    assert forall x :: x in rows ==> x in s.bases + rows && (s.bases + rows)[x] == rows[x];
    assert forall x :: x in s.bases ==> s.bases[x].approvalId in s.requests;
  }

  lemma MoreBases(t: A.State, u: A.State)
    requires A.RequestConstraints(t) && A.EventConstraints(t) && A.ImportConstraints(t) && A.OldConstraints(t)
    requires u == t.(bases := u.bases)
    ensures A.RequestConstraints(u) && A.EventConstraints(u) && A.ImportConstraints(u) && A.OldConstraints(u)
  {
  }

  /** What the transaction has reached: request and event are there, the rows so far are accepted. */
  ghost predicate Asking(s: A.State, id: Uuid, req: A.Request, e: Uuid, event: A.Event, rows: Bases) {
    && A.BasisConstraints(s) && A.EventConstraints(s) && id !in s.requests && e !in s.events && IsNew(req)
    && event.approvalId == id && event.number == 1
    && RowsBelong(rows, id) && rows.Keys !! s.bases.Keys
  }

  lemma OneMoreBasis(t: A.State, k: Uuid, b: A.Basis)
    requires A.Constraints(t) && k !in t.bases && b.approvalId in t.requests
    requires b.kind == A.Agreed && A.BasisKindCheck(b) ==>
               b.agreedApprovalId.value in t.requests && b.agreedEventId.value in t.events
    ensures A.Constraints(t.(bases := t.bases[k := b])) <==>
              && A.BasisKindCheck(b)
              && forall x :: x in t.bases && t.bases[x].approvalId == b.approvalId ==>
                               t.bases[x].targetNodeId != b.targetNodeId
  {
    BasisConstraints(t, k, b);
    MoreBases(t, t.(bases := t.bases[k := b]));
  }

  lemma BasisEffect(s: A.State, id: Uuid, req: A.Request, e: Uuid, event: A.Event, rows: Bases, n: NewBasis)
    ensures
      var t := With(s, id, req, e, event, rows);
      && A.Effect(t, A.InsertBasis(n.id, n.basis)) == t.(bases := t.bases[n.id := n.basis])
      && t.(bases := t.bases[n.id := n.basis]) == With(s, id, req, e, event, rows[n.id := n.basis])
  {
    assert (s.bases + rows)[n.id := n.basis] == s.bases + rows[n.id := n.basis];
  }

  lemma EvidenceIsThere(s: A.State, id: Uuid, req: A.Request, e: Uuid, event: A.Event, rows: Bases, b: A.Basis)
    requires b.kind == A.Agreed ==> A.AgreedEvidence(s, b, req.projectId)
    ensures
      var t := With(s, id, req, e, event, rows);
      && id in t.requests && t.bases == s.bases + rows
      && (b.kind == A.Agreed && A.BasisKindCheck(b) ==>
            b.agreedApprovalId.value in t.requests && b.agreedEventId.value in t.events)
  {
  }

  lemma BasisConstraintsAfter(s: A.State, id: Uuid, req: A.Request, e: Uuid, event: A.Event, rows: Bases, n: NewBasis)
    requires Asking(s, id, req, e, event, rows) && A.Constraints(With(s, id, req, e, event, rows))
    requires n.basis.approvalId == id && n.id !in s.bases && n.id !in rows
    requires n.basis.kind == A.Agreed ==> A.AgreedEvidence(s, n.basis, req.projectId)
    ensures A.Constraints(A.Effect(With(s, id, req, e, event, rows), A.InsertBasis(n.id, n.basis))) <==>
              A.BasisKindCheck(n.basis) && NodeIsNew(rows, n.basis)
  {
    BasisEffect(s, id, req, e, event, rows, n);
    EvidenceIsThere(s, id, req, e, event, rows, n.basis);
    OneMoreBasis(With(s, id, req, e, event, rows), n.id, n.basis);
    OwnBases(s, id, rows, n.basis);
  }

  lemma BasisAccepted(files: F.State, s: A.State, id: Uuid, req: A.Request, e: Uuid, event: A.Event, rows: Bases, n: NewBasis)
    requires Asking(s, id, req, e, event, rows) && A.Constraints(With(s, id, req, e, event, rows))
    requires n.basis.approvalId == id
    ensures A.Accepts(files, With(s, id, req, e, event, rows), A.InsertBasis(n.id, n.basis)) <==>
              n.id !in s.bases && n.id !in rows && BasisFits(files, s, req, n.basis) && NodeIsNew(rows, n.basis)
  {
    BasisGuard(files, s, id, req, e, event, rows, n);
    if A.GuardAllows(files, With(s, id, req, e, event, rows), A.InsertBasis(n.id, n.basis)) {
      BasisConstraintsAfter(s, id, req, e, event, rows, n);
    }
  }

  // The seal.

  function Asked(s: A.State, id: Uuid, req: A.Request, e: Uuid, event: A.Event, rows: Bases): A.State {
    With(s, id, req.(sealed := true), e, event, rows)
  }

  lemma SealGuard(files: F.State, t: A.State, id: Uuid, req: A.Request)
    requires id in t.requests && t.requests[id] == req && IsNew(req)
    ensures A.GuardAllows(files, t, A.UpdateRequest(id, req.(sealed := true)))
  {
  }

  lemma SealConstraints(t: A.State, id: Uuid)
    requires A.RequestConstraints(t) && id in t.requests
    ensures A.RequestConstraints(Opened(t, id, t.requests[id].(sealed := true)))
  {
    var u := Opened(t, id, t.requests[id].(sealed := true));
    ConstraintsAsRows(t);
    ConstraintsAsRows(u);
    forall r | r in u.requests ensures RowFits(u, u.requests[r]) {
      assert RowFits(t, t.requests[r]);
    }
    forall a, b | a in u.requests && b in u.requests && Collides(u.requests[a], u.requests[b]) ensures a == b {
      assert Collides(t.requests[a], t.requests[b]);
    }
  }

  lemma SealAccepted(files: F.State, t: A.State, id: Uuid, req: A.Request)
    requires A.Constraints(t) && id in t.requests && t.requests[id] == req && IsNew(req)
    ensures A.Accepts(files, t, A.UpdateRequest(id, req.(sealed := true)))
  {
    SealGuard(files, t, id, req);
    SealConstraints(t, id);
    MoreRequests(t, Opened(t, id, req.(sealed := true)));
  }

  lemma SealEffect(s: A.State, id: Uuid, req: A.Request, e: Uuid, event: A.Event, rows: Bases)
    ensures A.Effect(With(s, id, req, e, event, rows), A.UpdateRequest(id, req.(sealed := true)))
         == Asked(s, id, req, e, event, rows)
  {
    assert s.requests[id := req][id := req.(sealed := true)] == s.requests[id := req.(sealed := true)];
  }

  // The deferred check.

  lemma OwnRows(s: A.State, id: Uuid, req: A.Request, e: Uuid, event: A.Event, rows: Bases)
    requires Asking(s, id, req, e, event, rows)
    ensures A.EventsOf(Asked(s, id, req, e, event, rows), id) == {e}
    ensures A.BasesOf(Asked(s, id, req, e, event, rows), id) == rows.Keys
  {
    var t := Asked(s, id, req, e, event, rows);
    assert t.events == s.events[e := event] && t.bases == s.bases + rows;
    assert forall x :: x in s.events ==> s.events[x].approvalId in s.requests;
    assert forall x :: x in s.bases ==> s.bases[x].approvalId in s.requests;
  }

  lemma CheckAsked(s: A.State, id: Uuid, req: A.Request, e: Uuid, event: A.Event, rows: Bases)
    requires Asking(s, id, req, e, event, rows) && FirstFits(s, req, e, event)
    ensures A.RequestComplete(Asked(s, id, req, e, event, rows), id) <==> req.scope.basisCount == Some(|rows|)
  {
    var t := Asked(s, id, req, e, event, rows);
    OwnRows(s, id, req, e, event, rows);
    assert |rows.Keys| == |rows| && |{e}| == 1;
    assert A.FirstEvent(t, id, e);
  }

  // The whole operation.

  lemma BasisStep(db: Db, s: A.State, id: Uuid, req: A.Request, e: Uuid, event: A.Event, rows: Bases, n: NewBasis,
                  pending: Pending, rest: seq<Op>)
    requires Asking(s, id, req, e, event, rows) && A.Constraints(db.approvals) && n.basis.approvalId == id
    requires db.approvals == With(s, id, req, e, event, rows)
    ensures
      var next := With(s, id, req, e, event, rows[n.id := n.basis]);
      var fits := n.id !in s.bases && n.id !in rows && BasisFits(db.files, s, req, n.basis) && NodeIsNew(rows, n.basis);
      && (Perform(db, pending, [OnApprovals(A.InsertBasis(n.id, n.basis))] + rest)
          == if fits then Perform(db.(approvals := next), pending, rest) else Raised)
      && (fits ==> A.Constraints(next))
  {
    BasisAccepted(db.files, s, id, req, e, event, rows, n);
    BasisEffect(s, id, req, e, event, rows, n);
    OneOp(db, pending, A.InsertBasis(n.id, n.basis), rest);
  }

  lemma OneOp(db: Db, pending: Pending, a: A.Op, rest: seq<Op>)
    ensures Perform(db, pending, [OnApprovals(a)] + rest)
         == if A.Accepts(db.files, db.approvals, a)
            then Perform(db.(approvals := A.Effect(db.approvals, a)),
                         pending.(requests := pending.requests + A.TouchedRequests(a),
                                  imports := pending.imports + A.TouchedImports(a)), rest)
            else Raised
    ensures a.InsertBasis? || a.InsertEvent? ==>
              pending.(requests := pending.requests + A.TouchedRequests(a),
                       imports := pending.imports + A.TouchedImports(a)) == pending
  {
    OneStep(db, pending, OnApprovals(a), rest);
  }

  lemma SealReaches(db: Db, s: A.State, id: Uuid, req: A.Request, e: Uuid, event: A.Event, rows: Bases, pending: Pending)
    requires IsNew(req) && A.Constraints(db.approvals) && db.approvals == With(s, id, req, e, event, rows)
    ensures Perform(db, pending, Rest(id, req, []))
         == Reached(db.(approvals := Asked(s, id, req, e, event, rows)), pending.(requests := pending.requests + {id}))
  {
    SealAccepted(db.files, db.approvals, id, req);
    SealEffect(s, id, req, e, event, rows);
    SealPerformed(db, id, req, pending);
  }

  lemma SealPerformed(db: Db, id: Uuid, req: A.Request, pending: Pending)
    requires A.Accepts(db.files, db.approvals, A.UpdateRequest(id, req.(sealed := true)))
    ensures Perform(db, pending, Rest(id, req, []))
         == Reached(db.(approvals := A.Effect(db.approvals, A.UpdateRequest(id, req.(sealed := true)))),
                    pending.(requests := pending.requests + {id}))
  {
    var seal := A.UpdateRequest(id, req.(sealed := true));
    OneOp(db, pending, seal, []);
    assert [OnApprovals(seal)] + [] == [OnApprovals(seal)];
    assert pending.imports + {} == pending.imports;
  }

  lemma AskingMore(s: A.State, id: Uuid, req: A.Request, e: Uuid, event: A.Event, rows: Bases, bases: seq<NewBasis>)
    requires Asking(s, id, req, e, event, rows) && bases != [] && Belong(bases, id) && bases[0].id !in s.bases
    ensures Asking(s, id, req, e, event, rows[bases[0].id := bases[0].basis]) && Belong(bases[1..], id)
  {
  }

  lemma {:induction false} RestReaches(db: Db, s: A.State, id: Uuid, req: A.Request, e: Uuid, event: A.Event, rows: Bases,
                                       bases: seq<NewBasis>, pending: Pending)
    requires Asking(s, id, req, e, event, rows) && A.Constraints(db.approvals) && Belong(bases, id)
    requires db.approvals == With(s, id, req, e, event, rows)
    ensures
      Perform(db, pending, Rest(id, req, bases)) ==
      if Joins(db.files, s, req, rows, bases)
      then Reached(db.(approvals := Asked(s, id, req, e, event, Joined(rows, bases))),
                   pending.(requests := pending.requests + {id}))
      else Raised
    decreases |bases|
  {
    if bases == [] {
      SealReaches(db, s, id, req, e, event, rows, pending);
    } else {
      var n := bases[0];
      BasisStep(db, s, id, req, e, event, rows, n, pending, Rest(id, req, bases[1..]));
      if n.id !in s.bases && n.id !in rows && BasisFits(db.files, s, req, n.basis) && NodeIsNew(rows, n.basis) {
        AskingMore(s, id, req, e, event, rows, bases);
        RestReaches(db.(approvals := With(s, id, req, e, event, rows[n.id := n.basis])), s, id, req, e, event,
                    rows[n.id := n.basis], bases[1..], pending);
      }
    }
  }

  const NONE: Bases := map[]

  lemma NoRows(s: A.State, id: Uuid, req: A.Request, e: Uuid, event: A.Event)
    ensures With(s, id, req, e, event, NONE) == Begun(s, id, req, e, event) && RowsBelong(NONE, id)
    ensures NONE.Keys !! s.bases.Keys
  {
    assert s.bases + NONE == s.bases;
  }

  /** From the request on. */
  lemma BeginReaches(db: Db, s: A.State, id: Uuid, req: A.Request, e: Uuid, event: A.Event, bases: seq<NewBasis>,
                     pending: Pending)
    requires A.EventConstraints(s) && A.BasisConstraints(s) && id !in s.requests && IsNew(req)
    requires A.Constraints(db.approvals) && db.approvals == Opened(s, id, req)
    requires event.approvalId == id && event.number == 1 && Belong(bases, id)
    ensures
      Perform(db, pending, [OnApprovals(A.InsertEvent(e, event))] + Rest(id, req, bases)) ==
      if FirstFits(s, req, e, event) && Joins(db.files, s, req, NONE, bases)
      then Reached(db.(approvals := Asked(s, id, req, e, event, Joined(NONE, bases))),
                   pending.(requests := pending.requests + {id}))
      else Raised
  {
    FirstAccepted(db.files, s, id, req, e, event);
    OneOp(db, pending, A.InsertEvent(e, event), Rest(id, req, bases));
    if FirstFits(s, req, e, event) {
      NoRows(s, id, req, e, event);
      AcceptedHolds(db.files, db.approvals, A.InsertEvent(e, event));
      RestReaches(db.(approvals := Begun(s, id, req, e, event)), s, id, req, e, event, NONE, bases, pending);
    }
  }

  lemma AcceptedHolds(files: F.State, s: A.State, op: A.Op)
    requires A.Accepts(files, s, op)
    ensures A.Constraints(A.Effect(s, op))
  {
  }

  ghost predicate AskFits(files: F.State, s: A.State, id: Uuid, req: A.Request, e: Uuid, event: A.Event,
                          bases: seq<NewBasis>)
  {
    RequestFits(files, s, id, req) && FirstFits(s, req, e, event) && Joins(files, s, req, NONE, bases)
  }

  lemma PartsOf(s: A.State)
    requires A.Constraints(s)
    ensures A.RequestConstraints(s) && A.EventConstraints(s) && A.BasisConstraints(s)
  {
  }

  lemma RequestStep(db: Db, id: Uuid, req: A.Request, pending: Pending, rest: seq<Op>)
    requires A.Constraints(db.approvals) && IsNew(req)
    ensures
      var next := db.(approvals := Opened(db.approvals, id, req));
      && (Perform(db, pending, [OnApprovals(A.InsertRequest(id, req))] + rest)
          == if RequestFits(db.files, db.approvals, id, req)
             then Perform(next, pending.(requests := pending.requests + {id}), rest) else Raised)
      && (RequestFits(db.files, db.approvals, id, req) ==> A.Constraints(next.approvals))
  {
    RequestAccepted(db.files, db.approvals, id, req);
    RequestPerformed(db, id, req, pending, rest);
    if RequestFits(db.files, db.approvals, id, req) {
      AcceptedHolds(db.files, db.approvals, A.InsertRequest(id, req));
    }
  }

  lemma RequestPerformed(db: Db, id: Uuid, req: A.Request, pending: Pending, rest: seq<Op>)
    ensures
      Perform(db, pending, [OnApprovals(A.InsertRequest(id, req))] + rest) ==
      if A.Accepts(db.files, db.approvals, A.InsertRequest(id, req))
      then Perform(db.(approvals := Opened(db.approvals, id, req)), pending.(requests := pending.requests + {id}), rest)
      else Raised
  {
    OneOp(db, pending, A.InsertRequest(id, req), rest);
    assert pending.imports + {} == pending.imports;
  }

  lemma AskReaches(db: Db, id: Uuid, req: A.Request, e: Uuid, event: A.Event, bases: seq<NewBasis>, pending: Pending)
    requires A.Constraints(db.approvals) && IsNew(req)
    requires event.approvalId == id && event.number == 1 && Belong(bases, id)
    ensures
      Perform(db, pending, Ask(id, req, e, event, bases)) ==
      if AskFits(db.files, db.approvals, id, req, e, event, bases)
      then Reached(db.(approvals := Asked(db.approvals, id, req, e, event, Joined(NONE, bases))),
                   pending.(requests := pending.requests + {id}))
      else Raised
  {
    var s, queued := db.approvals, pending.(requests := pending.requests + {id});
    RequestStep(db, id, req, pending, [OnApprovals(A.InsertEvent(e, event))] + Rest(id, req, bases));
    if RequestFits(db.files, s, id, req) {
      PartsOf(s);
      assert queued.(requests := queued.requests + {id}) == queued;
      BeginReaches(db.(approvals := Opened(s, id, req)), s, id, req, e, event, bases, queued);
    }
  }

  lemma {:induction false} JoinedRows(files: F.State, s: A.State, req: A.Request, id: Uuid, soFar: Bases, bases: seq<NewBasis>)
    requires Joins(files, s, req, soFar, bases) && RowsBelong(soFar, id) && soFar.Keys !! s.bases.Keys && Belong(bases, id)
    ensures
      var rows := Joined(soFar, bases);
      RowsBelong(rows, id) && rows.Keys !! s.bases.Keys && |rows| == |soFar| + |bases|
    decreases |bases|
  {
    if bases != [] {
      JoinedRows(files, s, req, id, soFar[bases[0].id := bases[0].basis], bases[1..]);
    }
  }

  lemma AskedIsAsking(files: F.State, s: A.State, id: Uuid, req: A.Request, e: Uuid, event: A.Event, bases: seq<NewBasis>)
    requires A.EventConstraints(s) && A.BasisConstraints(s) && IsNew(req)
    requires event.approvalId == id && event.number == 1 && Belong(bases, id)
    requires AskFits(files, s, id, req, e, event, bases)
    ensures Asking(s, id, req, e, event, Joined(NONE, bases)) && |Joined(NONE, bases)| == |bases|
  {
    JoinedRows(files, s, req, id, NONE, bases);
  }

  lemma OnlyOneCheck(db: Db, id: Uuid)
    ensures ChecksPass(db, Pending({}, {id}, {})) <==> A.RequestComplete(db.approvals, id)
  {
  }

  /** Asking commits exactly when the request, its first event and its bases fit, each as new, and the
      recorded number of bases is theirs; what it leaves is the sealed request with these rows. */
  lemma AskCommitsExactlyWhen(db: Db, id: Uuid, req: A.Request, e: Uuid, event: A.Event, bases: seq<NewBasis>)
    requires A.Constraints(db.approvals) && IsNew(req)
    requires event.approvalId == id && event.number == 1 && Belong(bases, id)
    ensures Commits(db, Ask(id, req, e, event, bases)) <==>
              AskFits(db.files, db.approvals, id, req, e, event, bases) && req.scope.basisCount == Some(|bases|)
    ensures Commits(db, Ask(id, req, e, event, bases)) ==>
              Transaction(db, Ask(id, req, e, event, bases))
              == db.(approvals := Asked(db.approvals, id, req, e, event, Joined(NONE, bases)))
  {
    AskReaches(db, id, req, e, event, bases, NOTHING);
    assert {} + {id} == {id};
    if AskFits(db.files, db.approvals, id, req, e, event, bases) {
      PartsOf(db.approvals);
      AskedChecks(db, db.approvals, id, req, e, event, bases);
    }
  }

  lemma AskedChecks(db: Db, s: A.State, id: Uuid, req: A.Request, e: Uuid, event: A.Event, bases: seq<NewBasis>)
    requires A.EventConstraints(s) && A.BasisConstraints(s) && IsNew(req)
    requires event.approvalId == id && event.number == 1 && Belong(bases, id)
    requires AskFits(db.files, s, id, req, e, event, bases)
    ensures ChecksPass(db.(approvals := Asked(s, id, req, e, event, Joined(NONE, bases))), Pending({}, {id}, {}))
            <==> req.scope.basisCount == Some(|bases|)
  {
    AskedIsAsking(db.files, s, id, req, e, event, bases);
    CheckAsked(s, id, req, e, event, Joined(NONE, bases));
    OnlyOneCheck(db.(approvals := Asked(s, id, req, e, event, Joined(NONE, bases))), id);
  }

  // Evidence.

  lemma {:induction false} JoinedBasesFit(files: F.State, s: A.State, req: A.Request, soFar: Bases, bases: seq<NewBasis>, k: nat)
    requires Joins(files, s, req, soFar, bases) && k < |bases|
    ensures BasisFits(files, s, req, bases[k].basis)
    decreases |bases|
  {
    if k > 0 {
      JoinedBasesFit(files, s, req, soFar[bases[0].id := bases[0].basis], bases[1..], k - 1);
    }
  }

  /** A basis agreed on the approval of another project, requirement or content, or on anything but an
      approval, keeps the whole request out. */
  lemma ForeignEvidenceIsRefused(db: Db, id: Uuid, req: A.Request, e: Uuid, event: A.Event, bases: seq<NewBasis>, k: nat, a: Uuid)
    requires A.Constraints(db.approvals) && IsNew(req) && event.approvalId == id && event.number == 1 && Belong(bases, id)
    requires k < |bases| && bases[k].basis.kind == A.Agreed && bases[k].basis.agreedApprovalId == Some(a)
    requires a in db.approvals.requests ==>
               var named, b := db.approvals.requests[a], bases[k].basis;
               || named.projectId != req.projectId || named.sourceId != b.sourceId
               || named.scope.requirementDigest != Some(b.subjectDigest)
               || named.targetKind != "requirement" || named.status != A.Approved || !named.sealed
    ensures !Commits(db, Ask(id, req, e, event, bases))
  {
    AskCommitsExactlyWhen(db, id, req, e, event, bases);
    if Joins(db.files, db.approvals, req, NONE, bases) {
      JoinedBasesFit(db.files, db.approvals, req, NONE, bases, k);
    }
  }

  // The switch.

  /** The import of an old approval, then the request that continues it. */
  function SwitchOver(i: Uuid, row: A.Import, id: Uuid, req: A.Request, e: Uuid, event: A.Event, bases: seq<NewBasis>): seq<Op> {
    [OnApprovals(A.InsertImport(i, row))] + Ask(id, req, e, event, bases)
  }

  /** The same operation, the same snapshot, or a second switch of one old approval. */
  predicate Repeats(a: A.Import, b: A.Import) {
    && a.projectId == b.projectId
    && (|| (a.createdBy == b.createdBy && a.operationId == b.operationId)
        || (a.legacyApprovalId == b.legacyApprovalId && a.sourceDigest == b.sourceDigest && a.mode == b.mode)
        || (a.mode == A.Switch == b.mode && a.legacyApprovalId == b.legacyApprovalId))
  }

  ghost predicate ImportFits(s: A.State, i: Uuid, row: A.Import) {
    && i !in s.imports && A.InsertImportAllowed(s, row) && !row.mode.OtherMode?
    && forall k :: k in s.imports ==> !Repeats(s.imports[k], row)
  }

  function Imported(s: A.State, i: Uuid, row: A.Import): A.State {
    s.(imports := s.imports[i := row])
  }

  lemma ImportsAsRows(s: A.State)
    ensures A.ImportConstraints(s) <==>
              && (forall i :: i in s.imports ==> !s.imports[i].mode.OtherMode?)
              && (forall a, b :: a in s.imports && b in s.imports && Repeats(s.imports[a], s.imports[b]) ==> a == b)
  {
    if (forall i :: i in s.imports ==> !s.imports[i].mode.OtherMode?)
       && (forall a, b :: a in s.imports && b in s.imports && Repeats(s.imports[a], s.imports[b]) ==> a == b) {
      forall a, b | a in s.imports && b in s.imports && a != b ensures !Repeats(s.imports[a], s.imports[b]) {
      }
    }
  }

  lemma ImportConstraintsAfter(s: A.State, i: Uuid, row: A.Import)
    requires A.ImportConstraints(s) && i !in s.imports
    ensures A.ImportConstraints(Imported(s, i, row)) <==>
              !row.mode.OtherMode? && forall k :: k in s.imports ==> !Repeats(s.imports[k], row)
  {
    var t := Imported(s, i, row);
    ImportsAsRows(s);
    ImportsAsRows(t);
    assert t.imports[i] == row;
    forall k | k in s.imports ensures k != i && t.imports[k] == s.imports[k] {
    }
  }

  lemma MoreImports(s: A.State, t: A.State)
    requires A.RequestConstraints(s) && A.EventConstraints(s) && A.BasisConstraints(s) && A.OldConstraints(s)
    requires t == s.(imports := t.imports) && s.imports.Keys <= t.imports.Keys
    ensures A.RequestConstraints(t) && A.EventConstraints(t) && A.BasisConstraints(t) && A.OldConstraints(t)
  {
  }

  lemma ImportGuard(files: F.State, s: A.State, i: Uuid, row: A.Import)
    ensures A.GuardAllows(files, s, A.InsertImport(i, row)) <==> i !in s.imports && A.InsertImportAllowed(s, row)
    ensures A.Effect(s, A.InsertImport(i, row)) == Imported(s, i, row)
  {
  }

  lemma ImportedConstraints(s: A.State, i: Uuid, row: A.Import)
    requires A.Constraints(s) && i !in s.imports
    ensures A.Constraints(Imported(s, i, row)) <==>
              !row.mode.OtherMode? && forall k :: k in s.imports ==> !Repeats(s.imports[k], row)
  {
    ImportConstraintsAfter(s, i, row);
    MoreImports(s, Imported(s, i, row));
  }

  lemma ImportAccepted(files: F.State, s: A.State, i: Uuid, row: A.Import)
    requires A.Constraints(s)
    ensures A.Accepts(files, s, A.InsertImport(i, row)) <==> ImportFits(s, i, row)
  {
    ImportGuard(files, s, i, row);
    if i !in s.imports {
      ImportedConstraints(s, i, row);
    }
  }

  lemma NoOlderContinuation(s: A.State, i: Uuid, r: Uuid)
    requires A.RequestConstraints(s) && i !in s.imports && r in s.requests
    ensures s.requests[r].legacyImportId != Some(i)
  {
  }

  /** The switch is complete exactly when the new request continues the new import. */
  lemma CheckSwitched(s: A.State, i: Uuid, row: A.Import, id: Uuid, req: A.Request, e: Uuid, event: A.Event, rows: Bases)
    requires A.RequestConstraints(s) && i !in s.imports && id !in s.requests
    requires A.LegacyHolds(Imported(s, i, row), req)
    ensures A.SwitchComplete(Asked(Imported(s, i, row), id, req, e, event, rows), i)
            <==> (row.mode == A.Switch ==> req.legacyImportId == Some(i))
  {
    var t := Asked(Imported(s, i, row), id, req, e, event, rows);
    assert t.imports[i] == row && t.requests[id] == req.(sealed := true);
    forall r | r in t.requests && r != id ensures t.requests[r].legacyImportId != Some(i) {
      NoOlderContinuation(s, i, r);
    }
  }

  lemma TwoChecks(db: Db, id: Uuid, i: Uuid)
    ensures ChecksPass(db, Pending({}, {id}, {i})) <==>
              A.RequestComplete(db.approvals, id) && A.SwitchComplete(db.approvals, i)
  {
  }

  lemma SwitchReaches(db: Db, i: Uuid, row: A.Import, id: Uuid, req: A.Request, e: Uuid, event: A.Event, bases: seq<NewBasis>)
    requires A.Constraints(db.approvals) && IsNew(req)
    requires event.approvalId == id && event.number == 1 && Belong(bases, id)
    ensures
      var s := Imported(db.approvals, i, row);
      Perform(db, NOTHING, SwitchOver(i, row, id, req, e, event, bases)) ==
      if ImportFits(db.approvals, i, row) && AskFits(db.files, s, id, req, e, event, bases)
      then Reached(db.(approvals := Asked(s, id, req, e, event, Joined(NONE, bases))), Pending({}, {id}, {i}))
      else Raised
  {
    ImportStep(db, i, row, Ask(id, req, e, event, bases));
    if ImportFits(db.approvals, i, row) {
      ImportedConstraints(db.approvals, i, row);
      AskReaches(db.(approvals := Imported(db.approvals, i, row)), id, req, e, event, bases, Pending({}, {}, {i}));
      assert {} + {id} == {id};
    }
  }

  lemma ImportStep(db: Db, i: Uuid, row: A.Import, rest: seq<Op>)
    requires A.Constraints(db.approvals)
    ensures
      Perform(db, NOTHING, [OnApprovals(A.InsertImport(i, row))] + rest) ==
      if ImportFits(db.approvals, i, row)
      then Perform(db.(approvals := Imported(db.approvals, i, row)), Pending({}, {}, {i}), rest) else Raised
  {
    ImportAccepted(db.files, db.approvals, i, row);
    ImportPerformed(db, i, row, rest);
  }

  lemma ImportPerformed(db: Db, i: Uuid, row: A.Import, rest: seq<Op>)
    ensures
      Perform(db, NOTHING, [OnApprovals(A.InsertImport(i, row))] + rest) ==
      if A.Accepts(db.files, db.approvals, A.InsertImport(i, row))
      then Perform(db.(approvals := Imported(db.approvals, i, row)), Pending({}, {}, {i}), rest) else Raised
  {
    OneOp(db, NOTHING, A.InsertImport(i, row), rest);
    ImportGuard(db.files, db.approvals, i, row);
    OneImport(i);
  }

  lemma OneImport(i: Uuid)
    ensures NOTHING.(requests := NOTHING.requests + {}, imports := NOTHING.imports + {i}) == Pending({}, {}, {i})
  {
  }

  /** A switch commits exactly when the import fits and repeats none, the request asked after it fits,
      with the right number of bases, and the request continues the import. */
  lemma SwitchCommitsExactlyWhen(db: Db, i: Uuid, row: A.Import, id: Uuid, req: A.Request, e: Uuid, event: A.Event,
                                 bases: seq<NewBasis>)
    requires A.Constraints(db.approvals) && IsNew(req)
    requires event.approvalId == id && event.number == 1 && Belong(bases, id)
    ensures Commits(db, SwitchOver(i, row, id, req, e, event, bases)) <==>
              && ImportFits(db.approvals, i, row)
              && AskFits(db.files, Imported(db.approvals, i, row), id, req, e, event, bases)
              && req.scope.basisCount == Some(|bases|)
              && (row.mode == A.Switch ==> req.legacyImportId == Some(i))
  {
    var s := Imported(db.approvals, i, row);
    SwitchReaches(db, i, row, id, req, e, event, bases);
    if ImportFits(db.approvals, i, row) && AskFits(db.files, s, id, req, e, event, bases) {
      PartsOf(db.approvals);
      MorePartsOf(db.approvals, i, row);
      AskedIsAsking(db.files, s, id, req, e, event, bases);
      CheckAsked(s, id, req, e, event, Joined(NONE, bases));
      CheckSwitched(db.approvals, i, row, id, req, e, event, Joined(NONE, bases));
      TwoChecks(db.(approvals := Asked(s, id, req, e, event, Joined(NONE, bases))), id, i);
    }
  }

  lemma MorePartsOf(s: A.State, i: Uuid, row: A.Import)
    requires A.EventConstraints(s) && A.BasisConstraints(s)
    ensures A.EventConstraints(Imported(s, i, row)) && A.BasisConstraints(Imported(s, i, row))
  {
  }

  // One request that commits.

  const NODES: map<Uuid, F.ReleaseNode> := map["n" := F.ReleaseNode("r", None, 0, A.REQUIREMENT, 5, map[])]

  const FILES := F.EMPTY.(releases := map["r" := F.Release(1, [], "refs", "body", 1, 1, "q", true, map[])],
                          releaseNodes := NODES)

  const ASKED := A.Request(1, "r", "n", A.REQUIREMENT, 5, None, A.Scope(Some("body"), None, None, Some(0), map[]), "scope",
                           1, 2, A.Requested, 1, false, None, "o", None, map[])

  const BEGUN := A.Event("a", 1, "o", 1, A.Requested, None, "scope", map[])

  lemma EmptyTables()
    ensures A.Constraints(A.EMPTY)
  {
  }

  lemma SomeRequestFits()
    ensures RequestFits(FILES, A.EMPTY, "a", ASKED)
  {
  }

  lemma SomeAskFits()
    ensures AskFits(FILES, A.EMPTY, "a", ASKED, "e", BEGUN, [])
  {
    SomeRequestFits();
  }

  /** Asking for the agreement of a requirement, in empty approval tables. */
  lemma SomeAskCommits()
    ensures Commits(Db(FILES, A.EMPTY), Ask("a", ASKED, "e", BEGUN, []))
  {
    EmptyTables();
    SomeAskFits();
    AskCommitsExactlyWhen(Db(FILES, A.EMPTY), "a", ASKED, "e", BEGUN, []);
  }

  // One document that commits, on an approved requirement.

  const TREE: map<Uuid, F.ReleaseNode> :=
    map["n" := F.ReleaseNode("r", None, 0, A.REQUIREMENT, 5, map[]),
        "d" := F.ReleaseNode("r", None, 1, A.DOCUMENT, 6, map[])]

  const BOTH := FILES.(releaseNodes := TREE)

  const AGREED := A.Request(1, "r", "n", A.REQUIREMENT, 5, None, A.Scope(Some("body"), None, Some("five"), Some(0), map[]),
                            "scope", 1, 2, A.Approved, 2, true, Some(1), "o", None, map[])

  const DECIDED := A.Event("a", 2, "p", 2, A.Approved, None, "scope", map[])

  /** The requirement with source 5 and digest "five" is approved. */
  const READY := A.EMPTY.(requests := map["a" := AGREED], events := map["e" := BEGUN, "f" := DECIDED])

  const WANTED := A.Request(1, "r", "d", A.DOCUMENT, 6, None, A.Scope(Some("body"), None, None, Some(1), map[]), "whole",
                            1, 2, A.Requested, 1, false, None, "q", None, map[])

  const OPENING := A.Event("w", 1, "q", 1, A.Requested, None, "whole", map[])

  /** The basis of the document: its one requirement, agreed. */
  const BASIS := NewBasis("b", A.Basis("w", "r", "n", 5, "five", A.Agreed, Some("a"), Some("f"), None, map[]))

  lemma ReadyTables()
    ensures A.Constraints(READY)
  {
    ReadyRequests();
    ReadyRest();
  }

  lemma ReadyRequests()
    ensures A.RequestConstraints(READY) && A.EventConstraints(READY)
  {
  }

  lemma ReadyRest()
    ensures A.BasisConstraints(READY) && A.ImportConstraints(READY) && A.OldConstraints(READY)
  {
  }

  lemma WantedFits()
    ensures RequestFits(BOTH, READY, "w", WANTED) && FirstFits(READY, WANTED, "g", OPENING)
  {
  }

  lemma BasisOfWantedFits()
    ensures BasisFits(BOTH, READY, WANTED, BASIS.basis)
  {
  }

  /** Asking for a document whose one requirement is agreed commits, with that evidence. */
  lemma SomeDocumentCommits()
    ensures Commits(Db(BOTH, READY), Ask("w", WANTED, "g", OPENING, [BASIS]))
  {
    ReadyTables();
    WantedFits();
    BasisOfWantedFits();
    OneBasisJoins(BOTH, READY, WANTED, BASIS);
    AskCommitsExactlyWhen(Db(BOTH, READY), "w", WANTED, "g", OPENING, [BASIS]);
  }

  lemma OneBasisJoins(files: F.State, s: A.State, req: A.Request, n: NewBasis)
    requires n.id !in s.bases && BasisFits(files, s, req, n.basis)
    ensures Joins(files, s, req, NONE, [n])
  {
    assert NodeIsNew(NONE, n.basis) && [n][1..] == [];
  }
}
