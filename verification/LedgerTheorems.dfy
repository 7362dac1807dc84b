/** Safety over whole runs of transactions. */
module LedgerTheorems {
  import opened Sql
  import opened Counting
  import opened Ledger
  import F = Artifacts
  import FH = ArtifactHistory
  import FI = ArtifactInvariants
  import P = Publications
  import D = Download
  import A = Approvals
  import AH = ApprovalHistory

  /** The release and the preservation a request names stay as the request found them. */
  ghost predicate RequestsGrounded(db: Db) {
    forall r :: r in db.approvals.requests ==>
      && A.ScopeHolds(db.files, db.approvals.requests[r])
      && A.PreservationHolds(db.files, db.approvals.requests[r])
  }

  /** Holds after every statement. */
  ghost predicate Sound(db: Db) {
    FI.Inv(db.files) && AH.Inv(db.approvals) && RequestsGrounded(db)
  }

  /** Everything outside the transaction's queue is complete. */
  ghost predicate CompleteExcept(db: Db, pending: Pending) {
    && (forall p :: p in db.files.publications && p !in pending.publications ==>
          F.PublicationComplete(db.files, p))
    && (forall r :: r in db.approvals.requests && r !in pending.requests ==>
          A.RequestComplete(db.approvals, r))
    && (forall i :: i in db.approvals.imports && i !in pending.imports ==>
          A.SwitchComplete(db.approvals, i))
  }

  /** The invariant of committed states. */
  ghost predicate Committed(db: Db) {
    Sound(db) && CompleteExcept(db, NOTHING)
  }

  /** `b` is a later state than `a`: nothing frozen or recorded in `a` has changed. */
  ghost predicate Later(a: Db, b: Db) {
    FH.Later(a.files, b.files) && AH.Kept(a.approvals, b.approvals)
  }

  lemma LaterTransitive(a: Db, b: Db, c: Db)
    requires Later(a, b) && Later(b, c)
    ensures Later(a, c)
  {
    FH.LaterTransitive(a.files, b.files, c.files);
    AH.KeptTransitive(a.approvals, b.approvals, c.approvals);
  }

  lemma LaterReflexive(db: Db)
    ensures Later(db, db)
  {
  }

  lemma StepIsLater(db: Db, op: Op)
    requires Accepts(db, op)
    ensures Later(db, Effect(db, op))
  {
    match op
    case OnFiles(f) => FH.StepIsLater(db.files, f);
    case OnApprovals(a) => AH.StepKeeps(db.files, db.approvals, a);
  }

  lemma ScopeFrozen(a: F.State, b: F.State, r: A.Request)
    requires FH.Later(a, b) && A.ScopeHolds(a, r) && A.PreservationHolds(a, r)
    ensures A.ScopeHolds(b, r) && A.PreservationHolds(b, r)
  {
    assert F.SealedRelease(a, r.releaseId);
    assert r.preservationId.Some? ==> F.ReadyPreservation(a, r.preservationId.value);
  }

  lemma RequestsStayGrounded(files: F.State, s: A.State, op: A.Op, r: Uuid)
    requires A.GuardAllows(files, s, op)
    requires r in s.requests ==>
               A.ScopeHolds(files, s.requests[r]) && A.PreservationHolds(files, s.requests[r])
    requires r in A.Effect(s, op).requests
    ensures A.ScopeHolds(files, A.Effect(s, op).requests[r])
    ensures A.PreservationHolds(files, A.Effect(s, op).requests[r])
  {
  }

  lemma GroundedStep(db: Db, op: Op)
    requires RequestsGrounded(db) && Accepts(db, op)
    ensures RequestsGrounded(Effect(db, op))
  {
    var t := Effect(db, op);
    StepIsLater(db, op);
    match op
    case OnFiles(f) =>
      forall r | r in t.approvals.requests
        ensures A.ScopeHolds(t.files, t.approvals.requests[r])
                && A.PreservationHolds(t.files, t.approvals.requests[r])
      {
        ScopeFrozen(db.files, t.files, db.approvals.requests[r]);
      }
    case OnApprovals(a) =>
      forall r | r in t.approvals.requests
        ensures A.ScopeHolds(t.files, t.approvals.requests[r])
                && A.PreservationHolds(t.files, t.approvals.requests[r])
      {
        RequestsStayGrounded(db.files, db.approvals, a, r);
      }
  }

  lemma SoundStep(db: Db, op: Op)
    requires Sound(db) && Accepts(db, op)
    ensures Sound(Effect(db, op))
  {
    GroundedStep(db, op);
    match op
    case OnFiles(f) => FI.StepKeepsInv(db.files, f);
    case OnApprovals(a) => AH.StepKeepsInv(db.files, db.approvals, a);
  }

  lemma UntouchedPublication(s: F.State, f: F.Op, p: Uuid)
    requires F.GuardAllows(s, f) && F.PublicationNodeConstraints(s)
    requires p in F.Effect(s, f).publications && p !in F.Touches(f)
    requires p in s.publications ==> F.PublicationComplete(s, p)
    ensures F.PublicationComplete(F.Effect(s, f), p)
  {
    assert !FI.Writes(f, p);
    FI.WrittenIsThere(s, f, p);
    FH.EffectIsLater(s, f);
    P.CompleteStays(s, F.Effect(s, f), p);
  }

  lemma UntouchedPublications(db: Db, pending: Pending, f: F.Op)
    requires Sound(db) && F.Accepts(db.files, f) && CompleteExcept(db, pending)
    ensures
      var t := F.Effect(db.files, f);
      forall p :: p in t.publications && p !in pending.publications + F.Touches(f) ==>
        F.PublicationComplete(t, p)
  {
    var t := F.Effect(db.files, f);
    forall p | p in t.publications && p !in pending.publications + F.Touches(f)
      ensures F.PublicationComplete(t, p)
    {
      UntouchedPublication(db.files, f, p);
    }
  }

  lemma UntouchedApprovals(db: Db, pending: Pending, a: A.Op)
    requires A.Accepts(db.files, db.approvals, a) && CompleteExcept(db, pending)
    ensures
      var t := A.Effect(db.approvals, a);
      && (forall r :: r in t.requests && r !in pending.requests + A.TouchedRequests(a) ==>
            A.RequestComplete(t, r))
      && (forall i :: i in t.imports && i !in pending.imports + A.TouchedImports(a) ==>
            A.SwitchComplete(t, i))
  {
    var t := A.Effect(db.approvals, a);
    AH.StepKeeps(db.files, db.approvals, a);
    forall r | r in t.requests && r !in pending.requests + A.TouchedRequests(a)
      ensures A.RequestComplete(t, r)
    {
      assert r in db.approvals.requests;
      AH.UntouchedStaysComplete(db.files, db.approvals, a, r);
    }
    forall i | i in t.imports && i !in pending.imports + A.TouchedImports(a)
      ensures A.SwitchComplete(t, i)
    {
      assert i in db.approvals.imports;
      AH.SwitchStaysComplete(db.approvals, t, i);
    }
  }

  /** The deferred checks run only for touched rows, yet no untouched row can become incomplete. */
  lemma UntouchedStaysComplete(db: Db, pending: Pending, op: Op)
    requires Sound(db) && Accepts(db, op) && CompleteExcept(db, pending)
    ensures CompleteExcept(Effect(db, op), Queue(pending, op))
  {
    match op
    case OnFiles(f) => UntouchedPublications(db, pending, f);
    case OnApprovals(a) => UntouchedApprovals(db, pending, a);
  }

  lemma {:induction false} PerformKeeps(db: Db, pending: Pending, ops: seq<Op>)
    requires Sound(db) && CompleteExcept(db, pending) && Perform(db, pending, ops).Reached?
    ensures Sound(Perform(db, pending, ops).db)
    ensures CompleteExcept(Perform(db, pending, ops).db, Perform(db, pending, ops).pending)
    ensures Later(db, Perform(db, pending, ops).db)
    decreases |ops|
  {
    if ops == [] {
      LaterReflexive(db);
    } else {
      var next := Effect(db, ops[0]);
      SoundStep(db, ops[0]);
      UntouchedStaysComplete(db, pending, ops[0]);
      StepIsLater(db, ops[0]);
      PerformKeeps(next, Queue(pending, ops[0]), ops[1..]);
      LaterTransitive(db, next, Perform(db, pending, ops).db);
    }
  }

  lemma TransactionKeeps(db: Db, ops: seq<Op>)
    requires Committed(db)
    ensures Committed(Transaction(db, ops)) && Later(db, Transaction(db, ops))
  {
    if Commits(db, ops) {
      PerformKeeps(db, NOTHING, ops);
    } else {
      LaterReflexive(db);
    }
  }

  /** Every run of transactions from a committed state ends in one, and is only ever later. */
  lemma {:induction false} RunKeepsCommitted(db: Db, transactions: seq<seq<Op>>)
    requires Committed(db)
    ensures Committed(Run(db, transactions)) && Later(db, Run(db, transactions))
    decreases |transactions|
  {
    if transactions == [] {
      LaterReflexive(db);
    } else {
      var next := Transaction(db, transactions[0]);
      TransactionKeeps(db, transactions[0]);
      RunKeepsCommitted(next, transactions[1..]);
      LaterTransitive(db, next, Run(db, transactions));
    }
  }

  const EMPTY := Db(F.EMPTY, A.EMPTY)

  lemma EmptyIsCommitted()
    ensures Committed(EMPTY)
  {
    FI.EmptyHolds();
    AH.EmptyHolds();
  }

  /** What a run keeps of the approvals. */
  lemma RunKeepsApprovals(db: Db, transactions: seq<seq<Op>>)
    requires Committed(db)
    ensures AH.Kept(db.approvals, Run(db, transactions).approvals)
    ensures forall id :: id in Run(db, transactions).approvals.requests ==>
                           A.RequestComplete(Run(db, transactions).approvals, id)
  {
    RunKeepsCommitted(db, transactions);
  }

  lemma CompleteWhenCommitted(db: Db, id: Uuid)
    requires Committed(db) && id in db.approvals.requests
    ensures A.RequestComplete(db.approvals, id)
  {
  }

  lemma ShapesWhenCommitted(db: Db)
    requires Committed(db)
    ensures A.RequestConstraints(db.approvals) && AH.RequestShape(db.approvals)
    ensures A.BasisConstraints(db.approvals) && AH.BasisShape(db.approvals)
  {
  }

  lemma CheckedBasis(s: A.State, b: Uuid)
    requires A.BasisConstraints(s) && b in s.bases
    ensures A.BasisKindCheck(s.bases[b]) && s.bases[b].approvalId in s.requests
  {
  }

  // Fixed approvals.

  ghost predicate Designated(s: A.State, id: Uuid, first: Uuid)
    requires id in s.requests && first in s.events
  {
    s.events[first].approvalId == id && s.events[first].number == 1
    && s.events[first].action == A.Requested
    && s.events[first].actorId == s.requests[id].requesterId
  }

  ghost predicate Decided(s: A.State, id: Uuid, last: Uuid)
    requires id in s.requests && last in s.events
  {
    s.events[last].approvalId == id && s.events[last].number == 2
    && s.events[last].action == s.requests[id].status
    && (s.requests[id].status != A.Cancelled ==>
          && s.events[last].actorId == s.requests[id].approverId
          && s.events[last].actorId != s.requests[id].requesterId)
    && (s.requests[id].status == A.Rejected || s.requests[id].status == A.Cancelled ==>
          s.events[last].reason.Some?
          && exists i :: 0 <= i < |s.events[last].reason.value| && s.events[last].reason.value[i] != ' ')
  }

  /** A complete request: sealed; one event while pending, and after the decision exactly one more,
      by the designated approver, who is not the requester, unless it was cancelled. */
  lemma CommittedApproval(s: A.State, id: Uuid)
    requires A.RequestConstraints(s) && AH.RequestShape(s) && A.RequestComplete(s, id)
    ensures s.requests[id].sealed
    ensures s.requests[id].status == A.Requested ==>
              exists e :: A.EventsOf(s, id) == {e} && e in s.events && Designated(s, id, e)
    ensures s.requests[id].status != A.Requested ==>
              exists e, d :: && A.EventsOf(s, id) == {e, d} && e in s.events && d in s.events
                             && Designated(s, id, e) && Decided(s, id, d)
    ensures s.requests[id].status == A.Requested <==> s.requests[id].version == 1
  {
    var own := A.EventsOf(s, id);
    var e :| e in own && A.FirstEvent(s, id, e);
    assert Designated(s, id, e);
    if s.requests[id].version == 1 {
      OnlyElement(own, e);
    } else {
      var d :| d in own && A.DecisionEvent(s, id, d);
      assert e != d && |own - {e}| == 1;
      OnlyElement(own - {e}, d);
      assert own == {e} + (own - {e});
      assert own == {e, d};
      assert Decided(s, id, d);
    }
  }

  lemma OnlyElement<T>(s: set<T>, x: T)
    requires x in s && |s| == 1
    ensures s == {x}
  {
    assert |s - {x}| == 0;
    assert s == {x} + (s - {x});
  }

  /** A transaction that does not touch a committed request changes neither it nor what hangs on
      it: no event and no basis is gained or lost. */
  lemma {:induction false} UntouchedRequestIsUnchanged(db: Db, pending: Pending, ops: seq<Op>, id: Uuid)
    requires A.RequestComplete(db.approvals, id)
    requires Perform(db, pending, ops).Reached?
    requires forall i :: 0 <= i < |ops| && ops[i].OnApprovals? ==> id !in A.TouchedRequests(ops[i].a)
    ensures
      var t := Perform(db, pending, ops).db.approvals;
      && id in t.requests && t.requests[id] == db.approvals.requests[id]
      && A.EventsOf(t, id) == A.EventsOf(db.approvals, id)
      && A.BasesOf(t, id) == A.BasesOf(db.approvals, id)
    decreases |ops|
  {
    if ops != [] {
      var next := Effect(db, ops[0]);
      if ops[0].OnApprovals? {
        AH.UntouchedGainsNothing(db.files, db.approvals, ops[0].a, id);
        AH.UntouchedStaysComplete(db.files, db.approvals, ops[0].a, id);
      }
      UntouchedRequestIsUnchanged(next, Queue(pending, ops[0]), ops[1..], id);
    }
  }

  /** One decision, for good: a decided request keeps its row, its two events and its bases in
      every later committed state. */
  lemma DecisionIsFinal(db: Db, transactions: seq<seq<Op>>, id: Uuid)
    requires Committed(db) && id in db.approvals.requests
    requires db.approvals.requests[id].status != A.Requested
    ensures
      var t := Run(db, transactions).approvals;
      && id in t.requests && t.requests[id] == db.approvals.requests[id]
      && A.EventsOf(t, id) == A.EventsOf(db.approvals, id)
      && A.BasesOf(t, id) == A.BasesOf(db.approvals, id)
  {
    RunKeepsApprovals(db, transactions);
    CompleteWhenCommitted(db, id);
    DecidedKeepsAll(db.approvals, Run(db, transactions).approvals, id);
  }

  lemma DecidedKeepsAll(s: A.State, t: A.State, id: Uuid)
    requires AH.Kept(s, t) && A.RequestComplete(s, id) && A.RequestComplete(t, id)
    requires s.requests[id].status != A.Requested
    ensures t.requests[id] == s.requests[id]
    ensures A.EventsOf(t, id) == A.EventsOf(s, id) && A.BasesOf(t, id) == A.BasesOf(s, id)
  {
    SubsetSize(A.EventsOf(s, id), A.EventsOf(t, id));
    SubsetSize(A.BasesOf(s, id), A.BasesOf(t, id));
  }

  /** Agreed evidence: the approval the basis names is a sealed, approved requirement request of the same
      project, source and digest, complete, and decided in the event the basis names by its designated
      approver, who did not request it. */
  ghost predicate SoundEvidence(s: A.State, basis: A.Basis, project: int) {
    && basis.agreedApprovalId.Some? && basis.agreedApprovalId.value in s.requests
    && basis.agreedEventId.Some? && basis.agreedEventId.value in s.events
    && (var a, e := s.requests[basis.agreedApprovalId.value], s.events[basis.agreedEventId.value];
        && a.sealed && a.status == A.Approved && a.targetKind == "requirement"
        && a.projectId == project && a.sourceId == basis.sourceId
        && a.scope.requirementDigest == Some(basis.subjectDigest)
        && e.approvalId == basis.agreedApprovalId.value && e.number == 2 && e.action == A.Approved
        && e.actorId == a.approverId && a.approverId != a.requesterId)
    && A.RequestComplete(s, basis.agreedApprovalId.value)
  }

  /** In a committed state every agreed basis has sound evidence. */
  lemma AgreedBasesAreSound(db: Db, b: Uuid)
    requires Committed(db) && b in db.approvals.bases
    requires db.approvals.bases[b].kind == A.Agreed
    ensures
      var s, basis := db.approvals, db.approvals.bases[b];
      basis.approvalId in s.requests
      && SoundEvidence(s, basis, s.requests[basis.approvalId].projectId)
  {
    var s, basis := db.approvals, db.approvals.bases[b];
    var agreed := basis.agreedApprovalId.value;
    assert A.RequestComplete(s, agreed);
    var e := basis.agreedEventId.value;
    assert s.events[e].approvalId == agreed && s.events[e].number == 2;
  }

  /** And it keeps it: the same basis, the same approval and the same event in every later state. */
  lemma EvidenceNeverDecays(db: Db, transactions: seq<seq<Op>>, b: Uuid)
    requires Committed(db) && b in db.approvals.bases
    requires db.approvals.bases[b].kind == A.Agreed
    ensures
      var s, t, basis := db.approvals, Run(db, transactions).approvals, db.approvals.bases[b];
      && b in t.bases && t.bases[b] == basis
      && basis.approvalId in s.requests
      && SoundEvidence(t, basis, s.requests[basis.approvalId].projectId)
      && t.requests[basis.agreedApprovalId.value] == s.requests[basis.agreedApprovalId.value]
      && t.events[basis.agreedEventId.value] == s.events[basis.agreedEventId.value]
  {
    RunKeepsApprovals(db, transactions);
    AgreedBasesAreSound(db, b);
    SoundEvidenceStays(db.approvals, Run(db, transactions).approvals, b);
  }

  lemma SoundEvidenceStays(s: A.State, t: A.State, b: Uuid)
    requires AH.Kept(s, t) && b in s.bases && s.bases[b].approvalId in s.requests
    requires SoundEvidence(s, s.bases[b], s.requests[s.bases[b].approvalId].projectId)
    requires A.RequestComplete(t, s.bases[b].agreedApprovalId.value)
    ensures b in t.bases && t.bases[b] == s.bases[b]
    ensures SoundEvidence(t, s.bases[b], s.requests[s.bases[b].approvalId].projectId)
    ensures t.requests[s.bases[b].agreedApprovalId.value] == s.requests[s.bases[b].agreedApprovalId.value]
    ensures t.events[s.bases[b].agreedEventId.value] == s.events[s.bases[b].agreedEventId.value]
  {
  }

  /** An approved document rests on exactly `basis_count` bases, every one of them agreed. */
  lemma ApprovedDocument(db: Db, id: Uuid)
    requires Committed(db) && id in db.approvals.requests
    requires db.approvals.requests[id].status == A.Approved
    ensures
      var s := db.approvals;
      && s.requests[id].scope.basisCount == Some(|A.BasesOf(s, id)|)
      && forall b :: b in A.BasesOf(s, id) ==>
           s.bases[b].kind == A.Agreed
           && SoundEvidence(s, s.bases[b], s.requests[id].projectId)
  {
    var s := db.approvals;
    CompleteWhenCommitted(db, id);
    ShapesWhenCommitted(db);
    forall b | b in A.BasesOf(s, id)
      ensures s.bases[b].kind == A.Agreed && SoundEvidence(s, s.bases[b], s.requests[id].projectId)
    {
      OnlyAgreed(s, id, b);
      AgreedBasesAreSound(db, b);
    }
  }

  lemma OnlyAgreed(s: A.State, id: Uuid, b: Uuid)
    requires A.RequestComplete(s, id) && s.requests[id].status == A.Approved
    requires A.BasisConstraints(s) && b in A.BasesOf(s, id)
    ensures s.bases[b].kind == A.Agreed
  {
    CheckedBasis(s, b);
  }

  // Downloads.

  /** Over any run, a committed publication answers a download the same way; only the tenant of its
      project is read anew. */
  lemma DownloadIsStableOverRuns(db: Db, transactions: seq<seq<Op>>, h: D.Hashing, before: map<int, int>,
                                 after: map<int, int>, id: Uuid, file: string)
    requires Committed(db) && id in db.files.publications
    ensures id in Run(db, transactions).files.publications
    ensures D.Resolve(Run(db, transactions).files, h, after,
                      Run(db, transactions).files.publications[id], file)
         == D.Under(D.Resolve(db.files, h, before, db.files.publications[id], file), after)
  {
    RunKeepsCommitted(db, transactions);
    D.DownloadIsStable(db.files, Run(db, transactions).files, h, before, after, id, file);
  }
}
