/** Deciding a pending request: the status change and the decision event, in one transaction. */
module Decisions {
  import opened Sql
  import opened Ledger
  import F = Artifacts
  import A = Approvals
  import LedgerTheorems

  function Decided(req: A.Request, word: A.Word, when: int): A.Request {
    req.(status := word, version := 2, finalizedAt := Some(when))
  }

  function Decide(id: Uuid, decided: A.Request, e: Uuid, event: A.Event): seq<Op> {
    [OnApprovals(A.UpdateRequest(id, decided)), OnApprovals(A.InsertEvent(e, event))]
  }

  /** A pending request that is complete: sealed, undecided, with its one event. */
  ghost predicate Pends(s: A.State, id: Uuid) {
    A.RequestComplete(s, id) && s.requests[id].status == A.Requested && s.requests[id].version == 1
  }

  /** The event records this decision of the request, by whoever may take it, as a new operation. */
  ghost predicate EventFits(s: A.State, id: Uuid, word: A.Word, e: Uuid, event: A.Event)
    requires id in s.requests
  {
    && e !in s.events
    && event.scopeDigest == s.requests[id].scopeDigest && event.action == word
    && (word == A.Cancelled || event.actorId == s.requests[id].approverId)
    && (forall x :: x in A.EventsOf(s, id) ==> s.events[x].operationId != event.operationId)
  }

  /** The decision suits the request's bases, and gives a reason where one is due. */
  ghost predicate WordFits(s: A.State, id: Uuid, word: A.Word, event: A.Event)
    requires id in s.requests
  {
    && (word == A.Rejected || word == A.Cancelled ==> A.NonBlank(event.reason))
    && (word == A.Approved ==> !A.HasException(s, id))
    && (word == A.ApprovedWithExceptions ==>
          s.requests[id].targetKind == A.DOCUMENT && A.HasException(s, id))
  }

  // The status change.

  lemma StatusGuard(files: F.State, s: A.State, id: Uuid, word: A.Word, when: int)
    requires Pends(s, id)
    ensures A.GuardAllows(files, s, A.UpdateRequest(id, Decided(s.requests[id], word, when)))
            <==> A.IsDecision(word)
  {
  }

  /** After the decision the request is no longer among the pending ones; its keys are the same. */
  lemma StatusRows(s: A.State, id: Uuid, word: A.Word, when: int, r: Uuid)
    requires id in s.requests && A.IsDecision(word) && r in s.requests
    ensures
      var row := s.requests[id := Decided(s.requests[id], word, when)][r];
      && row.projectId == s.requests[r].projectId && row.requesterId == s.requests[r].requesterId
      && row.operationId == s.requests[r].operationId && row.approverId == s.requests[r].approverId
      && row.targetKind == s.requests[r].targetKind && row.legacyImportId == s.requests[r].legacyImportId
      && (r == id ==> row.version == 2 && row.status == word)
      && (r != id ==> row == s.requests[r])
  {
  }

  lemma StatusConstraints(s: A.State, id: Uuid, word: A.Word, when: int)
    requires A.RequestConstraints(s) && id in s.requests && A.IsDecision(word)
    ensures A.RequestConstraints(s.(requests := s.requests[id := Decided(s.requests[id], word, when)]))
  {
    var t := s.(requests := s.requests[id := Decided(s.requests[id], word, when)]);
    forall r | r in t.requests ensures RowFits(t, r) {
      StatusRows(s, id, word, when, r);
      assert RowFits(s, r);
    }
    forall a, b | a in t.requests && b in t.requests && Clash(t, a, b) ensures a == b {
      StatusRows(s, id, word, when, a);
      StatusRows(s, id, word, when, b);
      assert Clash(s, a, b);
    }
  }

  predicate RowFits(s: A.State, r: Uuid)
    requires r in s.requests
  {
    var row := s.requests[r];
    && !row.status.OtherWord?
    && (row.targetKind == A.REQUIREMENT || row.targetKind == A.DOCUMENT)
    && row.requesterId != row.approverId
    && (row.version == 1 || row.version == 2)
    && (row.legacyImportId.Some? ==> row.legacyImportId.value in s.imports)
  }

  /** Two rows with the same operation, or two pending rows for the same target. */
  predicate Clash(s: A.State, a: Uuid, b: Uuid)
    requires a in s.requests && b in s.requests
  {
    || (s.requests[a].projectId == s.requests[b].projectId
        && s.requests[a].requesterId == s.requests[b].requesterId
        && s.requests[a].operationId == s.requests[b].operationId)
    || (s.requests[a].status == A.Requested == s.requests[b].status
        && s.requests[a].projectId == s.requests[b].projectId
        && s.requests[a].releaseId == s.requests[b].releaseId
        && s.requests[a].targetNodeId == s.requests[b].targetNodeId
        && s.requests[a].preservationId == s.requests[b].preservationId)
  }

  lemma OthersUnchanged(s: A.State, t: A.State)
    requires A.EventConstraints(s) && A.BasisConstraints(s) && A.ImportConstraints(s) && A.OldConstraints(s)
    requires t == s.(requests := t.requests) && t.requests.Keys == s.requests.Keys
    ensures A.EventConstraints(t) && A.BasisConstraints(t) && A.ImportConstraints(t) && A.OldConstraints(t)
  {
  }

  lemma StatusAccepted(files: F.State, s: A.State, id: Uuid, word: A.Word, when: int)
    requires A.Constraints(s) && Pends(s, id)
    ensures A.Accepts(files, s, A.UpdateRequest(id, Decided(s.requests[id], word, when))) <==> A.IsDecision(word)
  {
    StatusGuard(files, s, id, word, when);
    if A.IsDecision(word) {
      StatusConstraints(s, id, word, when);
      OthersUnchanged(s, s.(requests := s.requests[id := Decided(s.requests[id], word, when)]));
    }
  }

  // The event.

  lemma EventGuard(files: F.State, t: A.State, id: Uuid, e: Uuid, event: A.Event)
    requires id in t.requests && t.requests[id].sealed && t.requests[id].version == 2
    requires event.approvalId == id && event.number == 2
    ensures A.GuardAllows(files, t, A.InsertEvent(e, event)) <==>
              && e !in t.events
              && event.scopeDigest == t.requests[id].scopeDigest && event.action == t.requests[id].status
              && (event.action == A.Cancelled || event.actorId == t.requests[id].approverId)
  {
  }

  /** The only event of a pending request is its first. */
  lemma OnlyFirst(s: A.State, id: Uuid, x: Uuid)
    requires Pends(s, id) && x in A.EventsOf(s, id)
    ensures A.EventsOf(s, id) == {x} && A.FirstEvent(s, id, x)
  {
    var own := A.EventsOf(s, id);
    var first :| first in own && A.FirstEvent(s, id, first);
    LedgerTheorems.OnlyElement(own, first);
  }

  lemma EventUnique(s: A.State, t: A.State, id: Uuid, e: Uuid, event: A.Event)
    requires Pends(s, id) && A.EventConstraints(t) && t.events == s.events && id in t.requests
    requires e !in t.events && event.approvalId == id && event.number == 2
    ensures A.EventConstraints(t.(events := t.events[e := event])) <==>
              forall x :: x in A.EventsOf(s, id) ==> s.events[x].operationId != event.operationId
  {
    var u := t.(events := t.events[e := event]);
    assert u.events[e] == event;
    forall x | x in t.events ensures u.events[x] == t.events[x] && x != e {
    }
    if A.EventConstraints(u) {
      forall x | x in A.EventsOf(s, id) ensures s.events[x].operationId != event.operationId {
        assert u.events[x] == s.events[x];
      }
    }
    forall x | x in A.EventsOf(s, id) ensures s.events[x].number == 1 {
      OnlyFirst(s, id, x);
    }
  }

  lemma EventLeavesOthers(t: A.State, u: A.State)
    requires A.RequestConstraints(t) && A.BasisConstraints(t) && A.ImportConstraints(t) && A.OldConstraints(t)
    requires u == t.(events := u.events) && t.events.Keys <= u.events.Keys
    ensures A.RequestConstraints(u) && A.BasisConstraints(u) && A.ImportConstraints(u) && A.OldConstraints(u)
  {
  }

  lemma EventConstraintsAfter(s: A.State, t: A.State, id: Uuid, e: Uuid, event: A.Event)
    requires Pends(s, id) && A.Constraints(t) && t.events == s.events && id in t.requests
    requires e !in t.events && event.approvalId == id && event.number == 2
    ensures A.Constraints(t.(events := t.events[e := event])) <==>
              forall x :: x in A.EventsOf(s, id) ==> s.events[x].operationId != event.operationId
  {
    EventUnique(s, t, id, e, event);
    EventLeavesOthers(t, t.(events := t.events[e := event]));
  }

  lemma EventAccepted(files: F.State, s: A.State, t: A.State, id: Uuid, word: A.Word, when: int, e: Uuid, event: A.Event)
    requires A.Constraints(t) && Pends(s, id)
    requires t == s.(requests := s.requests[id := Decided(s.requests[id], word, when)])
    requires event.approvalId == id && event.number == 2
    ensures A.Accepts(files, t, A.InsertEvent(e, event)) <==> EventFits(s, id, word, e, event)
  {
    EventGuard(files, t, id, e, event);
    assert A.Effect(t, A.InsertEvent(e, event)) == t.(events := t.events[e := event]);
    if e !in t.events {
      EventConstraintsAfter(s, t, id, e, event);
    }
  }

  // The deferred check.

  function After(s: A.State, id: Uuid, word: A.Word, when: int, e: Uuid, event: A.Event): A.State
    requires id in s.requests
  {
    s.(requests := s.requests[id := Decided(s.requests[id], word, when)], events := s.events[e := event])
  }

  lemma RowsAfter(s: A.State, id: Uuid, word: A.Word, when: int, e: Uuid, event: A.Event)
    requires Pends(s, id) && e !in s.events && event.approvalId == id
    ensures
      var u := After(s, id, word, when, e, event);
      && A.EventsOf(u, id) == A.EventsOf(s, id) + {e} && |A.EventsOf(u, id)| == 2
      && A.BasesOf(u, id) == A.BasesOf(s, id) && A.HasException(u, id) == A.HasException(s, id)
  {
    var u := After(s, id, word, when, e, event);
    assert A.EventsOf(u, id) == A.EventsOf(s, id) + {e};
    assert A.BasesOf(u, id) == A.BasesOf(s, id);
  }

  lemma DecisionIsTheEvent(s: A.State, id: Uuid, word: A.Word, when: int, e: Uuid, event: A.Event, d: Uuid)
    requires Pends(s, id) && e !in s.events && event.approvalId == id && event.number == 2
    requires A.DecisionEvent(After(s, id, word, when, e, event), id, d)
    ensures d == e
  {
    var u := After(s, id, word, when, e, event);
    RowsAfter(s, id, word, when, e, event);
    forall x | x in A.EventsOf(s, id) ensures u.events[x].number == 1 {
      OnlyFirst(s, id, x);
      assert x != e && u.events[x] == s.events[x];
    }
  }

  lemma FirstStays(s: A.State, id: Uuid, word: A.Word, when: int, e: Uuid, event: A.Event)
    requires Pends(s, id) && e !in s.events && event.approvalId == id
    ensures
      var u := After(s, id, word, when, e, event);
      exists x :: x in A.EventsOf(u, id) && A.FirstEvent(u, id, x)
  {
    var u := After(s, id, word, when, e, event);
    var x :| x in A.EventsOf(s, id) && A.FirstEvent(s, id, x);
    RowsAfter(s, id, word, when, e, event);
    assert A.FirstEvent(u, id, x);
  }

  lemma CheckAfter(s: A.State, id: Uuid, word: A.Word, when: int, e: Uuid, event: A.Event)
    requires Pends(s, id) && A.IsDecision(word) && EventFits(s, id, word, e, event)
    requires event.approvalId == id && event.number == 2
    ensures A.RequestComplete(After(s, id, word, when, e, event), id) <==> WordFits(s, id, word, event)
  {
    var u := After(s, id, word, when, e, event);
    RowsAfter(s, id, word, when, e, event);
    FirstStays(s, id, word, when, e, event);
    if A.RequestComplete(u, id) {
      var d :| d in A.EventsOf(u, id) && A.DecisionEvent(u, id, d);
      DecisionIsTheEvent(s, id, word, when, e, event, d);
    }
    if WordFits(s, id, word, event) {
      assert A.DecisionEvent(u, id, e);
    }
  }

  // The whole operation.

  lemma TwoSteps(db: Db, a: Op, b: Op)
    ensures Perform(db, NOTHING, [a, b]) ==
            if !Accepts(db, a) || !Accepts(Effect(db, a), b) then Raised
            else Reached(Effect(Effect(db, a), b), Queue(Queue(NOTHING, a), b))
  {
    assert [a, b] == [a] + [b] && [b] == [b] + [];
    OneStep(db, NOTHING, a, [b]);
    OneStep(Effect(db, a), Queue(NOTHING, a), b, []);
  }

  /** Which of the two statements are accepted, and what they leave. */
  lemma Statements(files: F.State, s: A.State, id: Uuid, word: A.Word, when: int, e: Uuid, event: A.Event)
    requires A.Constraints(s) && Pends(s, id) && event.approvalId == id && event.number == 2
    ensures
      var update, insert := A.UpdateRequest(id, Decided(s.requests[id], word, when)), A.InsertEvent(e, event);
      && (A.Accepts(files, s, update) <==> A.IsDecision(word))
      && (A.IsDecision(word) ==>
            (A.Accepts(files, A.Effect(s, update), insert) <==> EventFits(s, id, word, e, event)))
      && A.Effect(A.Effect(s, update), insert) == After(s, id, word, when, e, event)
  {
    var update := A.UpdateRequest(id, Decided(s.requests[id], word, when));
    StatusAccepted(files, s, id, word, when);
    EffectsAre(s, id, word, when, e, event);
    if A.IsDecision(word) {
      EventAccepted(files, s, A.Effect(s, update), id, word, when, e, event);
    }
  }

  lemma EffectsAre(s: A.State, id: Uuid, word: A.Word, when: int, e: Uuid, event: A.Event)
    requires id in s.requests
    ensures
      var update := A.UpdateRequest(id, Decided(s.requests[id], word, when));
      && A.Effect(s, update) == s.(requests := s.requests[id := Decided(s.requests[id], word, when)])
      && A.Effect(A.Effect(s, update), A.InsertEvent(e, event)) == After(s, id, word, when, e, event)
  {
  }

  lemma DecisionReaches(db: Db, id: Uuid, word: A.Word, when: int, e: Uuid, event: A.Event)
    requires A.Constraints(db.approvals) && Pends(db.approvals, id)
    requires event.approvalId == id && event.number == 2
    ensures
      Perform(db, NOTHING, Decide(id, Decided(db.approvals.requests[id], word, when), e, event)) ==
      if A.IsDecision(word) && EventFits(db.approvals, id, word, e, event)
      then Reached(db.(approvals := After(db.approvals, id, word, when, e, event)), Pending({}, {id}, {}))
      else Raised
  {
    var ops := Decide(id, Decided(db.approvals.requests[id], word, when), e, event);
    TwoSteps(db, ops[0], ops[1]);
    QueuedOnce(ops[0], ops[1]);
    Statements(db.files, db.approvals, id, word, when, e, event);
  }

  lemma QueuedOnce(a: Op, b: Op)
    requires a.OnApprovals? && a.a.UpdateRequest? && b.OnApprovals? && b.a.InsertEvent?
    ensures Queue(Queue(NOTHING, a), b) == Pending({}, {a.a.id}, {})
  {
  }

  lemma OnlyOneCheck(db: Db, id: Uuid)
    ensures ChecksPass(db, Pending({}, {id}, {})) <==> A.RequestComplete(db.approvals, id)
  {
  }

  /** A pending request can be decided exactly by its approver (or cancelled by anybody the service
      lets through), with a new operation, with a reason for a rejection or cancellation, and as its
      bases allow: approved without exceptions, or a document approved with some. */
  lemma DecisionCommitsExactlyWhen(db: Db, id: Uuid, word: A.Word, when: int, e: Uuid, event: A.Event)
    requires A.Constraints(db.approvals) && Pends(db.approvals, id)
    requires event.approvalId == id && event.number == 2
    ensures Commits(db, Decide(id, Decided(db.approvals.requests[id], word, when), e, event)) <==>
              && A.IsDecision(word)
              && EventFits(db.approvals, id, word, e, event)
              && WordFits(db.approvals, id, word, event)
    ensures Commits(db, Decide(id, Decided(db.approvals.requests[id], word, when), e, event)) ==>
              Transaction(db, Decide(id, Decided(db.approvals.requests[id], word, when), e, event))
              == db.(approvals := After(db.approvals, id, word, when, e, event))
  {
    DecisionReaches(db, id, word, when, e, event);
    if A.IsDecision(word) && EventFits(db.approvals, id, word, e, event) {
      CheckAfter(db.approvals, id, word, when, e, event);
      OnlyOneCheck(db.(approvals := After(db.approvals, id, word, when, e, event)), id);
    }
  }
}
