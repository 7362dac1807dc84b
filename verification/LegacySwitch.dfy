/** Switching a pending old approval to a fixed request happens exactly once. */
module LegacySwitch {
  import opened Sql
  import opened Ledger
  import opened LedgerTheorems
  import F = Artifacts
  import A = Approvals
  import AH = ApprovalHistory

  ghost predicate Switches(s: A.State, i: Uuid, oldId: int) {
    i in s.imports && s.imports[i].mode == A.Switch && s.imports[i].legacyApprovalId == oldId
  }

  /** A switched old approval is imported once, and its row, as long as it exists, still is the
      pending row that was imported, in the project of the import. */
  ghost predicate SwitchHeld(s: A.State) {
    && (forall i, j, o :: Switches(s, i, o) && Switches(s, j, o) ==> i == j)
    && (forall i, o :: Switches(s, i, o) && o in s.oldApprovals ==>
          && s.oldApprovals[o].documentId in s.documents
          && s.documents[s.oldApprovals[o].documentId] == s.imports[i].projectId
          && s.oldApprovals[o].status == "requested")
  }

  /** Some switched old approval still belongs to the document. */
  ghost predicate Holds(s: A.State, document: int) {
    exists i, o :: Switches(s, i, o) && o in s.oldApprovals && s.oldApprovals[o].documentId == document
  }

  /** The statement moves no document with a switched approval to another project. */
  ghost predicate Harmless(s: A.State, op: A.Op) {
    op.MoveDocument? && op.document in s.documents ==>
      s.documents[op.document] == op.project || !Holds(s, op.document)
  }

  lemma SwitchedIsMigrated(s: A.State, i: Uuid, o: int)
    requires SwitchHeld(s) && Switches(s, i, o) && o in s.oldApprovals
    ensures A.Migrated(s, o)
  {
  }

  /** Importing the switch a second time violates the unique index, whatever the project. */
  lemma NoSecondSwitch(s: A.State, i: Uuid, j: Uuid, row: A.Import)
    requires SwitchHeld(s) && Switches(s, i, row.legacyApprovalId) && j !in s.imports
    requires row.mode == A.Switch && A.InsertImportAllowed(s, row)
    ensures !A.ImportConstraints(s.(imports := s.imports[j := row]))
  {
    var t := s.(imports := s.imports[j := row]);
    assert t.imports[i] == s.imports[i] && t.imports[j] == row;
  }

  lemma ImportKeepsSwitch(s: A.State, j: Uuid, row: A.Import)
    requires SwitchHeld(s) && j !in s.imports && A.InsertImportAllowed(s, row)
    requires A.ImportConstraints(s.(imports := s.imports[j := row]))
    ensures SwitchHeld(s.(imports := s.imports[j := row]))
  {
    var t := s.(imports := s.imports[j := row]);
    forall k, o | Switches(t, k, o) && k != j ensures Switches(s, k, o) {
    }
    if row.mode == A.Switch {
      forall i | Switches(s, i, row.legacyApprovalId) ensures false {
        NoSecondSwitch(s, i, j, row);
      }
    }
  }

  /** A move keeps the invariant exactly when it is harmless. */
  lemma MoveKeepsSwitch(s: A.State, document: int, project: int)
    requires SwitchHeld(s) && document in s.documents
    ensures SwitchHeld(A.Effect(s, A.MoveDocument(document, project))) <==> Harmless(s, A.MoveDocument(document, project))
  {
    var t := A.Effect(s, A.MoveDocument(document, project));
    assert t.imports == s.imports && t.oldApprovals == s.oldApprovals;
    forall i, o ensures Switches(t, i, o) <==> Switches(s, i, o) {
    }
    if SwitchHeld(t) && Holds(s, document) {
      var i, o :| Switches(s, i, o) && o in s.oldApprovals && s.oldApprovals[o].documentId == document;
      assert Switches(t, i, o);
    }
  }

  lemma OtherStepsKeepSwitch(files: F.State, s: A.State, op: A.Op)
    requires SwitchHeld(s) && AH.LegacyShape(s) && A.GuardAllows(files, s, op)
    requires !op.InsertImport? && !op.MoveDocument?
    ensures SwitchHeld(A.Effect(s, op))
  {
    var t := A.Effect(s, op);
    assert t.imports == s.imports;
    forall i, o ensures Switches(t, i, o) <==> Switches(s, i, o) {
    }
    forall i, o | Switches(s, i, o) && o in t.oldApprovals
      ensures o in s.oldApprovals && t.oldApprovals[o] == s.oldApprovals[o]
    {
      if op.UpdateOldApproval? && op.oldId == o {
        SwitchedIsMigrated(s, i, o);
      }
    }
  }

  ghost predicate SwitchSound(s: A.State) {
    AH.LegacyShape(s) && SwitchHeld(s)
  }

  ghost predicate HarmlessOp(db: Db, op: Op) {
    op.OnApprovals? ==> Harmless(db.approvals, op.a)
  }

  lemma StepKeepsSwitch(db: Db, op: Op)
    requires SwitchSound(db.approvals) && Accepts(db, op) && HarmlessOp(db, op)
    ensures SwitchSound(Effect(db, op).approvals)
  {
    if op.OnApprovals? {
      AH.LegacyShapeStep(db.files, db.approvals, op.a);
    }
    if op.OnApprovals? {
      if op.a.InsertImport? {
        ImportKeepsSwitch(db.approvals, op.a.id, op.a.imported);
      } else if op.a.MoveDocument? {
        MoveKeepsSwitch(db.approvals, op.a.document, op.a.project);
      } else {
        OtherStepsKeepSwitch(db.files, db.approvals, op.a);
      }
    }
  }

  /** Every statement is harmless when its turn comes. */
  ghost predicate HarmlessOps(db: Db, ops: seq<Op>)
    decreases |ops|
  {
    ops == [] || (HarmlessOp(db, ops[0]) && HarmlessOps(Effect(db, ops[0]), ops[1..]))
  }

  lemma {:induction false} PerformKeepsSwitch(db: Db, pending: Pending, ops: seq<Op>)
    requires SwitchSound(db.approvals) && Perform(db, pending, ops).Reached?
    requires HarmlessOps(db, ops)
    ensures SwitchSound(Perform(db, pending, ops).db.approvals)
    decreases |ops|
  {
    if ops != [] {
      StepKeepsSwitch(db, ops[0]);
      PerformKeepsSwitch(Effect(db, ops[0]), Queue(pending, ops[0]), ops[1..]);
    }
  }

  /** Every committed transaction of the run is harmless. */
  ghost predicate HarmlessRun(db: Db, transactions: seq<seq<Op>>)
    decreases |transactions|
  {
    transactions == []
    || ((Commits(db, transactions[0]) ==> HarmlessOps(db, transactions[0]))
        && HarmlessRun(Transaction(db, transactions[0]), transactions[1..]))
  }

  lemma {:induction false} RunKeepsSwitch(db: Db, transactions: seq<seq<Op>>)
    requires Committed(db) && SwitchHeld(db.approvals) && HarmlessRun(db, transactions)
    ensures SwitchHeld(Run(db, transactions).approvals)
    decreases |transactions|
  {
    if transactions != [] {
      TransactionKeeps(db, transactions[0]);
      if Commits(db, transactions[0]) {
        PerformKeepsSwitch(db, NOTHING, transactions[0]);
      }
      RunKeepsSwitch(Transaction(db, transactions[0]), transactions[1..]);
    }
  }

  ghost predicate Continues(s: A.State, i: Uuid, r: Uuid) {
    r in s.requests && s.requests[r].legacyImportId == Some(i)
  }

  lemma OneContinuation(s: A.State, i: Uuid)
    requires AH.LegacyShape(s) && A.SwitchComplete(s, i) && s.imports[i].mode == A.Switch
    ensures exists r :: Continues(s, i, r) && s.requests[r].projectId == s.imports[i].projectId
                        && forall q :: Continues(s, i, q) ==> q == r
  {
    var r :| r in s.requests && s.requests[r].legacyImportId == Some(i)
             && s.requests[r].projectId == s.imports[i].projectId;
    assert Continues(s, i, r);
  }

  /** After any run without harmful moves, a switched old approval has one switch import and one
      fixed request continuing it, in the same project. */
  lemma SwitchIsExactlyOnce(db: Db, transactions: seq<seq<Op>>, i: Uuid)
    requires Committed(db) && SwitchHeld(db.approvals) && HarmlessRun(db, transactions)
    requires i in Run(db, transactions).approvals.imports
    requires Run(db, transactions).approvals.imports[i].mode == A.Switch
    ensures
      var s := Run(db, transactions).approvals;
      && (forall j :: Switches(s, j, s.imports[i].legacyApprovalId) ==> j == i)
      && exists r :: Continues(s, i, r) && s.requests[r].projectId == s.imports[i].projectId
                     && forall q :: Continues(s, i, q) ==> q == r
  {
    RunKeepsCommitted(db, transactions);
    RunKeepsSwitch(db, transactions);
    var s := Run(db, transactions).approvals;
    assert A.SwitchComplete(s, i);
    OneContinuation(s, i);
    assert Switches(s, i, s.imports[i].legacyApprovalId);
  }

  lemma EmptyHoldsSwitch()
    ensures SwitchHeld(LedgerTheorems.EMPTY.approvals)
  {
  }

  /** From the empty database on: every switch import is the only one of its old approval, and exactly
      one fixed request continues it. */
  lemma SwitchIsExactlyOnceFromEmpty(transactions: seq<seq<Op>>, i: Uuid)
    requires HarmlessRun(LedgerTheorems.EMPTY, transactions)
    requires i in Run(LedgerTheorems.EMPTY, transactions).approvals.imports
    requires Run(LedgerTheorems.EMPTY, transactions).approvals.imports[i].mode == A.Switch
    ensures
      var s := Run(LedgerTheorems.EMPTY, transactions).approvals;
      && (forall j :: Switches(s, j, s.imports[i].legacyApprovalId) ==> j == i)
      && exists r :: Continues(s, i, r) && s.requests[r].projectId == s.imports[i].projectId
                     && forall q :: Continues(s, i, q) ==> q == r
  {
    EmptyIsCommitted();
    EmptyHoldsSwitch();
    SwitchIsExactlyOnce(LedgerTheorems.EMPTY, transactions, i);
  }

  /** The old row of a switched approval is the same pending row, or gone. */
  ghost predicate RowFrozen(a: A.State, b: A.State, o: int) {
    o in b.oldApprovals ==> o in a.oldApprovals && b.oldApprovals[o] == a.oldApprovals[o]
  }

  lemma StepFreezesRow(files: F.State, s: A.State, op: A.Op, i: Uuid, o: int)
    requires AH.LegacyShape(s) && SwitchHeld(s) && A.GuardAllows(files, s, op)
    requires Switches(s, i, o)
    ensures RowFrozen(s, A.Effect(s, op), o) && Switches(A.Effect(s, op), i, o)
  {
    if o in s.oldApprovals {
      SwitchedIsMigrated(s, i, o);
    }
  }

  /** What one statement of such a run keeps. */
  lemma StepHolds(db: Db, op: Op, i: Uuid, o: int)
    requires SwitchSound(db.approvals) && Accepts(db, op) && HarmlessOp(db, op)
    requires Switches(db.approvals, i, o)
    ensures SwitchSound(Effect(db, op).approvals)
    ensures Switches(Effect(db, op).approvals, i, o) && RowFrozen(db.approvals, Effect(db, op).approvals, o)
  {
    StepKeepsSwitch(db, op);
    if op.OnApprovals? {
      StepFreezesRow(db.files, db.approvals, op.a, i, o);
    }
  }

  lemma RowFrozenTransitive(a: A.State, b: A.State, c: A.State, o: int)
    requires RowFrozen(a, b, o) && RowFrozen(b, c, o)
    ensures RowFrozen(a, c, o)
  {
  }

  lemma {:induction false} PerformFreezesRow(db: Db, pending: Pending, ops: seq<Op>, i: Uuid, o: int)
    requires SwitchSound(db.approvals) && Perform(db, pending, ops).Reached?
    requires Switches(db.approvals, i, o)
    requires HarmlessOps(db, ops)
    ensures RowFrozen(db.approvals, Perform(db, pending, ops).db.approvals, o)
    decreases |ops|
  {
    if ops != [] {
      var next, last := Effect(db, ops[0]), Perform(db, pending, ops).db;
      StepHolds(db, ops[0], i, o);
      PerformFreezesRow(next, Queue(pending, ops[0]), ops[1..], i, o);
      RowFrozenTransitive(db.approvals, next.approvals, last.approvals, o);
    }
  }

  lemma TransactionFreezesRow(db: Db, ops: seq<Op>, i: Uuid, o: int)
    requires Committed(db) && SwitchHeld(db.approvals) && Switches(db.approvals, i, o)
    requires Commits(db, ops) ==> HarmlessOps(db, ops)
    ensures RowFrozen(db.approvals, Transaction(db, ops).approvals, o)
    ensures Switches(Transaction(db, ops).approvals, i, o)
    ensures SwitchHeld(Transaction(db, ops).approvals)
  {
    TransactionKeeps(db, ops);
    if Commits(db, ops) {
      PerformFreezesRow(db, NOTHING, ops, i, o);
      PerformKeepsSwitch(db, NOTHING, ops);
    }
  }

  /** Over any such run, the old row of a switched approval is never rewritten, and as long as it
      is there it is pending. So only the new system can decide it. */
  lemma {:induction false} SwitchedRowIsFrozen(db: Db, transactions: seq<seq<Op>>, i: Uuid, o: int)
    requires Committed(db) && SwitchHeld(db.approvals) && HarmlessRun(db, transactions)
    requires Switches(db.approvals, i, o)
    ensures RowFrozen(db.approvals, Run(db, transactions).approvals, o)
    ensures o in Run(db, transactions).approvals.oldApprovals ==>
              Run(db, transactions).approvals.oldApprovals[o].status == "requested"
    decreases |transactions|
  {
    if transactions != [] {
      TransactionKeeps(db, transactions[0]);
      TransactionFreezesRow(db, transactions[0], i, o);
      SwitchedRowIsFrozen(Transaction(db, transactions[0]), transactions[1..], i, o);
    }
  }

  /** A harmful move can lose the guard: once the document has moved, the old row is
      protected exactly when its new project has a switch import of it too. */
  lemma MovingDecidesTheGuard(s: A.State, o: int, project: int)
    requires A.Migrated(s, o)
    ensures
      var t := A.Effect(s, A.MoveDocument(s.oldApprovals[o].documentId, project));
      A.Migrated(t, o) <==> exists i :: Switches(s, i, o) && s.imports[i].projectId == project
  {
    var t := A.Effect(s, A.MoveDocument(s.oldApprovals[o].documentId, project));
    if i :| Switches(s, i, o) && s.imports[i].projectId == project {
      assert i in t.imports;
    }
  }

  // What a harmful move undoes.

  /** The row a second switch would import: the snapshot of the old approval, for another project. */
  ghost predicate SnapshotOf(s: A.State, o: int, row: A.Import)
    requires o in s.oldApprovals
  {
    && row.mode == A.Switch && row.legacyApprovalId == o
    && row.source == A.LegacySource(Some(o), Some(s.oldApprovals[o].status), Some(s.oldApprovals[o].targetId),
                                    Some(s.oldApprovals[o].targetType))
  }

  ghost predicate OperationIsNew(s: A.State, row: A.Import) {
    forall k :: k in s.imports ==> !(s.imports[k].projectId == row.projectId && s.imports[k].createdBy == row.createdBy
                                     && s.imports[k].operationId == row.operationId)
  }

  ghost predicate SwitchedIn(s: A.State, o: int, project: int) {
    exists k :: Switches(s, k, o) && s.imports[k].projectId == project
  }

  lemma SwitchedTwice(s: A.State, j: Uuid, row: A.Import)
    requires j !in s.imports && row.mode == A.Switch && SwitchedIn(s, row.legacyApprovalId, row.projectId)
    ensures !A.ImportConstraints(s.(imports := s.imports[j := row]))
  {
    var t := s.(imports := s.imports[j := row]);
    var k :| Switches(s, k, row.legacyApprovalId) && s.imports[k].projectId == row.projectId;
    assert t.imports[k] == s.imports[k] && t.imports[j] == row;
  }

  lemma SwitchedElsewhere(s: A.State, j: Uuid, row: A.Import)
    requires A.ImportConstraints(s) && j !in s.imports && row.mode == A.Switch && OperationIsNew(s, row)
    requires !SwitchedIn(s, row.legacyApprovalId, row.projectId)
    ensures A.ImportConstraints(s.(imports := s.imports[j := row]))
  {
    forall k | k in s.imports
      ensures !(s.imports[k].mode == A.Switch && s.imports[k].legacyApprovalId == row.legacyApprovalId
                && s.imports[k].projectId == row.projectId)
    {
      assert Switches(s, k, row.legacyApprovalId) ==> s.imports[k].projectId != row.projectId;
    }
  }

  /** After the document of a pending old approval has moved, a switch of it in the new project is
      accepted exactly when that project has none yet, however many others have. */
  lemma SecondSwitchExactlyWhen(s: A.State, o: int, project: int, j: Uuid, row: A.Import)
    requires A.ImportConstraints(s) && o in s.oldApprovals && s.oldApprovals[o].documentId in s.documents
    requires s.oldApprovals[o].status == "requested"
    requires s.oldApprovals[o].targetType == "document" || s.oldApprovals[o].targetType == "requirement_item"
    requires SnapshotOf(s, o, row) && row.projectId == project && j !in s.imports && OperationIsNew(s, row)
    ensures
      var t := A.Effect(s, A.MoveDocument(s.oldApprovals[o].documentId, project));
      A.InsertImportAllowed(t, row) && A.ImportConstraints(t.(imports := t.imports[j := row]))
      <==> !SwitchedIn(s, o, project)
  {
    var t := A.Effect(s, A.MoveDocument(s.oldApprovals[o].documentId, project));
    assert t.imports == s.imports && t.oldApprovals == s.oldApprovals;
    forall k ensures Switches(t, k, o) <==> Switches(s, k, o) {
    }
    if SwitchedIn(t, o, project) {
      SwitchedTwice(t, j, row);
    } else {
      SwitchedElsewhere(t, j, row);
    }
  }

  /** So a harmful move breaks exactly-once: two switch imports of one old approval, and its row can be
      rewritten, if the new project has no switch of it. */
  lemma HarmfulMoveBreaksTheSwitch(files: F.State, s: A.State, i: Uuid, o: int, project: int, j: Uuid, row: A.Import,
                                   rewritten: A.OldApproval)
    requires A.ImportConstraints(s) && SwitchHeld(s) && Switches(s, i, o) && o in s.oldApprovals
    requires s.oldApprovals[o].targetType == "document" || s.oldApprovals[o].targetType == "requirement_item"
    requires s.imports[i].projectId != project
    requires SnapshotOf(s, o, row) && row.projectId == project && j !in s.imports && OperationIsNew(s, row)
    ensures
      var t := A.Effect(s, A.MoveDocument(s.oldApprovals[o].documentId, project));
      var u := A.Effect(t, A.InsertImport(j, row));
      && !Harmless(s, A.MoveDocument(s.oldApprovals[o].documentId, project))
      && A.GuardAllows(files, t, A.UpdateOldApproval(o, rewritten))
      && A.GuardAllows(files, t, A.InsertImport(j, row)) && A.ImportConstraints(u)
      && Switches(u, i, o) && Switches(u, j, o) && i != j
  {
    var document := s.oldApprovals[o].documentId;
    forall k | Switches(s, k, o) ensures k == i {
    }
    assert !SwitchedIn(s, o, project);
    SecondSwitchExactlyWhen(s, o, project, j, row);
    SwitchedIsMigrated(s, i, o);
    MovingDecidesTheGuard(s, o, project);
  }
}
