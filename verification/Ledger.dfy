/**
 * The database as transactions see it. A transaction is a sequence of statements followed by the
 * deferred checks of exactly the rows it touched; anything that raises undoes all of it.
 */
module Ledger {
  import opened Sql
  import F = Artifacts
  import A = Approvals

  datatype Db = Db(files: F.State, approvals: A.State)

  datatype Op = OnFiles(f: F.Op) | OnApprovals(a: A.Op)

  /** Rows whose deferred checks are queued. */
  datatype Pending = Pending(publications: set<Uuid>, requests: set<Uuid>, imports: set<Uuid>)

  const NOTHING := Pending({}, {}, {})

  predicate Accepts(db: Db, op: Op) {
    match op
    case OnFiles(f) => F.Accepts(db.files, f)
    case OnApprovals(a) => A.Accepts(db.files, db.approvals, a)
  }

  function Effect(db: Db, op: Op): Db {
    match op
    case OnFiles(f) => db.(files := F.Effect(db.files, f))
    case OnApprovals(a) => db.(approvals := A.Effect(db.approvals, a))
  }

  function Queue(pending: Pending, op: Op): Pending {
    match op
    case OnFiles(f) => pending.(publications := pending.publications + F.Touches(f))
    case OnApprovals(a) =>
      pending.(requests := pending.requests + A.TouchedRequests(a),
               imports := pending.imports + A.TouchedImports(a))
  }

  datatype Attempt = Raised | Reached(db: Db, pending: Pending)

  function Perform(db: Db, pending: Pending, ops: seq<Op>): Attempt
    decreases |ops|
  {
    if ops == [] then Reached(db, pending)
    else if !Accepts(db, ops[0]) then Raised
    else Perform(Effect(db, ops[0]), Queue(pending, ops[0]), ops[1..])
  }

  lemma OneStep(db: Db, pending: Pending, op: Op, rest: seq<Op>)
    ensures Perform(db, pending, [op] + rest)
         == if Accepts(db, op) then Perform(Effect(db, op), Queue(pending, op), rest) else Raised
  {
    assert ([op] + rest)[1..] == rest;
  }

  predicate ChecksPass(db: Db, pending: Pending) {
    && (forall p | p in pending.publications :: F.PublicationComplete(db.files, p))
    && (forall r | r in pending.requests :: A.RequestComplete(db.approvals, r))
    && (forall i | i in pending.imports :: A.SwitchComplete(db.approvals, i))
  }

  predicate Commits(db: Db, ops: seq<Op>) {
    var end := Perform(db, NOTHING, ops);
    end.Reached? && ChecksPass(end.db, end.pending)
  }

  function Transaction(db: Db, ops: seq<Op>): Db {
    if Commits(db, ops) then Perform(db, NOTHING, ops).db else db
  }

  function Run(db: Db, transactions: seq<seq<Op>>): Db
    decreases |transactions|
  {
    if transactions == [] then db
    else Run(Transaction(db, transactions[0]), transactions[1..])
  }
}
