/** The tables as mutable state, and the execution of statements and transactions on them. */
module Database {
  import opened Sql
  import opened Ledger
  import F = Artifacts
  import A = Approvals

  class Tables {
    var releases: map<Uuid, F.Release>
    var releaseNodes: map<Uuid, F.ReleaseNode>
    var preservations: map<Uuid, F.Preservation>
    var objects: map<Uuid, F.LedgerObject>
    var publications: map<Uuid, F.Publication>
    var publicationNodes: map<Uuid, F.PublicationNode>
    var requests: map<Uuid, A.Request>
    var events: map<Uuid, A.Event>
    var bases: map<Uuid, A.Basis>
    var imports: map<Uuid, A.Import>
    var oldApprovals: map<int, A.OldApproval>
    var issued: set<int>
    var documents: map<int, int>

    function Files(): F.State
      reads this
    {
      F.State(releases, releaseNodes, preservations, objects, publications, publicationNodes)
    }

    function Approvals(): A.State
      reads this
    {
      A.State(requests, events, bases, imports, oldApprovals, issued, documents)
    }

    function Contents(): Db
      reads this
    {
      Db(Files(), Approvals())
    }

    constructor ()
      ensures Contents() == Db(F.EMPTY, A.EMPTY)
    {
      releases, releaseNodes, preservations, objects := map[], map[], map[], map[];
      publications, publicationNodes := map[], map[];
      requests, events, bases, imports := map[], map[], map[], map[];
      oldApprovals, issued, documents := map[], {}, map[];
    }

    method RestoreFiles(files: F.State)
      modifies this
      ensures Files() == files && Approvals() == old(Approvals())
    {
      releases, releaseNodes := files.releases, files.releaseNodes;
      preservations, objects := files.preservations, files.objects;
      publications, publicationNodes := files.publications, files.publicationNodes;
    }

    method RestoreRequests(approvals: A.State)
      modifies this`requests, this`events, this`bases
      ensures requests == approvals.requests && events == approvals.events && bases == approvals.bases
    {
      requests, events, bases := approvals.requests, approvals.events, approvals.bases;
    }

    method RestoreLegacy(approvals: A.State)
      modifies this`imports, this`oldApprovals, this`issued, this`documents
      ensures imports == approvals.imports && oldApprovals == approvals.oldApprovals
      ensures issued == approvals.issued && documents == approvals.documents
    {
      imports, oldApprovals := approvals.imports, approvals.oldApprovals;
      issued, documents := approvals.issued, approvals.documents;
    }

    method RestoreApprovals(approvals: A.State)
      modifies this
      ensures Approvals() == approvals && Files() == old(Files())
    {
      RestoreRequests(approvals);
      RestoreLegacy(approvals);
    }

    method Restore(db: Db)
      modifies this
      ensures Contents() == db
    {
      RestoreFiles(db.files);
      RestoreApprovals(db.approvals);
    }

    method WriteReleases(op: F.Op)
      requires op.InsertRelease? || op.UpdateRelease? || op.DeleteRelease?
               || op.InsertReleaseNodes? || op.UpdateReleaseNode? || op.DeleteReleaseNode?
      modifies this
      ensures Files() == F.Effect(old(Files()), op) && Approvals() == old(Approvals())
    {
      match op
      case InsertRelease(id, row) => releases := releases[id := row];
      case UpdateRelease(id, row) => releases := releases[id := row];
      case DeleteRelease(id) => releases := releases - {id};
      case InsertReleaseNodes(rows) => releaseNodes := releaseNodes + rows;
      case UpdateReleaseNode(id, row) => releaseNodes := releaseNodes[id := row];
      case DeleteReleaseNode(id) => releaseNodes := releaseNodes - {id};
    }

    method WriteFiles(op: F.Op)
      modifies this
      ensures Files() == F.Effect(old(Files()), op) && Approvals() == old(Approvals())
    {
      match op
      case InsertPreservation(id, row) => preservations := preservations[id := row];
      case UpdatePreservation(id, row) => preservations := preservations[id := row];
      case InsertObject(id, row) => objects := objects[id := row];
      case UpdateObject(id, row) => objects := objects[id := row];
      case InsertPublication(id, row) => publications := publications[id := row];
      case UpdatePublication(id, row) => publications := publications[id := row];
      case InsertPublicationNodes(rows) => publicationNodes := publicationNodes + rows;
      case _ => WriteReleases(op);
    }

    method WriteLegacy(op: A.Op)
      requires op.InsertOldApproval? || op.UpdateOldApproval? || op.DeleteOldApproval?
               || op.InsertDocument? || op.MoveDocument?
      modifies this
      ensures Approvals() == A.Effect(old(Approvals()), op) && Files() == old(Files())
    {
      match op
      case InsertOldApproval(id, row) =>
        oldApprovals := oldApprovals[id := row];
        issued := issued + {id};
      case UpdateOldApproval(id, row) => oldApprovals := oldApprovals[id := row];
      case DeleteOldApproval(id) => oldApprovals := oldApprovals - {id};
      case InsertDocument(document, project) => documents := documents[document := project];
      case MoveDocument(document, project) => documents := documents[document := project];
    }

    method WriteApprovals(op: A.Op)
      modifies this
      ensures Approvals() == A.Effect(old(Approvals()), op) && Files() == old(Files())
    {
      match op
      case InsertRequest(id, row) => requests := requests[id := row];
      case UpdateRequest(id, row) => requests := requests[id := row];
      case InsertEvent(id, row) => events := events[id := row];
      case InsertBasis(id, row) => bases := bases[id := row];
      case InsertImport(id, row) => imports := imports[id := row];
      case _ => WriteLegacy(op);
    }

    /** One statement: row guards, the write, then the table constraints. */
    method Execute(op: Op) returns (raised: bool)
      modifies this
      ensures raised <==> !Accepts(old(Contents()), op)
      ensures Contents() == if raised then old(Contents()) else Effect(old(Contents()), op)
    {
      var before := Contents();
      match op {
      case OnFiles(f) =>
        if !F.GuardAllows(Files(), f) {
          return true;
        }
        WriteFiles(f);
        raised := !F.Constraints(Files());
      case OnApprovals(a) =>
        if !A.GuardAllows(Files(), Approvals(), a) {
          return true;
        }
        WriteApprovals(a);
        raised := !A.Constraints(Approvals());
      }
      if raised {
        Restore(before);
      }
    }

    /** The deferred checks, row by row; the first that fails decides. */
    method RunDeferredChecks(pending: Pending) returns (ok: bool)
      ensures ok <==> ChecksPass(Contents(), pending)
    {
      var todo := pending.publications;
      while todo != {}
        invariant todo <= pending.publications
        invariant forall p :: p in pending.publications && p !in todo ==>
                                F.PublicationComplete(Files(), p)
      {
        var p :| p in todo;
        if !F.PublicationComplete(Files(), p) {
          return false;
        }
        todo := todo - {p};
      }
      todo := pending.requests;
      while todo != {}
        invariant todo <= pending.requests
        invariant forall r :: r in pending.requests && r !in todo ==>
                                A.RequestComplete(Approvals(), r)
      {
        var r :| r in todo;
        if !A.RequestComplete(Approvals(), r) {
          return false;
        }
        todo := todo - {r};
      }
      todo := pending.imports;
      while todo != {}
        invariant todo <= pending.imports
        invariant forall i :: i in pending.imports && i !in todo ==>
                                A.SwitchComplete(Approvals(), i)
      {
        var i :| i in todo;
        if !A.SwitchComplete(Approvals(), i) {
          return false;
        }
        todo := todo - {i};
      }
      return true;
    }

    /** Statements in order, then the deferred checks; the first failure rolls everything back. */
    method Commit(ops: seq<Op>) returns (committed: bool)
      modifies this
      ensures committed <==> Commits(old(Contents()), ops)
      ensures Contents() == Transaction(old(Contents()), ops)
    {
      var before, pending, i := Contents(), NOTHING, 0;
      while i < |ops|
        invariant 0 <= i <= |ops|
        invariant Perform(Contents(), pending, ops[i..]) == Perform(before, NOTHING, ops)
      {
        var raised := Execute(ops[i]);
        if raised {
          Restore(before);
          return false;
        }
        assert ops[i..][1..] == ops[i + 1..];
        pending := Queue(pending, ops[i]);
        i := i + 1;
      }
      committed := RunDeferredChecks(pending);
      if !committed {
        Restore(before);
      }
    }
  }
}
