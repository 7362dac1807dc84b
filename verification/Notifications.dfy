/** Notifications of fixed approvals: who is told about an event, and who may read it. */
module Notifications {
  import opened Sql
  import opened Counting
  import F = Artifacts
  import A = Approvals
  import AH = ApprovalHistory

  datatype Project = Project(tenantId: int, deleted: bool)

  /** A guest binding of an approval; its public context is never null. */
  datatype Binding = Binding(projectId: int)

  /** The membership, permission and guest facts of the moment. `identities` are the users that are
      active internal accounts and active members of an active tenant, not review accounts. */
  datatype World = World(
    projects: map<int, Project>, users: set<int>, identities: set<(int, int)>,
    permissions: set<(int, int, string)>, bindings: map<Uuid, Binding>,
    guestVisible: set<(int, Uuid)>)

  datatype Notification = Notification(
    tenantId: int, recipient: int, kind: string, actor: int, projectId: int, targetType: string,
    targetId: string, eventKey: string)

  const READABLE_KINDS := ["requirement", "requirement_document", "specification", "test_design"]

  function TypeOf(action: A.Word): Option<string> {
    match action
    case Requested => Some("fixed_approval_requested")
    case Approved => Some("fixed_approval_decided")
    case ApprovedWithExceptions => Some("fixed_approval_decided")
    case Rejected => Some("fixed_approval_decided")
    case Cancelled => Some("fixed_approval_cancelled")
    case OtherWord(_) => None
  }

  function EventKey(e: Uuid): string {
    "fixed_approval:" + e
  }

  lemma EventKeyInjective(a: Uuid, b: Uuid)
    requires EventKey(a) == EventKey(b)
    ensures a == b
  {
    assert EventKey(a)[15..] == a && EventKey(b)[15..] == b;
  }

  /** The reader's own access rule: identity, permissions, and the kinds the release contains. */
  predicate InternalAccess(w: World, files: F.State, r: A.Request, user: int) {
    && r.projectId in w.projects && r.releaseId in files.releases
    && (var p, kinds := w.projects[r.projectId], files.releases[r.releaseId].sourceKinds;
        && (user, p.tenantId) in w.identities && !p.deleted
        && (user, r.projectId, "requirement:read") in w.permissions
        && (user, r.projectId, "artifact_release:read") in w.permissions
        && (forall k | k in kinds :: k in READABLE_KINDS)
        && ("specification" in kinds ==> (user, r.projectId, "document:read") in w.permissions)
        && ("test_design" in kinds ==> (user, r.projectId, "test_plan:read") in w.permissions)
        && (r.preservationId.Some? ==> (user, r.projectId, "document:read") in w.permissions))
  }

  /** Bindings belong to the project of their approval, as the binding guard requires. */
  ghost predicate BindingsMatch(w: World, s: A.State) {
    forall r :: r in w.bindings && r in s.requests ==> w.bindings[r].projectId == s.requests[r].projectId
  }

  // The reader.

  /** The join of a notification with its event, request and project. */
  predicate Base(w: World, files: F.State, s: A.State, n: Notification, e: Uuid) {
    && e in s.events && n.eventKey == EventKey(e)
    && (var r := s.events[e].approvalId;
        && r in s.requests && n.targetId == r
        && s.requests[r].projectId in w.projects && n.projectId == s.requests[r].projectId
        && n.tenantId == w.projects[n.projectId].tenantId
        && s.requests[r].releaseId in files.releases
        && s.events[e].actorId in w.users
        && n.targetType == "fixed_approval"
        && s.requests[r].sealed
        && n.actor == s.events[e].actorId
        && n.recipient != s.events[e].actorId
        && Some(n.kind) == TypeOf(s.events[e].action))
  }

  predicate ReaderSeesBinding(w: World, s: A.State, r: Uuid)
    requires r in s.requests
  {
    r in w.bindings && w.bindings[r].projectId == s.requests[r].projectId
  }

  /** The part of the request a user must play to be shown the event internally. */
  predicate ReaderRole(w: World, s: A.State, e: Uuid, user: int)
    requires e in s.events && s.events[e].approvalId in s.requests
  {
    var id := s.events[e].approvalId;
    var req, action := s.requests[id], s.events[e].action;
    || (action == A.Requested && !ReaderSeesBinding(w, s, id) && req.approverId == user)
    || ((action == A.Approved || action == A.ApprovedWithExceptions || action == A.Rejected)
        && req.requesterId == user)
    || (action == A.Cancelled
        && (req.requesterId == user || (!ReaderSeesBinding(w, s, id) && req.approverId == user)))
  }

  predicate Internal(w: World, files: F.State, s: A.State, user: int, tenant: int, n: Notification) {
    && n.recipient == user && n.tenantId == tenant
    && exists e | e in s.events ::
         && Base(w, files, s, n, e)
         && ReaderRole(w, s, e, user)
         && InternalAccess(w, files, s.requests[s.events[e].approvalId], user)
  }

  // The writer.

  function Sources(w: World, s: A.State, id: Uuid, action: A.Word): set<Uuid> {
    set e | e in A.EventsOf(s, id) && s.events[e].action == action && s.events[e].actorId in w.users
            && id in s.requests && s.requests[id].sealed && s.requests[id].projectId in w.projects
  }

  /** The recipients, listed; the actor is never one of them. */
  function Recipients(req: A.Request, action: A.Word, actor: int): seq<int> {
    Except(actor,
           if action == A.Requested then [req.approverId]
           else if action == A.Cancelled then [req.requesterId, req.approverId]
           else [req.requesterId])
  }

  function Except(actor: int, users: seq<int>): (r: seq<int>)
    ensures forall u :: u in r <==> u in users && u != actor
  {
    if users == [] then []
    else (if users[0] == actor then [] else [users[0]]) + Except(actor, users[1..])
  }

  predicate IsGuest(w: World, s: A.State, id: Uuid, user: int)
    requires id in s.requests
  {
    id in w.bindings && user == s.requests[id].approverId
  }

  predicate Permitted(w: World, files: F.State, s: A.State, id: Uuid, user: int)
    requires id in s.requests
  {
    if IsGuest(w, s, id, user) then (user, id) in w.guestVisible
    else s.requests[id].releaseId in files.releases && InternalAccess(w, files, s.requests[id], user)
  }

  function Message(w: World, s: A.State, id: Uuid, e: Uuid, kind: string, user: int): Notification
    requires id in s.requests && s.requests[id].projectId in w.projects && e in s.events
  {
    var req := s.requests[id];
    Notification(w.projects[req.projectId].tenantId, user, kind, s.events[e].actorId,
                 req.projectId, "fixed_approval", id, EventKey(e))
  }

  /** No two events of an approval carry the same action, even inside a transaction. */
  lemma OneEventPerAction(s: A.State, id: Uuid, a: Uuid, b: Uuid)
    requires A.EventConstraints(s) && AH.RequestShape(s) && AH.EventShape(s)
    requires a in A.EventsOf(s, id) && b in A.EventsOf(s, id)
    requires s.events[a].action == s.events[b].action
    ensures a == b
  {
  }

  /** The writer's `.one()` is well defined: never two rows, and for a complete request one row
      exactly for "requested" and, once decided, for the decision. */
  lemma SourceIsUnique(w: World, s: A.State, id: Uuid, action: A.Word)
    requires A.EventConstraints(s) && AH.RequestShape(s) && AH.EventShape(s)
    ensures |Sources(w, s, id, action)| <= 1
    ensures A.RequestComplete(s, id) && s.requests[id].projectId in w.projects
            && (forall e :: e in A.EventsOf(s, id) ==> s.events[e].actorId in w.users) ==>
              (|Sources(w, s, id, action)| == 1 <==>
                 action == A.Requested || action == s.requests[id].status)
  {
    var found := Sources(w, s, id, action);
    if found != {} {
      var e :| e in found;
      forall x | x in found ensures x == e {
        OneEventPerAction(s, id, x, e);
      }
      assert found == {e};
    }
    if A.RequestComplete(s, id) && s.requests[id].projectId in w.projects
       && (forall e :: e in A.EventsOf(s, id) ==> s.events[e].actorId in w.users) {
      if action == A.Requested {
        var e :| e in A.EventsOf(s, id) && A.FirstEvent(s, id, e);
        assert e in found;
      } else if action == s.requests[id].status {
        VersionIsTwo(s, id);
        var d :| d in A.EventsOf(s, id) && A.DecisionEvent(s, id, d);
        assert d in found;
      } else {
        assert found == {};
      }
    }
  }

  lemma VersionIsTwo(s: A.State, id: Uuid)
    requires AH.RequestShape(s) && A.EventConstraints(s) && A.RequestComplete(s, id)
    requires s.requests[id].status != A.Requested
    ensures s.requests[id].version == 2
  {
    var own := A.EventsOf(s, id);
    var numberOf := map e | e in own :: s.events[e].number;
    ImageSize(own, numberOf);
    SubsetSize(Image(own, numberOf), {1, 2});
    var e :| e in own && A.FirstEvent(s, id, e);
  }

  /** The two sides agree: the message written for a user about an event is in that user's internal
      list exactly when the user is among the event's recipients, is no guest and has access. */
  lemma WriterMeetsReader(w: World, files: F.State, s: A.State, id: Uuid, action: A.Word, e: Uuid,
                          user: int)
    requires BindingsMatch(w, s) && A.RequestConstraints(s)
    requires e in Sources(w, s, id, action) && TypeOf(action).Some?
    requires s.requests[id].releaseId in files.releases
    ensures
      var req, tenant := s.requests[id], w.projects[s.requests[id].projectId].tenantId;
      Internal(w, files, s, user, tenant, Message(w, s, id, e, TypeOf(action).value, user)) <==>
        && user in Recipients(req, action, s.events[e].actorId)
        && !IsGuest(w, s, id, user)
        && InternalAccess(w, files, req, user)
  {
    var req, tenant := s.requests[id], w.projects[s.requests[id].projectId].tenantId;
    var n := Message(w, s, id, e, TypeOf(action).value, user);
    forall x | x in s.events && Base(w, files, s, n, x) ensures x == e {
      EventKeyInjective(x, e);
    }
    if user != s.events[e].actorId {
      assert Base(w, files, s, n, e);
    }
  }

  // In plain terms.

  /** The permissions without which a request of this release is not shown. */
  function Needed(kinds: seq<string>, preserved: bool): set<string> {
    {"requirement:read", "artifact_release:read"}
    + (if preserved || "specification" in kinds then {"document:read"} else {})
    + (if "test_design" in kinds then {"test_plan:read"} else {})
  }

  ghost predicate MayRead(w: World, files: F.State, req: A.Request, user: int) {
    && req.projectId in w.projects && req.releaseId in files.releases
    && (var p, kinds := w.projects[req.projectId], files.releases[req.releaseId].sourceKinds;
        && !p.deleted && (user, p.tenantId) in w.identities
        && (forall c :: c in Needed(kinds, req.preservationId.Some?) ==> (user, req.projectId, c) in w.permissions)
        && (forall i :: 0 <= i < |kinds| ==>
              kinds[i] in {"requirement", "requirement_document", "specification", "test_design"}))
  }

  /** Access is an identity in the project's tenant with every permission the contents need. */
  lemma InternalAccessNeeds(w: World, files: F.State, req: A.Request, user: int)
    ensures InternalAccess(w, files, req, user) <==> MayRead(w, files, req, user)
  {
    if req.projectId in w.projects && req.releaseId in files.releases {
      var kinds := files.releases[req.releaseId].sourceKinds;
      var needed := Needed(kinds, req.preservationId.Some?);
      if InternalAccess(w, files, req, user) {
        forall c | c in needed ensures (user, req.projectId, c) in w.permissions {
        }
        forall i | 0 <= i < |kinds|
          ensures kinds[i] in {"requirement", "requirement_document", "specification", "test_design"}
        {
          assert kinds[i] in READABLE_KINDS;
        }
      }
      if MayRead(w, files, req, user) {
        assert "requirement:read" in needed && "artifact_release:read" in needed;
        assert "specification" in kinds || req.preservationId.Some? ==> "document:read" in needed;
        assert "test_design" in kinds ==> "test_plan:read" in needed;
        forall k | k in kinds ensures k in READABLE_KINDS {
          var i :| 0 <= i < |kinds| && kinds[i] == k;
        }
      }
    }
  }

  function KindFor(action: A.Word): string {
    if action == A.Requested then "fixed_approval_requested"
    else if action == A.Cancelled then "fixed_approval_cancelled" else "fixed_approval_decided"
  }

  /** An approver is told of requests and cancellations unless a guest stands in for them; a requester
      of decisions and cancellations. */
  ghost predicate PlaysPart(w: World, req: A.Request, id: Uuid, action: A.Word, user: int) {
    var guest := id in w.bindings && w.bindings[id].projectId == req.projectId;
    || (user == req.approverId && !guest && (action == A.Requested || action == A.Cancelled))
    || (user == req.requesterId && action != A.Requested && !action.OtherWord?)
  }

  /** The notification is the message about event e to a user who is not its actor. */
  ghost predicate IsAbout(w: World, files: F.State, s: A.State, n: Notification, e: Uuid, user: int, tenant: int) {
    && e in s.events && s.events[e].approvalId in s.requests
    && (var id, actor := s.events[e].approvalId, s.events[e].actorId;
        var req := s.requests[id];
        && req.sealed && actor in w.users && actor != user && !s.events[e].action.OtherWord?
        && req.projectId in w.projects && w.projects[req.projectId].tenantId == tenant
        && n == Notification(tenantId := tenant, recipient := user, kind := KindFor(s.events[e].action),
                             actor := actor, projectId := req.projectId, targetType := "fixed_approval",
                             targetId := id, eventKey := "fixed_approval:" + e)
        && PlaysPart(w, req, id, s.events[e].action, user) && MayRead(w, files, req, user))
  }

  lemma RowIsAbout(w: World, files: F.State, s: A.State, user: int, tenant: int, n: Notification, e: Uuid)
    requires e in s.events
    ensures n.recipient == user && n.tenantId == tenant && Base(w, files, s, n, e) && ReaderRole(w, s, e, user)
            && InternalAccess(w, files, s.requests[s.events[e].approvalId], user)
            <==> IsAbout(w, files, s, n, e, user, tenant)
  {
    var id := s.events[e].approvalId;
    if id in s.requests {
      InternalAccessNeeds(w, files, s.requests[id], user);
      assert EventKey(e) == "fixed_approval:" + e;
    }
  }

  /** A user's internal list shows exactly the messages about sealed requests, of the user's tenant, in
      which the user plays a part and whose contents the user may read. */
  lemma InternalListShows(w: World, files: F.State, s: A.State, user: int, tenant: int, n: Notification)
    ensures Internal(w, files, s, user, tenant, n) <==> exists e :: IsAbout(w, files, s, n, e, user, tenant)
  {
    forall e | e in s.events
      ensures n.recipient == user && n.tenantId == tenant && Base(w, files, s, n, e) && ReaderRole(w, s, e, user)
              && InternalAccess(w, files, s.requests[s.events[e].approvalId], user)
              <==> IsAbout(w, files, s, n, e, user, tenant)
    {
      RowIsAbout(w, files, s, user, tenant, n, e);
    }
  }

  /** Who is addressed: the approver of a request, the requester of a decision, and the other party, or
      both when a third person does it, of a cancellation. */
  lemma WhoIsAddressed(w: World, s: A.State, id: Uuid, action: A.Word, e: Uuid, user: int)
    requires A.RequestConstraints(s) && A.EventConstraints(s) && AH.RequestShape(s) && AH.EventShape(s)
    requires e in Sources(w, s, id, action)
    ensures
      var req := s.requests[id];
      user in Recipients(req, action, s.events[e].actorId) <==>
        if action == A.Requested then user == req.approverId
        else if action == A.Cancelled then user in {req.requesterId, req.approverId} - {s.events[e].actorId}
        else user == req.requesterId
  {
  }

  // The table.

  type Rows = map<int, Notification>

  /** Has this event already reached this user? */
  predicate Told(rows: Rows, key: string, user: int) {
    exists n | n in rows :: rows[n].eventKey == key && rows[n].recipient == user
  }

  ghost predicate OncePerRecipient(rows: Rows) {
    forall a, b | a in rows && b in rows ::
      rows[a].eventKey == rows[b].eventKey && rows[a].recipient == rows[b].recipient ==> a == b
  }

  ghost predicate Extends(before: Rows, after: Rows) {
    forall n :: n in before ==> n in after && after[n] == before[n]
  }

  /** A new row is the event's message to a permitted recipient who had not been told. */
  ghost predicate Due(w: World, files: F.State, s: A.State, id: Uuid, e: Uuid, kind: string,
                      before: Rows, row: Notification)
    requires id in s.requests && s.requests[id].projectId in w.projects && e in s.events
  {
    && Permitted(w, files, s, id, row.recipient)
    && !Told(before, EventKey(e), row.recipient)
    && row == Message(w, s, id, e, kind, row.recipient)
  }

  ghost predicate Served(w: World, files: F.State, s: A.State, id: Uuid, e: Uuid, kind: string,
                         users: seq<int>, before: Rows, after: Rows)
    requires id in s.requests && s.requests[id].projectId in w.projects && e in s.events
  {
    && Extends(before, after)
    && OncePerRecipient(after)
    && (forall n :: n in after && n !in before ==>
          after[n].recipient in users && Due(w, files, s, id, e, kind, before, after[n]))
    && (forall user :: user in users && Permitted(w, files, s, id, user) ==>
          Told(after, EventKey(e), user))
  }

  /** After an event is served, exactly those have been told who had been already, or are addressed and
      may see it: a guest the shared contents, anyone else the request itself. */
  lemma ToldExactlyWhen(w: World, files: F.State, s: A.State, id: Uuid, e: Uuid, kind: string, users: seq<int>,
                        before: Rows, after: Rows, user: int)
    requires id in s.requests && s.requests[id].projectId in w.projects && e in s.events
    requires Served(w, files, s, id, e, kind, users, before, after)
    ensures
      var guest := id in w.bindings && user == s.requests[id].approverId;
      (exists n :: n in after && after[n].eventKey == "fixed_approval:" + e && after[n].recipient == user) <==>
        || (exists n :: n in before && before[n].eventKey == "fixed_approval:" + e && before[n].recipient == user)
        || (user in users && (if guest then (user, id) in w.guestVisible else MayRead(w, files, s.requests[id], user)))
  {
    InternalAccessNeeds(w, files, s.requests[id], user);
    assert EventKey(e) == "fixed_approval:" + e;
    ToldStays(before, after, EventKey(e), [user]);
    assert user in [user];
  }

  lemma ActionIsKnown(s: A.State, id: Uuid, e: Uuid)
    requires A.RequestConstraints(s) && A.EventConstraints(s) && AH.EventShape(s)
    requires e in A.EventsOf(s, id) && id in s.requests
    ensures TypeOf(s.events[e].action).Some?
  {
  }

  class Inbox {
    var rows: Rows
    var nextId: int

    ghost predicate Valid()
      reads this
    {
      (forall n :: n in rows ==> n < nextId) && OncePerRecipient(rows)
    }

    constructor ()
      ensures Valid() && rows == map[]
    {
      rows, nextId := map[], 0;
    }

    /** Append unless the event already reached this recipient. */
    method InsertUnlessPresent(row: Notification)
      requires Valid()
      modifies this
      ensures Valid() && Extends(old(rows), rows) && Told(rows, row.eventKey, row.recipient)
      ensures forall n :: n in rows && n !in old(rows) ==>
                            rows[n] == row && !Told(old(rows), row.eventKey, row.recipient)
    {
      if !Told(rows, row.eventKey, row.recipient) {
        rows := rows[nextId := row];
        nextId := nextId + 1;
        assert rows[nextId - 1] == row;
      }
    }

    method Serve(w: World, files: F.State, s: A.State, id: Uuid, e: Uuid, kind: string,
                 users: seq<int>)
      requires Valid()
      requires id in s.requests && s.requests[id].projectId in w.projects && e in s.events
      modifies this
      ensures Valid() && Served(w, files, s, id, e, kind, users, old(rows), rows)
    {
      var i := 0;
      while i < |users|
        invariant 0 <= i <= |users| && Valid()
        invariant Served(w, files, s, id, e, kind, users[..i], old(rows), rows)
      {
        var user := users[i];
        ghost var before := rows;
        if Permitted(w, files, s, id, user) {
          InsertUnlessPresent(Message(w, s, id, e, kind, user));
          ToldStays(before, rows, EventKey(e), users[..i]);
          ToldStays(old(rows), before, EventKey(e), [user]);
        }
        i := i + 1;
        assert users[..i] == users[..i - 1] + [user];
      }
      assert users[..i] == users;
    }

    /** Tell every permitted recipient once; a missing or ambiguous event raises. What is written
        for an internal recipient is in that recipient's internal list, and never the actor's. */
    method Emit(w: World, files: F.State, s: A.State, id: Uuid, action: A.Word) returns (raised: bool)
      requires Valid() && BindingsMatch(w, s)
      requires A.RequestConstraints(s) && A.EventConstraints(s) && AH.RequestShape(s) && AH.EventShape(s)
      modifies this
      ensures Valid()
      ensures raised <==> |Sources(w, s, id, action)| != 1
      ensures raised ==> rows == old(rows)
      ensures !raised ==> exists e ::
        && e in Sources(w, s, id, action) && TypeOf(action).Some?
        && Served(w, files, s, id, e, TypeOf(action).value,
                  Recipients(s.requests[id], action, s.events[e].actorId), old(rows), rows)
        && forall n :: n in rows && n !in old(rows) ==>
             && rows[n].recipient != s.events[e].actorId
             && (IsGuest(w, s, id, rows[n].recipient)
                 || Internal(w, files, s, rows[n].recipient, rows[n].tenantId, rows[n]))
    {
      var sources := Sources(w, s, id, action);
      if |sources| != 1 {
        return true;
      }
      var e :| e in sources && forall x | x in sources :: x == e by {
        OnlySource(w, s, id, action);
      }
      ActionIsKnown(s, id, e);
      var kind, users := TypeOf(action).value, Recipients(s.requests[id], action, s.events[e].actorId);
      Serve(w, files, s, id, e, kind, users);
      forall n | n in rows && n !in old(rows)
        ensures rows[n].recipient != s.events[e].actorId
        ensures IsGuest(w, s, id, rows[n].recipient)
                || Internal(w, files, s, rows[n].recipient, rows[n].tenantId, rows[n])
      {
        WrittenIsRead(w, files, s, id, action, e, old(rows), rows[n]);
      }
      return false;
    }
  }

  /** What is due to a recipient is never due to the actor, and a recipient who is no guest reads it. */
  lemma WrittenIsRead(w: World, files: F.State, s: A.State, id: Uuid, action: A.Word, e: Uuid, before: Rows,
                      row: Notification)
    requires BindingsMatch(w, s) && A.RequestConstraints(s)
    requires e in Sources(w, s, id, action) && TypeOf(action).Some?
    requires Due(w, files, s, id, e, TypeOf(action).value, before, row)
    requires row.recipient in Recipients(s.requests[id], action, s.events[e].actorId)
    ensures row.recipient != s.events[e].actorId
    ensures IsGuest(w, s, id, row.recipient) || Internal(w, files, s, row.recipient, row.tenantId, row)
  {
    if !IsGuest(w, s, id, row.recipient) {
      WriterMeetsReader(w, files, s, id, action, e, row.recipient);
    }
  }

  lemma ToldStays(before: Rows, after: Rows, key: string, users: seq<int>)
    requires Extends(before, after)
    ensures forall user :: user in users && Told(before, key, user) ==> Told(after, key, user)
  {
    forall user | user in users && Told(before, key, user) ensures Told(after, key, user) {
      var n :| n in before && before[n].eventKey == key && before[n].recipient == user;
      assert n in after && after[n] == before[n];
    }
  }

  lemma OnlySource(w: World, s: A.State, id: Uuid, action: A.Word)
    requires A.EventConstraints(s) && AH.RequestShape(s) && AH.EventShape(s)
    requires |Sources(w, s, id, action)| == 1
    ensures exists e :: e in Sources(w, s, id, action)
                        && forall x :: x in Sources(w, s, id, action) ==> x == e
  {
    var e :| e in Sources(w, s, id, action);
    forall x | x in Sources(w, s, id, action) ensures x == e {
      OneEventPerAction(s, id, x, e);
    }
  }
}
