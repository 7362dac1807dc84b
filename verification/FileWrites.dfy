/** Exactly which writes of the release and preservation tables are accepted: the guard's condition, and
    what the constraints ask of the new row among the rows there are. */
module FileWrites {
  import opened Sql
  import opened Artifacts
  import opened FileGuards

  // One table.

  ghost predicate NewRequest(s: State, id: Uuid, row: Release) {
    forall r :: r in s.releases && r != id ==>
                  s.releases[r].projectId != row.projectId || s.releases[r].createdBy != row.createdBy
                  || s.releases[r].requestId != row.requestId
  }

  lemma ReleaseRow(s: State, id: Uuid, row: Release)
    requires ReleaseConstraints(s)
    ensures ReleaseConstraints(s.(releases := s.releases[id := row])) <==> NewRequest(s, id, row)
  {
    var t := s.(releases := s.releases[id := row]);
    assert t.releases[id] == row;
    forall r | r in s.releases && r != id ensures r in t.releases && t.releases[r] == s.releases[r] {
    }
  }

  /** The node's parent is another node of its release, and no other node of it has its number. */
  ghost predicate NodeFits(nodes: map<Uuid, ReleaseNode>, n: Uuid)
    requires n in nodes
  {
    && (nodes[n].parentId.Some? ==>
          && nodes[n].parentId.value != n && nodes[n].parentId.value in nodes
          && nodes[nodes[n].parentId.value].releaseId == nodes[n].releaseId)
    && forall m :: m in nodes && m != n ==>
                     nodes[m].releaseId != nodes[n].releaseId || nodes[m].ordinal != nodes[n].ordinal
  }

  lemma NodeRows(s: State)
    ensures ReleaseNodeConstraints(s) <==>
              forall n :: n in s.releaseNodes ==>
                            s.releaseNodes[n].releaseId in s.releases && NodeFits(s.releaseNodes, n)
  {
    if forall n :: n in s.releaseNodes ==> s.releaseNodes[n].releaseId in s.releases && NodeFits(s.releaseNodes, n) {
      forall n | n in s.releaseNodes ensures NodeFits(s.releaseNodes, n) {
      }
    }
  }

  ghost predicate PreservationFits(s: State, id: Uuid, row: Preservation) {
    && row.releaseId in s.releases && 1 <= |row.selection| <= 20
    && forall p :: p in s.preservations && p != id ==>
                     s.preservations[p].releaseId != row.releaseId || s.preservations[p].createdBy != row.createdBy
                     || s.preservations[p].requestId != row.requestId
  }

  lemma PreservationRow(s: State, id: Uuid, row: Preservation)
    requires PreservationConstraints(s)
    ensures PreservationConstraints(s.(preservations := s.preservations[id := row])) <==> PreservationFits(s, id, row)
  {
    var t := s.(preservations := s.preservations[id := row]);
    assert t.preservations[id] == row;
    forall p | p in s.preservations && p != id ensures p in t.preservations && t.preservations[p] == s.preservations[p] {
    }
  }

  /** Its slot is one of twenty; if selected it is verified, has a digest, and has no size or a positive one. */
  ghost predicate SoundAlone(s: State, row: LedgerObject) {
    && row.preservationId in s.preservations && 0 <= row.slot <= 19
    && (row.selected ==>
          row.state == Verified && row.contentDigest.Some? && (row.byteSize.Some? ==> row.byteSize.value > 0))
  }

  /** One storage key, or one slot won twice. */
  ghost predicate Clash(a: LedgerObject, b: LedgerObject) {
    || a.storageKey == b.storageKey
    || (a.selected && b.selected && a.preservationId == b.preservationId && a.slot == b.slot)
  }

  ghost predicate ObjectFits(s: State, id: Uuid, row: LedgerObject) {
    SoundAlone(s, row) && forall o :: o in s.objects && o != id ==> !Clash(s.objects[o], row)
  }

  lemma CheckIsSound(row: LedgerObject)
    ensures CheckPasses(VerifiedCheck(row)) <==>
              (row.selected ==>
                 row.state == Verified && row.contentDigest.Some? && (row.byteSize.Some? ==> row.byteSize.value > 0))
  {
  }

  lemma ObjectRows(s: State)
    ensures ObjectConstraints(s) <==>
              && (forall o :: o in s.objects ==> SoundAlone(s, s.objects[o]))
              && forall a, b :: a in s.objects && b in s.objects && Clash(s.objects[a], s.objects[b]) ==> a == b
  {
    forall o | o in s.objects
      ensures SoundAlone(s, s.objects[o]) <==>
                && s.objects[o].preservationId in s.preservations && 0 <= s.objects[o].slot <= 19
                && CheckPasses(VerifiedCheck(s.objects[o]))
    {
      CheckIsSound(s.objects[o]);
    }
    if (forall o :: o in s.objects ==> SoundAlone(s, s.objects[o]))
       && (forall a, b :: a in s.objects && b in s.objects && Clash(s.objects[a], s.objects[b]) ==> a == b) {
      forall o | o in s.objects ensures SoundAlone(s, s.objects[o]) {
      }
      forall a, b | a in s.objects && b in s.objects && a != b ensures !Clash(s.objects[a], s.objects[b]) {
      }
    }
  }

  lemma ObjectMustFit(s: State, id: Uuid, row: LedgerObject)
    requires ObjectConstraints(s.(objects := s.objects[id := row]))
    ensures ObjectFits(s, id, row)
  {
    var t := s.(objects := s.objects[id := row]);
    ObjectRows(t);
    assert t.objects[id] == row;
    forall o | o in s.objects && o != id ensures !Clash(s.objects[o], row) {
      assert t.objects[o] == s.objects[o];
    }
  }

  lemma FittingObject(s: State, id: Uuid, row: LedgerObject)
    requires ObjectConstraints(s) && ObjectFits(s, id, row)
    ensures ObjectConstraints(s.(objects := s.objects[id := row]))
  {
    var t := s.(objects := s.objects[id := row]);
    ObjectRows(s);
    ObjectRows(t);
    forall o | o in t.objects ensures SoundAlone(t, t.objects[o]) {
      if o != id {
        assert SoundAlone(s, s.objects[o]);
      }
    }
  }

  // The other tables.

  lemma NodesNeed(s: State, t: State)
    requires ReleaseNodeConstraints(s) && t.releaseNodes == s.releaseNodes && s.releases.Keys <= t.releases.Keys
    ensures ReleaseNodeConstraints(t)
  {
  }

  lemma PreservationsNeed(s: State, t: State)
    requires PreservationConstraints(s) && t.preservations == s.preservations && s.releases.Keys <= t.releases.Keys
    ensures PreservationConstraints(t)
  {
  }

  lemma ObjectsNeed(s: State, t: State)
    requires ObjectConstraints(s) && t.objects == s.objects && s.preservations.Keys <= t.preservations.Keys
    ensures ObjectConstraints(t)
  {
  }

  lemma PublicationsNeed(s: State, t: State)
    requires PublicationConstraints(s) && t.publications == s.publications && s.releases.Keys <= t.releases.Keys
    requires s.preservations.Keys <= t.preservations.Keys
    ensures PublicationConstraints(t)
  {
  }

  lemma PublicationNodesNeed(s: State, t: State)
    requires PublicationNodeConstraints(s) && t.publicationNodes == s.publicationNodes && t.publications == s.publications
    ensures PublicationNodeConstraints(t)
  {
  }

  lemma OtherThanReleases(s: State, t: State)
    requires Constraints(s) && t == s.(releases := t.releases) && s.releases.Keys <= t.releases.Keys
    ensures Constraints(t) <==> ReleaseConstraints(t)
  {
    NodesNeed(s, t);
    PreservationsNeed(s, t);
    ObjectsNeed(s, t);
    PublicationsNeed(s, t);
    PublicationNodesNeed(s, t);
  }

  lemma OtherThanNodes(s: State, t: State)
    requires Constraints(s) && t == s.(releaseNodes := t.releaseNodes)
    ensures Constraints(t) <==> ReleaseNodeConstraints(t)
  {
    PreservationsNeed(s, t);
    ObjectsNeed(s, t);
    PublicationsNeed(s, t);
    PublicationNodesNeed(s, t);
  }

  lemma OtherThanPreservations(s: State, t: State)
    requires Constraints(s) && t == s.(preservations := t.preservations)
    requires s.preservations.Keys <= t.preservations.Keys
    ensures Constraints(t) <==> PreservationConstraints(t)
  {
    NodesNeed(s, t);
    ObjectsNeed(s, t);
    PublicationsNeed(s, t);
    PublicationNodesNeed(s, t);
  }

  lemma OtherThanObjects(s: State, t: State)
    requires Constraints(s) && t == s.(objects := t.objects)
    ensures Constraints(t) <==> ObjectConstraints(t)
  {
    NodesNeed(s, t);
    PreservationsNeed(s, t);
    PublicationsNeed(s, t);
    PublicationNodesNeed(s, t);
  }

  lemma Tables(s: State)
    requires Constraints(s)
    ensures ReleaseConstraints(s) && ReleaseNodeConstraints(s) && PreservationConstraints(s) && ObjectConstraints(s)
  {
  }

  lemma WithObject(s: State, id: Uuid, row: LedgerObject)
    requires Constraints(s)
    ensures Constraints(s.(objects := s.objects[id := row])) <==> ObjectFits(s, id, row)
  {
    var t := s.(objects := s.objects[id := row]);
    Tables(s);
    OtherThanObjects(s, t);
    if ObjectFits(s, id, row) {
      FittingObject(s, id, row);
    }
    if ObjectConstraints(t) {
      ObjectMustFit(s, id, row);
    }
  }

  lemma WithPreservation(s: State, id: Uuid, row: Preservation)
    requires Constraints(s)
    ensures Constraints(s.(preservations := s.preservations[id := row])) <==> PreservationFits(s, id, row)
  {
    Tables(s);
    PreservationRow(s, id, row);
    OtherThanPreservations(s, s.(preservations := s.preservations[id := row]));
  }

  lemma ObjectAccepted(s: State, id: Uuid, row: LedgerObject)
    requires Constraints(s)
    ensures Accepts(s, UpdateObject(id, row)) <==> GuardAllows(s, UpdateObject(id, row)) && ObjectFits(s, id, row)
  {
    WithObject(s, id, row);
  }

  lemma ReservedAccepted(s: State, id: Uuid, row: LedgerObject)
    requires Constraints(s)
    ensures Accepts(s, InsertObject(id, row)) <==> GuardAllows(s, InsertObject(id, row)) && ObjectFits(s, id, row)
  {
    WithObject(s, id, row);
  }

  lemma PreservationAccepted(s: State, id: Uuid, row: Preservation)
    requires Constraints(s)
    ensures Accepts(s, InsertPreservation(id, row)) <==>
              GuardAllows(s, InsertPreservation(id, row)) && PreservationFits(s, id, row)
    ensures Accepts(s, UpdatePreservation(id, row)) <==>
              GuardAllows(s, UpdatePreservation(id, row)) && PreservationFits(s, id, row)
  {
    WithPreservation(s, id, row);
  }

  // Statements.

  /** A release may be opened exactly when it is new and repeats no request of its creator. */
  lemma OpeningIsAccepted(s: State, id: Uuid, row: Release)
    requires Constraints(s)
    ensures Accepts(s, InsertRelease(id, row)) <==> id !in s.releases && NewRequest(s, id, row)
  {
    Tables(s);
    ReleaseRow(s, id, row);
    OtherThanReleases(s, s.(releases := s.releases[id := row]));
  }

  /** Sealing needs nothing beyond what the guard asks. */
  lemma SealingIsAccepted(s: State, id: Uuid, row: Release)
    requires Constraints(s)
    ensures Accepts(s, UpdateRelease(id, row)) <==> GuardAllows(s, UpdateRelease(id, row))
  {
    SealingARelease(s, id, row);
    if GuardAllows(s, UpdateRelease(id, row)) {
      Tables(s);
      RequestStaysNew(s, id, row);
      ReleaseRow(s, id, row);
      OtherThanReleases(s, s.(releases := s.releases[id := row]));
    }
  }

  lemma RequestStaysNew(s: State, id: Uuid, row: Release)
    requires ReleaseConstraints(s) && id in s.releases
    requires row.projectId == s.releases[id].projectId && row.createdBy == s.releases[id].createdBy
    requires row.requestId == s.releases[id].requestId
    ensures NewRequest(s, id, row)
  {
  }

  /** Nodes may be added to open releases exactly when each new one has its parent, among them or there
      already, in its own release, and a number of its own in it. */
  lemma AddingNodesIsAccepted(s: State, rows: map<Uuid, ReleaseNode>)
    requires Constraints(s)
    ensures Accepts(s, InsertReleaseNodes(rows)) <==>
              && (forall n :: n in rows ==>
                    n !in s.releaseNodes && rows[n].releaseId in s.releases && !s.releases[rows[n].releaseId].sealed)
              && (forall n :: n in rows ==> NodeFits(s.releaseNodes + rows, n))
  {
    WritingReleaseNodes(s, rows);
    if GuardAllows(s, InsertReleaseNodes(rows)) {
      var t := s.(releaseNodes := s.releaseNodes + rows);
      Tables(s);
      AddedNodes(s, rows);
      OtherThanNodes(s, t);
    }
  }

  lemma AddedNodes(s: State, rows: map<Uuid, ReleaseNode>)
    requires ReleaseNodeConstraints(s) && rows.Keys !! s.releaseNodes.Keys
    requires forall n :: n in rows ==> rows[n].releaseId in s.releases
    ensures ReleaseNodeConstraints(s.(releaseNodes := s.releaseNodes + rows)) <==>
              forall n :: n in rows ==> NodeFits(s.releaseNodes + rows, n)
  {
    var t := s.(releaseNodes := s.releaseNodes + rows);
    NodeRows(s);
    NodeRows(t);
    if forall n :: n in rows ==> NodeFits(t.releaseNodes, n) {
      forall n | n in s.releaseNodes ensures NodeFits(t.releaseNodes, n) {
        assert NodeFits(s.releaseNodes, n);
        forall m | m in rows
          ensures t.releaseNodes[m].releaseId != t.releaseNodes[n].releaseId
                  || t.releaseNodes[m].ordinal != t.releaseNodes[n].ordinal
        {
          assert NodeFits(t.releaseNodes, m) && n != m;
        }
      }
    }
  }

  /** A node of an open release may be changed in place exactly when it still fits among the others. */
  lemma ChangingANodeIsAccepted(s: State, id: Uuid, row: ReleaseNode)
    requires Constraints(s)
    ensures Accepts(s, UpdateReleaseNode(id, row)) <==>
              && id in s.releaseNodes && row.releaseId == s.releaseNodes[id].releaseId
              && row.releaseId in s.releases && !s.releases[row.releaseId].sealed
              && NodeFits(s.releaseNodes[id := row], id)
  {
    ChangingAReleaseNode(s, id, row);
    if GuardAllows(s, UpdateReleaseNode(id, row)) {
      Tables(s);
      ChangedNode(s, id, row);
      OtherThanNodes(s, s.(releaseNodes := s.releaseNodes[id := row]));
    }
  }

  lemma ChangedNode(s: State, id: Uuid, row: ReleaseNode)
    requires ReleaseNodeConstraints(s) && id in s.releaseNodes && row.releaseId == s.releaseNodes[id].releaseId
    ensures ReleaseNodeConstraints(s.(releaseNodes := s.releaseNodes[id := row])) <==>
              NodeFits(s.releaseNodes[id := row], id)
  {
    var t := s.(releaseNodes := s.releaseNodes[id := row]);
    NodeRows(s);
    NodeRows(t);
    if NodeFits(t.releaseNodes, id) {
      forall n | n in t.releaseNodes ensures NodeFits(t.releaseNodes, n) {
        if n != id {
          assert NodeFits(s.releaseNodes, n) && t.releaseNodes[n] == s.releaseNodes[n];
        }
      }
    }
  }

  /** A node of an open release may be removed exactly when it is no other node's parent. */
  lemma RemovingANodeIsAccepted(s: State, id: Uuid)
    requires Constraints(s)
    ensures Accepts(s, DeleteReleaseNode(id)) <==>
              && id in s.releaseNodes && !s.releases[s.releaseNodes[id].releaseId].sealed
              && forall n :: n in s.releaseNodes ==> s.releaseNodes[n].parentId != Some(id)
  {
    Tables(s);
    if id in s.releaseNodes {
      RemovedNode(s, id);
      OtherThanNodes(s, s.(releaseNodes := s.releaseNodes - {id}));
    }
  }

  lemma RemovedNode(s: State, id: Uuid)
    requires ReleaseNodeConstraints(s) && id in s.releaseNodes
    ensures ReleaseNodeConstraints(s.(releaseNodes := s.releaseNodes - {id})) <==>
              forall n :: n in s.releaseNodes ==> s.releaseNodes[n].parentId != Some(id)
  {
    var t := s.(releaseNodes := s.releaseNodes - {id});
    forall n | n in t.releaseNodes ensures t.releaseNodes[n] == s.releaseNodes[n] {
    }
    if ReleaseNodeConstraints(t) {
      forall n | n in s.releaseNodes && n != id ensures s.releaseNodes[n].parentId != Some(id) {
        assert n in t.releaseNodes;
      }
    }
  }

  /** A release may be removed exactly while it is open and nothing refers to it. */
  lemma RemovingAReleaseIsAccepted(s: State, id: Uuid)
    requires Constraints(s)
    ensures Accepts(s, DeleteRelease(id)) <==> id in s.releases && !s.releases[id].sealed && Unused(s, id)
  {
    if id in s.releases {
      var t := s.(releases := s.releases - {id});
      if Unused(s, id) {
        StillReferred(s, t);
      }
      if Constraints(t) {
        NothingDangles(t, id);
      }
    }
  }

  ghost predicate Unused(s: State, id: Uuid) {
    && (forall n :: n in s.releaseNodes ==> s.releaseNodes[n].releaseId != id)
    && (forall p :: p in s.preservations ==> s.preservations[p].releaseId != id)
    && (forall p :: p in s.publications ==> s.publications[p].releaseId != id)
  }

  lemma NothingDangles(t: State, id: Uuid)
    requires Constraints(t) && id !in t.releases
    ensures Unused(t, id)
  {
  }

  lemma StillReferred(s: State, t: State)
    requires Constraints(s) && t == s.(releases := t.releases)
    requires forall r :: r in t.releases ==> r in s.releases && t.releases[r] == s.releases[r]
    requires forall r :: r in s.releases && r !in t.releases ==> Unused(s, r)
    ensures Constraints(t)
  {
    FewerReleases(s, t);
    ObjectsNeed(s, t);
    PublicationNodesNeed(s, t);
  }

  lemma FewerReleases(s: State, t: State)
    requires ReleaseConstraints(s) && ReleaseNodeConstraints(s) && PreservationConstraints(s) && PublicationConstraints(s)
    requires t == s.(releases := t.releases)
    requires forall r :: r in t.releases ==> r in s.releases && t.releases[r] == s.releases[r]
    requires forall r :: r in s.releases && r !in t.releases ==> Unused(s, r)
    ensures ReleaseConstraints(t) && ReleaseNodeConstraints(t) && PreservationConstraints(t) && PublicationConstraints(t)
  {
  }

  /** A preservation may be started exactly when it is new and empty, is of a release, selects 1 to 20
      files, and repeats no request of its creator for the release. */
  lemma StartingIsAccepted(s: State, id: Uuid, row: Preservation)
    requires Constraints(s)
    ensures Accepts(s, InsertPreservation(id, row)) <==>
              && id !in s.preservations && row.status == Preparing
              && row.manifest == None && row.manifestDigest == None && PreservationFits(s, id, row)
  {
    PreservationAccepted(s, id, row);
    StartingAPreservation(s, id, row);
  }

  /** Moving one needs nothing beyond what the guard asks. */
  lemma MovingIsAccepted(s: State, id: Uuid, row: Preservation)
    requires Constraints(s)
    ensures Accepts(s, UpdatePreservation(id, row)) <==> GuardAllows(s, UpdatePreservation(id, row))
  {
    PreservationAccepted(s, id, row);
    if GuardAllows(s, UpdatePreservation(id, row)) {
      Tables(s);
      MovingAPreservation(s, id, row);
      PlanStillFits(s, id, row);
    }
  }

  lemma PlanStillFits(s: State, id: Uuid, row: Preservation)
    requires PreservationConstraints(s) && id in s.preservations && SamePlan(row, s.preservations[id])
    ensures PreservationFits(s, id, row)
  {
  }

  /** A worker's reservation is accepted exactly when the parent is preparing under its lease or none,
      the object is new, reserved and unselected, its slot is one of twenty and its key unused. */
  lemma ReservingIsAccepted(s: State, id: Uuid, row: LedgerObject)
    requires Constraints(s)
    ensures Accepts(s, InsertObject(id, row)) <==>
              && id !in s.objects && row.preservationId in s.preservations
              && s.preservations[row.preservationId].status == Preparing
              && (s.preservations[row.preservationId].leaseId == None
                  || s.preservations[row.preservationId].leaseId == Some(row.leaseId))
              && row.state == Reserved && !row.selected && 0 <= row.slot < 20
              && forall o :: o in s.objects ==> s.objects[o].storageKey != row.storageKey
  {
    ReservationRule(s, id, row);
    ReservedAccepted(s, id, row);
  }

  /** Verified content, and no other winner of its slot. */
  ghost predicate WinsAlone(s: State, id: Uuid, row: LedgerObject) {
    && row.state == Verified && row.contentDigest.Some? && (row.byteSize.Some? ==> row.byteSize.value > 0)
    && forall o :: o in s.objects && o != id && s.objects[o].selected ==>
                     s.objects[o].preservationId != row.preservationId || s.objects[o].slot != row.slot
  }

  /** An update of an object is accepted exactly when the guard admits it and, if the object is selected
      afterwards, it is verified content and the only winner of its slot. */
  lemma UpdatingIsAccepted(s: State, id: Uuid, row: LedgerObject)
    requires Constraints(s)
    ensures Accepts(s, UpdateObject(id, row)) <==>
              GuardAllows(s, UpdateObject(id, row)) && (row.selected ==> WinsAlone(s, id, row))
  {
    ObjectAccepted(s, id, row);
    if GuardAllows(s, UpdateObject(id, row)) {
      UpdatingAnObject(s, id, row);
      StillFits(s, id, row);
    }
  }

  lemma StillFits(s: State, id: Uuid, row: LedgerObject)
    requires Constraints(s) && id in s.objects && SamePlace(row, s.objects[id])
    ensures ObjectFits(s, id, row) <==> (row.selected ==> WinsAlone(s, id, row))
  {
    Tables(s);
    ObjectRows(s);
    KeyStaysUnique(s, id, row);
  }

  lemma KeyStaysUnique(s: State, id: Uuid, row: LedgerObject)
    requires ObjectConstraints(s) && id in s.objects && SamePlace(row, s.objects[id])
    ensures 0 <= row.slot <= 19 && forall o :: o in s.objects && o != id ==> s.objects[o].storageKey != row.storageKey
  {
  }
}
