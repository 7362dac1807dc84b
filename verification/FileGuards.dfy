/** The guards of the artifact tables, each as one condition on the columns of the rows it looks at. */
module FileGuards {
  import opened Sql
  import opened Artifacts
  import opened ArtifactHistory
  import opened ArtifactInvariants

  // Releases.

  lemma SealingARelease(s: State, id: Uuid, row: Release)
    ensures GuardAllows(s, UpdateRelease(id, row)) <==>
              && id in s.releases && !s.releases[id].sealed && row.sealed
              && row.projectId == s.releases[id].projectId && row.sourceKinds == s.releases[id].sourceKinds
              && row.sourceRefs == s.releases[id].sourceRefs && row.contentDigest == s.releases[id].contentDigest
              && row.nodeCount == s.releases[id].nodeCount && row.createdBy == s.releases[id].createdBy
              && row.requestId == s.releases[id].requestId && row.rest == s.releases[id].rest
  {
  }

  lemma WritingReleaseNodes(s: State, rows: map<Uuid, ReleaseNode>)
    ensures GuardAllows(s, InsertReleaseNodes(rows)) <==>
              forall n :: n in rows ==>
                n !in s.releaseNodes && rows[n].releaseId in s.releases && !s.releases[rows[n].releaseId].sealed
  {
  }

  lemma ChangingAReleaseNode(s: State, id: Uuid, row: ReleaseNode)
    ensures GuardAllows(s, UpdateReleaseNode(id, row)) <==>
              && id in s.releaseNodes && row.releaseId == s.releaseNodes[id].releaseId
              && row.releaseId in s.releases && !s.releases[row.releaseId].sealed
    ensures GuardAllows(s, DeleteReleaseNode(id)) <==>
              && id in s.releaseNodes && s.releaseNodes[id].releaseId in s.releases
              && !s.releases[s.releaseNodes[id].releaseId].sealed
    ensures GuardAllows(s, DeleteRelease(id)) <==> id in s.releases && !s.releases[id].sealed
  {
  }

  // Preservations.

  lemma StartingAPreservation(s: State, id: Uuid, row: Preservation)
    ensures GuardAllows(s, InsertPreservation(id, row)) <==>
              && id !in s.preservations && row.status == Preparing
              && row.manifest == None && row.manifestDigest == None
  {
  }

  /** The verified winners of a preservation. */
  function Winners(s: State, p: Uuid): set<Uuid> {
    set o | o in s.objects && s.objects[o].preservationId == p && s.objects[o].selected == true
            && s.objects[o].state == Verified
  }

  ghost predicate SamePlan(a: Preservation, b: Preservation) {
    a.releaseId == b.releaseId && a.createdBy == b.createdBy && a.requestId == b.requestId
    && a.selection == b.selection && a.rest == b.rest
  }

  ghost predicate MayBeReady(s: State, id: Uuid, row: Preservation) {
    && row.manifest.Some? && row.manifestDigest.Some? && row.completedAt.Some?
    && (row.manifest.value.files.Some? ==> |row.manifest.value.files.value| == |row.selection|)
    && |Winners(s, id)| == |row.selection|
  }

  lemma MovingAPreservation(s: State, id: Uuid, row: Preservation)
    ensures GuardAllows(s, UpdatePreservation(id, row)) <==>
              && id in s.preservations && s.preservations[id].status != Ready
              && (s.preservations[id].status == Cancelled ==> row.status == Cancelled)
              && SamePlan(row, s.preservations[id])
              && (row.status == Ready ==> MayBeReady(s, id, row))
  {
    assert SelectedVerified(s, id) == Winners(s, id);
    if id in s.preservations {
      PlanIsIdentity(row, s.preservations[id]);
    }
  }

  lemma PlanIsIdentity(a: Preservation, b: Preservation)
    ensures PreservationIdentity(a) == PreservationIdentity(b) <==> SamePlan(a, b)
  {
    var x, y := PreservationIdentity(a), PreservationIdentity(b);
    assert x.releaseId == a.releaseId && y.releaseId == b.releaseId && x.rest == a.rest && y.rest == b.rest;
    assert x.createdBy == a.createdBy && y.createdBy == b.createdBy;
    assert x.requestId == a.requestId && y.requestId == b.requestId;
    assert x.selection == a.selection && y.selection == b.selection;
  }

  // The object ledger.

  /** A worker may reserve an object exactly while the preservation is being prepared and its lease is
      null or the worker's own; the object starts reserved and unselected. */
  lemma ReservationRule(s: State, id: Uuid, row: LedgerObject)
    ensures GuardAllows(s, InsertObject(id, row)) <==>
              && id !in s.objects && row.preservationId in s.preservations
              && s.preservations[row.preservationId].status == Preparing
              && row.state == Reserved && !row.selected
              && (s.preservations[row.preservationId].leaseId == None
                  || s.preservations[row.preservationId].leaseId == Some(row.leaseId))
  {
  }

  ghost predicate SamePlace(a: LedgerObject, b: LedgerObject) {
    a.preservationId == b.preservationId && a.slot == b.slot && a.leaseId == b.leaseId
    && a.storageKey == b.storageKey && a.rest == b.rest
  }

  ghost predicate SameContent(a: LedgerObject, b: LedgerObject) {
    a.state == b.state && a.selected == b.selected && a.contentDigest == b.contentDigest
    && a.byteSize == b.byteSize && a.verifiedAt == b.verifiedAt
  }

  lemma PlaceAndContent(a: LedgerObject, b: LedgerObject)
    ensures ObjectIdentity(a) == ObjectIdentity(b) <==> SamePlace(a, b)
    ensures Evidence(a) == Evidence(b) <==> SamePlace(a, b) && SameContent(a, b)
  {
    var x, y := ObjectIdentity(a), ObjectIdentity(b);
    assert x.preservationId == a.preservationId && y.preservationId == b.preservationId;
    assert x.slot == a.slot && y.slot == b.slot && x.leaseId == a.leaseId && y.leaseId == b.leaseId;
    assert x.storageKey == a.storageKey && y.storageKey == b.storageKey && x.rest == a.rest && y.rest == b.rest;
    var v, w := Evidence(a), Evidence(b);
    assert v.preservationId == a.preservationId && w.preservationId == b.preservationId;
    assert v.slot == a.slot && w.slot == b.slot && v.leaseId == a.leaseId && w.leaseId == b.leaseId;
    assert v.storageKey == a.storageKey && w.storageKey == b.storageKey && v.rest == a.rest && w.rest == b.rest;
    assert v.state == a.state && w.state == b.state && v.selected == a.selected && w.selected == b.selected;
    assert v.contentDigest == a.contentDigest && w.contentDigest == b.contentDigest;
    assert v.byteSize == a.byteSize && w.byteSize == b.byteSize;
    assert v.verifiedAt == a.verifiedAt && w.verifiedAt == b.verifiedAt;
  }

  /** An object keeps its place for good, and its content once selected; it can be selected only as
      `SelectionRule` says, and not touched at all once selected for a ready preservation. */
  lemma UpdatingAnObject(s: State, id: Uuid, row: LedgerObject)
    ensures GuardAllows(s, UpdateObject(id, row)) <==>
              && id in s.objects && row.preservationId in s.preservations && SamePlace(row, s.objects[id])
              && (s.objects[id].selected ==>
                    s.preservations[row.preservationId].status != Ready && SameContent(row, s.objects[id]))
              && (!s.objects[id].selected && row.selected ==>
                    && s.objects[id].state != Abandoned
                    && s.preservations[row.preservationId].status == Preparing
                    && (s.preservations[row.preservationId].leaseId == None
                        || s.preservations[row.preservationId].leaseId == Some(row.leaseId)))
  {
    if id in s.objects {
      PlaceAndContent(row, s.objects[id]);
    }
  }

  /** All objects of a lease, selected or not. */
  function ObjectsOfLease(s: State, p: Uuid, lease: Uuid): set<Uuid> {
    set o | o in s.objects && s.objects[o].preservationId == p && s.objects[o].leaseId == lease
  }

  lemma StrangersReserve(s: State, id: Uuid, row: LedgerObject, p: Uuid, lease: Uuid)
    requires Fenced(s, p, lease) && GuardAllows(s, InsertObject(id, row))
    ensures !(row.preservationId == p && row.leaseId == lease) && id !in s.objects
  {
    ReservationRule(s, id, row);
  }

  lemma UpdatesStayInPlace(s: State, id: Uuid, row: LedgerObject)
    requires GuardAllows(s, UpdateObject(id, row))
    ensures id in s.objects && row.preservationId == s.objects[id].preservationId
    ensures row.leaseId == s.objects[id].leaseId
  {
    UpdatingAnObject(s, id, row);
  }

  lemma FencedEffectReservesNothing(s: State, op: Op, p: Uuid, lease: Uuid)
    requires Fenced(s, p, lease) && GuardAllows(s, op)
    ensures ObjectsOfLease(Effect(s, op), p, lease) == ObjectsOfLease(s, p, lease)
  {
    ObjectsAfter(s, op);
    if op.InsertObject? {
      StrangersReserve(s, op.id, op.item, p, lease);
    } else if op.UpdateObject? {
      UpdatesStayInPlace(s, op.id, op.item);
    }
  }

  lemma FencedStepReservesNothing(s: State, op: Op, p: Uuid, lease: Uuid)
    requires Fenced(s, p, lease)
    ensures ObjectsOfLease(Step(s, op), p, lease) == ObjectsOfLease(s, p, lease)
  {
    if Accepts(s, op) {
      FencedEffectReservesNothing(s, op, p, lease);
    }
  }

  /** While the lease stays with others, a worker that lost it reserves nothing more: the objects of its
      lease are the same after any interleaving. */
  lemma {:induction false} FencedWorkersReserveNothing(s: State, ops: seq<Op>, p: Uuid, lease: Uuid)
    requires FencedThroughout(s, ops, p, lease)
    ensures ObjectsOfLease(Steps(s, ops), p, lease) == ObjectsOfLease(s, p, lease)
    decreases |ops|
  {
    if ops != [] {
      FencedStepReservesNothing(s, ops[0], p, lease);
      FencedWorkersReserveNothing(Step(s, ops[0]), ops[1..], p, lease);
    }
  }

  // Publications.

  /** The header is that of its sealed release. */
  ghost predicate MirrorsRelease(s: State, pub: Publication) {
    && pub.releaseId in s.releases
    && (var rel, origin := s.releases[pub.releaseId], pub.sourceManifest;
        && rel.sealed && pub.projectId == rel.projectId
        && pub.bodyDigest == rel.contentDigest && pub.sourceKinds == rel.sourceKinds
        && origin.releaseId == Some(pub.releaseId) && origin.bodyDigest == Some(rel.contentDigest)
        && origin.sources == Some(rel.sourceRefs) && origin.preservationId == pub.preservationId)
  }

  /** The public list shows the preserved files: the same number, each with the same fields. */
  ghost predicate MirrorsFiles(s: State, pub: Publication) {
    if pub.preservationId.None? then |pub.fileManifest| == 0
    else
      && pub.preservationId.value in s.preservations
      && (var kept := s.preservations[pub.preservationId.value];
          && kept.releaseId == pub.releaseId && kept.status == Ready
          && pub.sourceManifest.preservationDigest == kept.manifestDigest
          && if kept.manifest.Some? && kept.manifest.value.files.Some?
             then |pub.fileManifest| == |kept.manifest.value.files.value|
                  && forall k :: 0 <= k < |pub.fileManifest| ==>
                       pub.fileManifest[k].fields == kept.manifest.value.files.value[k].fields
             else |pub.fileManifest| == 0)
  }

  lemma MatchingIsMirroring(s: State, pub: Publication)
    ensures ReleaseMatches(s, pub) <==> MirrorsRelease(s, pub)
    ensures FilesMatch(s, pub) <==> MirrorsFiles(s, pub)
  {
    if pub.preservationId.Some? && pub.preservationId.value in s.preservations {
      var kept := s.preservations[pub.preservationId.value];
      if FilesMatch(s, pub) {
        forall k | 0 <= k < |pub.fileManifest|
          ensures kept.manifest.Some? && kept.manifest.value.files.Some? && k < |kept.manifest.value.files.value|
          ensures pub.fileManifest[k].fields == kept.manifest.value.files.value[k].fields
        {
          assert !FileDiffers(pub.fileManifest, kept, k);
        }
        if |pub.fileManifest| > 0 {
          assert !FileDiffers(pub.fileManifest, kept, 0);
        }
      }
      if MirrorsFiles(s, pub) {
        forall k | 0 <= k < |pub.fileManifest| ensures !FileDiffers(pub.fileManifest, kept, k) {
        }
      }
    }
  }

  lemma OpeningAPublication(s: State, id: Uuid, row: Publication)
    ensures GuardAllows(s, InsertPublication(id, row)) <==>
              id !in s.publications && !row.sealed && MirrorsRelease(s, row) && MirrorsFiles(s, row)
  {
    MatchingIsMirroring(s, row);
  }

  lemma SealingAPublication(s: State, id: Uuid, row: Publication)
    ensures GuardAllows(s, UpdatePublication(id, row)) <==>
              && id in s.publications && !s.publications[id].sealed
              && row == s.publications[id].(sealed := true)
              && MirrorsRelease(s, row) && MirrorsFiles(s, row)
  {
    MatchingIsMirroring(s, row);
  }

  lemma WritingPublicationNodes(s: State, rows: map<Uuid, PublicationNode>)
    ensures GuardAllows(s, InsertPublicationNodes(rows)) <==>
              forall n :: n in rows ==>
                && n !in s.publicationNodes && rows[n].publicationId in s.publications
                && !s.publications[rows[n].publicationId].sealed
  {
  }

  /** After any interleaving every publication mirrors its release and its preserved files. */
  lemma PublicationsMirrorTheirSources(s: State, ops: seq<Op>, id: Uuid)
    requires Inv(s) && id in Steps(s, ops).publications
    ensures MirrorsRelease(Steps(s, ops), Steps(s, ops).publications[id])
    ensures MirrorsFiles(Steps(s, ops), Steps(s, ops).publications[id])
  {
    StepsKeepInv(s, ops);
    MatchingIsMirroring(Steps(s, ops), Steps(s, ops).publications[id]);
  }
}
