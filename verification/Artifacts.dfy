/**
 * Sealed releases, the preservation ledger and sealed publications: tables, row guards and
 * deferred checks. An operation is one statement; it takes effect when its guard does not raise
 * and the tables it would leave satisfy their constraints.
 */
module Artifacts {
  import opened Sql

  datatype Release = Release(
    projectId: int, sourceKinds: seq<string>, sourceRefs: string, contentDigest: string,
    nodeCount: int, createdBy: int, requestId: Uuid, sealed: bool, rest: Columns)

  datatype ReleaseNode = ReleaseNode(
    releaseId: Uuid, parentId: Option<Uuid>, ordinal: int, nodeKind: string, sourceId: int,
    rest: Columns)

  datatype FileFields = FileFields(
    filename: string, byteSize: int, contentType: string, contentDigest: string, other: Columns)

  /** One entry of a preservation manifest; `origin` holds the keys a publication must not show. */
  datatype SourceFile = SourceFile(fields: FileFields, origin: Columns)

  /** `files` is None when the JSON document has no such key. */
  datatype Manifest = Manifest(files: Option<seq<SourceFile>>, rest: Columns)

  datatype Status = Preparing | Ready | Failed | Cancelled

  datatype Preservation = Preservation(
    releaseId: Uuid, createdBy: int, requestId: Uuid, selection: seq<string>, status: Status,
    manifest: Option<Manifest>, manifestDigest: Option<string>, completedAt: Option<int>,
    errorCode: Option<string>, leaseId: Option<Uuid>, leaseExpiresAt: Option<int>, rest: Columns)

  datatype ObjectState = Reserved | Verified | Abandoned

  datatype LedgerObject = LedgerObject(
    preservationId: Uuid, slot: int, leaseId: Uuid, storageKey: string, state: ObjectState,
    selected: bool, contentDigest: Option<string>, byteSize: Option<int>, verifiedAt: Option<int>,
    cleanupCheckedAt: Option<int>, cleanupError: bool, rest: Columns)

  datatype PublicFile = PublicFile(id: string, fields: FileFields)

  datatype SourceManifest = SourceManifest(
    releaseId: Option<string>, bodyDigest: Option<string>, sources: Option<string>,
    preservationId: Option<string>, preservationDigest: Option<string>, rest: Columns)

  /** The two projection versions a publication may have. */
  const V1 := "public-preview-v1"
  const V2 := "public-preview-v2"

  datatype Publication = Publication(
    projectId: int, releaseId: Uuid, preservationId: Option<Uuid>, schemaVersion: int, version: string,
    sourceKinds: seq<string>,
    sourceManifest: SourceManifest, sourceManifestDigest: string, fileManifest: seq<PublicFile>,
    bodyDigest: string, byteSize: int, nodeCount: int, createdBy: int, requestId: Uuid, sealed: bool,
    rest: Columns)

  datatype PublicationNode = PublicationNode(
    publicationId: Uuid, parentId: Option<Uuid>, ordinal: int, position: int, nodeKind: string, rest: Columns)

  const NODE_KINDS := ["requirement_document", "section", "requirement", "requirement_detail", "specification",
                       "test_design", "test_design_part"]

  datatype State = State(
    releases: map<Uuid, Release>,
    releaseNodes: map<Uuid, ReleaseNode>,
    preservations: map<Uuid, Preservation>,
    objects: map<Uuid, LedgerObject>,
    publications: map<Uuid, Publication>,
    publicationNodes: map<Uuid, PublicationNode>)

  /** Statements. The row given to an update is the whole new row. */
  datatype Op =
    | InsertRelease(id: Uuid, release: Release)
    | UpdateRelease(id: Uuid, release: Release)
    | DeleteRelease(id: Uuid)
    | InsertReleaseNodes(releaseRows: map<Uuid, ReleaseNode>)
    | UpdateReleaseNode(id: Uuid, node: ReleaseNode)
    | DeleteReleaseNode(id: Uuid)
    | InsertPreservation(id: Uuid, preservation: Preservation)
    | UpdatePreservation(id: Uuid, preservation: Preservation)
    | InsertObject(id: Uuid, item: LedgerObject)
    | UpdateObject(id: Uuid, item: LedgerObject)
    | InsertPublication(id: Uuid, publication: Publication)
    | UpdatePublication(id: Uuid, publication: Publication)
    | InsertPublicationNodes(publicationRows: map<Uuid, PublicationNode>)

  const EMPTY := State(map[], map[], map[], map[], map[], map[])

  // Queries the guards share.

  predicate SealedRelease(s: State, r: Uuid) {
    r in s.releases && s.releases[r].sealed
  }

  predicate ReadyPreservation(s: State, p: Uuid) {
    p in s.preservations && s.preservations[p].status == Ready
  }

  predicate SealedPublication(s: State, p: Uuid) {
    p in s.publications && s.publications[p].sealed
  }

  function SelectedVerified(s: State, p: Uuid): set<Uuid> {
    set o | o in s.objects && s.objects[o].preservationId == p && s.objects[o].selected
            && s.objects[o].state == Verified
  }

  function PublicationNodesOf(s: State, p: Uuid): set<Uuid> {
    set n | n in s.publicationNodes && s.publicationNodes[n].publicationId == p
  }

  // Table constraints.

  predicate ReleaseConstraints(s: State) {
    forall a, b | a in s.releases && b in s.releases
                  && s.releases[a].projectId == s.releases[b].projectId
                  && s.releases[a].createdBy == s.releases[b].createdBy
                  && s.releases[a].requestId == s.releases[b].requestId :: a == b
  }

  predicate ReleaseNodeConstraints(s: State) {
    && (forall n | n in s.releaseNodes ::
          var row := s.releaseNodes[n];
          && row.releaseId in s.releases
          && (row.parentId.Some? ==>
                && row.parentId.value != n
                && row.parentId.value in s.releaseNodes
                && s.releaseNodes[row.parentId.value].releaseId == row.releaseId))
    && (forall a, b | a in s.releaseNodes && b in s.releaseNodes
                      && s.releaseNodes[a].releaseId == s.releaseNodes[b].releaseId
                      && s.releaseNodes[a].ordinal == s.releaseNodes[b].ordinal :: a == b)
  }

  predicate PreservationConstraints(s: State) {
    && (forall p | p in s.preservations ::
          && s.preservations[p].releaseId in s.releases
          && 1 <= |s.preservations[p].selection| <= 20)
    && (forall a, b | a in s.preservations && b in s.preservations
                      && s.preservations[a].releaseId == s.preservations[b].releaseId
                      && s.preservations[a].createdBy == s.preservations[b].createdBy
                      && s.preservations[a].requestId == s.preservations[b].requestId :: a == b)
  }

  /** The "verified" CHECK: a null size leaves it unknown, and unknown passes. */
  function VerifiedCheck(o: LedgerObject): Truth {
    Or(Not(Lit(o.selected)),
       And(And(Lit(o.state == Verified), Lit(o.contentDigest.Some?)), Positive(o.byteSize)))
  }

  predicate ObjectConstraints(s: State) {
    && (forall o | o in s.objects ::
          && s.objects[o].preservationId in s.preservations
          && 0 <= s.objects[o].slot <= 19
          && CheckPasses(VerifiedCheck(s.objects[o])))
    && (forall a, b | a in s.objects && b in s.objects
                      && s.objects[a].storageKey == s.objects[b].storageKey :: a == b)
    && (forall a, b | a in s.objects && b in s.objects
                      && s.objects[a].selected && s.objects[b].selected
                      && s.objects[a].preservationId == s.objects[b].preservationId
                      && s.objects[a].slot == s.objects[b].slot :: a == b)
  }

  predicate PublicationConstraints(s: State) {
    && (forall p | p in s.publications ::
          && s.publications[p].releaseId in s.releases
          && (s.publications[p].preservationId.Some? ==>
                s.publications[p].preservationId.value in s.preservations)
          && s.publications[p].schemaVersion == 1
          && (s.publications[p].version == V1 || s.publications[p].version == V2)
          && 1 <= s.publications[p].nodeCount <= 50000 && 1 <= s.publications[p].byteSize <= 33554432)
    && (forall a, b | a in s.publications && b in s.publications
                      && s.publications[a].projectId == s.publications[b].projectId
                      && s.publications[a].createdBy == s.publications[b].createdBy
                      && s.publications[a].requestId == s.publications[b].requestId :: a == b)
  }

  predicate PublicationNodeConstraints(s: State) {
    && (forall n | n in s.publicationNodes ::
          var row := s.publicationNodes[n];
          && row.publicationId in s.publications
          && row.ordinal >= 0 && row.position >= 0 && row.nodeKind in NODE_KINDS
          && (row.parentId.Some? ==>
                && row.parentId.value != n
                && row.parentId.value in s.publicationNodes
                && s.publicationNodes[row.parentId.value].publicationId == row.publicationId))
    && (forall a, b | a in s.publicationNodes && b in s.publicationNodes
                      && s.publicationNodes[a].publicationId == s.publicationNodes[b].publicationId
                      && s.publicationNodes[a].ordinal == s.publicationNodes[b].ordinal :: a == b)
  }

  predicate Constraints(s: State) {
    && ReleaseConstraints(s)
    && ReleaseNodeConstraints(s)
    && PreservationConstraints(s)
    && ObjectConstraints(s)
    && PublicationConstraints(s)
    && PublicationNodeConstraints(s)
  }

  // Row guards.

  predicate UpdateReleaseRaises(before: Release, after: Release) {
    before.sealed || !after.sealed || after.(sealed := before.sealed) != before
  }

  /** The parent release must exist and still be open. */
  predicate ReleaseNodeRaises(s: State, target: Uuid) {
    target !in s.releases || s.releases[target].sealed
  }

  predicate InsertPreservationRaises(after: Preservation) {
    after.status != Preparing || after.manifest.Some? || after.manifestDigest.Some?
  }

  function PreservationIdentity(p: Preservation): Preservation {
    p.(status := Preparing, manifest := None, manifestDigest := None, completedAt := None,
       errorCode := None, leaseId := None, leaseExpiresAt := None)
  }

  /** `jsonb_array_length(manifest->'files') <> jsonb_array_length(selection)` */
  function FilesMismatch(p: Preservation): Truth {
    if p.manifest.None? || p.manifest.value.files.None? then Unknown
    else Lit(|p.manifest.value.files.value| != |p.selection|)
  }

  function ReadyIncomplete(s: State, id: Uuid, after: Preservation): Truth {
    Or(Or(Lit(after.manifest.None?), Or(Lit(after.manifestDigest.None?), Lit(after.completedAt.None?))),
       Or(FilesMismatch(after), Lit(|SelectedVerified(s, id)| != |after.selection|)))
  }

  predicate UpdatePreservationRaises(s: State, id: Uuid, before: Preservation, after: Preservation) {
    || before.status == Ready
    || (before.status == Cancelled && after.status != Cancelled)
    || PreservationIdentity(after) != PreservationIdentity(before)
    || (after.status == Ready && Raises(ReadyIncomplete(s, id, after)))
  }

  function ObjectIdentity(o: LedgerObject): LedgerObject {
    o.(state := Reserved, selected := false, contentDigest := None, byteSize := None,
       verifiedAt := None, cleanupCheckedAt := None, cleanupError := false)
  }

  /** All columns except the two that cleanup may still write. */
  function Evidence(o: LedgerObject): LedgerObject {
    o.(cleanupCheckedAt := None, cleanupError := false)
  }

  /** `NEW.lease_id <> parent_lease`: a null parent lease never differs. */
  function LeaseStale(o: LedgerObject, parent: Preservation): Truth {
    Ne(Some(o.leaseId), parent.leaseId)
  }

  predicate InsertObjectRaises(s: State, after: LedgerObject) {
    || after.preservationId !in s.preservations
    || (var parent := s.preservations[after.preservationId];
        Raises(Or(Lit(parent.status != Preparing || after.state != Reserved || after.selected),
                  LeaseStale(after, parent))))
  }

  predicate UpdateObjectRaises(s: State, before: LedgerObject, after: LedgerObject) {
    || after.preservationId !in s.preservations
    || (var parent := s.preservations[after.preservationId];
        Raises(Or(
          Lit(ObjectIdentity(after) != ObjectIdentity(before)),
          Or(Lit(before.selected && (parent.status == Ready || Evidence(after) != Evidence(before))),
             And(Lit(!before.selected && after.selected),
                 Or(Lit(before.state == Abandoned || parent.status != Preparing),
                    LeaseStale(after, parent)))))))
  }

  /** The header names its sealed release exactly. */
  predicate ReleaseMatches(s: State, pub: Publication) {
    && SealedRelease(s, pub.releaseId)
    && (var rel := s.releases[pub.releaseId];
        && rel.projectId == pub.projectId
        && rel.contentDigest == pub.bodyDigest
        && pub.sourceKinds == rel.sourceKinds
        && pub.sourceManifest.releaseId == Some(pub.releaseId)
        && pub.sourceManifest.bodyDigest == Some(rel.contentDigest)
        && pub.sourceManifest.sources == Some(rel.sourceRefs)
        && pub.sourceManifest.preservationId == pub.preservationId)
  }

  function LengthMismatch(shown: seq<PublicFile>, kept: Preservation): Truth {
    if kept.manifest.None? || kept.manifest.value.files.None? then Unknown
    else Lit(|shown| != |kept.manifest.value.files.value|)
  }

  /** Entry k of the public list differs from entry k of the preserved list, or has none. */
  predicate FileDiffers(shown: seq<PublicFile>, kept: Preservation, k: nat)
    requires k < |shown|
  {
    || kept.manifest.None?
    || kept.manifest.value.files.None?
    || k >= |kept.manifest.value.files.value|
    || shown[k].fields != kept.manifest.value.files.value[k].fields
  }

  /** The public file list is the preserved one, entry by entry; without preservation it is empty. */
  predicate FilesMatch(s: State, pub: Publication) {
    match pub.preservationId
    case None => pub.fileManifest == []
    case Some(p) =>
      && p in s.preservations
      && s.preservations[p].releaseId == pub.releaseId
      && s.preservations[p].status == Ready
      && pub.sourceManifest.preservationDigest == s.preservations[p].manifestDigest
      && !Raises(LengthMismatch(pub.fileManifest, s.preservations[p]))
      && forall k | 0 <= k < |pub.fileManifest| ::
           !FileDiffers(pub.fileManifest, s.preservations[p], k)
  }

  predicate UpdatePublicationRaises(s: State, before: Publication, after: Publication) {
    || before.sealed || !after.sealed || after.(sealed := before.sealed) != before
    || !ReleaseMatches(s, after) || !FilesMatch(s, after)
  }

  predicate PublicationNodeRaises(s: State, target: Uuid) {
    target !in s.publications || s.publications[target].sealed
  }

  /** Does the statement get past its row guards? Every other statement is refused outright. */
  predicate GuardAllows(s: State, op: Op) {
    match op
    case InsertRelease(id, row) => id !in s.releases
    case UpdateRelease(id, row) => id in s.releases && !UpdateReleaseRaises(s.releases[id], row)
    case DeleteRelease(id) => id in s.releases && !s.releases[id].sealed
    case InsertReleaseNodes(rows) =>
      rows.Keys !! s.releaseNodes.Keys
      && forall n | n in rows :: !ReleaseNodeRaises(s, rows[n].releaseId)
    case UpdateReleaseNode(id, row) =>
      id in s.releaseNodes && row.releaseId == s.releaseNodes[id].releaseId
      && !ReleaseNodeRaises(s, row.releaseId)
    case DeleteReleaseNode(id) =>
      id in s.releaseNodes && !ReleaseNodeRaises(s, s.releaseNodes[id].releaseId)
    case InsertPreservation(id, row) => id !in s.preservations && !InsertPreservationRaises(row)
    case UpdatePreservation(id, row) =>
      id in s.preservations && !UpdatePreservationRaises(s, id, s.preservations[id], row)
    case InsertObject(id, row) => id !in s.objects && !InsertObjectRaises(s, row)
    case UpdateObject(id, row) =>
      id in s.objects && !UpdateObjectRaises(s, s.objects[id], row)
    case InsertPublication(id, row) =>
      id !in s.publications && !row.sealed && ReleaseMatches(s, row) && FilesMatch(s, row)
    case UpdatePublication(id, row) =>
      id in s.publications && !UpdatePublicationRaises(s, s.publications[id], row)
    case InsertPublicationNodes(rows) =>
      rows.Keys !! s.publicationNodes.Keys
      && forall n | n in rows :: !PublicationNodeRaises(s, rows[n].publicationId)
  }

  function Effect(s: State, op: Op): State {
    match op
    case InsertRelease(id, row) => s.(releases := s.releases[id := row])
    case UpdateRelease(id, row) => s.(releases := s.releases[id := row])
    case DeleteRelease(id) => s.(releases := s.releases - {id})
    case InsertReleaseNodes(rows) => s.(releaseNodes := s.releaseNodes + rows)
    case UpdateReleaseNode(id, row) => s.(releaseNodes := s.releaseNodes[id := row])
    case DeleteReleaseNode(id) => s.(releaseNodes := s.releaseNodes - {id})
    case InsertPreservation(id, row) => s.(preservations := s.preservations[id := row])
    case UpdatePreservation(id, row) => s.(preservations := s.preservations[id := row])
    case InsertObject(id, row) => s.(objects := s.objects[id := row])
    case UpdateObject(id, row) => s.(objects := s.objects[id := row])
    case InsertPublication(id, row) => s.(publications := s.publications[id := row])
    case UpdatePublication(id, row) => s.(publications := s.publications[id := row])
    case InsertPublicationNodes(rows) => s.(publicationNodes := s.publicationNodes + rows)
  }

  predicate Accepts(s: State, op: Op) {
    GuardAllows(s, op) && Constraints(Effect(s, op))
  }

  /** A refused statement leaves the tables as they were. */
  function Step(s: State, op: Op): State {
    if Accepts(s, op) then Effect(s, op) else s
  }

  /** Publications whose deferred check the statement queues for commit. */
  function Touches(op: Op): set<Uuid> {
    match op
    case InsertPublication(id, _) => {id}
    case UpdatePublication(id, _) => {id}
    case _ => {}
  }

  /** The deferred check: sealed, complete, numbered from zero, and parents come before children. */
  predicate PublicationComplete(s: State, id: Uuid) {
    && id in s.publications
    && (var own := PublicationNodesOf(s, id);
        && s.publications[id].sealed
        && |own| == s.publications[id].nodeCount
        && (exists n | n in own :: s.publicationNodes[n].ordinal == 0)
        && (exists n | n in own :: s.publicationNodes[n].ordinal == |own| - 1)
        && (forall n | n in own :: 0 <= s.publicationNodes[n].ordinal <= |own| - 1)
        && (exists n | n in own :: s.publicationNodes[n].parentId.None?)
        && (forall child | child in own && s.publicationNodes[child].parentId.Some?
                           && s.publicationNodes[child].parentId.value in s.publicationNodes ::
              s.publicationNodes[s.publicationNodes[child].parentId.value].ordinal
              < s.publicationNodes[child].ordinal))
  }
}
