/** Resolving a public file to the one preserved object that may be delivered. */
module Download {
  import opened Sql
  import opened Artifacts
  import opened ArtifactHistory
  import opened ArtifactInvariants
  import opened Publications

  /** The hash functions; nothing is assumed about them unless a lemma says so. */
  datatype Hashing = Hashing(
    ofSource: SourceManifest -> string, ofManifest: Manifest -> string,
    publicId: (string, Uuid, nat) -> string)

  datatype Delivery = Delivery(
    objectId: Uuid, projectId: int, tenantId: Option<int>, filename: string, byteSize: int,
    contentDigest: string, storageKey: string)

  /** `Crashed` is a lookup of the missing key "files"; the guards rule it out. */
  datatype Outcome = Found(delivery: Delivery) | NotFound | FileUnavailable | Crashed

  /** Position of the first public file with this id, from position i on. */
  function VisibleFile(shown: seq<PublicFile>, file: string, i: nat := 0): (r: Option<nat>)
    requires i <= |shown|
    ensures r.Some? ==> i <= r.value < |shown| && shown[r.value].id == file
                        && forall k :: i <= k < r.value ==> shown[k].id != file
    ensures r.None? ==> forall k :: i <= k < |shown| ==> shown[k].id != file
    decreases |shown| - i
  {
    if i == |shown| then None
    else if shown[i].id == file then Some(i) else VisibleFile(shown, file, i + 1)
  }

  /** The first slot below n whose public id is the requested one, from slot i on. The resolver
      computes ids of the first projection version, whatever the publication's own. */
  function SlotOf(h: Hashing, p: Uuid, n: nat, file: string, i: nat := 0): (r: Option<nat>)
    requires i <= n
    ensures r.Some? ==> i <= r.value < n && h.publicId(V1, p, r.value) == file
                        && forall k: nat :: i <= k < r.value ==> h.publicId(V1, p, k) != file
    ensures r.None? ==> forall k: nat :: i <= k < n ==> h.publicId(V1, p, k) != file
    decreases n - i
  {
    if i == n then None
    else if h.publicId(V1, p, i) == file then Some(i) else SlotOf(h, p, n, file, i + 1)
  }

  predicate Winner(s: State, p: Uuid, slot: nat, o: Uuid) {
    o in SelectedVerified(s, p) && s.objects[o].slot == slot
  }

  ghost function WinnerOf(s: State, p: Uuid, slot: nat): (r: Option<Uuid>)
    ensures r.Some? ==> Winner(s, p, slot, r.value)
    ensures r.None? ==> forall o :: !Winner(s, p, slot, o)
  {
    if exists o :: Winner(s, p, slot, o) then
      var o :| Winner(s, p, slot, o);
      Some(o)
    else None
  }

  /** Both manifests still hash to the recorded digests and name each other. */
  predicate Traced(s: State, h: Hashing, pub: Publication, p: Uuid)
    requires pub.releaseId in s.releases && p in s.preservations
    requires s.preservations[p].manifest.Some?
  {
    var rel, kept, origin := s.releases[pub.releaseId], s.preservations[p], pub.sourceManifest;
    && h.ofSource(origin) == pub.sourceManifestDigest
    && origin.releaseId == Some(pub.releaseId)
    && origin.bodyDigest == Some(rel.contentDigest)
    && origin.preservationId == Some(p)
    && origin.preservationDigest == kept.manifestDigest
    && Some(h.ofManifest(kept.manifest.value)) == kept.manifestDigest
  }

  predicate SameFile(shown: FileFields, source: FileFields) {
    && shown.filename == source.filename
    && shown.byteSize == source.byteSize
    && shown.contentType == source.contentType
    && shown.contentDigest == source.contentDigest
  }

  ghost function Resolve(s: State, h: Hashing, tenants: map<int, int>, pub: Publication,
                         file: string): Outcome
  {
    var visible := VisibleFile(pub.fileManifest, file);
    if visible.None? then NotFound
    else if pub.preservationId.None? || pub.preservationId.value !in s.preservations
            || pub.releaseId !in s.releases then NotFound
    else
      var p := pub.preservationId.value;
      var kept, rel := s.preservations[p], s.releases[pub.releaseId];
      if kept.status != Ready || kept.releaseId != pub.releaseId
         || rel.projectId != pub.projectId || kept.manifest.None? then NotFound
      else if !Traced(s, h, pub, p) then FileUnavailable
      else if kept.manifest.value.files.None? then Crashed
      else
        var files := kept.manifest.value.files.value;
        var slot := SlotOf(h, p, |files|, file);
        if slot.None? then NotFound
        else if WinnerOf(s, p, slot.value).None? then NotFound
        else
          var o := WinnerOf(s, p, slot.value).value;
          var shown, source := pub.fileManifest[visible.value].fields, files[slot.value].fields;
          if !SameFile(shown, source)
             || s.objects[o].contentDigest != Some(source.contentDigest)
             || s.objects[o].byteSize != Some(source.byteSize) then FileUnavailable
          else Found(Delivery(o, rel.projectId, TenantOf(tenants, rel.projectId), shown.filename, shown.byteSize,
                              shown.contentDigest, s.objects[o].storageKey))
  }

  function TenantOf(tenants: map<int, int>, project: int): Option<int> {
    if project in tenants then Some(tenants[project]) else None
  }

  /** The same outcome with the project's tenant read from `tenants`. */
  function Under(outcome: Outcome, tenants: map<int, int>): Outcome {
    if outcome.Found?
    then Found(outcome.delivery.(tenantId := TenantOf(tenants, outcome.delivery.projectId)))
    else outcome
  }

  lemma OneWinner(s: State, p: Uuid, slot: nat, a: Uuid, b: Uuid)
    requires Constraints(s) && Winner(s, p, slot, a) && Winner(s, p, slot, b)
    ensures a == b
  {
  }

  lemma WinnerFrozen(a: State, b: State, p: Uuid, slot: nat)
    requires Constraints(a) && SelectedVerified(b, p) == SelectedVerified(a, p)
    requires forall o :: o in SelectedVerified(a, p) ==> b.objects[o] == a.objects[o]
    ensures WinnerOf(b, p, slot) == WinnerOf(a, p, slot)
  {
    forall o ensures Winner(b, p, slot, o) <==> Winner(a, p, slot, o) {
    }
    if WinnerOf(a, p, slot).Some? {
      OneWinner(a, p, slot, WinnerOf(a, p, slot).value, WinnerOf(b, p, slot).value);
    }
  }

  /** Resolution reads nothing but the release, the preservation and the slot's winner. */
  lemma ResolveFrozen(a: State, b: State, h: Hashing, tenants: map<int, int>, pub: Publication,
                      file: string)
    requires pub.releaseId in a.releases && pub.releaseId in b.releases
    requires b.releases[pub.releaseId] == a.releases[pub.releaseId]
    requires pub.preservationId.Some? ==>
               var p := pub.preservationId.value;
               && p in a.preservations && p in b.preservations
               && b.preservations[p] == a.preservations[p]
               && (forall slot: nat :: WinnerOf(b, p, slot) == WinnerOf(a, p, slot))
               && (forall o :: o in SelectedVerified(a, p) ==>
                     o in b.objects && b.objects[o] == a.objects[o])
    ensures Resolve(b, h, tenants, pub, file) == Resolve(a, h, tenants, pub, file)
  {
  }

  lemma OnlyTheTenantIsRead(s: State, h: Hashing, before: map<int, int>, after: map<int, int>, pub: Publication,
                            file: string)
    ensures Resolve(s, h, after, pub, file) == Under(Resolve(s, h, before, pub, file), after)
  {
  }

  /** The answer for a complete publication is the same in every later state, but for the tenant its
      project then has: release, preservation, winners and header are all frozen. */
  lemma DownloadIsStable(a: State, b: State, h: Hashing, before: map<int, int>, after: map<int, int>, id: Uuid,
                         file: string)
    requires Inv(a) && PublicationComplete(a, id) && Later(a, b)
    ensures id in b.publications
    ensures Resolve(b, h, after, b.publications[id], file)
         == Under(Resolve(a, h, before, a.publications[id], file), after)
  {
    CompleteStays(a, b, id);
    var pub := a.publications[id];
    SourcesStay(a, b, pub);
    ResolveFrozen(a, b, h, after, pub, file);
    OnlyTheTenantIsRead(a, h, before, after, pub, file);
  }

  /** Everything resolution reads is frozen. */
  lemma SourcesStay(a: State, b: State, pub: Publication)
    requires Constraints(a) && Later(a, b) && ReleaseMatches(a, pub) && FilesMatch(a, pub)
    ensures pub.releaseId in a.releases && pub.releaseId in b.releases
    ensures b.releases[pub.releaseId] == a.releases[pub.releaseId]
    ensures pub.preservationId.Some? ==>
              var p := pub.preservationId.value;
              && p in a.preservations && p in b.preservations
              && b.preservations[p] == a.preservations[p]
              && (forall slot: nat :: WinnerOf(b, p, slot) == WinnerOf(a, p, slot))
              && (forall o :: o in SelectedVerified(a, p) ==>
                    o in b.objects && b.objects[o] == a.objects[o])
  {
    assert SealedRelease(a, pub.releaseId);
    if pub.preservationId.Some? {
      var p := pub.preservationId.value;
      SelectionFrozen(a, b, p);
      forall slot: nat ensures WinnerOf(b, p, slot) == WinnerOf(a, p, slot) {
        WinnerFrozen(a, b, p, slot);
      }
    }
  }

  /** Entry k is the first of the list with this id. */
  ghost predicate ListedFirst(shown: seq<PublicFile>, file: string, k: nat) {
    k < |shown| && shown[k].id == file && forall j :: 0 <= j < k ==> shown[j].id != file
  }

  /** The object is the selected, verified one of the slot. */
  ghost predicate WinsSlot(s: State, p: Uuid, slot: nat, o: Uuid) {
    && o in s.objects && s.objects[o].preservationId == p && s.objects[o].slot == slot
    && s.objects[o].selected == true && s.objects[o].state == Verified
  }

  /** What is delivered is the stored object of a slot of the publication's own ready preservation, and
      filename, size and digest are those of the first list entry with the requested id, which the
      preserved list repeats at that slot. */
  ghost predicate DeliveredAs(s: State, h: Hashing, pub: Publication, d: Delivery, k: nat, slot: nat)
    requires pub.preservationId.Some? && pub.preservationId.value in s.preservations
  {
    var p, kept := pub.preservationId.value, s.preservations[pub.preservationId.value];
    && kept.manifest.Some? && kept.manifest.value.files.Some? && slot < |kept.manifest.value.files.value|
    && k < |pub.fileManifest|
    && (var shown, source := pub.fileManifest[k].fields, kept.manifest.value.files.value[slot].fields;
        && d.filename == shown.filename == source.filename
        && d.byteSize == shown.byteSize == source.byteSize
        && d.contentDigest == shown.contentDigest == source.contentDigest
        && shown.contentType == source.contentType)
    && h.publicId(V1, p, slot) == pub.fileManifest[k].id
    && WinsSlot(s, p, slot, d.objectId)
    && s.objects[d.objectId].contentDigest == Some(d.contentDigest)
    && s.objects[d.objectId].byteSize == Some(d.byteSize)
    && s.objects[d.objectId].storageKey == d.storageKey
  }

  /** The digests and references that tie the publication to its release and preservation hold. */
  ghost predicate StillTraced(s: State, h: Hashing, pub: Publication) {
    && pub.releaseId in s.releases && s.releases[pub.releaseId].projectId == pub.projectId
    && pub.preservationId.Some? && pub.preservationId.value in s.preservations
    && (var kept, origin := s.preservations[pub.preservationId.value], pub.sourceManifest;
        && kept.status == Ready && kept.releaseId == pub.releaseId
        && kept.manifest.Some? && kept.manifestDigest == Some(h.ofManifest(kept.manifest.value))
        && pub.sourceManifestDigest == h.ofSource(origin)
        && origin.releaseId == Some(pub.releaseId) && origin.preservationId == pub.preservationId
        && origin.bodyDigest == Some(s.releases[pub.releaseId].contentDigest)
        && origin.preservationDigest == kept.manifestDigest)
  }

  /** Only the selected, verified object of the publication's own preservation is delivered, described
      as the one list entry that was asked for. */
  lemma OnlyPreservedObjectsAreDelivered(s: State, h: Hashing, tenants: map<int, int>,
                                         pub: Publication, file: string)
    requires Resolve(s, h, tenants, pub, file).Found?
    ensures StillTraced(s, h, pub)
    ensures
      var d := Resolve(s, h, tenants, pub, file).delivery;
      && d.projectId == pub.projectId
      && d.tenantId == (if pub.projectId in tenants then Some(tenants[pub.projectId]) else None)
      && exists k: nat, slot: nat :: ListedFirst(pub.fileManifest, file, k) && DeliveredAs(s, h, pub, d, k, slot)
  {
    var p, d := pub.preservationId.value, Resolve(s, h, tenants, pub, file).delivery;
    var k := VisibleFile(pub.fileManifest, file).value;
    var slot := SlotOf(h, p, |s.preservations[p].manifest.value.files.value|, file).value;
    assert ListedFirst(pub.fileManifest, file, k);
    assert Winner(s, p, slot, d.objectId);
    assert DeliveredAs(s, h, pub, d, k, slot);
  }

  /** An id that is not listed, or any id of a publication without preservation, is not found. */
  lemma UnlistedIsNotFound(s: State, h: Hashing, tenants: map<int, int>, pub: Publication, file: string)
    requires pub.preservationId == None || forall k :: 0 <= k < |pub.fileManifest| ==> pub.fileManifest[k].id != file
    ensures Resolve(s, h, tenants, pub, file) == NotFound
  {
  }

  /** The missing-key crash cannot happen for a publication the guards let in. */
  lemma NeverCrashes(s: State, h: Hashing, tenants: map<int, int>, id: Uuid, file: string)
    requires SourcesHold(s) && id in s.publications
    ensures Resolve(s, h, tenants, s.publications[id], file) != Crashed
  {
    var pub := s.publications[id];
    if VisibleFile(pub.fileManifest, file).Some? && pub.preservationId.Some? {
      assert !FileDiffers(pub.fileManifest, s.preservations[pub.preservationId.value], 0);
    }
  }

  // When a listed file is delivered.

  /** The list as the projection builds it: entry k carries the id of slot k in the publication's own
      version. */
  ghost predicate Projected(h: Hashing, pub: Publication) {
    pub.preservationId.Some? ==>
      forall k :: 0 <= k < |pub.fileManifest| ==>
        pub.fileManifest[k].id == h.publicId(pub.version, pub.preservationId.value, k)
  }

  ghost predicate InjectiveIds(h: Hashing) {
    forall v, p, k: nat, w, q, j: nat :: h.publicId(v, p, k) == h.publicId(w, q, j) ==> v == w && p == q && k == j
  }

  /** Both manifests still have the recorded digests. */
  predicate DigestsHold(s: State, h: Hashing, pub: Publication)
    requires pub.preservationId.Some? && pub.preservationId.value in s.preservations
  {
    var kept := s.preservations[pub.preservationId.value];
    && h.ofSource(pub.sourceManifest) == pub.sourceManifestDigest
    && kept.manifest.Some? && Some(h.ofManifest(kept.manifest.value)) == kept.manifestDigest
  }

  /** The id listed for file k is that of slot k exactly in the first version; in any other version
      it is the id of no slot. */
  lemma ListedSlot(h: Hashing, pub: Publication, n: nat, k: nat)
    requires Projected(h, pub) && InjectiveIds(h) && pub.preservationId.Some?
    requires k < |pub.fileManifest| && k < n
    ensures VisibleFile(pub.fileManifest, pub.fileManifest[k].id) == Some(k)
    ensures SlotOf(h, pub.preservationId.value, n, pub.fileManifest[k].id)
         == if pub.version == V1 then Some(k) else None
  {
  }

  /** A listed file has its counterpart in the preserved manifest. */
  lemma ListedFile(s: State, pub: Publication, k: nat)
    requires FilesMatch(s, pub) && pub.preservationId.Some? && k < |pub.fileManifest|
    ensures
      var kept := s.preservations[pub.preservationId.value];
      && kept.manifest.Some? && kept.manifest.value.files.Some? && k < |kept.manifest.value.files.value|
      && SameFile(pub.fileManifest[k].fields, kept.manifest.value.files.value[k].fields)
      && kept.manifest.value.files.value[k].fields == pub.fileManifest[k].fields
  {
    assert !FileDiffers(pub.fileManifest, s.preservations[pub.preservationId.value], k);
  }

  /** File k of a guarded publication is delivered exactly when the publication is of the first
      version, both digests hold, and the slot's winner has the listed digest and size. */
  lemma DeliveredExactlyWhen(s: State, h: Hashing, tenants: map<int, int>, id: Uuid, k: nat)
    requires SourcesHold(s) && id in s.publications && s.publications[id].preservationId.Some?
    requires k < |s.publications[id].fileManifest|
    requires Projected(h, s.publications[id]) && InjectiveIds(h)
    ensures
      var pub := s.publications[id];
      var fields, winner := pub.fileManifest[k].fields, WinnerOf(s, pub.preservationId.value, k);
      Resolve(s, h, tenants, pub, pub.fileManifest[k].id).Found? <==>
        && pub.version == V1
        && DigestsHold(s, h, pub)
        && winner.Some?
        && s.objects[winner.value].contentDigest == Some(fields.contentDigest)
        && s.objects[winner.value].byteSize == Some(fields.byteSize)
  {
    var pub := s.publications[id];
    ListedFile(s, pub, k);
    ListedSlot(h, pub, |s.preservations[pub.preservationId.value].manifest.value.files.value|, k);
  }

  /** The answer for file k of a guarded publication of the first version, in full. */
  lemma AnswerForFile(s: State, h: Hashing, tenants: map<int, int>, id: Uuid, k: nat, o: Uuid)
    requires Inv(s) && id in s.publications && s.publications[id].preservationId.Some?
    requires k < |s.publications[id].fileManifest| && s.publications[id].version == V1
    requires Projected(h, s.publications[id]) && InjectiveIds(h)
    requires DigestsHold(s, h, s.publications[id]) && WinsSlot(s, s.publications[id].preservationId.value, k, o)
    ensures
      var pub := s.publications[id];
      var fields, won := pub.fileManifest[k].fields, s.objects[o];
      Resolve(s, h, tenants, pub, pub.fileManifest[k].id)
      == if won.contentDigest != Some(fields.contentDigest) || won.byteSize != Some(fields.byteSize)
         then FileUnavailable
         else Found(Delivery(objectId := o, projectId := pub.projectId,
                             tenantId := if pub.projectId in tenants then Some(tenants[pub.projectId]) else None,
                             filename := fields.filename, byteSize := fields.byteSize,
                             contentDigest := fields.contentDigest, storageKey := won.storageKey))
  {
    var pub := s.publications[id];
    var p := pub.preservationId.value;
    ListedFile(s, pub, k);
    ListedSlot(h, pub, |s.preservations[p].manifest.value.files.value|, k);
    TheWinner(s, p, k, o);
  }

  lemma TheWinner(s: State, p: Uuid, slot: nat, o: Uuid)
    requires Constraints(s) && WinsSlot(s, p, slot, o)
    ensures WinnerOf(s, p, slot) == Some(o)
  {
    assert Winner(s, p, slot, o);
    OneWinner(s, p, slot, o, WinnerOf(s, p, slot).value);
  }

  /** A broken digest makes the file unavailable; a slot without winner is not found. */
  lemma AnswerWithoutObject(s: State, h: Hashing, tenants: map<int, int>, id: Uuid, k: nat)
    requires SourcesHold(s) && id in s.publications && s.publications[id].preservationId.Some?
    requires k < |s.publications[id].fileManifest| && s.publications[id].version == V1
    requires Projected(h, s.publications[id]) && InjectiveIds(h)
    requires !DigestsHold(s, h, s.publications[id])
             || forall o :: !WinsSlot(s, s.publications[id].preservationId.value, k, o)
    ensures
      var pub := s.publications[id];
      Resolve(s, h, tenants, pub, pub.fileManifest[k].id)
      == if DigestsHold(s, h, pub) then NotFound else FileUnavailable
  {
    var pub := s.publications[id];
    var p := pub.preservationId.value;
    ListedFile(s, pub, k);
    ListedSlot(h, pub, |s.preservations[p].manifest.value.files.value|, k);
    if WinnerOf(s, p, k).Some? {
      assert WinsSlot(s, p, k, WinnerOf(s, p, k).value);
    }
  }

  /** In any other version no listed file is ever delivered, however good its object is. */
  lemma OtherVersionsAreNotFound(s: State, h: Hashing, tenants: map<int, int>, id: Uuid, k: nat)
    requires SourcesHold(s) && id in s.publications && s.publications[id].preservationId.Some?
    requires k < |s.publications[id].fileManifest| && s.publications[id].version != V1
    requires Projected(h, s.publications[id]) && InjectiveIds(h)
    ensures
      var pub := s.publications[id];
      Resolve(s, h, tenants, pub, pub.fileManifest[k].id)
      == if DigestsHold(s, h, pub) then NotFound else FileUnavailable
  {
    var pub := s.publications[id];
    ListedFile(s, pub, k);
    ListedSlot(h, pub, |s.preservations[pub.preservationId.value].manifest.value.files.value|, k);
  }

  // One committed publication of each version.

  const FILE := FileFields("a.txt", 1, "text/plain", "digest", map[])
  const KEPT := Manifest(Some([SourceFile(FILE, map[])]), map[])

  function Origin(h: Hashing): SourceManifest {
    SourceManifest(Some("r"), Some("body"), Some("refs"), Some("p"), Some(h.ofManifest(KEPT)), map[])
  }

  function Published(h: Hashing, version: string): Publication {
    Publication(1, "r", Some("p"), 1, version, [], Origin(h), h.ofSource(Origin(h)),
                [PublicFile(h.publicId(version, "p", 0), FILE)], "body", 1, 1, 1, "q", true, map[])
  }

  function Preserved(h: Hashing): Preservation {
    Preservation("r", 1, "q", ["file"], Ready, Some(KEPT), Some(h.ofManifest(KEPT)), Some(0), None, None, None, map[])
  }

  /** A sealed release, its ready preservation of one file, and a sealed publication of one node. */
  function Library(h: Hashing, version: string): State {
    State(map["r" := Release(1, [], "refs", "body", 0, 1, "q", true, map[])], map[],
          map["p" := Preserved(h)],
          map["o" := LedgerObject("p", 0, "lease", "key", Verified, true, Some("digest"), Some(1), Some(0), None, false, map[])],
          map["u" := Published(h, version)], map["n" := PublicationNode("u", None, 0, 0, "section", map[])])
  }

  lemma LibraryReleases(h: Hashing, version: string)
    ensures ReleaseConstraints(Library(h, version)) && ReleaseNodeConstraints(Library(h, version))
  {
  }

  lemma LibraryLedger(h: Hashing, version: string)
    ensures PreservationConstraints(Library(h, version)) && ObjectConstraints(Library(h, version))
  {
  }

  lemma LibraryPublications(h: Hashing, version: string)
    requires version == V1 || version == V2
    ensures PublicationConstraints(Library(h, version)) && PublicationNodeConstraints(Library(h, version))
  {
  }

  lemma LibraryConstraints(h: Hashing, version: string)
    requires version == V1 || version == V2
    ensures Constraints(Library(h, version))
  {
    LibraryReleases(h, version);
    LibraryLedger(h, version);
    LibraryPublications(h, version);
  }

  lemma LibraryWinner(h: Hashing, version: string)
    ensures SelectedVerified(Library(h, version), "p") == {"o"}
    ensures WinnerOf(Library(h, version), "p", 0) == Some("o")
  {
    assert SelectedVerified(Library(h, version), "p") == {"o"};
    assert Winner(Library(h, version), "p", 0, "o");
  }

  lemma LibraryIsComplete(h: Hashing, version: string)
    ensures PublicationComplete(Library(h, version), "u")
  {
    assert PublicationNodesOf(Library(h, version), "u") == {"n"};
  }

  lemma LibraryHolds(h: Hashing, version: string)
    requires version == V1 || version == V2
    ensures Inv(Library(h, version)) && PublicationComplete(Library(h, version), "u")
  {
    LibraryConstraints(h, version);
    LibraryIsComplete(h, version);
    LibrarySources(h, version);
    LibraryIsReady(h, version);
  }

  lemma LibraryIsReady(h: Hashing, version: string)
    ensures ReadyComplete(Library(h, version))
  {
    LibraryWinner(h, version);
    assert CompleteAt(Library(h, version), "p");
  }

  lemma LibrarySources(h: Hashing, version: string)
    ensures SourcesHold(Library(h, version)) && Projected(h, Published(h, version))
    ensures DigestsHold(Library(h, version), h, Published(h, version))
  {
    assert !FileDiffers(Published(h, version).fileManifest, Preserved(h), 0);
  }

  lemma FirstIsFound(h: Hashing, tenants: map<int, int>)
    requires InjectiveIds(h)
    ensures Resolve(Library(h, V1), h, tenants, Published(h, V1), h.publicId(V1, "p", 0))
         == Found(Delivery("o", 1, if 1 in tenants then Some(tenants[1]) else None, "a.txt", 1, "digest", "key"))
  {
    LibrarySources(h, V1);
    LibraryHolds(h, V1);
    assert WinsSlot(Library(h, V1), "p", 0, "o");
    AnswerForFile(Library(h, V1), h, tenants, "u", 0, "o");
  }

  lemma SecondIsNotFound(h: Hashing, tenants: map<int, int>)
    requires InjectiveIds(h)
    ensures Resolve(Library(h, V2), h, tenants, Published(h, V2), h.publicId(V2, "p", 0)) == NotFound
  {
    LibrarySources(h, V2);
    OtherVersionsAreNotFound(Library(h, V2), h, tenants, "u", 0);
  }

  /** The same file is delivered from a publication of the first version and not found in one of the
      second, with the same release, preservation, digests and winner. */
  lemma SecondVersionIsNotFound(h: Hashing, tenants: map<int, int>)
    requires InjectiveIds(h)
    ensures Inv(Library(h, V1)) && PublicationComplete(Library(h, V1), "u")
    ensures Inv(Library(h, V2)) && PublicationComplete(Library(h, V2), "u")
    ensures Resolve(Library(h, V1), h, tenants, Published(h, V1), h.publicId(V1, "p", 0)).Found?
    ensures Resolve(Library(h, V2), h, tenants, Published(h, V2), h.publicId(V2, "p", 0)) == NotFound
  {
    FirstIsFound(h, tenants);
    SecondIsNotFound(h, tenants);
    LibraryHolds(h, V1);
    LibraryHolds(h, V2);
  }
}
