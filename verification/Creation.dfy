/** Creating a publication: the header, all its nodes, and the seal, in one transaction. */
module Creation {
  import opened Sql
  import opened Counting
  import opened Ledger
  import F = Artifacts
  import FileGuards

  type Nodes = map<Uuid, F.PublicationNode>

  /** The node list is sent in batches, each one statement. */
  function Rest(id: Uuid, header: F.Publication, batches: seq<Nodes>): seq<Op>
    decreases |batches|
  {
    if batches == [] then [OnFiles(F.UpdatePublication(id, header.(sealed := true)))]
    else [OnFiles(F.InsertPublicationNodes(batches[0]))] + Rest(id, header, batches[1..])
  }

  function Create(id: Uuid, header: F.Publication, batches: seq<Nodes>): seq<Op> {
    [OnFiles(F.InsertPublication(id, header))] + Rest(id, header, batches)
  }

  /** All the rows of some batches, after those already there. */
  function Joined(soFar: Nodes, batches: seq<Nodes>): Nodes
    decreases |batches|
  {
    if batches == [] then soFar else Joined(soFar + batches[0], batches[1..])
  }

  /** The header names its sources exactly and is not the repetition of an earlier request. */
  ghost predicate HeaderFits(s: F.State, id: Uuid, header: F.Publication) {
    && id !in s.publications
    && F.ReleaseMatches(s, header) && F.FilesMatch(s, header)
    && header.schemaVersion == 1 && (header.version == F.V1 || header.version == F.V2)
    && 1 <= header.nodeCount <= 50000 && 1 <= header.byteSize <= 33554432
    && (forall p :: p in s.publications ==>
          !(s.publications[p].projectId == header.projectId
            && s.publications[p].createdBy == header.createdBy
            && s.publications[p].requestId == header.requestId))
  }

  /** The rows are a forest numbered 0..|rows|-1 from parents to children. */
  ghost predicate NumberedForest(rows: Nodes) {
    && (forall n :: n in rows ==> 0 <= rows[n].ordinal < |rows| && rows[n].position >= 0)
    && (forall a, b :: a in rows && b in rows && rows[a].ordinal == rows[b].ordinal ==> a == b)
    && (forall n :: n in rows && rows[n].parentId.Some? ==>
          rows[n].parentId.value in rows
          && rows[rows[n].parentId.value].ordinal < rows[n].ordinal)
  }

  ghost predicate KnownKinds(rows: Nodes) {
    forall n :: n in rows ==> rows[n].nodeKind in F.NODE_KINDS
  }

  ghost predicate RowsOf(rows: Nodes, id: Uuid) {
    forall n :: n in rows ==> rows[n].publicationId == id
  }

  // Which constraints a table takes part in.

  lemma ReleasesAlone(s: F.State, t: F.State)
    requires t.releases == s.releases && t.releaseNodes == s.releaseNodes
    ensures F.ReleaseConstraints(t) == F.ReleaseConstraints(s)
    ensures F.ReleaseNodeConstraints(t) == F.ReleaseNodeConstraints(s)
  {
  }

  lemma PreservationsAlone(s: F.State, t: F.State)
    requires t.releases == s.releases && t.preservations == s.preservations && t.objects == s.objects
    ensures F.PreservationConstraints(t) == F.PreservationConstraints(s)
    ensures F.ObjectConstraints(t) == F.ObjectConstraints(s)
  {
  }

  ghost predicate OtherConstraints(s: F.State) {
    F.ReleaseConstraints(s) && F.ReleaseNodeConstraints(s) && F.PreservationConstraints(s) && F.ObjectConstraints(s)
  }

  lemma OthersKept(s: F.State, t: F.State)
    requires OtherConstraints(s)
    requires t == s.(publications := t.publications, publicationNodes := t.publicationNodes)
    ensures OtherConstraints(t)
  {
    ReleasesAlone(s, t);
    PreservationsAlone(s, t);
  }

  // The header.

  lemma HeaderConstraints(s: F.State, id: Uuid, header: F.Publication)
    requires F.PublicationConstraints(s) && id !in s.publications
    requires F.ReleaseMatches(s, header) && F.FilesMatch(s, header)
    ensures F.PublicationConstraints(s.(publications := s.publications[id := header]))
            <==> HeaderFits(s, id, header)
  {
    var t := s.(publications := s.publications[id := header]);
    if F.PublicationConstraints(t) {
      forall p | p in s.publications
        ensures !(s.publications[p].projectId == header.projectId
                  && s.publications[p].createdBy == header.createdBy
                  && s.publications[p].requestId == header.requestId)
      {
        assert t.publications[p] == s.publications[p] && t.publications[id] == header && p != id;
      }
      assert t.publications[id] == header;
    }
  }

  lemma MorePublications(s: F.State, t: F.State)
    requires F.PublicationNodeConstraints(s) && t == s.(publications := t.publications)
    requires s.publications.Keys <= t.publications.Keys
    ensures F.PublicationNodeConstraints(t)
  {
  }

  lemma InsertConstraints(s: F.State, id: Uuid, header: F.Publication)
    requires F.Constraints(s) && id !in s.publications
    requires F.ReleaseMatches(s, header) && F.FilesMatch(s, header)
    ensures F.Constraints(s.(publications := s.publications[id := header])) <==> HeaderFits(s, id, header)
  {
    var t := s.(publications := s.publications[id := header]);
    HeaderConstraints(s, id, header);
    OthersKept(s, t);
    MorePublications(s, t);
  }

  lemma InsertGuard(s: F.State, id: Uuid, header: F.Publication)
    requires !header.sealed
    ensures F.GuardAllows(s, F.InsertPublication(id, header)) <==>
              id !in s.publications && F.ReleaseMatches(s, header) && F.FilesMatch(s, header)
    ensures F.Effect(s, F.InsertPublication(id, header)) == s.(publications := s.publications[id := header])
  {
  }

  lemma InsertAccepted(s: F.State, id: Uuid, header: F.Publication)
    requires F.Constraints(s) && !header.sealed
    ensures F.Accepts(s, F.InsertPublication(id, header)) <==> HeaderFits(s, id, header)
  {
    InsertGuard(s, id, header);
    if F.GuardAllows(s, F.InsertPublication(id, header)) {
      InsertConstraints(s, id, header);
    }
  }

  // The nodes.

  /** Fresh rows of a fresh publication satisfy the table's constraints exactly when: */
  ghost predicate RowsFit(rows: Nodes) {
    && KnownKinds(rows)
    && (forall n :: n in rows ==> rows[n].ordinal >= 0 && rows[n].position >= 0)
    && (forall a, b :: a in rows && b in rows && rows[a].ordinal == rows[b].ordinal ==> a == b)
    && (forall n :: n in rows && rows[n].parentId.Some? ==>
          rows[n].parentId.value != n && rows[n].parentId.value in rows)
  }

  ghost predicate Fresh(s: F.State, id: Uuid) {
    forall n :: n in s.publicationNodes ==> s.publicationNodes[n].publicationId != id
  }

  lemma FittingRows(s: F.State, id: Uuid, rows: Nodes)
    requires F.PublicationNodeConstraints(s) && id in s.publications && Fresh(s, id) && RowsOf(rows, id)
    requires rows.Keys !! s.publicationNodes.Keys && RowsFit(rows)
    ensures F.PublicationNodeConstraints(s.(publicationNodes := s.publicationNodes + rows))
  {
  }

  lemma RowsMustFit(s: F.State, id: Uuid, rows: Nodes)
    requires Fresh(s, id) && RowsOf(rows, id) && rows.Keys !! s.publicationNodes.Keys
    requires F.PublicationNodeConstraints(s.(publicationNodes := s.publicationNodes + rows))
    ensures RowsFit(rows)
  {
    var t := s.(publicationNodes := s.publicationNodes + rows);
    assert forall n :: n in rows ==> n in t.publicationNodes && t.publicationNodes[n] == rows[n];
    forall n | n in rows && rows[n].parentId.Some?
      ensures rows[n].parentId.value != n && rows[n].parentId.value in rows
    {
      assert t.publicationNodes[n].parentId.value in t.publicationNodes;
    }
  }

  lemma NodesLeavePublications(s: F.State, t: F.State)
    requires F.PublicationConstraints(s) && t == s.(publicationNodes := t.publicationNodes)
    ensures F.PublicationConstraints(t)
  {
  }

  lemma NodesGuard(s: F.State, id: Uuid, rows: Nodes)
    requires id in s.publications && !s.publications[id].sealed && RowsOf(rows, id)
    ensures F.GuardAllows(s, F.InsertPublicationNodes(rows)) <==> rows.Keys !! s.publicationNodes.Keys
  {
  }

  lemma NodesConstraints(s: F.State, id: Uuid, rows: Nodes)
    requires F.Constraints(s) && id in s.publications && Fresh(s, id) && RowsOf(rows, id)
    requires rows.Keys !! s.publicationNodes.Keys
    ensures F.Constraints(s.(publicationNodes := s.publicationNodes + rows)) <==> RowsFit(rows)
  {
    var t := s.(publicationNodes := s.publicationNodes + rows);
    OthersKept(s, t);
    NodesLeavePublications(s, t);
    if RowsFit(rows) {
      FittingRows(s, id, rows);
    }
    if F.PublicationNodeConstraints(t) {
      RowsMustFit(s, id, rows);
    }
  }

  // The seal.

  lemma SealGuard(s: F.State, id: Uuid, header: F.Publication)
    requires id in s.publications && s.publications[id] == header && !header.sealed
    requires F.ReleaseMatches(s, header) && F.FilesMatch(s, header)
    ensures F.GuardAllows(s, F.UpdatePublication(id, header.(sealed := true)))
  {
  }

  lemma SealConstraints(s: F.State, id: Uuid)
    requires F.Constraints(s) && id in s.publications
    ensures F.Constraints(s.(publications := s.publications[id := s.publications[id].(sealed := true)]))
  {
    var t := s.(publications := s.publications[id := s.publications[id].(sealed := true)]);
    OthersKept(s, t);
    MorePublications(s, t);
    SealKeepsConstraints(s, id);
  }

  lemma SealAccepted(s: F.State, id: Uuid, header: F.Publication)
    requires F.Constraints(s) && id in s.publications && s.publications[id] == header && !header.sealed
    requires F.ReleaseMatches(s, header) && F.FilesMatch(s, header)
    ensures F.Accepts(s, F.UpdatePublication(id, header.(sealed := true)))
  {
    SealGuard(s, id, header);
    SealConstraints(s, id);
  }

  lemma SealKeepsConstraints(s: F.State, id: Uuid)
    requires F.PublicationConstraints(s) && id in s.publications
    ensures F.PublicationConstraints(s.(publications := s.publications[id := s.publications[id].(sealed := true)]))
  {
    var t := s.(publications := s.publications[id := s.publications[id].(sealed := true)]);
    forall p | p in t.publications ensures t.publications[p].(sealed := true) == s.publications[p].(sealed := true) {
    }
    forall a, b | a in t.publications && b in t.publications
                  && t.publications[a].projectId == t.publications[b].projectId
                  && t.publications[a].createdBy == t.publications[b].createdBy
                  && t.publications[a].requestId == t.publications[b].requestId ensures a == b
    {
      SameRequest(s, t, a);
      SameRequest(s, t, b);
    }
  }

  lemma SameRequest(s: F.State, t: F.State, p: Uuid)
    requires p in s.publications && p in t.publications
    requires t.publications[p].(sealed := true) == s.publications[p].(sealed := true)
    ensures t.publications[p].projectId == s.publications[p].projectId
    ensures t.publications[p].createdBy == s.publications[p].createdBy
    ensures t.publications[p].requestId == s.publications[p].requestId
  {
    var x, y := t.publications[p].(sealed := true), s.publications[p].(sealed := true);
    assert x.projectId == y.projectId && x.createdBy == y.createdBy && x.requestId == y.requestId;
  }

  // The deferred check.

  lemma RootHasNumberZero(rows: Nodes, n: Uuid)
    requires NumberedForest(rows) && n in rows && rows[n].ordinal == 0
    ensures rows[n].parentId.None?
  {
  }

  lemma EveryNumberIsUsed(rows: Nodes, k: nat)
    requires NumberedForest(rows) && k < |rows|
    ensures exists n :: n in rows && rows[n].ordinal == k
  {
    var ordinals := map n | n in rows :: rows[n].ordinal;
    ImageSize(rows.Keys, ordinals);
    assert |rows.Keys| == |rows|;
    FillsInterval(Image(rows.Keys, ordinals), |rows|);
    assert k in Image(rows.Keys, ordinals);
  }

  /** The rows of the publication, as its own nodes in the tables. */
  ghost predicate Holds(s: F.State, id: Uuid, rows: Nodes) {
    && id in s.publications && s.publications[id].sealed && s.publications[id].nodeCount >= 1
    && rows.Keys <= s.publicationNodes.Keys && RowsFit(rows)
    && (forall n :: n in rows ==> s.publicationNodes[n] == rows[n])
    && F.PublicationNodesOf(s, id) == rows.Keys
  }

  lemma ForestIsComplete(s: F.State, id: Uuid, rows: Nodes)
    requires Holds(s, id, rows) && NumberedForest(rows) && |rows| == s.publications[id].nodeCount
    ensures F.PublicationComplete(s, id)
  {
    EveryNumberIsUsed(rows, 0);
    EveryNumberIsUsed(rows, |rows| - 1);
    var root :| root in rows && rows[root].ordinal == 0;
    var last :| last in rows && rows[last].ordinal == |rows| - 1;
    RootHasNumberZero(rows, root);
    var own := F.PublicationNodesOf(s, id);
    assert |own| == |rows.Keys| == |rows|;
    assert root in own && s.publicationNodes[root].ordinal == 0;
    assert last in own && s.publicationNodes[last].ordinal == |own| - 1;
  }

  lemma CompleteIsForest(s: F.State, id: Uuid, rows: Nodes)
    requires Holds(s, id, rows) && F.PublicationComplete(s, id)
    ensures NumberedForest(rows) && |rows| == s.publications[id].nodeCount
  {
    var own := F.PublicationNodesOf(s, id);
    assert |own| == |rows.Keys| == |rows|;
    forall n | n in rows && rows[n].parentId.Some?
      ensures rows[rows[n].parentId.value].ordinal < rows[n].ordinal
    {
      assert n in own && s.publicationNodes[n] == rows[n];
    }
  }

  /** The deferred check accepts exactly the gap-free numbered forests of the expected size. */
  lemma CompleteExactlyWhen(s: F.State, id: Uuid, rows: Nodes)
    requires Holds(s, id, rows)
    ensures F.PublicationComplete(s, id) <==> NumberedForest(rows) && |rows| == s.publications[id].nodeCount
  {
    if F.PublicationComplete(s, id) {
      CompleteIsForest(s, id, rows);
    }
    if NumberedForest(rows) && |rows| == s.publications[id].nodeCount {
      ForestIsComplete(s, id, rows);
    }
  }

  // The whole operation.

  /** What creation leaves behind. */
  function Created(s: F.State, id: Uuid, header: F.Publication, rows: Nodes): F.State {
    s.(publications := s.publications[id := header.(sealed := true)],
       publicationNodes := s.publicationNodes + rows)
  }

  lemma FreshPublication(s: F.State, id: Uuid)
    requires F.PublicationNodeConstraints(s) && id !in s.publications
    ensures Fresh(s, id)
  {
  }

  lemma OwnRows(s: F.State, id: Uuid, rows: Nodes)
    requires Fresh(s, id) && RowsOf(rows, id)
    ensures F.PublicationNodesOf(s.(publicationNodes := s.publicationNodes + rows), id) == rows.Keys
  {
  }

  lemma SourcesStay(s: F.State, t: F.State, header: F.Publication)
    requires t.releases == s.releases && t.preservations == s.preservations
    ensures F.ReleaseMatches(t, header) == F.ReleaseMatches(s, header)
    ensures F.FilesMatch(t, header) == F.FilesMatch(s, header)
  {
  }

  /** The open publication with some rows of its own. */
  function With(first: F.State, rows: Nodes): F.State {
    first.(publicationNodes := first.publicationNodes + rows)
  }

  /** Each batch is new, and after each the rows so far satisfy the constraints: in particular every
      parent comes in the same batch as its child or in an earlier one. */
  ghost predicate Joins(s: F.State, soFar: Nodes, batches: seq<Nodes>)
    decreases |batches|
  {
    batches == []
    || (batches[0].Keys !! s.publicationNodes.Keys + soFar.Keys
        && RowsFit(soFar + batches[0])
        && Joins(s, soFar + batches[0], batches[1..]))
  }

  ghost predicate AllOf(batches: seq<Nodes>, id: Uuid) {
    forall i :: 0 <= i < |batches| ==> RowsOf(batches[i], id)
  }

  /** A publication that is open for nodes. */
  ghost predicate Open(first: F.State, id: Uuid, header: F.Publication) {
    && F.Constraints(first) && id in first.publications && first.publications[id] == header && !header.sealed
    && Fresh(first, id) && F.ReleaseMatches(first, header) && F.FilesMatch(first, header)
  }

  lemma WithRows(first: F.State, id: Uuid, rows: Nodes)
    requires F.Constraints(first) && id in first.publications && Fresh(first, id) && RowsOf(rows, id)
    requires rows.Keys !! first.publicationNodes.Keys
    ensures F.Constraints(With(first, rows)) <==> RowsFit(rows)
  {
    NodesConstraints(first, id, rows);
  }

  lemma BatchGuard(first: F.State, id: Uuid, soFar: Nodes, batch: Nodes)
    requires id in first.publications && !first.publications[id].sealed && RowsOf(batch, id)
    ensures F.GuardAllows(With(first, soFar), F.InsertPublicationNodes(batch))
            <==> batch.Keys !! first.publicationNodes.Keys + soFar.Keys
    ensures F.Effect(With(first, soFar), F.InsertPublicationNodes(batch)) == With(first, soFar + batch)
  {
    NodesGuard(With(first, soFar), id, batch);
    assert first.publicationNodes + soFar + batch == first.publicationNodes + (soFar + batch);
  }

  lemma BatchAccepted(first: F.State, id: Uuid, header: F.Publication, soFar: Nodes, batch: Nodes)
    requires Open(first, id, header) && RowsOf(soFar, id) && RowsOf(batch, id)
    requires soFar.Keys !! first.publicationNodes.Keys
    ensures F.Accepts(With(first, soFar), F.InsertPublicationNodes(batch)) <==>
              batch.Keys !! first.publicationNodes.Keys + soFar.Keys && RowsFit(soFar + batch)
  {
    BatchGuard(first, id, soFar, batch);
    if batch.Keys !! first.publicationNodes.Keys + soFar.Keys {
      WithRows(first, id, soFar + batch);
    }
  }

  lemma SealFits(first: F.State, rows: Nodes, id: Uuid, header: F.Publication)
    requires Open(first, id, header) && RowsOf(rows, id) && rows.Keys !! first.publicationNodes.Keys && RowsFit(rows)
    ensures F.Accepts(With(first, rows), F.UpdatePublication(id, header.(sealed := true)))
  {
    WithRows(first, id, rows);
    SourcesStay(first, With(first, rows), header);
    SealAccepted(With(first, rows), id, header);
  }

  lemma SealReaches(db: Db, first: F.State, rows: Nodes, id: Uuid, header: F.Publication, pending: Pending)
    requires F.Accepts(db.files, F.UpdatePublication(id, header.(sealed := true)))
    ensures Perform(db, pending, Rest(id, header, []))
         == Reached(Sealed(db, id, header), pending.(publications := pending.publications + {id}))
  {
    var seal := OnFiles(F.UpdatePublication(id, header.(sealed := true)));
    assert [seal] == [seal] + [];
    OneStep(db, pending, seal, []);
  }

  function Sealed(db: Db, id: Uuid, header: F.Publication): Db {
    db.(files := db.files.(publications := db.files.publications[id := header.(sealed := true)]))
  }

  /** From the open publication on: all batches are accepted and the seal follows, or one is refused. */
  lemma {:induction false} RestReaches(db: Db, first: F.State, soFar: Nodes, id: Uuid, header: F.Publication,
                                       batches: seq<Nodes>, pending: Pending)
    requires Open(first, id, header) && RowsOf(soFar, id) && AllOf(batches, id)
    requires soFar.Keys !! first.publicationNodes.Keys && RowsFit(soFar)
    requires db.files == With(first, soFar)
    ensures
      Perform(db, pending, Rest(id, header, batches)) ==
      if Joins(first, soFar, batches)
      then Reached(Sealed(db.(files := With(first, Joined(soFar, batches))), id, header),
                   pending.(publications := pending.publications + {id}))
      else Raised
    decreases |batches|
  {
    if batches == [] {
      SealFits(first, soFar, id, header);
      SealReaches(db, first, soFar, id, header, pending);
    } else {
      var batch := batches[0];
      BatchStep(db, first, id, header, soFar, batch, pending, Rest(id, header, batches[1..]));
      if batch.Keys !! first.publicationNodes.Keys + soFar.Keys && RowsFit(soFar + batch) {
        TailIsOurs(soFar, batches, id);
        RestReaches(db.(files := With(first, soFar + batch)), first, soFar + batch, id, header, batches[1..], pending);
      }
    }
  }

  lemma TailIsOurs(soFar: Nodes, batches: seq<Nodes>, id: Uuid)
    requires batches != [] && RowsOf(soFar, id) && AllOf(batches, id)
    ensures RowsOf(soFar + batches[0], id) && AllOf(batches[1..], id)
  {
  }

  lemma BatchStep(db: Db, first: F.State, id: Uuid, header: F.Publication, soFar: Nodes, batch: Nodes,
                  pending: Pending, rest: seq<Op>)
    requires Open(first, id, header) && RowsOf(soFar, id) && RowsOf(batch, id)
    requires soFar.Keys !! first.publicationNodes.Keys && db.files == With(first, soFar)
    ensures
      Perform(db, pending, [OnFiles(F.InsertPublicationNodes(batch))] + rest) ==
      if batch.Keys !! first.publicationNodes.Keys + soFar.Keys && RowsFit(soFar + batch)
      then Perform(db.(files := With(first, soFar + batch)), pending, rest) else Raised
  {
    BatchAccepted(first, id, header, soFar, batch);
    OneBatch(db, F.InsertPublicationNodes(batch), pending, rest);
    BatchGuard(first, id, soFar, batch);
  }

  lemma OneBatch(db: Db, f: F.Op, pending: Pending, rest: seq<Op>)
    requires f.InsertPublicationNodes?
    ensures Perform(db, pending, [OnFiles(f)] + rest)
         == if F.Accepts(db.files, f) then Perform(db.(files := F.Effect(db.files, f)), pending, rest) else Raised
  {
    OneStep(db, pending, OnFiles(f), rest);
    assert pending.publications + {} == pending.publications;
  }

  /** Does the transaction reach its deferred check, and with what? */
  lemma CreationReaches(db: Db, id: Uuid, header: F.Publication, batches: seq<Nodes>)
    requires F.Constraints(db.files) && !header.sealed && AllOf(batches, id)
    ensures
      Perform(db, NOTHING, Create(id, header, batches)) ==
      if HeaderFits(db.files, id, header) && Joins(db.files, map[], batches)
      then Reached(db.(files := Created(db.files, id, header, Joined(map[], batches))), Pending({id}, {}, {}))
      else Raised
  {
    InsertStep(db, id, header, Rest(id, header, batches));
    if HeaderFits(db.files, id, header) {
      OpenedReaches(db, id, header, batches);
    }
  }

  lemma OpenedReaches(db: Db, id: Uuid, header: F.Publication, batches: seq<Nodes>)
    requires F.Constraints(db.files) && !header.sealed && HeaderFits(db.files, id, header) && AllOf(batches, id)
    ensures
      var first := db.files.(publications := db.files.publications[id := header]);
      Perform(db.(files := first), Pending({id}, {}, {}), Rest(id, header, batches)) ==
      if Joins(db.files, map[], batches)
      then Reached(db.(files := Created(db.files, id, header, Joined(map[], batches))), Pending({id}, {}, {}))
      else Raised
  {
    var first := db.files.(publications := db.files.publications[id := header]);
    InsertOpens(db.files, id, header);
    FirstReaches(db.(files := first), id, header, batches);
    SameJoins(db.files, first, map[], batches);
    CreatedAgain(db, id, header, Joined(map[], batches));
  }

  const NONE: Nodes := map[]

  lemma NoRows(first: F.State, id: Uuid)
    ensures RowsOf(map[], id) && RowsFit(map[]) && {id} + {id} == {id}
    ensures NONE.Keys !! first.publicationNodes.Keys && With(first, NONE) == first
  {
    assert first.publicationNodes + map[] == first.publicationNodes;
  }

  lemma FirstReaches(db: Db, id: Uuid, header: F.Publication, batches: seq<Nodes>)
    requires Open(db.files, id, header) && AllOf(batches, id)
    ensures
      Perform(db, Pending({id}, {}, {}), Rest(id, header, batches)) ==
      if Joins(db.files, map[], batches)
      then Reached(Sealed(db.(files := With(db.files, Joined(map[], batches))), id, header), Pending({id}, {}, {}))
      else Raised
  {
    NoRows(db.files, id);
    RestReaches(db, db.files, map[], id, header, batches, Pending({id}, {}, {}));
  }

  lemma InsertStep(db: Db, id: Uuid, header: F.Publication, rest: seq<Op>)
    requires F.Constraints(db.files) && !header.sealed
    ensures
      Perform(db, NOTHING, [OnFiles(F.InsertPublication(id, header))] + rest) ==
      if HeaderFits(db.files, id, header)
      then Perform(db.(files := db.files.(publications := db.files.publications[id := header])),
                   Pending({id}, {}, {}), rest)
      else Raised
  {
    InsertAccepted(db.files, id, header);
    OneInsert(db, id, header, rest);
  }

  lemma OneInsert(db: Db, id: Uuid, header: F.Publication, rest: seq<Op>)
    ensures Perform(db, NOTHING, [OnFiles(F.InsertPublication(id, header))] + rest)
         == if F.Accepts(db.files, F.InsertPublication(id, header))
            then Perform(db.(files := db.files.(publications := db.files.publications[id := header])),
                         Pending({id}, {}, {}), rest)
            else Raised
  {
    OneStep(db, NOTHING, OnFiles(F.InsertPublication(id, header)), rest);
    assert {} + {id} == {id};
  }

  lemma InsertOpens(s: F.State, id: Uuid, header: F.Publication)
    requires F.Constraints(s) && !header.sealed && HeaderFits(s, id, header)
    ensures F.Effect(s, F.InsertPublication(id, header)) == s.(publications := s.publications[id := header])
    ensures Open(s.(publications := s.publications[id := header]), id, header)
  {
    var first := s.(publications := s.publications[id := header]);
    InsertConstraints(s, id, header);
    FreshPublication(s, id);
    SourcesStay(s, first, header);
  }

  lemma CreatedAgain(db: Db, id: Uuid, header: F.Publication, rows: Nodes)
    ensures
      var first := db.files.(publications := db.files.publications[id := header]);
      Sealed(db.(files := With(first, rows)), id, header) == db.(files := Created(db.files, id, header, rows))
  {
    var last := header.(sealed := true);
    assert db.files.publications[id := header][id := last] == db.files.publications[id := last];
  }

  lemma {:induction false} SameJoins(s: F.State, t: F.State, soFar: Nodes, batches: seq<Nodes>)
    requires t.publicationNodes == s.publicationNodes
    ensures Joins(t, soFar, batches) == Joins(s, soFar, batches)
    decreases |batches|
  {
    if batches != [] {
      SameJoins(s, t, soFar + batches[0], batches[1..]);
    }
  }

  lemma {:induction false} JoinsMeans(s: F.State, id: Uuid, soFar: Nodes, batches: seq<Nodes>)
    requires Joins(s, soFar, batches) && RowsOf(soFar, id) && AllOf(batches, id)
    requires soFar.Keys !! s.publicationNodes.Keys && RowsFit(soFar)
    ensures
      var rows := Joined(soFar, batches);
      RowsOf(rows, id) && rows.Keys !! s.publicationNodes.Keys && RowsFit(rows)
    decreases |batches|
  {
    if batches != [] {
      JoinsMeans(s, id, soFar + batches[0], batches[1..]);
    }
  }

  lemma OnlyOneCheck(db: Db, id: Uuid)
    ensures ChecksPass(db, Pending({id}, {}, {})) <==> F.PublicationComplete(db.files, id)
  {
  }

  lemma CreatedHolds(s: F.State, id: Uuid, header: F.Publication, rows: Nodes)
    requires F.PublicationNodeConstraints(s) && header.nodeCount >= 1 && RowsOf(rows, id)
    requires id !in s.publications && rows.Keys !! s.publicationNodes.Keys && RowsFit(rows)
    ensures Holds(Created(s, id, header, rows), id, rows)
  {
    FreshPublication(s, id);
    OwnRows(s, id, rows);
  }

  /** Creation commits exactly when the header fits its sources, the batches join without gap or
      clash, and the nodes are a forest numbered without gaps; what it leaves is the sealed header with
      these nodes. */
  lemma CreationCommitsExactlyWhen(db: Db, id: Uuid, header: F.Publication, batches: seq<Nodes>)
    requires F.Constraints(db.files) && !header.sealed && AllOf(batches, id)
    ensures Commits(db, Create(id, header, batches)) <==>
              && HeaderFits(db.files, id, header) && Joins(db.files, map[], batches)
              && NumberedForest(Joined(map[], batches)) && |Joined(map[], batches)| == header.nodeCount
    ensures Commits(db, Create(id, header, batches)) ==>
              Transaction(db, Create(id, header, batches))
              == db.(files := Created(db.files, id, header, Joined(map[], batches)))
  {
    var rows := Joined(map[], batches);
    CreationReaches(db, id, header, batches);
    if HeaderFits(db.files, id, header) && Joins(db.files, map[], batches) {
      JoinsMeans(db.files, id, map[], batches);
      CreatedHolds(db.files, id, header, rows);
      CompleteExactlyWhen(Created(db.files, id, header, rows), id, rows);
      OnlyOneCheck(db.(files := Created(db.files, id, header, rows)), id);
    }
  }

  /** A header that does not mirror its release and its preserved files is refused at once. */
  lemma UnfaithfulHeaderIsRefused(db: Db, id: Uuid, header: F.Publication, batches: seq<Nodes>)
    requires !FileGuards.MirrorsRelease(db.files, header) || !FileGuards.MirrorsFiles(db.files, header)
    ensures !Commits(db, Create(id, header, batches))
  {
    FileGuards.OpeningAPublication(db.files, id, header);
    OneStep(db, NOTHING, OnFiles(F.InsertPublication(id, header)), Rest(id, header, batches));
  }

  /** No publication omits a preserved file, adds one, or shows one with other fields. */
  lemma PartialListIsRefused(db: Db, id: Uuid, header: F.Publication, batches: seq<Nodes>, p: Uuid)
    requires header.preservationId == Some(p) && p in db.files.preservations
    requires db.files.preservations[p].manifest.Some? && db.files.preservations[p].manifest.value.files.Some?
    requires
      var kept := db.files.preservations[p].manifest.value.files.value;
      |header.fileManifest| != |kept|
      || exists k :: 0 <= k < |kept| && header.fileManifest[k].fields != kept[k].fields
    ensures !Commits(db, Create(id, header, batches))
  {
    UnfaithfulHeaderIsRefused(db, id, header, batches);
  }

  // Batches in the order of the numbering.

  /** No batch contains a row twice, and none repeats an existing row. */
  ghost predicate AllNew(s: F.State, soFar: Nodes, batches: seq<Nodes>)
    decreases |batches|
  {
    batches == []
    || (batches[0].Keys !! s.publicationNodes.Keys + soFar.Keys && AllNew(s, soFar + batches[0], batches[1..]))
  }

  /** The rows of a batch are numbered below those of the batches after it. */
  ghost predicate InOrder(soFar: Nodes, batches: seq<Nodes>)
    decreases |batches|
  {
    batches == []
    || ((forall m, n :: m in soFar && n in Joined(soFar, batches) && n !in soFar ==>
           soFar[m].ordinal < Joined(soFar, batches)[n].ordinal)
        && InOrder(soFar + batches[0], batches[1..]))
  }

  lemma {:induction false} JoinedExtends(s: F.State, soFar: Nodes, batches: seq<Nodes>, n: Uuid)
    requires AllNew(s, soFar, batches) && n in soFar
    ensures n in Joined(soFar, batches) && Joined(soFar, batches)[n] == soFar[n]
    decreases |batches|
  {
    if batches != [] {
      JoinedExtends(s, soFar + batches[0], batches[1..], n);
    }
  }

  /** Parents are numbered below their children, so the lower part of a forest is closed. */
  lemma LowerPartFits(low: Nodes, rows: Nodes)
    requires NumberedForest(rows) && KnownKinds(rows) && forall n :: n in low ==> n in rows && rows[n] == low[n]
    requires forall m, n :: m in low && n in rows && n !in low ==> low[m].ordinal < rows[n].ordinal
    ensures RowsFit(low)
  {
  }

  lemma PrefixFits(s: F.State, soFar: Nodes, batches: seq<Nodes>)
    requires AllNew(s, soFar, batches) && InOrder(soFar, batches)
    requires NumberedForest(Joined(soFar, batches)) && KnownKinds(Joined(soFar, batches))
    ensures RowsFit(soFar)
  {
    forall n | n in soFar ensures n in Joined(soFar, batches) && Joined(soFar, batches)[n] == soFar[n] {
      JoinedExtends(s, soFar, batches, n);
    }
    LowerPartFits(soFar, Joined(soFar, batches));
  }

  lemma {:induction false} OrderedBatchesJoin(s: F.State, soFar: Nodes, batches: seq<Nodes>)
    requires AllNew(s, soFar, batches) && InOrder(soFar, batches)
    requires NumberedForest(Joined(soFar, batches)) && KnownKinds(Joined(soFar, batches))
    ensures RowsFit(soFar) && Joins(s, soFar, batches)
    decreases |batches|
  {
    PrefixFits(s, soFar, batches);
    if batches != [] {
      OrderedBatchesJoin(s, soFar + batches[0], batches[1..]);
    }
  }

  lemma {:induction false} JoinsAreNew(s: F.State, soFar: Nodes, batches: seq<Nodes>)
    requires Joins(s, soFar, batches)
    ensures AllNew(s, soFar, batches)
    decreases |batches|
  {
    if batches != [] {
      JoinsAreNew(s, soFar + batches[0], batches[1..]);
    }
  }

  /** Nodes sent in the order of their numbers may be cut into batches anywhere: creation commits
      exactly when the header fits and the nodes are new and form a forest numbered without gaps. */
  lemma BatchingDoesNotMatter(db: Db, id: Uuid, header: F.Publication, batches: seq<Nodes>)
    requires F.Constraints(db.files) && !header.sealed && AllOf(batches, id) && InOrder(map[], batches)
    ensures Commits(db, Create(id, header, batches)) <==>
              && HeaderFits(db.files, id, header) && AllNew(db.files, map[], batches)
              && NumberedForest(Joined(map[], batches)) && KnownKinds(Joined(map[], batches))
              && |Joined(map[], batches)| == header.nodeCount
  {
    CreationCommitsExactlyWhen(db, id, header, batches);
    if AllNew(db.files, map[], batches) && NumberedForest(Joined(map[], batches)) && KnownKinds(Joined(map[], batches)) {
      OrderedBatchesJoin(db.files, map[], batches);
    }
    if Joins(db.files, map[], batches) {
      JoinsAreNew(db.files, map[], batches);
      JoinsMeans(db.files, id, map[], batches);
    }
  }
}
