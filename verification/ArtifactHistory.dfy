/**
 * What the guards of releases, preservations and publications keep over every run:
 * `Later(a, b)` lists everything that can no longer change once it holds in `a`.
 */
module ArtifactHistory {
  import opened Sql
  import opened Artifacts

  ghost predicate ReleasesFrozen(a: State, b: State) {
    && (forall r :: SealedRelease(a, r) ==> r in b.releases && b.releases[r] == a.releases[r])
    && (forall n :: n in a.releaseNodes && SealedRelease(a, a.releaseNodes[n].releaseId) ==>
          n in b.releaseNodes && b.releaseNodes[n] == a.releaseNodes[n])
    && (forall n :: n in b.releaseNodes && SealedRelease(a, b.releaseNodes[n].releaseId) ==>
          n in a.releaseNodes && a.releaseNodes[n] == b.releaseNodes[n])
  }

  ghost predicate PreservationsKept(a: State, b: State) {
    forall p :: p in a.preservations ==>
      && p in b.preservations
      && PreservationIdentity(b.preservations[p]) == PreservationIdentity(a.preservations[p])
      && (a.preservations[p].status == Ready ==> b.preservations[p] == a.preservations[p])
      && (a.preservations[p].status == Cancelled ==> b.preservations[p].status == Cancelled)
  }

  ghost predicate ObjectsKept(a: State, b: State) {
    forall o :: o in a.objects ==>
      && o in b.objects
      && ObjectIdentity(b.objects[o]) == ObjectIdentity(a.objects[o])
      && (a.objects[o].selected ==> Evidence(b.objects[o]) == Evidence(a.objects[o]))
      && (a.objects[o].selected && ReadyPreservation(a, a.objects[o].preservationId) ==>
            b.objects[o] == a.objects[o])
  }

  /** A ready preservation gains no selected object. */
  ghost predicate SelectionClosed(a: State, b: State) {
    forall o :: o in b.objects && b.objects[o].selected
                && ReadyPreservation(a, b.objects[o].preservationId) ==>
      o in a.objects && a.objects[o].selected
  }

  ghost predicate PublicationsFrozen(a: State, b: State) {
    && (forall p :: p in a.publications ==>
          && p in b.publications
          && b.publications[p].(sealed := true) == a.publications[p].(sealed := true)
          && (a.publications[p].sealed ==> b.publications[p].sealed))
    && (forall n :: n in a.publicationNodes ==>
          n in b.publicationNodes && b.publicationNodes[n] == a.publicationNodes[n])
    && (forall n :: n in b.publicationNodes
                    && SealedPublication(a, b.publicationNodes[n].publicationId) ==>
          n in a.publicationNodes)
  }

  ghost predicate Later(a: State, b: State) {
    && ReleasesFrozen(a, b)
    && PreservationsKept(a, b)
    && ObjectsKept(a, b)
    && SelectionClosed(a, b)
    && PublicationsFrozen(a, b)
  }

  lemma ReleasesTransitive(a: State, b: State, c: State)
    requires ReleasesFrozen(a, b) && ReleasesFrozen(b, c)
    ensures ReleasesFrozen(a, c)
  {
    assert forall r :: SealedRelease(a, r) ==> SealedRelease(b, r);
  }

  lemma PublicationsTransitive(a: State, b: State, c: State)
    requires PublicationsFrozen(a, b) && PublicationsFrozen(b, c)
    ensures PublicationsFrozen(a, c)
  {
    assert forall p :: SealedPublication(a, p) ==> SealedPublication(b, p);
    forall n | n in c.publicationNodes
               && SealedPublication(a, c.publicationNodes[n].publicationId)
      ensures n in a.publicationNodes
    {
      assert n in b.publicationNodes && b.publicationNodes[n] == c.publicationNodes[n];
    }
  }

  lemma LedgerTransitive(a: State, b: State, c: State)
    requires PreservationsKept(a, b) && PreservationsKept(b, c)
    requires ObjectsKept(a, b) && ObjectsKept(b, c)
    requires SelectionClosed(a, b) && SelectionClosed(b, c)
    ensures PreservationsKept(a, c) && ObjectsKept(a, c) && SelectionClosed(a, c)
  {
    assert forall p :: ReadyPreservation(a, p) ==> ReadyPreservation(b, p);
    forall o | o in c.objects && c.objects[o].selected
               && ReadyPreservation(a, c.objects[o].preservationId)
      ensures o in a.objects && a.objects[o].selected
    {
      assert o in b.objects && ObjectIdentity(b.objects[o]) == ObjectIdentity(c.objects[o]);
      assert b.objects[o].preservationId == c.objects[o].preservationId;
    }
  }

  lemma LaterTransitive(a: State, b: State, c: State)
    requires Later(a, b) && Later(b, c)
    ensures Later(a, c)
  {
    ReleasesTransitive(a, b, c);
    LedgerTransitive(a, b, c);
    PublicationsTransitive(a, b, c);
  }

  lemma ReleaseStep(s: State, op: Op)
    requires GuardAllows(s, op)
    ensures ReleasesFrozen(s, Effect(s, op))
  {
  }

  lemma UpdateKeepsPreservation(s: State, id: Uuid, before: Preservation, after: Preservation)
    requires !UpdatePreservationRaises(s, id, before, after)
    ensures PreservationIdentity(after) == PreservationIdentity(before) && before.status != Ready
    ensures before.status == Cancelled ==> after.status == Cancelled
  {
  }

  lemma PreservationStep(s: State, op: Op)
    requires GuardAllows(s, op)
    ensures PreservationsKept(s, Effect(s, op))
  {
    if op.UpdatePreservation? {
      UpdateKeepsPreservation(s, op.id, s.preservations[op.id], op.preservation);
      assert Effect(s, op).preservations == s.preservations[op.id := op.preservation];
    } else if !op.InsertPreservation? {
      assert Effect(s, op).preservations == s.preservations;
    }
  }

  /** What a statement writes to the object ledger. */
  lemma ObjectsAfter(s: State, op: Op)
    ensures Effect(s, op).objects
         == if op.InsertObject? || op.UpdateObject? then s.objects[op.id := op.item] else s.objects
  {
  }

  lemma ObjectsStayed(s: State, op: Op)
    requires GuardAllows(s, op)
    ensures ObjectsKept(s, Effect(s, op))
  {
    ObjectsAfter(s, op);
    if op.UpdateObject? {
      UpdateKeepsObject(s, s.objects[op.id], op.item);
    }
  }

  lemma SelectionStayed(s: State, op: Op)
    requires GuardAllows(s, op)
    ensures SelectionClosed(s, Effect(s, op))
  {
    ObjectsAfter(s, op);
    if op.UpdateObject? {
      UpdateKeepsObject(s, s.objects[op.id], op.item);
    } else if op.InsertObject? {
      InsertStartsUnselected(s, op.item);
    }
  }

  lemma ObjectStep(s: State, op: Op)
    requires GuardAllows(s, op)
    ensures ObjectsKept(s, Effect(s, op)) && SelectionClosed(s, Effect(s, op))
  {
    ObjectsStayed(s, op);
    SelectionStayed(s, op);
  }

  lemma InsertStartsUnselected(s: State, after: LedgerObject)
    requires !InsertObjectRaises(s, after)
    ensures !after.selected
  {
  }

  lemma UpdateKeepsObject(s: State, before: LedgerObject, after: LedgerObject)
    requires !UpdateObjectRaises(s, before, after)
    ensures ObjectIdentity(after) == ObjectIdentity(before)
    ensures after.preservationId == before.preservationId
    ensures before.selected ==> Evidence(after) == Evidence(before) && after.selected
    ensures before.selected ==> !ReadyPreservation(s, before.preservationId)
    ensures !before.selected && after.selected ==> !ReadyPreservation(s, before.preservationId)
  {
    assert ObjectIdentity(after).preservationId == after.preservationId;
    assert Evidence(after).selected == after.selected;
  }

  lemma PublicationHeaders(s: State, op: Op, p: Uuid)
    requires GuardAllows(s, op) && p in s.publications
    ensures p in Effect(s, op).publications
    ensures Effect(s, op).publications[p].(sealed := true) == s.publications[p].(sealed := true)
    ensures s.publications[p].sealed ==> Effect(s, op).publications[p].sealed
  {
    if op.UpdatePublication? {
      UpdateOnlySeals(s, s.publications[op.id], op.publication);
    } else if !op.InsertPublication? {
      assert Effect(s, op).publications == s.publications;
    }
  }

  lemma PublicationRows(s: State, op: Op)
    requires GuardAllows(s, op)
    ensures var t := Effect(s, op);
      && (forall n :: n in s.publicationNodes ==>
            n in t.publicationNodes && t.publicationNodes[n] == s.publicationNodes[n])
      && (forall n :: n in t.publicationNodes && SealedPublication(s, t.publicationNodes[n].publicationId) ==>
            n in s.publicationNodes)
  {
    if !op.InsertPublicationNodes? {
      assert Effect(s, op).publicationNodes == s.publicationNodes;
    }
  }

  lemma PublicationStep(s: State, op: Op)
    requires GuardAllows(s, op)
    ensures PublicationsFrozen(s, Effect(s, op))
  {
    PublicationRows(s, op);
    forall p | p in s.publications
      ensures
        var t := Effect(s, op);
        && p in t.publications
        && t.publications[p].(sealed := true) == s.publications[p].(sealed := true)
        && (s.publications[p].sealed ==> t.publications[p].sealed)
    {
      PublicationHeaders(s, op, p);
    }
  }

  lemma UpdateOnlySeals(s: State, before: Publication, after: Publication)
    requires !UpdatePublicationRaises(s, before, after)
    ensures !before.sealed && after.sealed && after == before.(sealed := true)
  {
  }

  lemma EffectIsLater(s: State, op: Op)
    requires GuardAllows(s, op)
    ensures Later(s, Effect(s, op))
  {
    ReleaseStep(s, op);
    PreservationStep(s, op);
    ObjectStep(s, op);
    PublicationStep(s, op);
  }

  /** No single statement, whatever the state it meets, undoes anything that is frozen. */
  lemma StepIsLater(s: State, op: Op)
    ensures Later(s, Step(s, op))
  {
    if Accepts(s, op) {
      EffectIsLater(s, op);
    }
  }

  /** Any interleaving of statements from any number of workers. */
  function Steps(s: State, ops: seq<Op>): State
    decreases |ops|
  {
    if ops == [] then s else Steps(Step(s, ops[0]), ops[1..])
  }

  lemma {:induction false} StepsAreLater(s: State, ops: seq<Op>)
    ensures Later(s, Steps(s, ops))
    decreases |ops|
  {
    if ops != [] {
      StepIsLater(s, ops[0]);
      StepsAreLater(Step(s, ops[0]), ops[1..]);
      LaterTransitive(s, Step(s, ops[0]), Steps(s, ops));
    }
  }
}
