/** Invariants of the artifact tables in every reachable state, and what they mean. */
module ArtifactInvariants {
  import opened Sql
  import opened Counting
  import opened Artifacts
  import opened ArtifactHistory

  /** A ready preservation holds exactly as many verified winners as it selected. */
  ghost predicate ReadyComplete(s: State) {
    forall p :: ReadyPreservation(s, p) ==> CompleteAt(s, p)
  }

  /** Every publication still matches its sealed release and its ready preservation. */
  ghost predicate SourcesHold(s: State) {
    forall p :: p in s.publications ==>
      ReleaseMatches(s, s.publications[p]) && FilesMatch(s, s.publications[p])
  }

  ghost predicate Inv(s: State) {
    Constraints(s) && ReadyComplete(s) && SourcesHold(s)
  }

  lemma EmptyHolds()
    ensures Inv(EMPTY)
  {
  }

  lemma SelectionFrozen(a: State, b: State, p: Uuid)
    requires Later(a, b) && ReadyPreservation(a, p)
    ensures b.preservations[p] == a.preservations[p]
    ensures SelectedVerified(b, p) == SelectedVerified(a, p)
    ensures forall o :: o in SelectedVerified(a, p) ==> b.objects[o] == a.objects[o]
  {
    forall o | o in SelectedVerified(b, p) ensures o in SelectedVerified(a, p) {
      assert o in a.objects && ObjectIdentity(b.objects[o]) == ObjectIdentity(a.objects[o]);
      assert a.objects[o].preservationId == b.objects[o].preservationId;
    }
  }

  ghost predicate CompleteAt(s: State, p: Uuid)
    requires p in s.preservations
  {
    var row := s.preservations[p];
    && row.manifest.Some? && row.manifestDigest.Some? && row.completedAt.Some?
    && |SelectedVerified(s, p)| == |row.selection|
    && (row.manifest.value.files.Some? ==> |row.manifest.value.files.value| == |row.selection|)
  }

  /** A preservation becomes ready only by an update the guard has checked. */
  lemma NewlyReady(s: State, op: Op, p: Uuid)
    requires GuardAllows(s, op) && ReadyPreservation(Effect(s, op), p) && !ReadyPreservation(s, p)
    ensures CompleteAt(Effect(s, op), p)
  {
    assert op.UpdatePreservation? && op.id == p;
    assert SelectedVerified(Effect(s, op), p) == SelectedVerified(s, p);
  }

  lemma ReadyCompleteStep(s: State, op: Op)
    requires ReadyComplete(s) && GuardAllows(s, op)
    ensures ReadyComplete(Effect(s, op))
  {
    var t := Effect(s, op);
    EffectIsLater(s, op);
    forall p | ReadyPreservation(t, p) ensures CompleteAt(t, p) {
      if ReadyPreservation(s, p) {
        SelectionFrozen(s, t, p);
      } else {
        NewlyReady(s, op, p);
      }
    }
  }

  /** A publication's sources cannot be changed from under it. */
  lemma SourcesFrozen(a: State, b: State, pub: Publication)
    requires Later(a, b) && ReleaseMatches(a, pub) && FilesMatch(a, pub)
    ensures ReleaseMatches(b, pub) && FilesMatch(b, pub)
  {
    if pub.preservationId.Some? {
      assert ReadyPreservation(a, pub.preservationId.value);
    }
  }

  predicate Writes(op: Op, p: Uuid) {
    (op.InsertPublication? || op.UpdatePublication?) && op.id == p
  }

  lemma WrittenIsChecked(s: State, op: Op, p: Uuid)
    requires GuardAllows(s, op) && Writes(op, p)
    ensures ReleaseMatches(s, op.publication) && FilesMatch(s, op.publication)
  {
  }

  lemma WrittenIsThere(s: State, op: Op, p: Uuid)
    requires p in Effect(s, op).publications
    ensures if Writes(op, p) then Effect(s, op).publications[p] == op.publication
            else p in s.publications && Effect(s, op).publications[p] == s.publications[p]
  {
  }

  lemma SourcesHoldStep(s: State, op: Op)
    requires SourcesHold(s) && GuardAllows(s, op)
    ensures SourcesHold(Effect(s, op))
  {
    var t := Effect(s, op);
    EffectIsLater(s, op);
    forall p | p in t.publications
      ensures ReleaseMatches(t, t.publications[p]) && FilesMatch(t, t.publications[p])
    {
      WrittenIsThere(s, op, p);
      if Writes(op, p) {
        WrittenIsChecked(s, op, p);
      }
      SourcesFrozen(s, t, t.publications[p]);
    }
  }

  /** Every statement, accepted or refused, keeps the invariants. */
  lemma StepKeepsInv(s: State, op: Op)
    requires Inv(s)
    ensures Inv(Step(s, op))
  {
    if Accepts(s, op) {
      ReadyCompleteStep(s, op);
      SourcesHoldStep(s, op);
    }
  }

  lemma {:induction false} StepsKeepInv(s: State, ops: seq<Op>)
    requires Inv(s)
    ensures Inv(Steps(s, ops))
    decreases |ops|
  {
    if ops != [] {
      StepKeepsInv(s, ops[0]);
      StepsKeepInv(Step(s, ops[0]), ops[1..]);
    }
  }

  // Ready freeze.

  function SlotsOf(s: State, objects: set<Uuid>): set<int>
    requires objects <= s.objects.Keys
  {
    Image(objects, map o | o in objects :: s.objects[o].slot)
  }

  /** Once ready, the parent row and its winners are the same after any interleaving; the winners
      number exactly the selection and sit in pairwise distinct slots. */
  lemma ReadyFreeze(s: State, ops: seq<Op>, p: Uuid)
    requires Inv(s) && ReadyPreservation(s, p)
    ensures
      var t := Steps(s, ops);
      var winners := SelectedVerified(t, p);
      && p in t.preservations && t.preservations[p] == s.preservations[p]
      && winners == SelectedVerified(s, p)
      && (forall o :: o in winners ==> t.objects[o] == s.objects[o])
      && |winners| == |t.preservations[p].selection|
      && (forall a, b | a in winners && b in winners :: t.objects[a].slot == t.objects[b].slot ==> a == b)
  {
    StepsAreLater(s, ops);
    StepsKeepInv(s, ops);
    SelectionFrozen(s, Steps(s, ops), p);
  }

  /** When no winner lies outside the selection, the winners' slots are exactly 0..n-1. */
  lemma SlotsFillSelection(s: State, p: Uuid)
    requires Inv(s) && ReadyPreservation(s, p)
    requires forall o :: o in SelectedVerified(s, p) ==>
                           s.objects[o].slot < |s.preservations[p].selection|
    ensures SlotsOf(s, SelectedVerified(s, p)) == Below(|s.preservations[p].selection|)
  {
    var winners := SelectedVerified(s, p);
    var slotOf := map o | o in winners :: s.objects[o].slot;
    ImageSize(winners, slotOf);
    FillsInterval(SlotsOf(s, winners), |s.preservations[p].selection|);
  }

  // Lease fencing.

  /** When may an update select an object that was not selected? */
  lemma SelectionRule(s: State, before: LedgerObject, after: LedgerObject)
    requires after.preservationId in s.preservations
    requires ObjectIdentity(after) == ObjectIdentity(before)
    requires !before.selected && after.selected
    ensures !UpdateObjectRaises(s, before, after) <==>
              var parent := s.preservations[after.preservationId];
              && before.state != Abandoned
              && parent.status == Preparing
              && (parent.leaseId == None || parent.leaseId == Some(before.leaseId))
  {
    assert after.leaseId == before.leaseId;
  }

  ghost predicate Fenced(s: State, p: Uuid, lease: Uuid) {
    p in s.preservations && s.preservations[p].leaseId.Some?
    && s.preservations[p].leaseId.value != lease
  }

  ghost predicate FencedThroughout(s: State, ops: seq<Op>, p: Uuid, lease: Uuid)
    decreases |ops|
  {
    ops == [] || (Fenced(s, p, lease) && FencedThroughout(Step(s, ops[0]), ops[1..], p, lease))
  }

  function WinnersOfLease(s: State, p: Uuid, lease: Uuid): set<Uuid> {
    set o | o in s.objects && s.objects[o].preservationId == p && s.objects[o].leaseId == lease
            && s.objects[o].selected
  }

  lemma WinnersStay(a: State, b: State, p: Uuid, lease: Uuid)
    requires ObjectsKept(a, b)
    ensures WinnersOfLease(a, p, lease) <= WinnersOfLease(b, p, lease)
  {
    forall o | o in WinnersOfLease(a, p, lease) ensures o in WinnersOfLease(b, p, lease) {
      var x, y := b.objects[o], a.objects[o];
      assert Evidence(x) == Evidence(y);
      assert x.selected == Evidence(x).selected && x.leaseId == Evidence(x).leaseId;
      assert x.preservationId == Evidence(x).preservationId;
    }
  }

  lemma NoNewWinner(s: State, op: Op, p: Uuid, lease: Uuid)
    requires Fenced(s, p, lease) && GuardAllows(s, op)
    ensures WinnersOfLease(Effect(s, op), p, lease) <= WinnersOfLease(s, p, lease)
  {
    if op.UpdateObject? {
      var before, after := s.objects[op.id], op.item;
      if op.id in WinnersOfLease(Effect(s, op), p, lease) && !before.selected {
        assert ObjectIdentity(after) == ObjectIdentity(before);
        SelectionRule(s, before, after);
      }
      if ObjectIdentity(after) == ObjectIdentity(before) {
        assert after.leaseId == ObjectIdentity(after).leaseId == before.leaseId;
        assert after.preservationId == ObjectIdentity(after).preservationId == before.preservationId;
      }
    }
  }

  lemma FencedStep(s: State, op: Op, p: Uuid, lease: Uuid)
    requires Fenced(s, p, lease)
    ensures WinnersOfLease(Step(s, op), p, lease) == WinnersOfLease(s, p, lease)
  {
    if Accepts(s, op) {
      ObjectStep(s, op);
      WinnersStay(s, Effect(s, op), p, lease);
      NoNewWinner(s, op, p, lease);
    }
  }

  /** While the lease stays with others, a worker that lost it selects nothing more, and what it
      had selected stays selected. */
  lemma {:induction false} LeaseFencing(s: State, ops: seq<Op>, p: Uuid, lease: Uuid)
    requires FencedThroughout(s, ops, p, lease)
    ensures WinnersOfLease(Steps(s, ops), p, lease) == WinnersOfLease(s, p, lease)
    decreases |ops|
  {
    if ops != [] {
      FencedStep(s, ops[0], p, lease);
      LeaseFencing(Step(s, ops[0]), ops[1..], p, lease);
    }
  }

  /** A slot has one winner for good: same object, digest, size and storage key. */
  lemma SlotWinnerIsFinal(s: State, ops: seq<Op>, first: Uuid, later: Uuid)
    requires Inv(s) && first in s.objects && s.objects[first].selected
    requires later in Steps(s, ops).objects && Steps(s, ops).objects[later].selected
    requires Steps(s, ops).objects[later].preservationId == s.objects[first].preservationId
    requires Steps(s, ops).objects[later].slot == s.objects[first].slot
    ensures later == first
    ensures Evidence(Steps(s, ops).objects[later]) == Evidence(s.objects[first])
  {
    var t := Steps(s, ops);
    StepsAreLater(s, ops);
    StepsKeepInv(s, ops);
    var x, y := t.objects[first], s.objects[first];
    assert Evidence(x) == Evidence(y);
    assert x.selected == Evidence(x).selected && x.slot == Evidence(x).slot;
    assert x.preservationId == Evidence(x).preservationId;
  }

  // Where a null decides.

  /** After any interleaving, a ready manifest lists as many files as were selected exactly when it
      has a file list at all. */
  lemma ReadyListsFilesExactlyWhen(s: State, ops: seq<Op>, p: Uuid)
    requires Inv(s) && ReadyPreservation(Steps(s, ops), p)
    ensures
      var row := Steps(s, ops).preservations[p];
      && row.manifest.Some?
      && (row.manifest.value.files.Some? && |row.manifest.value.files.value| == |row.selection|
          <==> row.manifest.value.files.Some?)
  {
    StepsKeepInv(s, ops);
    assert CompleteAt(Steps(s, ops), p);
  }

  /** After any interleaving, a selected object has a digest, and a positive size exactly when it has a
      size at all. */
  lemma SelectedHasSizeExactlyWhen(s: State, ops: seq<Op>, o: Uuid)
    requires Inv(s) && o in Steps(s, ops).objects && Steps(s, ops).objects[o].selected
    ensures
      var row := Steps(s, ops).objects[o];
      && row.state == Verified && row.contentDigest.Some?
      && (row.byteSize.Some? && row.byteSize.value > 0 <==> row.byteSize.Some?)
  {
    StepsKeepInv(s, ops);
    assert CheckPasses(VerifiedCheck(Steps(s, ops).objects[o]));
  }

  /** One release, one preservation of one file, and one object of the lease "old" in slot 0. */
  function Workshop(parent: Preservation, item: LedgerObject): State {
    State(map["r" := Release(1, [], "", "d", 0, 1, "q", false, map[])], map[],
          map["p" := parent], map["o" := item], map[], map[])
  }

  function Parent(lease: Option<Uuid>): Preservation {
    Preservation("r", 1, "q", ["file"], Preparing, None, None, None, None, lease, None, map[])
  }

  function Written(size: Option<int>): LedgerObject {
    LedgerObject("p", 0, "old", "key", Verified, false, Some("digest"), size, None, None, false,
                 map[])
  }

  lemma WorkshopConstraints(parent: Preservation, item: LedgerObject)
    requires parent.releaseId == "r" && |parent.selection| == 1
    requires item.preservationId == "p" && item.slot == 0
    requires item.byteSize.Some? ==> item.byteSize.value > 0
    requires item.selected ==> item.state == Verified && item.contentDigest.Some?
    ensures Constraints(Workshop(parent, item))
  {
  }

  /** Selecting the object is refused exactly when the parent's lease is a different one. */
  lemma SelectingGuard(lease: Option<Uuid>, size: Option<int>)
    ensures GuardAllows(Workshop(Parent(lease), Written(size)),
                        UpdateObject("o", Written(size).(selected := true)))
            <==> lease == None || lease == Some("old")
  {
    SelectionRule(Workshop(Parent(lease), Written(size)), Written(size),
                  Written(size).(selected := true));
  }

  lemma SelectingAccepted(lease: Option<Uuid>, size: Option<int>)
    requires lease == None
    requires size.Some? ==> size.value > 0
    ensures Accepts(Workshop(Parent(lease), Written(size)),
                    UpdateObject("o", Written(size).(selected := true)))
  {
    var s, after := Workshop(Parent(lease), Written(size)), Written(size).(selected := true);
    SelectingGuard(lease, size);
    assert s.objects["o" := after] == map["o" := after];
    assert Effect(s, UpdateObject("o", after)) == Workshop(Parent(lease), after);
    WorkshopConstraints(Parent(lease), after);
  }

  /** A null parent lease admits a worker with an outdated lease; a fresh lease fences it off. */
  lemma NullLeaseSelects()
    ensures Accepts(Workshop(Parent(None), Written(Some(1))),
                    UpdateObject("o", Written(Some(1)).(selected := true)))
    ensures !Accepts(Workshop(Parent(Some("new")), Written(Some(1))),
                     UpdateObject("o", Written(Some(1)).(selected := true)))
  {
    SelectingAccepted(None, Some(1));
    SelectingGuard(Some("new"), Some(1));
  }

  function Done(): Preservation {
    Parent(None).(status := Ready, manifest := Some(Manifest(None, map[])),
                  manifestDigest := Some("m"), completedAt := Some(0))
  }

  lemma ReadyWithoutFiles(item: LedgerObject)
    requires item == Written(None).(selected := true)
    ensures Accepts(Workshop(Parent(None), item), UpdatePreservation("p", Done()))
  {
    var s := Workshop(Parent(None), item);
    assert GuardAllows(s, UpdatePreservation("p", Done())) by {
      assert SelectedVerified(s, "p") == {"o"};
    }
    assert s.preservations["p" := Done()] == map["p" := Done()];
    assert Effect(s, UpdatePreservation("p", Done())) == Workshop(Done(), item);
    WorkshopConstraints(Done(), item);
  }

  /** A winner of unknown size and a manifest without files still make a preservation ready. */
  lemma NullsReachReady()
    ensures Accepts(Workshop(Parent(None), Written(None)),
                    UpdateObject("o", Written(None).(selected := true)))
    ensures Accepts(Workshop(Parent(None), Written(None).(selected := true)),
                    UpdatePreservation("p", Done()))
  {
    SelectingAccepted(None, None);
    ReadyWithoutFiles(Written(None).(selected := true));
  }
}
