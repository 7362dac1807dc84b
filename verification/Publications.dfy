/** The shape of a complete publication: gap-free numbering and a forest of nodes. */
module Publications {
  import opened Sql
  import opened Counting
  import opened Artifacts
  import opened ArtifactHistory

  lemma NodesFrozen(a: State, b: State, id: Uuid)
    requires Later(a, b) && SealedPublication(a, id)
    ensures PublicationNodesOf(b, id) == PublicationNodesOf(a, id)
    ensures forall n :: n in PublicationNodesOf(a, id) ==>
                          b.publicationNodes[n] == a.publicationNodes[n]
  {
    forall n | n in PublicationNodesOf(b, id) ensures n in PublicationNodesOf(a, id) {
      assert n in a.publicationNodes && b.publicationNodes[n] == a.publicationNodes[n];
    }
  }

  /** A complete publication stays complete, although its check is never run again. */
  lemma CompleteStays(a: State, b: State, id: Uuid)
    requires PublicationNodeConstraints(a) && Later(a, b) && PublicationComplete(a, id)
    ensures PublicationComplete(b, id)
    ensures b.publications[id] == a.publications[id]
  {
    NodesFrozen(a, b, id);
    assert b.publications[id].(sealed := true) == a.publications[id].(sealed := true);
    assert b.publications[id] == a.publications[id];
    var own := PublicationNodesOf(a, id);
    forall child | child in own && b.publicationNodes[child].parentId.Some?
      ensures
        var parent := b.publicationNodes[child].parentId.value;
        parent in b.publicationNodes
        && b.publicationNodes[parent].ordinal < b.publicationNodes[child].ordinal
    {
      var parent := a.publicationNodes[child].parentId.value;
      assert parent in own;
    }
  }

  function Ordinals(s: State, id: Uuid): set<int> {
    Image(PublicationNodesOf(s, id),
          map n | n in PublicationNodesOf(s, id) :: s.publicationNodes[n].ordinal)
  }

  /** Uniqueness, count, minimum and maximum leave no gap: the ordinals are 0..node_count-1. */
  lemma OrdinalsHaveNoGap(s: State, id: Uuid)
    requires PublicationNodeConstraints(s) && PublicationComplete(s, id)
    ensures s.publications[id].nodeCount > 0
    ensures Ordinals(s, id) == Below(s.publications[id].nodeCount)
  {
    var own := PublicationNodesOf(s, id);
    ImageSize(own, map n | n in own :: s.publicationNodes[n].ordinal);
    FillsInterval(Ordinals(s, id), s.publications[id].nodeCount);
  }

  /** Following parent links from n arrives at a node without parent within `steps` steps. */
  ghost predicate ReachesRoot(s: State, n: Uuid, steps: nat)
    decreases steps
  {
    && n in s.publicationNodes
    && (s.publicationNodes[n].parentId.None?
        || (steps > 0 && ReachesRoot(s, s.publicationNodes[n].parentId.value, steps - 1)))
  }

  lemma {:induction false} MoreSteps(s: State, n: Uuid, few: nat, many: nat)
    requires few <= many && ReachesRoot(s, n, few)
    ensures ReachesRoot(s, n, many)
    decreases few
  {
    if s.publicationNodes[n].parentId.Some? {
      MoreSteps(s, s.publicationNodes[n].parentId.value, few - 1, many - 1);
    }
  }

  /** The nodes of a complete publication form a forest: no cycle, and a node lies at most as
      deep as its ordinal. */
  lemma {:induction false} EveryNodeReachesRoot(s: State, id: Uuid, n: Uuid)
    requires PublicationNodeConstraints(s) && PublicationComplete(s, id)
    requires n in PublicationNodesOf(s, id)
    ensures ReachesRoot(s, n, s.publicationNodes[n].ordinal)
    decreases s.publicationNodes[n].ordinal
  {
    var row := s.publicationNodes[n];
    if row.parentId.Some? {
      var parent := row.parentId.value;
      assert parent in PublicationNodesOf(s, id);
      EveryNodeReachesRoot(s, id, parent);
      MoreSteps(s, parent, s.publicationNodes[parent].ordinal, row.ordinal - 1);
    }
  }
}
