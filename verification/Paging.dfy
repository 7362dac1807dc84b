/** Reading the nodes of a sealed version page by page, following the last ordinal kept. */
module Paging {
  import opened Sql
  import opened Counting
  import opened Artifacts
  import opened ArtifactHistory
  import opened Publications

  /** Node id -> ordinal, for the nodes of one version. */
  type Numbering = map<Uuid, int>

  function PublicationNumbering(s: State, id: Uuid): Numbering {
    map n | n in PublicationNodesOf(s, id) :: s.publicationNodes[n].ordinal
  }

  function ReleaseNumbering(s: State, id: Uuid): Numbering {
    map n | n in s.releaseNodes && s.releaseNodes[n].releaseId == id :: s.releaseNodes[n].ordinal
  }

  ghost predicate Injective(m: Numbering) {
    forall a, b :: a in m && b in m && m[a] == m[b] ==> a == b
  }

  function Beyond(m: Numbering, after: int): set<Uuid> {
    set n | n in m && m[n] > after
  }

  /** Does n carry the least ordinal beyond `after`? */
  predicate IsNext(m: Numbering, after: int, n: Uuid) {
    n in Beyond(m, after) && forall x | x in Beyond(m, after) :: m[n] <= m[x]
  }

  lemma {:induction false} NextExists(m: Numbering, some: set<Uuid>)
    requires some <= m.Keys && some != {}
    ensures exists n :: n in some && forall x :: x in some ==> m[n] <= m[x]
  {
    var n :| n in some;
    if some - {n} == {} {
      assert some == {n};
    } else {
      NextExists(m, some - {n});
      var k :| k in some - {n} && forall x :: x in some - {n} ==> m[k] <= m[x];
      var least := if m[n] <= m[k] then n else k;
      assert least in some && forall x :: x in some ==> m[least] <= m[x];
    }
  }

  /** `ordinal > after ORDER BY ordinal`: the whole remaining listing. */
  ghost function Listing(m: Numbering, after: int): (r: seq<Uuid>)
    ensures forall n :: n in r ==> n in m
    decreases |Beyond(m, after)|
  {
    if Beyond(m, after) == {} then []
    else
      assert exists n :: IsNext(m, after, n) by {
        NextExists(m, Beyond(m, after));
        var k :| k in Beyond(m, after) && forall x :: x in Beyond(m, after) ==> m[k] <= m[x];
        assert IsNext(m, after, k);
      }
      var n :| IsNext(m, after, n);
      Shrinks(m, after, n);
      [n] + Listing(m, m[n])
  }

  lemma Shrinks(m: Numbering, after: int, n: Uuid)
    requires n in Beyond(m, after)
    ensures Beyond(m, m[n]) < Beyond(m, after) && |Beyond(m, m[n])| < |Beyond(m, after)|
  {
    assert n !in Beyond(m, m[n]);
    SubsetSize(Beyond(m, m[n]), Beyond(m, after));
  }

  /** The listing holds every remaining node exactly once, in strictly increasing order. */
  lemma {:induction false} ListingIsComplete(m: Numbering, after: int)
    requires Injective(m)
    ensures forall n :: n in Listing(m, after) <==> n in Beyond(m, after)
    ensures forall i, j :: 0 <= i < j < |Listing(m, after)| ==>
              m[Listing(m, after)[i]] < m[Listing(m, after)[j]]
    decreases |Beyond(m, after)|
  {
    var all := Listing(m, after);
    if Beyond(m, after) != {} {
      var n := all[0];
      Shrinks(m, after, n);
      ListingIsComplete(m, m[n]);
      assert all == [n] + Listing(m, m[n]);
      forall x ensures x in all <==> x in Beyond(m, after) {
        if x in Beyond(m, after) && x != n {
          assert m[x] != m[n];
          assert x in Beyond(m, m[n]);
        }
      }
      forall i, j | 0 <= i < j < |all| ensures m[all[i]] < m[all[j]] {
        assert all[j] == Listing(m, m[n])[j - 1];
        assert all[j] in Listing(m, m[n]);
        if i > 0 {
          assert all[i] == Listing(m, m[n])[i - 1];
        }
      }
    }
  }

  /** What is left after the first k nodes is the listing from the k-th node's ordinal. */
  lemma {:induction false} ListingResumes(m: Numbering, after: int, k: nat)
    requires 0 < k <= |Listing(m, after)|
    ensures Listing(m, after)[k - 1] in m
    ensures Listing(m, after)[k..] == Listing(m, m[Listing(m, after)[k - 1]])
    decreases k
  {
    var all := Listing(m, after);
    var n := all[0];
    assert all == [n] + Listing(m, m[n]);
    if k > 1 {
      Shrinks(m, after, n);
      ListingResumes(m, m[n], k - 1);
      assert all[k..] == Listing(m, m[n])[k - 1..];
      assert all[k - 1] == Listing(m, m[n])[k - 2];
    }
  }

  /** The repository query with its LIMIT. */
  ghost function Page(m: Numbering, after: int, limit: nat): seq<Uuid> {
    var all := Listing(m, after);
    if limit < |all| then all[..limit] else all
  }

  /** A page request and how many of its rows the byte budget keeps (at least one). */
  datatype Request = Request(limit: nat, keep: nat)

  function Kept(page: seq<Uuid>, request: Request): seq<Uuid> {
    if request.keep < |page| then page[..request.keep] else page
  }

  /** Follow the cursor; the i-th page is read from whatever numbering the i-th moment shows. */
  ghost function Follow(moments: seq<Numbering>, after: int, plan: seq<Request>): seq<Uuid>
    requires |moments| == |plan|
    decreases |plan|
  {
    if plan == [] then []
    else
      var kept := Kept(Page(moments[0], after, plan[0].limit), plan[0]);
      if kept == [] || kept[|kept| - 1] !in moments[0] then []
      else kept + Follow(moments[1..], moments[0][kept[|kept| - 1]], plan[1..])
  }

  lemma OnePage(m: Numbering, after: int, request: Request)
    requires request.limit > 0 && request.keep > 0 && Listing(m, after) != []
    ensures
      var all, kept := Listing(m, after), Kept(Page(m, after, request.limit), request);
      && 0 < |kept| <= |all|
      && kept == all[..|kept|]
      && kept[|kept| - 1] in m
      && all[|kept|..] == Listing(m, m[kept[|kept| - 1]])
  {
    var kept := Kept(Page(m, after, request.limit), request);
    ListingResumes(m, after, |kept|);
  }

  lemma Glue(all: seq<Uuid>, kept: seq<Uuid>, rest: seq<Uuid>)
    requires |kept| <= |all| && kept == all[..|kept|]
    requires rest <= all[|kept|..]
    ensures kept + rest <= all
    ensures rest == all[|kept|..] ==> kept + rest == all
    ensures |all[|kept|..]| == |all| - |kept|
  {
    assert all == kept + all[|kept|..];
    assert all[..|kept| + |rest|] == kept + rest;
  }

  /** Any positive page sizes and byte budgets: the pages concatenate to the listing, each page
      gains at least one node, and as many pages as there are nodes always suffice. */
  lemma {:induction false} PagesConcatenate(m: Numbering, moments: seq<Numbering>, after: int,
                                            plan: seq<Request>)
    requires |moments| == |plan|
    requires forall i :: 0 <= i < |moments| ==> moments[i] == m
    requires forall i :: 0 <= i < |plan| ==> plan[i].limit > 0 && plan[i].keep > 0
    ensures Follow(moments, after, plan) <= Listing(m, after)
    ensures |plan| >= |Listing(m, after)| ==> Follow(moments, after, plan) == Listing(m, after)
    decreases |plan|
  {
    var all := Listing(m, after);
    if plan != [] {
      FollowUnfolds(m, moments, after, plan);
      if all != [] {
        OnePage(m, after, plan[0]);
        var kept := Kept(Page(m, after, plan[0].limit), plan[0]);
        var last := m[kept[|kept| - 1]];
        PagesConcatenate(m, moments[1..], last, plan[1..]);
        Glue(all, kept, Follow(moments[1..], last, plan[1..]));
      }
    }
  }

  lemma FollowUnfolds(m: Numbering, moments: seq<Numbering>, after: int, plan: seq<Request>)
    requires |moments| == |plan| > 0 && moments[0] == m
    requires plan[0].limit > 0 && plan[0].keep > 0
    ensures Listing(m, after) == [] ==> Follow(moments, after, plan) == []
    ensures Listing(m, after) != [] ==>
              var kept := Kept(Page(m, after, plan[0].limit), plan[0]);
              && kept != [] && kept[|kept| - 1] in m
              && Follow(moments, after, plan) == kept + Follow(moments[1..], m[kept[|kept| - 1]], plan[1..])
  {
    if Listing(m, after) != [] {
      OnePage(m, after, plan[0]);
    }
  }

  // The two readers.

  function PublicationViews(moments: seq<State>, id: Uuid): seq<Numbering> {
    seq(|moments|, i requires 0 <= i < |moments| => PublicationNumbering(moments[i], id))
  }

  function ReleaseViews(moments: seq<State>, id: Uuid): seq<Numbering> {
    seq(|moments|, i requires 0 <= i < |moments| => ReleaseNumbering(moments[i], id))
  }

  ghost predicate MomentsOf(s: State, moments: seq<State>) {
    forall i :: 0 <= i < |moments| ==> Later(s, moments[i])
  }

  /** Paging through a committed publication, while anything else happens between the pages,
      returns every node exactly once, node k being the one numbered k. */
  lemma PublicationPaging(s: State, id: Uuid, moments: seq<State>, plan: seq<Request>)
    requires PublicationNodeConstraints(s) && PublicationComplete(s, id) && MomentsOf(s, moments)
    requires |moments| == |plan| && |plan| >= s.publications[id].nodeCount
    requires forall i :: 0 <= i < |plan| ==> plan[i].limit > 0 && plan[i].keep > 0
    ensures
      var read := Follow(PublicationViews(moments, id), -1, plan);
      && |read| == s.publications[id].nodeCount
      && (forall n :: n in read <==> n in PublicationNodesOf(s, id))
      && (forall k :: 0 <= k < |read| ==>
            read[k] in s.publicationNodes && s.publicationNodes[read[k]].ordinal == k)
  {
    ViewsAgree(s, id, moments);
    PublicationIsGapFree(s, id);
    var m, views, count := PublicationNumbering(s, id), PublicationViews(moments, id), s.publications[id].nodeCount;
    PagingReadsAll(m, views, count, plan);
    NumberingIsRead(s, id, m, Follow(views, -1, plan), count);
  }

  lemma PublicationIsGapFree(s: State, id: Uuid)
    requires PublicationNodeConstraints(s) && PublicationComplete(s, id)
    ensures
      var m := PublicationNumbering(s, id);
      && Injective(m) && m.Keys == PublicationNodesOf(s, id)
      && s.publications[id].nodeCount >= 0 && Image(m.Keys, m) == Below(s.publications[id].nodeCount)
      && (forall n :: n in m ==> n in s.publicationNodes && s.publicationNodes[n].ordinal == m[n])
  {
    NumberingHasNoGap(s, id);
    assert PublicationNumbering(s, id).Keys == PublicationNodesOf(s, id);
  }

  /** The numbering read by pages is that of the tables. */
  lemma NumberingIsRead(s: State, id: Uuid, m: Numbering, read: seq<Uuid>, count: nat)
    requires m == PublicationNumbering(s, id) && m.Keys == PublicationNodesOf(s, id)
    requires |read| == count && forall n :: n in read <==> n in m
    requires forall k :: 0 <= k < |read| ==> read[k] in m && m[read[k]] == k
    ensures forall n :: n in read <==> n in PublicationNodesOf(s, id)
    ensures forall k :: 0 <= k < |read| ==> read[k] in s.publicationNodes && s.publicationNodes[read[k]].ordinal == k
  {
  }

  /** Enough pages of an unchanging, gap-free numbering read node k at place k. */
  lemma PagingReadsAll(m: Numbering, views: seq<Numbering>, count: nat, plan: seq<Request>)
    requires Injective(m) && Image(m.Keys, m) == Below(count)
    requires |views| == |plan| >= count && forall i :: 0 <= i < |views| ==> views[i] == m
    requires forall i :: 0 <= i < |plan| ==> plan[i].limit > 0 && plan[i].keep > 0
    ensures
      var read := Follow(views, -1, plan);
      && |read| == count
      && (forall n :: n in read <==> n in m)
      && (forall k :: 0 <= k < |read| ==> read[k] in m && m[read[k]] == k)
  {
    FullListing(m, count);
    PagesConcatenate(m, views, -1, plan);
  }

  /** Every moment shows the same nodes with the same ordinals. */
  lemma ViewsAgree(s: State, id: Uuid, moments: seq<State>)
    requires SealedPublication(s, id) && MomentsOf(s, moments)
    ensures forall i :: 0 <= i < |moments| ==> PublicationViews(moments, id)[i] == PublicationNumbering(s, id)
  {
    forall i | 0 <= i < |moments| ensures PublicationViews(moments, id)[i] == PublicationNumbering(s, id) {
      NodesFrozen(s, moments[i], id);
    }
  }

  lemma NumberingHasNoGap(s: State, id: Uuid)
    requires PublicationNodeConstraints(s) && PublicationComplete(s, id)
    ensures Injective(PublicationNumbering(s, id))
    ensures Image(PublicationNodesOf(s, id), PublicationNumbering(s, id))
         == Below(s.publications[id].nodeCount)
  {
    OrdinalsHaveNoGap(s, id);
  }

  lemma FullListing(m: Numbering, count: nat)
    requires Injective(m) && Image(m.Keys, m) == Below(count)
    ensures
      var all := Listing(m, -1);
      && |all| == count
      && (forall n :: n in all <==> n in m)
      && (forall k :: 0 <= k < |all| ==> all[k] in m && m[all[k]] == k)
  {
    GapFreeListing(m, -1, count);
    ListingIsComplete(m, -1);
    forall n | n in m ensures n in Beyond(m, -1) {
      assert m[n] in Image(m.Keys, m);
    }
  }

  /** Without gaps the listing is indexed by ordinal. */
  lemma {:induction false} GapFreeListing(m: Numbering, after: int, count: nat)
    requires Injective(m) && Image(m.Keys, m) == Below(count)
    requires -1 <= after < count
    ensures |Listing(m, after)| == count - 1 - after
    ensures forall k :: 0 <= k < |Listing(m, after)| ==>
              Listing(m, after)[k] in m && m[Listing(m, after)[k]] == after + 1 + k
    decreases count - after
  {
    var all := Listing(m, after);
    if after == count - 1 {
      forall n | n in m ensures n !in Beyond(m, after) {
        assert m[n] in Image(m.Keys, m);
      }
      assert Beyond(m, after) == {};
    } else {
      assert after + 1 in Image(m.Keys, m);
      var n :| n in m && m[n] == after + 1;
      assert n in Beyond(m, after);
      assert IsNext(m, after, all[0]);
      assert m[all[0]] == after + 1;
      GapFreeListing(m, after + 1, count);
      assert all == [all[0]] + Listing(m, after + 1);
    }
  }

  /** A parent is listed before its children. */
  lemma ParentsComeFirst(s: State, id: Uuid, read: seq<Uuid>, k: nat)
    requires PublicationNodeConstraints(s) && PublicationComplete(s, id)
    requires forall n :: n in read <==> n in PublicationNodesOf(s, id)
    requires forall i :: 0 <= i < |read| ==>
               read[i] in s.publicationNodes && s.publicationNodes[read[i]].ordinal == i
    requires k < |read| && s.publicationNodes[read[k]].parentId.Some?
    ensures exists i :: 0 <= i < k && read[i] == s.publicationNodes[read[k]].parentId.value
  {
    var parent := s.publicationNodes[read[k]].parentId.value;
    assert read[k] in PublicationNodesOf(s, id);
    assert parent in PublicationNodesOf(s, id);
    var i :| 0 <= i < |read| && read[i] == parent;
  }

  /** The service hands out a next cursor exactly when nodes remain. */
  lemma PublicationCursorEndsExactly(s: State, id: Uuid, last: int)
    requires PublicationNodeConstraints(s) && PublicationComplete(s, id)
    requires 0 <= last < s.publications[id].nodeCount
    ensures last + 1 < s.publications[id].nodeCount
            <==> Listing(PublicationNumbering(s, id), last) != []
  {
    NumberingHasNoGap(s, id);
    assert PublicationNumbering(s, id).Keys == PublicationNodesOf(s, id);
    GapFreeListing(PublicationNumbering(s, id), last, s.publications[id].nodeCount);
  }

  lemma ReleaseNodesFrozen(a: State, b: State, id: Uuid)
    requires Later(a, b) && SealedRelease(a, id)
    ensures ReleaseNumbering(b, id) == ReleaseNumbering(a, id)
  {
  }

  /** The same for a sealed release, whose ordinals are only known to be distinct: every node
      beyond the starting cursor is returned exactly once, in order. */
  lemma ReleasePaging(s: State, id: Uuid, moments: seq<State>, after: int, plan: seq<Request>)
    requires ReleaseNodeConstraints(s) && SealedRelease(s, id) && MomentsOf(s, moments)
    requires |moments| == |plan| && |plan| > |Listing(ReleaseNumbering(s, id), after)|
    requires forall i :: 0 <= i < |plan| ==> plan[i].limit > 0 && plan[i].keep > 0
    ensures
      var m := ReleaseNumbering(s, id);
      var read := Follow(ReleaseViews(moments, id), after, plan);
      && (forall n :: n in read <==> n in m && m[n] > after)
      && (forall i, j :: 0 <= i < j < |read| ==> m[read[i]] < m[read[j]])
  {
    var m := ReleaseNumbering(s, id);
    var views := ReleaseViews(moments, id);
    forall i | 0 <= i < |moments| ensures views[i] == m {
      ReleaseNodesFrozen(s, moments[i], id);
    }
    ListingIsComplete(m, after);
    PagesConcatenate(m, views, after, plan);
  }

  /** The release reader asks for one row more: that row arrives exactly when the page is not the
      last one, and it is the row the next page starts with. */
  lemma ExtraRowMeansMore(m: Numbering, after: int, limit: nat)
    requires limit > 0
    ensures |Page(m, after, limit + 1)| == limit + 1 <==> |Listing(m, after)| > limit
    ensures |Listing(m, after)| > limit ==>
              var shown := Page(m, after, limit);
              && shown[limit - 1] in m
              && Page(m, after, limit + 1)[..limit] == shown
              && Listing(m, m[shown[limit - 1]]) != []
              && Listing(m, m[shown[limit - 1]])[0] == Page(m, after, limit + 1)[limit]
  {
    if |Listing(m, after)| > limit {
      ListingResumes(m, after, limit);
    }
  }

  // The release service ignores the extra row: it hands out a next cursor while the last ordinal kept
  // is below node_count - 1, although release ordinals are only known to be distinct.

  predicate AtEnd(m: Numbering, count: int, n: Uuid) {
    n in m && m[n] >= count - 1
  }

  ghost predicate OneAtEnd(m: Numbering, count: int) {
    exists n :: AtEnd(m, count, n) && forall x :: AtEnd(m, count, x) ==> x == n
  }

  ghost predicate CursorIsExact(m: Numbering, count: int) {
    forall n :: n in m ==> (m[n] < count - 1 <==> Listing(m, m[n]) != [])
  }

  lemma MoreRemain(m: Numbering, after: int)
    ensures Listing(m, after) != [] <==> exists x :: x in Beyond(m, after)
  {
  }

  lemma {:induction false} LastExists(m: Numbering, some: set<Uuid>)
    requires some <= m.Keys && some != {}
    ensures exists n :: n in some && forall x :: x in some ==> m[x] <= m[n]
  {
    var n :| n in some;
    if some - {n} == {} {
      assert some == {n};
    } else {
      LastExists(m, some - {n});
      var k :| k in some - {n} && forall x :: x in some - {n} ==> m[x] <= m[k];
      var last := if m[n] <= m[k] then k else n;
      assert last in some && forall x :: x in some ==> m[x] <= m[last];
    }
  }

  ghost predicate IsLast(m: Numbering, last: Uuid) {
    last in m && forall x :: x in m ==> m[x] <= m[last]
  }

  /** Nodes remain after every node but the last. */
  lemma OnlyLastHasNone(m: Numbering, last: Uuid, n: Uuid)
    requires Injective(m) && IsLast(m, last) && n in m
    ensures Listing(m, m[n]) == [] <==> n == last
  {
    MoreRemain(m, m[n]);
    if n == last {
      assert forall x :: x in m ==> m[x] <= m[n];
    } else {
      assert last in Beyond(m, m[n]);
    }
  }

  lemma LastIsAtEnd(m: Numbering, count: int, last: Uuid)
    requires IsLast(m, last)
    ensures OneAtEnd(m, count) <==> forall n :: n in m ==> (AtEnd(m, count, n) <==> n == last)
  {
    if n :| AtEnd(m, count, n) && forall x :: AtEnd(m, count, x) ==> x == n {
      assert AtEnd(m, count, last);
    }
    if forall n :: n in m ==> (AtEnd(m, count, n) <==> n == last) {
      assert AtEnd(m, count, last);
    }
  }

  /** The service's cursor ends exactly with the nodes if and only if one node, and only one, is
      numbered node_count - 1 or more. Gaps below do no harm. */
  lemma ReleaseCursorIsExact(m: Numbering, count: int)
    requires Injective(m) && m != map[]
    ensures CursorIsExact(m, count) <==> OneAtEnd(m, count)
  {
    LastExists(m, m.Keys);
    var last :| last in m.Keys && forall x :: x in m.Keys ==> m[x] <= m[last];
    assert IsLast(m, last);
    LastIsAtEnd(m, count, last);
    forall n | n in m ensures Listing(m, m[n]) == [] <==> n == last {
      OnlyLastHasNone(m, last, n);
    }
  }

  /** What a client reads that follows the service's cursor until there is none. */
  ghost function Served(m: Numbering, count: int, after: int, plan: seq<Request>): seq<Uuid>
    decreases |plan|
  {
    if plan == [] then []
    else
      var kept := Kept(Page(m, after, plan[0].limit), plan[0]);
      if kept == [] || kept[|kept| - 1] !in m then []
      else if m[kept[|kept| - 1]] < count - 1 then kept + Served(m, count, m[kept[|kept| - 1]], plan[1..])
      else kept
  }

  ghost predicate Positive(plan: seq<Request>) {
    forall i :: 0 <= i < |plan| ==> plan[i].limit > 0 && plan[i].keep > 0
  }

  ghost predicate AtMostOneAtEnd(m: Numbering, count: int, after: int) {
    forall a, b :: a in Beyond(m, after) && b in Beyond(m, after) && AtEnd(m, count, a) && AtEnd(m, count, b) ==> a == b
  }

  lemma StopsAtTheEnd(m: Numbering, count: int, after: int, n: Uuid)
    requires n in Beyond(m, after) && AtEnd(m, count, n) && AtMostOneAtEnd(m, count, after)
    ensures Listing(m, m[n]) == []
  {
    if x :| x in Beyond(m, m[n]) {
      assert x in Beyond(m, after) && AtEnd(m, count, x);
    }
  }

  /** One page of the service, when there is something to read. */
  lemma ServedUnfolds(m: Numbering, count: int, after: int, plan: seq<Request>)
    requires plan != [] && plan[0].limit > 0 && plan[0].keep > 0 && Listing(m, after) != []
    ensures
      var kept := Kept(Page(m, after, plan[0].limit), plan[0]);
      && 0 < |kept| && kept[|kept| - 1] in m
      && Served(m, count, after, plan)
         == if m[kept[|kept| - 1]] < count - 1 then kept + Served(m, count, m[kept[|kept| - 1]], plan[1..]) else kept
  {
    OnePage(m, after, plan[0]);
  }

  lemma {:induction false} ServedIsListing(m: Numbering, count: int, after: int, plan: seq<Request>)
    requires Injective(m) && AtMostOneAtEnd(m, count, after) && Positive(plan) && |plan| >= |Listing(m, after)|
    ensures Served(m, count, after, plan) == Listing(m, after)
    decreases |plan|
  {
    var all := Listing(m, after);
    if all != [] {
      OnePage(m, after, plan[0]);
      ServedUnfolds(m, count, after, plan);
      var kept := Kept(Page(m, after, plan[0].limit), plan[0]);
      var last := kept[|kept| - 1];
      Glue(all, kept, all[|kept|..]);
      LastIsListed(m, after, all, last, |kept| - 1);
      if m[last] < count - 1 {
        ServedIsListing(m, count, m[last], plan[1..]);
      } else {
        StopsAtTheEnd(m, count, after, last);
      }
    }
  }

  lemma LastIsListed(m: Numbering, after: int, all: seq<Uuid>, last: Uuid, i: nat)
    requires Injective(m) && all == Listing(m, after) && i < |all| && all[i] == last
    ensures last in Beyond(m, after) && Beyond(m, m[last]) <= Beyond(m, after)
  {
    ListingIsComplete(m, after);
    assert last in all;
  }

  function Singly(n: nat): (r: seq<Request>)
    ensures |r| == n && forall i :: 0 <= i < n ==> r[i] == Request(1, 1)
  {
    seq(n, i => Request(1, 1))
  }

  /** Read one by one, the first node at the end is the last one read. */
  lemma {:induction false} StopsAfterFirst(m: Numbering, count: int, after: int, plan: seq<Request>, i: nat)
    requires forall j :: 0 <= j < |plan| ==> plan[j] == Request(1, 1)
    requires i + 1 < |Served(m, count, after, plan)|
    ensures !AtEnd(m, count, Served(m, count, after, plan)[i])
    decreases |plan|
  {
    var kept := Kept(Page(m, after, 1), plan[0]);
    assert |kept| == 1;
    if i > 0 {
      StopsAfterFirst(m, count, m[kept[0]], plan[1..], i - 1);
    }
  }

  ghost predicate ServesAll(m: Numbering, count: int, after: int) {
    forall plan :: Positive(plan) && |plan| >= |Listing(m, after)| ==>
      Served(m, count, after, plan) == Listing(m, after)
  }

  /** Whatever the page sizes, the service serves every remaining node if and only if no two of them
      are numbered node_count - 1 or more. */
  lemma ServiceIsCompleteExactlyWhen(m: Numbering, count: int, after: int)
    requires Injective(m)
    ensures ServesAll(m, count, after) <==> AtMostOneAtEnd(m, count, after)
  {
    if AtMostOneAtEnd(m, count, after) {
      forall plan | Positive(plan) && |plan| >= |Listing(m, after)|
        ensures Served(m, count, after, plan) == Listing(m, after)
      {
        ServedIsListing(m, count, after, plan);
      }
    }
    if ServesAll(m, count, after) {
      assert Positive(Singly(|Listing(m, after)|));
      forall a, b | a in Beyond(m, after) && b in Beyond(m, after) && AtEnd(m, count, a) && AtEnd(m, count, b)
        ensures a == b
      {
        ServedOneByOne(m, count, after, a, b);
      }
    }
  }

  lemma Position(m: Numbering, after: int, n: Uuid) returns (i: nat)
    requires Injective(m) && n in Beyond(m, after)
    ensures i < |Listing(m, after)| && Listing(m, after)[i] == n
  {
    ListingIsComplete(m, after);
    i :| 0 <= i < |Listing(m, after)| && Listing(m, after)[i] == n;
  }

  lemma ServedOneByOne(m: Numbering, count: int, after: int, a: Uuid, b: Uuid)
    requires Injective(m) && a in Beyond(m, after) && b in Beyond(m, after)
    requires AtEnd(m, count, a) && AtEnd(m, count, b)
    requires Served(m, count, after, Singly(|Listing(m, after)|)) == Listing(m, after)
    ensures a == b
  {
    var plan := Singly(|Listing(m, after)|);
    var i := Position(m, after, a);
    var j := Position(m, after, b);
    if i < j {
      StopsAfterFirst(m, count, after, plan, i);
    } else if j < i {
      StopsAfterFirst(m, count, after, plan, j);
    }
  }

  const HARMFUL: Numbering := map["a" := 0, "b" := 3, "c" := 4]
  const HARMLESS: Numbering := map["a" := 0, "b" := 2]

  lemma HarmfulIsInjective()
    ensures Injective(HARMFUL) && "b" in HARMFUL && HARMFUL["b"] == 3 && "c" in HARMFUL && HARMFUL["c"] == 4
  {
  }

  /** Ordinals 0, 3, 4 with a node count of 3: reading one by one, the last node is never served. */
  lemma HarmfulGap()
    ensures Injective(HARMFUL) && !ServesAll(HARMFUL, 3, -1)
  {
    HarmfulIsInjective();
    TwoAtEnd(HARMFUL, 3, "b", "c");
  }

  /** Two nodes numbered at or beyond the end: the service misses one. */
  lemma TwoAtEnd(m: Numbering, count: int, a: Uuid, b: Uuid)
    requires Injective(m) && a in m && b in m && a != b
    requires m[a] >= count - 1 && m[b] >= count - 1 && m[a] > -1 && m[b] > -1
    ensures !ServesAll(m, count, -1)
  {
    ServiceIsCompleteExactlyWhen(m, count, -1);
    assert a in Beyond(m, -1) && b in Beyond(m, -1) && AtEnd(m, count, a) && AtEnd(m, count, b);
  }

  // The harmful numbering in the tables.

  function GappyRelease(closed: bool): Release {
    Release(1, [], "refs", "digest", 3, 1, "q", closed, map[])
  }

  function GappyNodes(): map<Uuid, ReleaseNode> {
    map["a" := ReleaseNode("r", None, 0, "section", 1, map[]), "b" := ReleaseNode("r", None, 3, "section", 2, map[]),
        "c" := ReleaseNode("r", None, 4, "section", 3, map[])]
  }

  function Gappy(closed: bool, nodes: map<Uuid, ReleaseNode>): State {
    EMPTY.(releases := map["r" := GappyRelease(closed)], releaseNodes := nodes)
  }

  lemma GappyConstraints(closed: bool, nodes: map<Uuid, ReleaseNode>)
    requires nodes == map[] || nodes == GappyNodes()
    ensures Constraints(Gappy(closed, nodes))
  {
  }

  lemma GappyHeader()
    ensures GuardAllows(EMPTY, InsertRelease("r", GappyRelease(false)))
    ensures Effect(EMPTY, InsertRelease("r", GappyRelease(false))) == Gappy(false, map[])
  {
    assert EMPTY.releases["r" := GappyRelease(false)] == map["r" := GappyRelease(false)];
  }

  lemma GappyRows()
    ensures GuardAllows(Gappy(false, map[]), InsertReleaseNodes(GappyNodes()))
    ensures Effect(Gappy(false, map[]), InsertReleaseNodes(GappyNodes())) == Gappy(false, GappyNodes())
  {
    assert map[] + GappyNodes() == GappyNodes();
    forall n | n in GappyNodes() ensures GappyNodes()[n].releaseId == "r" {
    }
  }

  lemma GappySeal()
    ensures GuardAllows(Gappy(false, GappyNodes()), UpdateRelease("r", GappyRelease(true)))
    ensures Effect(Gappy(false, GappyNodes()), UpdateRelease("r", GappyRelease(true))) == Gappy(true, GappyNodes())
  {
    assert Gappy(false, GappyNodes()).releases["r" := GappyRelease(true)] == map["r" := GappyRelease(true)];
  }

  lemma GappyNumbering()
    ensures ReleaseNumbering(Gappy(true, GappyNodes()), "r") == HARMFUL
  {
    var m := ReleaseNumbering(Gappy(true, GappyNodes()), "r");
    assert m.Keys == {"a", "b", "c"} == HARMFUL.Keys;
    assert m["a"] == 0 && m["b"] == 3 && m["c"] == 4;
  }

  /** What header, nodes and seal, accepted one after the other, leave: a sealed release of three nodes whose last node the service
      never serves one by one. */
  lemma GappyReleaseIsCutShort()
    ensures
      var s := Steps(EMPTY, [InsertRelease("r", GappyRelease(false)), InsertReleaseNodes(GappyNodes()),
                             UpdateRelease("r", GappyRelease(true))]);
      && s == Gappy(true, GappyNodes()) && SealedRelease(s, "r")
      && !ServesAll(ReleaseNumbering(s, "r"), s.releases["r"].nodeCount, -1)
  {
    GappyRuns();
    GappyNumbering();
    HarmfulGap();
  }

  lemma OneStep(s: State, op: Op, t: State)
    requires GuardAllows(s, op) && Effect(s, op) == t && Constraints(t)
    ensures Step(s, op) == t
  {
  }

  lemma ThreeSteps(s: State, a: Op, b: Op, c: Op)
    ensures Steps(s, [a, b, c]) == Step(Step(Step(s, a), b), c)
  {
    assert [a, b, c] == [a] + [b, c] && [b, c] == [b] + [c] && [c] == [c] + [];
    StepFirst(s, a, [b, c]);
    StepFirst(Step(s, a), b, [c]);
    StepFirst(Step(Step(s, a), b), c, []);
  }

  lemma StepFirst(s: State, op: Op, rest: seq<Op>)
    ensures Steps(s, [op] + rest) == Steps(Step(s, op), rest)
  {
    assert ([op] + rest)[1..] == rest;
  }

  lemma GappyRuns()
    ensures Steps(EMPTY, [InsertRelease("r", GappyRelease(false)), InsertReleaseNodes(GappyNodes()),
                          UpdateRelease("r", GappyRelease(true))]) == Gappy(true, GappyNodes())
  {
    var a, b, c := InsertRelease("r", GappyRelease(false)), InsertReleaseNodes(GappyNodes()),
                   UpdateRelease("r", GappyRelease(true));
    ThreeSteps(EMPTY, a, b, c);
    FirstGappyStep();
    SecondGappyStep();
    ThirdGappyStep();
  }

  lemma FirstGappyStep()
    ensures Step(EMPTY, InsertRelease("r", GappyRelease(false))) == Gappy(false, map[])
  {
    GappyHeader();
    GappyConstraints(false, map[]);
    OneStep(EMPTY, InsertRelease("r", GappyRelease(false)), Gappy(false, map[]));
  }

  lemma SecondGappyStep()
    ensures Step(Gappy(false, map[]), InsertReleaseNodes(GappyNodes())) == Gappy(false, GappyNodes())
  {
    GappyRows();
    GappyConstraints(false, GappyNodes());
    OneStep(Gappy(false, map[]), InsertReleaseNodes(GappyNodes()), Gappy(false, GappyNodes()));
  }

  lemma ThirdGappyStep()
    ensures Step(Gappy(false, GappyNodes()), UpdateRelease("r", GappyRelease(true))) == Gappy(true, GappyNodes())
  {
    GappySeal();
    GappyConstraints(true, GappyNodes());
    OneStep(Gappy(false, GappyNodes()), UpdateRelease("r", GappyRelease(true)), Gappy(true, GappyNodes()));
  }

  /** Ordinals 0 and 2 with a node count of 2 have a gap, and everything is served. */
  lemma HarmlessGap()
    ensures Injective(HARMLESS) && ServesAll(HARMLESS, 2, -1)
  {
    assert Injective(HARMLESS);
    ServiceIsCompleteExactlyWhen(HARMLESS, 2, -1);
  }
}
