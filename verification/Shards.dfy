/** Which collected tests a CI shard runs: every total-th file of the sorted file list. */
module Shards {
  import opened Sql

  datatype Item = Item(nodeId: string, noDb: bool)

  // Sorting strings.

  predicate Less(a: string, b: string) {
    if b == [] then false
    else if a == [] then true
    else if a[0] != b[0] then a[0] < b[0]
    else Less(a[1..], b[1..])
  }

  lemma {:induction false} LessIsTotal(a: string, b: string)
    ensures a == b || Less(a, b) || Less(b, a)
    ensures !(Less(a, b) && Less(b, a)) && !Less(a, a)
  {
    if a != [] && b != [] && a[0] == b[0] {
      LessIsTotal(a[1..], b[1..]);
      assert a == [a[0]] + a[1..] && b == [b[0]] + b[1..];
    }
    if a != [] {
      LessIsIrreflexive(a);
    }
  }

  lemma {:induction false} LessIsIrreflexive(a: string)
    ensures !Less(a, a)
  {
    if a != [] {
      LessIsIrreflexive(a[1..]);
    }
  }

  lemma {:induction false} LessIsTransitive(a: string, b: string, c: string)
    requires Less(a, b) && Less(b, c)
    ensures Less(a, c)
  {
    if a != [] && a[0] == b[0] == c[0] {
      LessIsTransitive(a[1..], b[1..], c[1..]);
    }
  }

  ghost predicate Sorted(files: seq<string>) {
    forall i, j :: 0 <= i < j < |files| ==> Less(files[i], files[j])
  }

  function Insert(f: string, files: seq<string>): (r: seq<string>)
    ensures forall x :: x in r <==> x == f || x in files
  {
    if files == [] then [f]
    else if f == files[0] then files
    else if Less(f, files[0]) then [f] + files
    else [files[0]] + Insert(f, files[1..])
  }

  lemma {:induction false} InsertSorts(f: string, files: seq<string>)
    requires Sorted(files)
    ensures Sorted(Insert(f, files))
  {
    if files != [] && f != files[0] {
      if Less(f, files[0]) {
        forall j | 0 < j < |files| ensures Less(f, files[j]) {
          LessIsTransitive(f, files[0], files[j]);
        }
      } else {
        LessIsTotal(f, files[0]);
        var rest := Insert(f, files[1..]);
        InsertSorts(f, files[1..]);
        forall j | 0 <= j < |rest| ensures Less(files[0], rest[j]) {
          assert rest[j] in rest;
          if rest[j] != f {
            var k :| 0 <= k < |files[1..]| && files[1..][k] == rest[j];
            assert files[k + 1] == rest[j];
          }
        }
      }
    }
  }

  /** The file part of a node id: everything before the first "::". */
  function FileOf(nodeId: string): string {
    if nodeId == [] then []
    else if |nodeId| >= 2 && nodeId[0] == ':' && nodeId[1] == ':' then []
    else [nodeId[0]] + FileOf(nodeId[1..])
  }

  /** No "::" begins at place k. */
  ghost predicate NoColonsAt(text: string, k: nat) {
    k + 2 <= |text| ==> text[k..k + 2] != "::"
  }

  lemma ColonsInFront(text: string)
    requires !NoColonsAt(text, 0)
    ensures text[0] == ':' && text[1] == ':'
  {
    assert text[0..2][0] == text[0] && text[0..2][1] == text[1];
  }

  lemma {:induction false} FileEndsAtTheColons(nodeId: string)
    ensures
      var n := |FileOf(nodeId)|;
      && n <= |nodeId| && FileOf(nodeId) == nodeId[..n]
      && (n == |nodeId| || !NoColonsAt(nodeId, n)) && forall k: nat :: k < n ==> NoColonsAt(nodeId, k)
  {
    if |nodeId| >= 2 && nodeId[0] == ':' && nodeId[1] == ':' {
      assert nodeId[0..2] == "::";
    } else if nodeId != [] {
      var rest := nodeId[1..];
      FileEndsAtTheColons(rest);
      assert FileOf(nodeId) == [nodeId[0]] + FileOf(rest);
      if !NoColonsAt(nodeId, 0) {
        ColonsInFront(nodeId);
      }
      forall k: nat | k < |rest| ensures NoColonsAt(nodeId, k + 1) <==> NoColonsAt(rest, k) {
        if k + 2 <= |rest| {
          assert nodeId[k + 1..k + 3] == rest[k..k + 2];
        }
      }
      forall k: nat | k < |FileOf(nodeId)| ensures NoColonsAt(nodeId, k) {
        if k > 0 {
          assert NoColonsAt(rest, k - 1);
        }
      }
    }
  }

  /** `sorted({file of item})` */
  function SortedFiles(items: seq<Item>): (r: seq<string>)
    ensures forall x :: x in r <==> exists i :: 0 <= i < |items| && FileOf(items[i].nodeId) == x
  {
    if items == [] then []
    else
      var rest := SortedFiles(items[1..]);
      var r := Insert(FileOf(items[0].nodeId), rest);
      assert forall x :: x in rest ==> exists i :: 0 <= i < |items| && FileOf(items[i].nodeId) == x by {
        forall x | x in rest ensures exists i :: 0 <= i < |items| && FileOf(items[i].nodeId) == x {
          var k :| 0 <= k < |items[1..]| && FileOf(items[1..][k].nodeId) == x;
          assert items[k + 1] == items[1..][k];
        }
      }
      assert forall i :: 0 < i < |items| ==> FileOf(items[i].nodeId) in rest by {
        forall i | 0 < i < |items| ensures FileOf(items[i].nodeId) in rest {
          assert items[1..][i - 1] == items[i];
        }
      }
      r
  }

  lemma {:induction false} FilesAreSorted(items: seq<Item>)
    ensures Sorted(SortedFiles(items))
  {
    if items != [] {
      FilesAreSorted(items[1..]);
      InsertSorts(FileOf(items[0].nodeId), SortedFiles(items[1..]));
    }
  }

  /** A sorted list is determined by its elements. */
  lemma {:induction false} SortedIsUnique(a: seq<string>, b: seq<string>)
    requires Sorted(a) && Sorted(b) && forall x :: x in a <==> x in b
    ensures a == b
  {
    assert b != [] ==> b[0] in b;
    if a != [] {
      assert a[0] in b;
      assert b != [] && b[0] in a;
      var i :| 0 <= i < |a| && a[i] == b[0];
      var j :| 0 <= j < |b| && b[j] == a[0];
      LessIsTotal(a[0], b[0]);
      assert a[0] == b[0];
      LessIsIrreflexive(a[0]);
      forall x ensures x in a[1..] <==> x in b[1..] {
        Tail(a, x);
        Tail(b, x);
      }
      SortedIsUnique(a[1..], b[1..]);
      assert a == [a[0]] + a[1..] && b == [b[0]] + b[1..];
    }
  }

  lemma Tail(a: seq<string>, x: string)
    requires Sorted(a) && a != []
    ensures x in a[1..] <==> x in a && x != a[0]
  {
    if x in a[1..] {
      var k :| 0 <= k < |a[1..]| && a[1..][k] == x;
      assert Less(a[0], a[k + 1]);
      LessIsIrreflexive(x);
    }
    if x in a && x != a[0] {
      var k :| 0 <= k < |a| && a[k] == x;
      assert a[1..][k - 1] == x;
    }
  }

  // Slices.

  /** `files[start::step]` */
  function Slice(files: seq<string>, start: nat, step: nat): seq<string>
    requires step > 0
    decreases |files| - start
  {
    if start >= |files| then [] else [files[start]] + Slice(files, start + step, step)
  }

  lemma OneMore(k: nat, step: nat)
    ensures (k + 1) * step == k * step + step
  {
  }

  lemma {:induction false} SliceHas(files: seq<string>, start: nat, step: nat, k: nat)
    requires step > 0 && start + k * step < |files|
    ensures files[start + k * step] in Slice(files, start, step)
    decreases k
  {
    if k > 0 {
      OneMore(k - 1, step);
      SliceHas(files, start + step, step, k - 1);
      assert start + step + (k - 1) * step == start + k * step;
    }
  }

  lemma {:induction false} SliceOnly(files: seq<string>, start: nat, step: nat, x: string) returns (k: nat)
    requires step > 0 && x in Slice(files, start, step)
    ensures start + k * step < |files| && files[start + k * step] == x
    decreases |files| - start
  {
    if files[start] == x {
      k := 0;
    } else {
      var j := SliceOnly(files, start + step, step, x);
      OneMore(j, step);
      k := j + 1;
    }
  }

  /** The file at position p belongs to shard p % total + 1 and to no other. */
  lemma SlicesPartition(files: seq<string>, total: nat, p: nat, index: nat)
    requires Sorted(files) && p < |files| && 1 <= index <= total
    ensures files[p] in Slice(files, index - 1, total) <==> index == p % total + 1
  {
    if index == p % total + 1 {
      OwnSlice(files, total, p);
    }
    if files[p] in Slice(files, index - 1, total) {
      NoOtherSlice(files, total, p, index - 1);
    }
  }

  lemma OwnSlice(files: seq<string>, total: nat, p: nat)
    requires total > 0 && p < |files|
    ensures files[p] in Slice(files, p % total, total)
  {
    QuotientAndRemainder(p, total);
    SliceHas(files, p % total, total, p / total);
  }

  lemma NoOtherSlice(files: seq<string>, total: nat, p: nat, start: nat)
    requires Sorted(files) && p < |files| && start < total && files[p] in Slice(files, start, total)
    ensures p % total == start
  {
    var k := SliceOnly(files, start, total, files[p]);
    OnePosition(files, p, start + k * total);
    Remainder(start, k, total);
  }

  lemma QuotientAndRemainder(p: nat, total: nat)
    requires total > 0
    ensures p / total >= 0 && p % total + (p / total) * total == p
  {
  }

  lemma OnePosition(files: seq<string>, p: nat, q: nat)
    requires Sorted(files) && p < |files| && q < |files| && files[p] == files[q]
    ensures p == q
  {
    LessIsIrreflexive(files[p]);
  }

  lemma {:induction false} AtLeastOnce(d: int, total: int)
    requires d >= 1 && total >= 1
    ensures d * total >= total
    decreases d
  {
    if d > 1 {
      AtLeastOnce(d - 1, total);
      assert d * total == (d - 1) * total + total;
    }
  }

  /** Quotient and remainder are unique. */
  lemma Remainder(r: nat, k: nat, total: nat)
    requires r < total
    ensures (r + k * total) % total == r
  {
    var x := r + k * total;
    var d := x / total - k;
    assert x == total * (x / total) + x % total;
    assert d * total == r - x % total;
    if d >= 1 {
      AtLeastOnce(d, total);
    } else if d <= -1 {
      AtLeastOnce(-d, total);
    }
  }

  // Selection.

  predicate Related(item: Item, selected: set<string>) {
    selected == {} || FileOf(item.nodeId) in selected || item.noDb
  }

  predicate Keeps(item: Item, selected: set<string>, allowed: Option<seq<string>>) {
    Related(item, selected) && (allowed.None? || FileOf(item.nodeId) in allowed.value)
  }

  function KeptAlone(item: Item, selected: set<string>, allowed: Option<seq<string>>): seq<Item> {
    if Keeps(item, selected, allowed) then [item] else []
  }

  function Kept(items: seq<Item>, selected: set<string>, allowed: Option<seq<string>>): seq<Item> {
    if items == [] then []
    else KeptAlone(items[0], selected, allowed) + Kept(items[1..], selected, allowed)
  }

  lemma {:induction false} KeptHolds(items: seq<Item>, selected: set<string>, allowed: Option<seq<string>>, x: Item)
    ensures x in Kept(items, selected, allowed) <==> x in items && Keeps(x, selected, allowed)
  {
    if items != [] {
      KeptHolds(items[1..], selected, allowed, x);
      assert items == [items[0]] + items[1..];
    }
  }

  datatype Shard = Shard(index: int, total: int)

  predicate ValidShard(s: Shard) {
    1 <= s.index <= s.total <= 8
  }

  function Allowed(items: seq<Item>, shard: Option<Shard>): Option<seq<string>>
    requires shard.Some? ==> ValidShard(shard.value)
  {
    if shard.None? then None
    else Some(Slice(SortedFiles(items), shard.value.index - 1, shard.value.total))
  }

  /** The first i items divided into kept and dropped. */
  ghost predicate Divided(keep: seq<Item>, drop: seq<Item>, items: seq<Item>, i: nat, selected: set<string>,
                          allowed: Option<seq<string>>)
    requires i <= |items|
  {
    && keep == Kept(items[..i], selected, allowed)
    && multiset(keep) + multiset(drop) == multiset(items[..i])
  }

  lemma DividedStep(keep: seq<Item>, drop: seq<Item>, items: seq<Item>, i: nat, selected: set<string>,
                    allowed: Option<seq<string>>)
    requires i < |items| && Divided(keep, drop, items, i, selected, allowed)
    ensures if Keeps(items[i], selected, allowed)
            then Divided(keep + [items[i]], drop, items, i + 1, selected, allowed)
            else Divided(keep, drop + [items[i]], items, i + 1, selected, allowed)
  {
    KeptGrows(items, i, selected, allowed);
    assert keep + [] == keep;
  }

  class Collection {
    var items: seq<Item>
    var dropped: seq<Item>

    constructor (items: seq<Item>)
      ensures this.items == items && dropped == []
    {
      this.items, dropped := items, [];
    }

    /** Overwrite the collected items with those this process runs; a bad shard is a usage error. */
    method ModifyItems(selected: set<string>, shard: Option<Shard>) returns (usageError: bool)
      modifies this
      ensures usageError <==> shard.Some? && !(1 <= shard.value.index <= shard.value.total <= 8)
      ensures usageError ==> items == old(items)
      ensures !usageError ==> items == Kept(old(items), selected, Allowed(old(items), shard))
      ensures !usageError ==> multiset(items) + multiset(dropped) == multiset(old(items))
    {
      if shard.Some? && !ValidShard(shard.value) {
        return true;
      }
      var allowed := Allowed(items, shard);
      var keep, drop, i := [], [], 0;
      while i < |items|
        invariant 0 <= i <= |items|
        invariant Divided(keep, drop, items, i, selected, allowed)
        invariant items == old(items)
      {
        DividedStep(keep, drop, items, i, selected, allowed);
        if Keeps(items[i], selected, allowed) {
          keep := keep + [items[i]];
        } else {
          drop := drop + [items[i]];
        }
        i := i + 1;
      }
      assert items[..i] == items;
      items, dropped := keep, drop;
      return false;
    }
  }

  /** A process keeps a collected test exactly when its file is selected, or all are, or it needs no
      database, and its file's place in the sorted list falls to the shard, if any. */
  lemma KeptExactlyWhen(items: seq<Item>, selected: set<string>, shard: Option<Shard>, x: Item)
    requires shard.Some? ==> ValidShard(shard.value)
    ensures x in Kept(items, selected, Allowed(items, shard)) <==>
              && x in items
              && (selected == {} || x.noDb || FileOf(x.nodeId) in selected)
              && (shard.Some? ==>
                    exists p: nat :: p < |SortedFiles(items)| && SortedFiles(items)[p] == FileOf(x.nodeId)
                                     && p % shard.value.total + 1 == shard.value.index)
  {
    KeptHolds(items, selected, Allowed(items, shard), x);
    if shard.Some? && x in items {
      FilesAreSorted(items);
      var i :| 0 <= i < |items| && items[i] == x;
      assert FileOf(items[i].nodeId) in SortedFiles(items);
      forall p: nat | p < |SortedFiles(items)| && SortedFiles(items)[p] == FileOf(x.nodeId)
        ensures FileOf(x.nodeId) in Allowed(items, shard).value <==> p % shard.value.total + 1 == shard.value.index
      {
        SlicesPartition(SortedFiles(items), shard.value.total, p, shard.value.index);
      }
    }
  }

  /** The places of the kept items. */
  function Places(items: seq<Item>, selected: set<string>, allowed: Option<seq<string>>, from: nat): seq<nat>
    requires from <= |items|
    decreases |items| - from
  {
    if from == |items| then []
    else (if Keeps(items[from], selected, allowed) then [from] else []) + Places(items, selected, allowed, from + 1)
  }

  /** What is kept stays in the order of the collection. */
  lemma {:induction false} KeptInOrder(items: seq<Item>, selected: set<string>, allowed: Option<seq<string>>, from: nat)
    requires from <= |items|
    ensures
      var kept, places := Kept(items[from..], selected, allowed), Places(items, selected, allowed, from);
      && |kept| == |places|
      && (forall i :: 0 <= i < |kept| ==> from <= places[i] < |items| && kept[i] == items[places[i]])
      && (forall i, j :: 0 <= i < j < |kept| ==> places[i] < places[j])
    decreases |items| - from
  {
    if from < |items| {
      KeptInOrder(items, selected, allowed, from + 1);
      assert items[from..][1..] == items[from + 1..];
    }
  }

  lemma KeptGrows(items: seq<Item>, i: nat, selected: set<string>, allowed: Option<seq<string>>)
    requires i < |items|
    ensures items[..i + 1] == items[..i] + [items[i]]
    ensures Kept(items[..i + 1], selected, allowed)
         == Kept(items[..i], selected, allowed)
            + KeptAlone(items[i], selected, allowed)
  {
    assert items[..i + 1] == items[..i] + [items[i]];
    KeptAppend(items[..i], items[i], selected, allowed);
  }

  lemma {:induction false} KeptAppend(items: seq<Item>, x: Item, selected: set<string>, allowed: Option<seq<string>>)
    ensures Kept(items + [x], selected, allowed)
         == Kept(items, selected, allowed) + KeptAlone(x, selected, allowed)
  {
    var all := items + [x];
    if items == [] {
      assert all == [x] && all[1..] == [];
    } else {
      var head, tail := KeptAlone(items[0], selected, allowed), Kept(items[1..], selected, allowed);
      assert all[0] == items[0] && all[1..] == items[1..] + [x];
      KeptAppend(items[1..], x, selected, allowed);
      assert head + (tail + KeptAlone(x, selected, allowed)) == (head + tail) + KeptAlone(x, selected, allowed);
    }
  }

  /** Shards that collect the same tests, in whatever order, run each test exactly once: a test is
      kept by the shard its file's position names and by no other. */
  lemma EachTestHasOneShard(mine: seq<Item>, reference: seq<Item>, shard: Shard, item: Item, p: nat)
    requires ValidShard(shard) && item in mine
    requires forall x :: x in mine <==> x in reference
    requires p < |SortedFiles(reference)| && SortedFiles(reference)[p] == FileOf(item.nodeId)
    ensures item in Kept(mine, {}, Allowed(mine, Some(shard))) <==> shard.index == p % shard.total + 1
  {
    SameFiles(mine, reference);
    FilesAreSorted(reference);
    SlicesPartition(SortedFiles(reference), shard.total, p, shard.index);
    KeptHolds(mine, {}, Allowed(mine, Some(shard)), item);
  }

  lemma SameFiles(a: seq<Item>, b: seq<Item>)
    requires forall x :: x in a <==> x in b
    ensures SortedFiles(a) == SortedFiles(b)
  {
    FilesAreSorted(a);
    FilesAreSorted(b);
    forall x ensures x in SortedFiles(a) <==> x in SortedFiles(b) {
      if x in SortedFiles(a) {
        var i :| 0 <= i < |a| && FileOf(a[i].nodeId) == x;
        assert a[i] in b;
      }
      if x in SortedFiles(b) {
        var i :| 0 <= i < |b| && FileOf(b[i].nodeId) == x;
        assert b[i] in a;
      }
    }
    SortedIsUnique(SortedFiles(a), SortedFiles(b));
  }
}
