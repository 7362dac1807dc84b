/** What an accepted flush of one tenant can do: nothing to any other tenant. */
module FlushSafety {
  import opened Sql
  import opened TenantScope

  /** Is the row (t, id) among the written objects? */
  ghost predicate Touched<T(!new)>(batch: seq<Write<T>>, t: T, id: int) {
    exists i :: 0 <= i < |batch| && batch[i].table == t && batch[i].id == id
  }

  /** One object per row; new keys are new, other rows exist, and a known key is the row's key. */
  ghost predicate ValidBatch<T(!new)>(db: Db<T>, batch: seq<Write<T>>) {
    && (forall i, j | 0 <= i < |batch| && 0 <= j < |batch| ::
          batch[i].table == batch[j].table && batch[i].id == batch[j].id ==> i == j)
    && (forall i :: 0 <= i < |batch| ==>
          && (batch[i].change == New <==> batch[i].id !in db(batch[i].table))
          && ("id" in batch[i].row.cells ==> batch[i].row.cells["id"] == batch[i].id))
  }

  /** `post` is `pre` with the batch written. */
  ghost predicate Flushed<T(!new)>(pre: Db<T>, batch: seq<Write<T>>, post: Db<T>) {
    && (forall i :: 0 <= i < |batch| ==>
          if batch[i].change == Deleted then batch[i].id !in post(batch[i].table)
          else batch[i].id in post(batch[i].table)
               && post(batch[i].table)[batch[i].id] == batch[i].row)
    && (forall t, id :: !Touched(batch, t, id) ==>
          (id in pre(t) <==> id in post(t)) && (id in pre(t) ==> post(t)[id] == pre(t)[id]))
  }

  /** The owner column refers to the owner's key by itself, and the validator looks the value up. */
  ghost predicate Direct<T(!new)>(schema: Schema<T>, t: T, o: Owner<T>) {
    schema.checked(o.parent) && Fk(o.parent, [(o.column, "id")]) in schema.fks(t)
  }

  /** Column c of table q is one of q's owners, directly. */
  ghost predicate Shares<T(!new)>(schema: Schema<T>, q: T, c: Column, parent: T) {
    schema.filter(q).AllOf? && Owner(c, parent) in schema.filter(q).owners && Direct(schema, q, Owner(c, parent))
  }

  /** The owner column is part of a checked key into another table that has the same owner. */
  ghost predicate ThroughKey<T(!new)>(schema: Schema<T>, t: T, o: Owner<T>, fk: Fk<T>) {
    && fk in schema.fks(t) && fk.parent != t && schema.checked(fk.parent) && schema.scoped(fk.parent)
    && exists part :: part in fk.parts && part.0 == o.column && Shares(schema, fk.parent, part.1, o.parent)
  }

  /** NOT NULL columns are filled in. */
  ghost predicate NotNull<T(!new)>(schema: Schema<T>, batch: seq<Write<T>>) {
    forall i :: 0 <= i < |batch| && batch[i].change != Deleted ==>
                  schema.required(batch[i].table) <= batch[i].row.cells.Keys
  }

  /** Apart from the owner column, the key has no column that may be null. */
  ghost predicate NeverPartial<T(!new)>(schema: Schema<T>, t: T, o: Owner<T>, fk: Fk<T>) {
    forall part :: part in fk.parts ==> part.0 == o.column || part.0 in schema.required(t)
  }

  /** In every row that fills the owner column some key lets the validator see the owner. */
  ghost predicate Checked<T(!new)>(schema: Schema<T>, t: T, o: Owner<T>) {
    Direct(schema, t, o) || exists fk :: ThroughKey(schema, t, o, fk) && NeverPartial(schema, t, o, fk)
  }

  /** In this row such a key is filled in. A single-column key is, as soon as the column is. */
  ghost predicate Vouched<T(!new)>(schema: Schema<T>, w: Write<T>, o: Owner<T>) {
    Direct(schema, w.table, o) || exists fk :: ThroughKey(schema, w.table, o, fk) && Complete(fk, w.row)
  }

  lemma CheckedIsVouched<T(!new)>(schema: Schema<T>, batch: seq<Write<T>>, i: nat, o: Owner<T>)
    requires NotNull(schema, batch) && i < |batch| && batch[i].change != Deleted
    requires Checked(schema, batch[i].table, o) && o.column in batch[i].row.cells
    ensures Vouched(schema, batch[i], o)
  {
    if !Direct(schema, batch[i].table, o) {
      var fk :| ThroughKey(schema, batch[i].table, o, fk) && NeverPartial(schema, batch[i].table, o, fk);
      assert Complete(fk, batch[i].row);
    }
  }

  // What the closure needs: every owner seen.

  ghost predicate Backed<T(!new)>(schema: Schema<T>, t: T)
    requires WellFormed(schema)
    decreases schema.rank(t)
  {
    forall o :: o in Owners(schema.filter(t)) ==> Checked(schema, t, o) && Backed(schema, o.parent)
  }

  ghost predicate RowsVouched<T(!new)>(schema: Schema<T>, batch: seq<Write<T>>, t: T) {
    forall i, o | 0 <= i < |batch| && batch[i].table == t && batch[i].change != Deleted ::
      o in Owners(schema.filter(t)) && o.column in batch[i].row.cells ==> Vouched(schema, batch[i], o)
  }

  /** The same of the rows of one flush. */
  ghost predicate BackedIn<T(!new)>(schema: Schema<T>, batch: seq<Write<T>>, t: T)
    requires WellFormed(schema)
    decreases schema.rank(t)
  {
    RowsVouched(schema, batch, t) && forall o :: o in Owners(schema.filter(t)) ==> BackedIn(schema, batch, o.parent)
  }

  lemma {:induction false} BackedMeansBackedIn<T(!new)>(schema: Schema<T>, batch: seq<Write<T>>, t: T)
    requires WellFormed(schema) && Backed(schema, t) && NotNull(schema, batch)
    ensures BackedIn(schema, batch, t)
    decreases schema.rank(t)
  {
    forall i, o | 0 <= i < |batch| && batch[i].table == t && batch[i].change != Deleted
                  && o in Owners(schema.filter(t)) && o.column in batch[i].row.cells
      ensures Vouched(schema, batch[i], o)
    {
      CheckedIsVouched(schema, batch, i, o);
    }
    forall o | o in Owners(schema.filter(t)) ensures BackedIn(schema, batch, o.parent) {
      BackedMeansBackedIn(schema, batch, o.parent);
    }
  }

  // What the frame needs: one owner seen where all must agree, all of them where one suffices.

  ghost predicate Watched<T(!new)>(schema: Schema<T>, t: T) {
    match schema.filter(t)
    case ByTenant => true
    case AllOf(owners) => exists o :: o in owners && Checked(schema, t, o)
    case AnyOf(owners) => forall o :: o in owners ==> Checked(schema, t, o)
  }

  /** The table and all its ancestors are watched. */
  ghost predicate Safe<T(!new)>(schema: Schema<T>, t: T)
    requires WellFormed(schema)
    decreases schema.rank(t)
  {
    Watched(schema, t) && forall o :: o in Owners(schema.filter(t)) ==> Safe(schema, o.parent)
  }

  /** A row with an empty owner column is nobody's where all owners must agree. */
  ghost predicate RowWatched<T(!new)>(schema: Schema<T>, w: Write<T>) {
    match schema.filter(w.table)
    case ByTenant => true
    case AllOf(owners) => exists o :: o in owners && (o.column in w.row.cells ==> Vouched(schema, w, o))
    case AnyOf(owners) => forall o :: o in owners && o.column in w.row.cells ==> Vouched(schema, w, o)
  }

  ghost predicate RowsWatched<T(!new)>(schema: Schema<T>, batch: seq<Write<T>>, t: T) {
    forall i :: 0 <= i < |batch| && batch[i].table == t && batch[i].change != Deleted ==> RowWatched(schema, batch[i])
  }

  /** The same of the rows of one flush. */
  ghost predicate SafeIn<T(!new)>(schema: Schema<T>, batch: seq<Write<T>>, t: T)
    requires WellFormed(schema)
    decreases schema.rank(t)
  {
    RowsWatched(schema, batch, t) && forall o :: o in Owners(schema.filter(t)) ==> SafeIn(schema, batch, o.parent)
  }

  lemma WatchedRow<T(!new)>(schema: Schema<T>, batch: seq<Write<T>>, i: nat)
    requires NotNull(schema, batch) && i < |batch| && batch[i].change != Deleted && Watched(schema, batch[i].table)
    ensures RowWatched(schema, batch[i])
  {
    forall o | o in Owners(schema.filter(batch[i].table)) && Checked(schema, batch[i].table, o)
               && o.column in batch[i].row.cells
      ensures Vouched(schema, batch[i], o)
    {
      CheckedIsVouched(schema, batch, i, o);
    }
    if schema.filter(batch[i].table).AllOf? {
      var o :| o in schema.filter(batch[i].table).owners && Checked(schema, batch[i].table, o);
      assert o in Owners(schema.filter(batch[i].table));
    } else {
      forall o | o in Owners(schema.filter(batch[i].table)) ensures Checked(schema, batch[i].table, o) {
      }
    }
  }

  lemma {:induction false} SafeMeansSafeIn<T(!new)>(schema: Schema<T>, batch: seq<Write<T>>, t: T)
    requires WellFormed(schema) && Safe(schema, t) && NotNull(schema, batch)
    ensures SafeIn(schema, batch, t)
    decreases schema.rank(t)
  {
    forall i | 0 <= i < |batch| && batch[i].table == t && batch[i].change != Deleted
      ensures RowWatched(schema, batch[i])
    {
      WatchedRow(schema, batch, i);
    }
    forall o | o in Owners(schema.filter(t)) ensures SafeIn(schema, batch, o.parent) {
      SafeMeansSafeIn(schema, batch, o.parent);
    }
  }

  lemma {:induction false} BackedIsSafe<T(!new)>(schema: Schema<T>, t: T)
    requires WellFormed(schema) && schema.scoped(t) && Backed(schema, t)
    ensures Safe(schema, t)
    decreases schema.rank(t)
  {
    forall o | o in Owners(schema.filter(t)) ensures Safe(schema, o.parent) {
      BackedIsSafe(schema, o.parent);
    }
    if schema.filter(t).AllOf? {
      assert schema.filter(t).owners[0] in schema.filter(t).owners;
    }
  }

  ghost predicate Scenario<T(!new)>(schema: Schema<T>, pre: Db<T>, batch: seq<Write<T>>, post: Db<T>, tenant: int) {
    && WellFormed(schema) && OneOwner(schema, pre)
    && ValidBatch(pre, batch) && Flushed(pre, batch, post)
    && Acceptable(schema, pre, tenant, batch)
  }

  /** The value v names a row of `parent` that is new in the flush or already the tenant's. */
  ghost predicate Ours<T(!new)>(schema: Schema<T>, pre: Db<T>, batch: seq<Write<T>>, tenant: int, parent: T, v: int)
    requires WellFormed(schema)
  {
    || (exists j :: 0 <= j < |batch| && batch[j].table == parent && batch[j].id == v && batch[j].change == New)
    || InScope(schema, pre, tenant, None, parent, v)
  }

  /** What a filled key of a validated row refers to. */
  lemma KeyIsKnown<T(!new)>(schema: Schema<T>, pre: Db<T>, batch: seq<Write<T>>, tenant: int, i: nat,
                            fk: Fk<T>, part: (Column, Column))
    requires WellFormed(schema) && Acceptable(schema, pre, tenant, batch)
    requires i < |batch| && schema.scoped(batch[i].table) && fk in schema.fks(batch[i].table)
    requires schema.checked(fk.parent) && fk.parent != batch[i].table
    requires Complete(fk, batch[i].row) && part in fk.parts && part.0 in batch[i].row.cells
    ensures Pending(batch, fk.parent, part.1, batch[i].row.cells[part.0])
            || Known(schema, pre, tenant, Need(fk.parent, part.1, batch[i].row.cells[part.0]))
  {
    var v := batch[i].row.cells[part.0];
    if !Pending(batch, fk.parent, part.1, v) {
      assert Need(fk.parent, part.1, v) in Needs(schema, batch, batch[i]);
    }
  }

  lemma DirectOwnerIsOurs<T(!new)>(schema: Schema<T>, pre: Db<T>, batch: seq<Write<T>>, tenant: int, i: nat, o: Owner<T>)
    requires WellFormed(schema) && ValidBatch(pre, batch) && Acceptable(schema, pre, tenant, batch)
    requires i < |batch| && schema.scoped(batch[i].table) && Direct(schema, batch[i].table, o)
    requires o in Owners(schema.filter(batch[i].table)) && o.column in batch[i].row.cells
    ensures Ours(schema, pre, batch, tenant, o.parent, batch[i].row.cells[o.column])
  {
    var v := batch[i].row.cells[o.column];
    var fk, part := Fk(o.parent, [(o.column, "id")]), (o.column, "id");
    assert part in fk.parts && o.parent != batch[i].table;
    KeyIsKnown(schema, pre, batch, tenant, i, fk, part);
    if Pending(batch, o.parent, "id", v) {
      var j :| 0 <= j < |batch| && batch[j].change == New && batch[j].table == o.parent
               && "id" in batch[j].row.cells && batch[j].row.cells["id"] == v;
      assert batch[j].id == v;
    } else {
      var id :| InScope(schema, pre, tenant, None, o.parent, id)
                && Cell(id, pre(o.parent)[id], "id") == Some(v);
    }
  }

  lemma EveryOwner<T(!new)>(schema: Schema<T>, db: Db<T>, tenant: int, t: T, id: int, o: Owner<T>)
    requires WellFormed(schema) && schema.filter(t).AllOf? && o in schema.filter(t).owners
    requires InScope(schema, db, tenant, None, t, id)
    ensures o.column in db(t)[id].cells
    ensures InScope(schema, db, tenant, None, o.parent, db(t)[id].cells[o.column])
  {
  }

  lemma KeyOwnerIsOurs<T(!new)>(schema: Schema<T>, pre: Db<T>, batch: seq<Write<T>>, tenant: int, i: nat, o: Owner<T>,
                                fk: Fk<T>)
    requires WellFormed(schema) && ValidBatch(pre, batch) && Acceptable(schema, pre, tenant, batch)
    requires i < |batch| && schema.scoped(batch[i].table) && o.column in batch[i].row.cells
    requires ThroughKey(schema, batch[i].table, o, fk) && Complete(fk, batch[i].row)
    ensures Ours(schema, pre, batch, tenant, o.parent, batch[i].row.cells[o.column])
  {
    var v := batch[i].row.cells[o.column];
    var part :| part in fk.parts && part.0 == o.column && Shares(schema, fk.parent, part.1, o.parent);
    var shared := Owner(part.1, o.parent);
    assert shared in Owners(schema.filter(fk.parent)) && part.1 != "id";
    KeyIsKnown(schema, pre, batch, tenant, i, fk, part);
    if Pending(batch, fk.parent, part.1, v) {
      var j :| 0 <= j < |batch| && batch[j].change == New && batch[j].table == fk.parent
               && part.1 in batch[j].row.cells && batch[j].row.cells[part.1] == v;
      DirectOwnerIsOurs(schema, pre, batch, tenant, j, shared);
    } else {
      var id :| InScope(schema, pre, tenant, None, fk.parent, id)
                && Cell(id, pre(fk.parent)[id], part.1) == Some(v);
      EveryOwner(schema, pre, tenant, fk.parent, id, shared);
    }
  }

  /** An owner that a filled key vouches for is new in the same flush or already the tenant's. */
  lemma OwnerIsOurs<T(!new)>(schema: Schema<T>, pre: Db<T>, batch: seq<Write<T>>, tenant: int, i: nat, o: Owner<T>)
    requires WellFormed(schema) && ValidBatch(pre, batch) && Acceptable(schema, pre, tenant, batch)
    requires i < |batch| && schema.scoped(batch[i].table) && Vouched(schema, batch[i], o)
    requires o in Owners(schema.filter(batch[i].table)) && o.column in batch[i].row.cells
    ensures Ours(schema, pre, batch, tenant, o.parent, batch[i].row.cells[o.column])
  {
    if Direct(schema, batch[i].table, o) {
      DirectOwnerIsOurs(schema, pre, batch, tenant, i, o);
    } else {
      var fk :| ThroughKey(schema, batch[i].table, o, fk) && Complete(fk, batch[i].row);
      KeyOwnerIsOurs(schema, pre, batch, tenant, i, o, fk);
    }
  }

  // No intrusion.

  /** A parent that is new in this flush, or was the tenant's before it, is nobody else's after. */
  lemma {:induction false} ParentStaysOut<T(!new)>(schema: Schema<T>, pre: Db<T>, batch: seq<Write<T>>, post: Db<T>,
                                                   tenant: int, other: int, t: T, id: int)
    requires Scenario(schema, pre, batch, post, tenant) && other != tenant
    requires schema.scoped(t) && SafeIn(schema, batch, t)
    requires (exists j :: 0 <= j < |batch| && batch[j].table == t && batch[j].id == id)
             || InScope(schema, pre, tenant, None, t, id)
    ensures !InScope(schema, post, other, None, t, id)
    decreases schema.rank(t), 1
  {
    if Touched(batch, t, id) {
      var j :| 0 <= j < |batch| && batch[j].table == t && batch[j].id == id;
      WrittenStaysOut(schema, pre, batch, post, tenant, other, j);
    } else {
      UntouchedStaysOut(schema, pre, batch, post, tenant, other, t, id);
    }
  }

  lemma {:induction false} WrittenStaysOut<T(!new)>(schema: Schema<T>, pre: Db<T>, batch: seq<Write<T>>, post: Db<T>,
                                                    tenant: int, other: int, j: nat)
    requires Scenario(schema, pre, batch, post, tenant) && other != tenant && j < |batch|
    requires schema.scoped(batch[j].table) && SafeIn(schema, batch, batch[j].table)
    ensures !InScope(schema, post, other, None, batch[j].table, batch[j].id)
    decreases schema.rank(batch[j].table), 0
  {
    var w := batch[j];
    if InScope(schema, post, other, None, w.table, w.id) {
      assert post(w.table)[w.id] == w.row;
      if !schema.filter(w.table).ByTenant? {
        var o := SeenOwner(schema, post, other, w);
        OwnerIsOurs(schema, pre, batch, tenant, j, o);
        ParentStaysOut(schema, pre, batch, post, tenant, other, o.parent, w.row.cells[o.column]);
      }
    }
  }

  lemma {:induction false} UntouchedStaysOut<T(!new)>(schema: Schema<T>, pre: Db<T>, batch: seq<Write<T>>, post: Db<T>,
                                                      tenant: int, other: int, t: T, id: int)
    requires Scenario(schema, pre, batch, post, tenant) && other != tenant
    requires schema.scoped(t) && SafeIn(schema, batch, t) && !Touched(batch, t, id)
    requires InScope(schema, pre, tenant, None, t, id)
    ensures !InScope(schema, post, other, None, t, id)
    decreases schema.rank(t), 0
  {
    if InScope(schema, post, other, None, t, id) {
      var row := pre(t)[id];
      assert post(t)[id] == row;
      if !schema.filter(t).ByTenant? {
        var o := SomeOwner(schema, post, other, t, id);
        if schema.filter(t).AnyOf? {
          var p := SomeOwner(schema, pre, tenant, t, id);
          assert o == p;
        }
        ParentStaysOut(schema, pre, batch, post, tenant, other, o.parent, row.cells[o.column]);
      }
    }
  }

  /** An owner through which a row lies in a tenant's scope. */
  lemma SomeOwner<T(!new)>(schema: Schema<T>, db: Db<T>, tenant: int, t: T, id: int) returns (o: Owner<T>)
    requires WellFormed(schema) && schema.scoped(t) && !schema.filter(t).ByTenant?
    requires InScope(schema, db, tenant, None, t, id)
    ensures o in Owners(schema.filter(t)) && o.column in db(t)[id].cells
    ensures InScope(schema, db, tenant, None, o.parent, db(t)[id].cells[o.column])
  {
    if schema.filter(t).AllOf? {
      o := schema.filter(t).owners[0];
    } else {
      o :| o in schema.filter(t).owners && o.column in db(t)[id].cells
           && InScope(schema, db, tenant, None, o.parent, db(t)[id].cells[o.column]);
    }
  }

  /** The same, through an owner that the validator has seen in the row. */
  lemma SeenOwner<T(!new)>(schema: Schema<T>, db: Db<T>, tenant: int, w: Write<T>) returns (o: Owner<T>)
    requires WellFormed(schema) && schema.scoped(w.table) && !schema.filter(w.table).ByTenant? && RowWatched(schema, w)
    requires InScope(schema, db, tenant, None, w.table, w.id) && db(w.table)[w.id] == w.row
    ensures o in Owners(schema.filter(w.table)) && o.column in w.row.cells && Vouched(schema, w, o)
    ensures InScope(schema, db, tenant, None, o.parent, w.row.cells[o.column])
  {
    if schema.filter(w.table).AllOf? {
      o :| o in schema.filter(w.table).owners && (o.column in w.row.cells ==> Vouched(schema, w, o));
      EveryOwner(schema, db, tenant, w.table, w.id, o);
    } else {
      o := SomeOwner(schema, db, tenant, w.table, w.id);
    }
  }

  // Frame.

  /** What another tenant had before the flush was not written by it. */
  lemma OthersAreUntouched<T(!new)>(schema: Schema<T>, pre: Db<T>, batch: seq<Write<T>>, post: Db<T>,
                                    tenant: int, other: int, t: T, id: int)
    requires Scenario(schema, pre, batch, post, tenant) && other != tenant && schema.scoped(t)
    requires InScope(schema, pre, other, None, t, id)
    ensures !Touched(batch, t, id)
  {
    if Touched(batch, t, id) {
      var i :| 0 <= i < |batch| && batch[i].table == t && batch[i].id == id;
      assert batch[i].change != New;
      ScopesAreDisjoint(schema, pre, tenant, other, t, id);
    }
  }

  lemma {:induction false} OthersKeepTheirs<T(!new)>(schema: Schema<T>, pre: Db<T>, batch: seq<Write<T>>, post: Db<T>,
                                                     tenant: int, other: int, t: T, id: int)
    requires Scenario(schema, pre, batch, post, tenant) && other != tenant && schema.scoped(t)
    requires InScope(schema, pre, other, None, t, id)
    ensures InScope(schema, post, other, None, t, id) && post(t)[id] == pre(t)[id]
    decreases schema.rank(t)
  {
    OthersAreUntouched(schema, pre, batch, post, tenant, other, t, id);
    var row := pre(t)[id];
    match schema.filter(t)
    case ByTenant =>
    case AllOf(owners) =>
      forall o | o in owners ensures InScope(schema, post, other, None, o.parent, row.cells[o.column]) {
        OthersKeepTheirs(schema, pre, batch, post, tenant, other, o.parent, row.cells[o.column]);
      }
    case AnyOf(owners) =>
      var o := SomeOwner(schema, pre, other, t, id);
      OthersKeepTheirs(schema, pre, batch, post, tenant, other, o.parent, row.cells[o.column]);
  }

  lemma {:induction false} OthersGainNothing<T(!new)>(schema: Schema<T>, pre: Db<T>, batch: seq<Write<T>>, post: Db<T>,
                                                      tenant: int, other: int, t: T, id: int)
    requires Scenario(schema, pre, batch, post, tenant) && other != tenant
    requires schema.scoped(t) && SafeIn(schema, batch, t)
    requires InScope(schema, post, other, None, t, id)
    ensures InScope(schema, pre, other, None, t, id)
    decreases schema.rank(t)
  {
    if Touched(batch, t, id) {
      ParentStaysOut(schema, pre, batch, post, tenant, other, t, id);
      assert false;
    }
    var row := pre(t)[id];
    assert post(t)[id] == row;
    match schema.filter(t)
    case ByTenant =>
    case AllOf(owners) =>
      forall o | o in owners ensures InScope(schema, pre, other, None, o.parent, row.cells[o.column]) {
        OthersGainNothing(schema, pre, batch, post, tenant, other, o.parent, row.cells[o.column]);
      }
    case AnyOf(owners) =>
      var o := SomeOwner(schema, post, other, t, id);
      OthersGainNothing(schema, pre, batch, post, tenant, other, o.parent, row.cells[o.column]);
  }

  /** Frame: an accepted flush of one tenant leaves every other tenant's scope of a table exactly as it
      was, row by row, when the rows it writes there and above are watched. */
  lemma FlushFrame<T(!new)>(schema: Schema<T>, pre: Db<T>, batch: seq<Write<T>>, post: Db<T>,
                            tenant: int, other: int, t: T)
    requires Scenario(schema, pre, batch, post, tenant) && other != tenant
    requires schema.scoped(t) && SafeIn(schema, batch, t)
    ensures forall id :: InScope(schema, post, other, None, t, id)
                         <==> InScope(schema, pre, other, None, t, id)
    ensures forall id :: InScope(schema, pre, other, None, t, id) ==>
                           id in post(t) && post(t)[id] == pre(t)[id]
  {
    forall id | InScope(schema, pre, other, None, t, id)
      ensures InScope(schema, post, other, None, t, id) && post(t)[id] == pre(t)[id]
    {
      OthersKeepTheirs(schema, pre, batch, post, tenant, other, t, id);
    }
    forall id | InScope(schema, post, other, None, t, id)
      ensures InScope(schema, pre, other, None, t, id)
    {
      OthersGainNothing(schema, pre, batch, post, tenant, other, t, id);
    }
  }

  // Closure.

  /** A non-null owner column names an existing row. */
  ghost predicate OwnersExist<T(!new)>(schema: Schema<T>, db: Db<T>) {
    forall t, id, o :: id in db(t) && o in Owners(schema.filter(t)) && o.column in db(t)[id].cells ==>
                         db(t)[id].cells[o.column] in db(o.parent)
  }

  /** The owner columns that decide the filter are filled in. */
  ghost predicate OwnersFilled<T(!new)>(schema: Schema<T>, w: Write<T>) {
    match schema.filter(w.table)
    case ByTenant => true
    case AllOf(owners) => forall o :: o in owners ==> o.column in w.row.cells
    case AnyOf(owners) => exists o :: o in owners && o.column in w.row.cells
  }

  /** Closure: after an accepted flush, every row it wrote, and every row the tenant had, that still
      exists lies in the tenant's scope, whether its owners were new, changed or left alone. */
  lemma {:induction false} FlushClosure<T(!new)>(schema: Schema<T>, pre: Db<T>, batch: seq<Write<T>>, post: Db<T>,
                                                 tenant: int, t: T, id: int)
    requires Scenario(schema, pre, batch, post, tenant) && OwnersExist(schema, post)
    requires forall i :: 0 <= i < |batch| && batch[i].change != Deleted ==> OwnersFilled(schema, batch[i])
    requires schema.scoped(t) && BackedIn(schema, batch, t) && id in post(t)
    requires Touched(batch, t, id) || InScope(schema, pre, tenant, None, t, id)
    ensures InScope(schema, post, tenant, None, t, id)
    decreases schema.rank(t)
  {
    var row := post(t)[id];
    if Touched(batch, t, id) {
      var i :| 0 <= i < |batch| && batch[i].table == t && batch[i].id == id;
      assert batch[i].change != Deleted && row == batch[i].row;
      forall o | o in Owners(schema.filter(t)) && o.column in row.cells
        ensures InScope(schema, post, tenant, None, o.parent, row.cells[o.column])
      {
        OwnerIsOurs(schema, pre, batch, tenant, i, o);
        FlushClosure(schema, pre, batch, post, tenant, o.parent, row.cells[o.column]);
      }
      assert OwnersFilled(schema, batch[i]);
    } else {
      assert row == pre(t)[id];
      forall o | o in Owners(schema.filter(t)) && o.column in row.cells
                 && InScope(schema, pre, tenant, None, o.parent, row.cells[o.column])
        ensures InScope(schema, post, tenant, None, o.parent, row.cells[o.column])
      {
        FlushClosure(schema, pre, batch, post, tenant, o.parent, row.cells[o.column]);
      }
    }
  }
}
