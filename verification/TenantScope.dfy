/**
 * Tenant boundaries: the recursive ownership filter over any acyclic schema, and the validation of
 * a flush. Tables are a type parameter, so every result holds for every schema.
 */
module TenantScope {
  import opened Sql

  type Column = string

  datatype Owner<T> = Owner(column: Column, parent: T)

  /** How a table's rows are owned: by their own tenant column, through every listed parent, or
      through at least one of them. */
  datatype Filter<T> = ByTenant | AllOf(owners: seq<Owner<T>>) | AnyOf(owners: seq<Owner<T>>)

  /** A foreign key: pairs of a local column and a column of the parent table. */
  datatype Fk<T> = Fk(parent: T, parts: seq<(Column, Column)>)

  /** A row; a null column is absent from `cells`. The column "id" is the row's key. */
  datatype Row = Row(tenant: Option<int>, cells: map<Column, int>)

  type Db<!T> = T -> map<int, Row>

  /** `checked` are the tables whose references are validated, `scoped` those under the filter,
      `rank` orders them, `required` are a table's NOT NULL columns besides its key, and `personal`
      is the extra condition of a user-restricted root. */
  datatype Schema<!T> = Schema(
    filter: T -> Filter<T>, fks: T -> seq<Fk<T>>, scoped: T -> bool, checked: T -> bool,
    hasTenant: T -> bool, rank: T -> nat, required: T -> set<Column>, personal: (T, int, int) -> bool)

  function Owners<T>(f: Filter<T>): seq<Owner<T>> {
    match f
    case ByTenant => []
    case AllOf(owners) => owners
    case AnyOf(owners) => owners
  }

  ghost predicate WellFormed<T(!new)>(schema: Schema<T>) {
    && (forall t, o :: o in Owners(schema.filter(t)) ==>
          schema.rank(o.parent) < schema.rank(t) && o.column != "id")
    && (forall t, o :: schema.scoped(t) && o in Owners(schema.filter(t)) ==> schema.scoped(o.parent))
    && (forall t :: schema.scoped(t) && schema.filter(t).AllOf? ==> schema.filter(t).owners != [])
    && (forall t :: schema.scoped(t) && schema.filter(t).ByTenant? ==> schema.hasTenant(t))
  }

  /** The ownership filter. A null owner column never matches. */
  predicate InScope<T(==,!new)>(schema: Schema<T>, db: Db<T>, tenant: int, user: Option<int>, t: T, id: int)
    requires WellFormed(schema)
    decreases schema.rank(t)
  {
    && id in db(t)
    && match schema.filter(t)
       case ByTenant =>
         db(t)[id].tenant == Some(tenant)
         && (user.Some? ==> schema.personal(t, id, user.value))
       case AllOf(owners) =>
         forall o | o in owners ::
           o.column in db(t)[id].cells
           && InScope(schema, db, tenant, user, o.parent, db(t)[id].cells[o.column])
       case AnyOf(owners) =>
         exists o | o in owners ::
           o.column in db(t)[id].cells
           && InScope(schema, db, tenant, user, o.parent, db(t)[id].cells[o.column])
  }

  /** "Exactly one of" tables fill exactly one of their owner columns. */
  ghost predicate OneOwner<T(!new)>(schema: Schema<T>, db: Db<T>) {
    forall t, id, o, p ::
      schema.filter(t).AnyOf? && id in db(t) && o in schema.filter(t).owners
      && p in schema.filter(t).owners && o.column in db(t)[id].cells && p.column in db(t)[id].cells
      ==> o == p
  }

  /** No row of a covered table is in the scope of two tenants. */
  lemma {:induction false} ScopesAreDisjoint<T(!new)>(schema: Schema<T>, db: Db<T>, a: int, b: int, t: T, id: int)
    requires WellFormed(schema) && OneOwner(schema, db) && schema.scoped(t)
    requires InScope(schema, db, a, None, t, id) && InScope(schema, db, b, None, t, id)
    ensures a == b
    decreases schema.rank(t)
  {
    match schema.filter(t)
    case ByTenant =>
    case AllOf(owners) =>
      var o := owners[0];
      ScopesAreDisjoint(schema, db, a, b, o.parent, db(t)[id].cells[o.column]);
    case AnyOf(owners) =>
      var o :| o in owners && o.column in db(t)[id].cells
               && InScope(schema, db, a, None, o.parent, db(t)[id].cells[o.column]);
      var p :| p in owners && p.column in db(t)[id].cells
               && InScope(schema, db, b, None, p.parent, db(t)[id].cells[p.column]);
      ScopesAreDisjoint(schema, db, a, b, o.parent, db(t)[id].cells[o.column]);
  }

  /** A user's view never exceeds the tenant's. */
  lemma {:induction false} UserScopeIsSmaller<T(!new)>(schema: Schema<T>, db: Db<T>, tenant: int, user: int, t: T, id: int)
    requires WellFormed(schema)
    requires InScope(schema, db, tenant, Some(user), t, id)
    ensures InScope(schema, db, tenant, None, t, id)
    decreases schema.rank(t)
  {
    match schema.filter(t)
    case ByTenant =>
    case AllOf(owners) =>
      forall o | o in owners
        ensures InScope(schema, db, tenant, None, o.parent, db(t)[id].cells[o.column])
      {
        UserScopeIsSmaller(schema, db, tenant, user, o.parent, db(t)[id].cells[o.column]);
      }
    case AnyOf(owners) =>
      var o :| o in owners && o.column in db(t)[id].cells
               && InScope(schema, db, tenant, Some(user), o.parent, db(t)[id].cells[o.column]);
      UserScopeIsSmaller(schema, db, tenant, user, o.parent, db(t)[id].cells[o.column]);
  }

  // Flush validation.

  datatype Change = New | Dirty | Deleted

  /** One object of the session; `previous` is the overwritten tenant value, when recorded. */
  datatype Write<T> = Write(change: Change, table: T, id: int, previous: Option<int>, row: Row)

  /** A referenced value that must belong to the tenant before the flush. */
  datatype Need<T> = Need(parent: T, column: Column, value: int)

  predicate Pending<T(==)>(batch: seq<Write<T>>, parent: T, column: Column, value: int) {
    exists i | 0 <= i < |batch| ::
      && batch[i].change == New && batch[i].table == parent
      && column in batch[i].row.cells && batch[i].row.cells[column] == value
  }

  /** All local columns of the foreign key are set. */
  predicate Complete<T>(fk: Fk<T>, row: Row) {
    forall part | part in fk.parts :: part.0 in row.cells
  }

  /** The references of one row that must be looked up. */
  function Needs<T(==)>(schema: Schema<T>, batch: seq<Write<T>>, w: Write<T>): set<Need<T>> {
    set fk, part | fk in schema.fks(w.table) && part in fk.parts
                   && Complete(fk, w.row) && part.0 in w.row.cells && schema.checked(fk.parent)
                   && !(fk.parent == w.table && w.row.cells[part.0] == w.id)
                   && !Pending(batch, fk.parent, part.1, w.row.cells[part.0])
      :: Need(fk.parent, part.1, w.row.cells[part.0])
  }

  function Cell(id: int, row: Row, column: Column): Option<int> {
    if column == "id" then Some(id)
    else if column in row.cells then Some(row.cells[column]) else None
  }

  predicate Known<T(==,!new)>(schema: Schema<T>, db: Db<T>, tenant: int, need: Need<T>)
    requires WellFormed(schema)
  {
    exists id | id in db(need.parent) ::
      InScope(schema, db, tenant, None, need.parent, id)
      && Cell(id, db(need.parent)[id], need.column) == Some(need.value)
  }

  /** A new row without a tenant receives the current one. */
  function Stamp<T>(schema: Schema<T>, tenant: int, w: Write<T>): Write<T> {
    if schema.scoped(w.table) && schema.hasTenant(w.table) && w.row.tenant.None? && w.change == New
    then w.(row := w.row.(tenant := Some(tenant)))
    else w
  }

  function StampAll<T>(schema: Schema<T>, tenant: int, batch: seq<Write<T>>): (r: seq<Write<T>>)
    ensures |r| == |batch| && forall i :: 0 <= i < |r| ==> r[i] == Stamp(schema, tenant, batch[i])
  {
    seq(|batch|, i requires 0 <= i < |batch| => Stamp(schema, tenant, batch[i]))
  }

  predicate TenantKept<T>(schema: Schema<T>, tenant: int, w: Write<T>) {
    schema.hasTenant(w.table) ==>
      (w.previous.Some? ==> w.previous.value == tenant) && w.row.tenant == Some(tenant)
  }

  /** What the validator accepts, for a batch already stamped. */
  ghost predicate Acceptable<T(!new)>(schema: Schema<T>, db: Db<T>, tenant: int, batch: seq<Write<T>>)
    requires WellFormed(schema)
  {
    forall i :: 0 <= i < |batch| && schema.scoped(batch[i].table) ==>
      && TenantKept(schema, tenant, batch[i])
      && (batch[i].change != New ==> InScope(schema, db, tenant, None, batch[i].table, batch[i].id))
      && (forall need :: need in Needs(schema, batch, batch[i]) ==> Known(schema, db, tenant, need))
  }

  /** What the validator accepts, for the batch as it is handed in: a row of a covered table with a
      tenant column has the current tenant, or none and is new, and never had another; what exists is
      the tenant's; what is looked up is found. */
  ghost predicate Admissible<T(!new)>(schema: Schema<T>, db: Db<T>, tenant: int, batch: seq<Write<T>>)
    requires WellFormed(schema)
  {
    forall i :: 0 <= i < |batch| && schema.scoped(batch[i].table) ==>
      var w := batch[i];
      && (schema.hasTenant(w.table) ==>
            && (w.previous == None || w.previous == Some(tenant))
            && (w.row.tenant == Some(tenant) || (w.row.tenant == None && w.change == New)))
      && (w.change != New ==> InScope(schema, db, tenant, None, w.table, w.id))
      && (forall need :: need in Needs(schema, batch, w) ==> Known(schema, db, tenant, need))
  }

  predicate SameButTenant<T(==)>(a: Write<T>, b: Write<T>) {
    a.(row := a.row.(tenant := None)) == b.(row := b.row.(tenant := None))
  }

  /** Stamping does not change what must be looked up. */
  lemma NeedsIgnoreTenants<T(!new)>(schema: Schema<T>, a: seq<Write<T>>, b: seq<Write<T>>, v: Write<T>, w: Write<T>)
    requires |a| == |b| && forall i :: 0 <= i < |a| ==> SameButTenant(a[i], b[i])
    requires SameButTenant(v, w)
    ensures Needs(schema, a, v) == Needs(schema, b, w)
  {
    forall p, c, x ensures Pending(a, p, c, x) <==> Pending(b, p, c, x) {
      if Pending(a, p, c, x) {
        var i :| 0 <= i < |a| && a[i].change == New && a[i].table == p
                 && c in a[i].row.cells && a[i].row.cells[c] == x;
        assert SameButTenant(a[i], b[i]);
      }
      if Pending(b, p, c, x) {
        var i :| 0 <= i < |b| && b[i].change == New && b[i].table == p
                 && c in b[i].row.cells && b[i].row.cells[c] == x;
        assert SameButTenant(a[i], b[i]);
      }
    }
  }

  lemma StampedIsAcceptable<T(!new)>(schema: Schema<T>, db: Db<T>, tenant: int, batch: seq<Write<T>>)
    requires WellFormed(schema)
    ensures Acceptable(schema, db, tenant, StampAll(schema, tenant, batch)) <==> Admissible(schema, db, tenant, batch)
  {
    var stamped := StampAll(schema, tenant, batch);
    forall i | 0 <= i < |batch| ensures Needs(schema, stamped, stamped[i]) == Needs(schema, batch, batch[i]) {
      NeedsIgnoreTenants(schema, stamped, batch, stamped[i], batch[i]);
    }
    forall i | 0 <= i < |batch|
      ensures TenantKept(schema, tenant, stamped[i]) || !schema.scoped(batch[i].table) <==>
                (schema.scoped(batch[i].table) && schema.hasTenant(batch[i].table) ==>
                   && (batch[i].previous == None || batch[i].previous == Some(tenant))
                   && (batch[i].row.tenant == Some(tenant) || (batch[i].row.tenant == None && batch[i].change == New)))
    {
      assert stamped[i] == Stamp(schema, tenant, batch[i]);
    }
  }

  /** A row as it leaves the hook: only a missing tenant has been filled in, and only where it was due. */
  ghost predicate FilledIn<T(!new)>(schema: Schema<T>, tenant: int, before: Write<T>, after: Write<T>) {
    && after.change == before.change && after.table == before.table && after.id == before.id
    && after.previous == before.previous && after.row.cells == before.row.cells
    && (if schema.scoped(before.table) && schema.hasTenant(before.table) && before.change == New
           && before.row.tenant == None
        then after.row.tenant == Some(tenant) else after.row.tenant == before.row.tenant)
  }

  lemma StampFillsIn<T(!new)>(schema: Schema<T>, tenant: int, w: Write<T>)
    ensures FilledIn(schema, tenant, w, Stamp(schema, tenant, w))
  {
  }

  /** The value of `local` must be looked up as `column` of `parent`: its key is filled in and leads to a
      checked table, and it is neither the row's own key nor a value of a row new in the same flush. */
  ghost predicate LooksUp<T(!new)>(schema: Schema<T>, batch: seq<Write<T>>, w: Write<T>, fk: Fk<T>, local: Column,
                                   parent: T, column: Column, value: int)
  {
    && fk in schema.fks(w.table) && fk.parent == parent && (local, column) in fk.parts
    && (forall part :: part in fk.parts ==> part.0 in w.row.cells)
    && local in w.row.cells && w.row.cells[local] == value
    && schema.checked(parent) && !(parent == w.table && value == w.id)
    && (forall i | 0 <= i < |batch| && batch[i].change == New && batch[i].table == parent ::
          column in batch[i].row.cells ==> batch[i].row.cells[column] != value)
  }

  lemma LookedUpExactlyWhen<T(!new)>(schema: Schema<T>, batch: seq<Write<T>>, w: Write<T>, parent: T, column: Column,
                                     value: int)
    ensures Need(parent, column, value) in Needs(schema, batch, w)
            <==> exists fk, local :: LooksUp(schema, batch, w, fk, local, parent, column, value)
  {
    if fk, local :| LooksUp(schema, batch, w, fk, local, parent, column, value) {
      var part := (local, column);
      assert Complete(fk, w.row) && part in fk.parts && !Pending(batch, fk.parent, part.1, w.row.cells[part.0]);
    }
    if Need(parent, column, value) in Needs(schema, batch, w) {
      var fk, part :| fk in schema.fks(w.table) && part in fk.parts
                      && Complete(fk, w.row) && part.0 in w.row.cells && schema.checked(fk.parent)
                      && !(fk.parent == w.table && w.row.cells[part.0] == w.id)
                      && !Pending(batch, fk.parent, part.1, w.row.cells[part.0])
                      && Need(fk.parent, part.1, w.row.cells[part.0]) == Need(parent, column, value);
      assert LooksUp(schema, batch, w, fk, part.0, parent, column, value);
    }
  }

  /** Persisted rows among the first n objects. */
  function Existing<T(==,!new)>(schema: Schema<T>, batch: seq<Write<T>>, n: nat): (r: set<(T, int)>)
    requires n <= |batch|
    ensures forall x :: x in r <==> exists k :: 0 <= k < n && schema.scoped(batch[k].table)
                                                && batch[k].change != New
                                                && x == (batch[k].table, batch[k].id)
  {
    if n == 0 then {}
    else
      var w := batch[n - 1];
      Existing(schema, batch, n - 1)
      + if schema.scoped(w.table) && w.change != New then {(w.table, w.id)} else {}
  }

  /** References of the first n objects. */
  function References<T(==,!new)>(schema: Schema<T>, batch: seq<Write<T>>, n: nat): (r: set<Need<T>>)
    requires n <= |batch|
    ensures forall x :: x in r <==> exists k :: 0 <= k < n && schema.scoped(batch[k].table)
                                                && x in Needs(schema, batch, batch[k])
  {
    if n == 0 then {}
    else
      var w := batch[n - 1];
      References(schema, batch, n - 1)
      + if schema.scoped(w.table) then Needs(schema, batch, w) else {}
  }

  ghost predicate AllKept<T(!new)>(schema: Schema<T>, tenant: int, stamped: seq<Write<T>>, n: nat)
    requires n <= |stamped|
  {
    forall k :: 0 <= k < n && schema.scoped(stamped[k].table) ==> TenantKept(schema, tenant, stamped[k])
  }

  /** What the first pass has gathered from the first n stamped objects. */
  ghost predicate Gathered<T(!new)>(schema: Schema<T>, tenant: int, stamped: seq<Write<T>>, n: nat,
                                    existing: set<(T, int)>, references: set<Need<T>>)
    requires n <= |stamped|
  {
    && AllKept(schema, tenant, stamped, n)
    && existing == Existing(schema, stamped, n)
    && references == References(schema, stamped, n)
  }

  /** One object as the pass sees it: `before` is the batch stamped up to n. */
  lemma GatherStep<T(!new)>(schema: Schema<T>, tenant: int, stamped: seq<Write<T>>, before: seq<Write<T>>, n: nat,
                            existing: set<(T, int)>, references: set<Need<T>>)
    requires n < |stamped| == |before| && Gathered(schema, tenant, stamped, n, existing, references)
    requires forall k :: 0 <= k < |before| ==> SameButTenant(before[k], stamped[k])
    requires Admitted(schema, tenant, stamped[n])
    ensures
      Gathered(schema, tenant, stamped, n + 1, existing + Found(schema, stamped[n]),
               references + Asked(schema, before, stamped[n]))
  {
    NeedsIgnoreTenants(schema, before, stamped, stamped[n], stamped[n]);
  }

  /** The batch with its first n objects stamped. */
  ghost predicate StampedUpTo<T(!new)>(now: seq<Write<T>>, original: seq<Write<T>>, stamped: seq<Write<T>>, n: nat)
    requires |now| == |original| == |stamped| && n <= |now|
  {
    (forall k :: 0 <= k < n ==> now[k] == stamped[k]) && (forall k :: n <= k < |now| ==> now[k] == original[k])
  }

  lemma StampIsSame<T(!new)>(schema: Schema<T>, tenant: int, original: seq<Write<T>>, now: seq<Write<T>>, n: nat)
    requires |now| == |original| && n <= |now|
    requires StampedUpTo(now, original, StampAll(schema, tenant, original), n)
    ensures forall k :: 0 <= k < |now| ==> SameButTenant(now[k], StampAll(schema, tenant, original)[k])
  {
  }

  function Found<T(==,!new)>(schema: Schema<T>, w: Write<T>): set<(T, int)> {
    if schema.scoped(w.table) && w.change != New then {(w.table, w.id)} else {}
  }

  function Asked<T(==,!new)>(schema: Schema<T>, batch: seq<Write<T>>, w: Write<T>): set<Need<T>> {
    if schema.scoped(w.table) then Needs(schema, batch, w) else {}
  }

  predicate Admitted<T(!new)>(schema: Schema<T>, tenant: int, w: Write<T>) {
    schema.scoped(w.table) ==> TenantKept(schema, tenant, w)
  }

  /** The pass goes from i to i + 1, or stops at an object that is not admitted. */
  lemma CollectStep<T(!new)>(schema: Schema<T>, tenant: int, original: seq<Write<T>>, now: seq<Write<T>>, i: nat,
                             existing: set<(T, int)>, references: set<Need<T>>)
    requires i < |now| == |original|
    requires StampedUpTo(now, original, StampAll(schema, tenant, original), i)
    requires Gathered(schema, tenant, StampAll(schema, tenant, original), i, existing, references)
    ensures
      var stamped := StampAll(schema, tenant, original);
      var next := now[i := Stamp(schema, tenant, now[i])];
      && StampedUpTo(next, original, stamped, i + 1)
      && (if Admitted(schema, tenant, next[i])
          then Gathered(schema, tenant, stamped, i + 1, existing + Found(schema, next[i]),
                        references + Asked(schema, next, next[i]))
          else !AllKept(schema, tenant, stamped, |stamped|))
  {
    var stamped := StampAll(schema, tenant, original);
    var next := now[i := Stamp(schema, tenant, now[i])];
    assert next[i] == stamped[i];
    StampIsSame(schema, tenant, original, next, i + 1);
    if Admitted(schema, tenant, stamped[i]) {
      GatherStep(schema, tenant, stamped, next, i, existing, references);
    }
  }

  /** First pass: stamp new rows in place and collect what must be looked up. */
  method Collect<T(==,!new)>(schema: Schema<T>, tenant: int, batch: array<Write<T>>)
    returns (forbidden: bool, existing: set<(T, int)>, references: set<Need<T>>)
    modifies batch
    ensures
      var stamped := StampAll(schema, tenant, old(batch[..]));
      && (forbidden <==> !AllKept(schema, tenant, stamped, |stamped|))
      && (!forbidden ==>
            && batch[..] == stamped
            && existing == Existing(schema, stamped, |stamped|)
            && references == References(schema, stamped, |stamped|))
  {
    ghost var original := batch[..];
    ghost var stamped := StampAll(schema, tenant, original);
    existing, references := {}, {};
    var i := 0;
    while i < batch.Length
      invariant 0 <= i <= batch.Length && StampedUpTo(batch[..], original, stamped, i)
      invariant Gathered(schema, tenant, stamped, i, existing, references)
    {
      CollectStep(schema, tenant, original, batch[..], i, existing, references);
      var kept;
      kept, existing, references := CollectOne(schema, tenant, batch, i, existing, references);
      if !kept {
        forbidden := true;
        return;
      }
      i := i + 1;
    }
    assert batch[..] == stamped;
    forbidden := false;
  }

  /** One object: stamp it, check its tenant, note what must be looked up. */
  method CollectOne<T(==,!new)>(schema: Schema<T>, tenant: int, batch: array<Write<T>>, i: nat,
                                existing: set<(T, int)>, references: set<Need<T>>)
    returns (kept: bool, existing': set<(T, int)>, references': set<Need<T>>)
    requires i < batch.Length
    modifies batch
    ensures batch[..] == old(batch[..])[i := Stamp(schema, tenant, old(batch[i]))]
    ensures kept <==> Admitted(schema, tenant, batch[i])
    ensures kept ==> existing' == existing + Found(schema, batch[i])
    ensures kept ==> references' == references + Asked(schema, batch[..], batch[i])
  {
    var w := batch[i];
    existing', references' := existing, references;
    if schema.scoped(w.table) {
      if w.change != New {
        existing' := existing + {(w.table, w.id)};
      }
      batch[i] := Stamp(schema, tenant, w);
      if !TenantKept(schema, tenant, batch[i]) {
        return false, existing', references';
      }
      references' := references + Needs(schema, batch[..], batch[i]);
    }
    kept := true;
  }

  method AllInScope<T(==,!new)>(schema: Schema<T>, db: Db<T>, tenant: int, rows: set<(T, int)>)
    returns (ok: bool)
    requires WellFormed(schema)
    ensures ok <==> forall x :: x in rows ==> InScope(schema, db, tenant, None, x.0, x.1)
  {
    var todo := rows;
    while todo != {}
      invariant todo <= rows
      invariant forall x :: x in rows && x !in todo ==> InScope(schema, db, tenant, None, x.0, x.1)
    {
      var x :| x in todo;
      if !InScope(schema, db, tenant, None, x.0, x.1) {
        return false;
      }
      todo := todo - {x};
    }
    return true;
  }

  method AllKnown<T(==,!new)>(schema: Schema<T>, db: Db<T>, tenant: int, needs: set<Need<T>>)
    returns (ok: bool)
    requires WellFormed(schema)
    ensures ok <==> forall n :: n in needs ==> Known(schema, db, tenant, n)
  {
    var todo := needs;
    while todo != {}
      invariant todo <= needs
      invariant forall n :: n in needs && n !in todo ==> Known(schema, db, tenant, n)
    {
      var n :| n in todo;
      if !Known(schema, db, tenant, n) {
        return false;
      }
      todo := todo - {n};
    }
    return true;
  }

  /** The three passes together are the acceptance rule. */
  lemma PassesAreAcceptance<T(!new)>(schema: Schema<T>, db: Db<T>, tenant: int, batch: seq<Write<T>>)
    requires WellFormed(schema)
    ensures Acceptable(schema, db, tenant, batch) <==>
              && AllKept(schema, tenant, batch, |batch|)
              && (forall x :: x in Existing(schema, batch, |batch|) ==> InScope(schema, db, tenant, None, x.0, x.1))
              && (forall n :: n in References(schema, batch, |batch|) ==> Known(schema, db, tenant, n))
  {
    if forall x :: x in Existing(schema, batch, |batch|) ==> InScope(schema, db, tenant, None, x.0, x.1) {
      forall k | 0 <= k < |batch| && schema.scoped(batch[k].table) && batch[k].change != New
        ensures InScope(schema, db, tenant, None, batch[k].table, batch[k].id)
      {
        assert (batch[k].table, batch[k].id) in Existing(schema, batch, |batch|);
      }
    }
  }

  /** The flush hook. Without a tenant it does nothing; otherwise it stamps new rows in place,
      collects the rows and references to look up, and forbids the flush on the first violation. */
  method ValidateTenantWrites<T(==,!new)>(schema: Schema<T>, db: Db<T>, current: Option<int>, batch: array<Write<T>>)
    returns (forbidden: bool)
    requires WellFormed(schema)
    modifies batch
    ensures current.None? ==> !forbidden && batch[..] == old(batch[..])
    ensures current.Some? ==>
              var stamped := StampAll(schema, current.value, old(batch[..]));
              && (forbidden <==> !Acceptable(schema, db, current.value, stamped))
              && (!forbidden ==> batch[..] == stamped)
    ensures forbidden <==> current.Some? && !Admissible(schema, db, current.value, old(batch[..]))
    ensures !forbidden && current.Some? ==>
              forall i :: 0 <= i < batch.Length ==>
                && FilledIn(schema, current.value, old(batch[i]), batch[i])
                && (schema.scoped(batch[i].table) && schema.hasTenant(batch[i].table) ==> batch[i].row.tenant == current)
  {
    if current.None? {
      return false;
    }
    StampedIsAcceptable(schema, db, current.value, batch[..]);
    forall i | 0 <= i < batch.Length ensures FilledIn(schema, current.value, batch[i], Stamp(schema, current.value, batch[i])) {
      StampFillsIn(schema, current.value, batch[i]);
    }
    ghost var before := batch[..];
    PassesAreAcceptance(schema, db, current.value, StampAll(schema, current.value, batch[..]));
    var existing, references;
    forbidden, existing, references := Collect(schema, current.value, batch);
    if forbidden {
      return;
    }
    var inside := AllInScope(schema, db, current.value, existing);
    if !inside {
      return true;
    }
    var known := AllKnown(schema, db, current.value, references);
    assert batch[..] == StampAll(schema, current.value, before);
    forall i | 0 <= i < batch.Length ensures batch[i] == Stamp(schema, current.value, before[i]) {
      assert batch[i] == batch[..][i];
    }
    return !known;
  }

  /** A new row without a tenant, none of whose keys into checked tables is filled in, is never forbidden. */
  lemma BareNewRowIsAdmitted<T(!new)>(schema: Schema<T>, db: Db<T>, tenant: int, w: Write<T>)
    requires WellFormed(schema) && w.change == New && w.row.tenant == None && w.previous == None
    requires forall fk :: fk in schema.fks(w.table) && schema.checked(fk.parent) ==>
                            exists part :: part in fk.parts && part.0 !in w.row.cells
    ensures Admissible(schema, db, tenant, [w])
    ensures Acceptable(schema, db, tenant, StampAll(schema, tenant, [w]))
  {
    assert Needs(schema, [w], w) == {};
    StampedIsAcceptable(schema, db, tenant, [w]);
  }

  // The user's part of the filter.

  /** Root row (r, rid) is reached from (t, id) through filled owner columns. */
  ghost predicate Reaches<T(!new)>(schema: Schema<T>, db: Db<T>, t: T, id: int, r: T, rid: int)
    requires WellFormed(schema)
    decreases schema.rank(t)
  {
    && id in db(t)
    && if schema.filter(t).ByTenant? then r == t && rid == id
       else exists o :: o in Owners(schema.filter(t)) && o.column in db(t)[id].cells
                        && Reaches(schema, db, o.parent, db(t)[id].cells[o.column], r, rid)
  }

  /** A row is in a user's scope exactly when it is in the tenant's and every root it is reached from is
      the user's. */
  lemma {:induction false} UserScopeExactlyWhen<T(!new)>(schema: Schema<T>, db: Db<T>, tenant: int, user: int, t: T, id: int)
    requires WellFormed(schema) && OneOwner(schema, db)
    ensures InScope(schema, db, tenant, Some(user), t, id) <==>
              && InScope(schema, db, tenant, None, t, id)
              && forall r, rid :: Reaches(schema, db, t, id, r, rid) ==> schema.personal(r, rid, user)
    decreases schema.rank(t)
  {
    if id in db(t) && !schema.filter(t).ByTenant? {
      forall o | o in Owners(schema.filter(t)) && o.column in db(t)[id].cells
        ensures InScope(schema, db, tenant, Some(user), o.parent, db(t)[id].cells[o.column]) <==>
                  && InScope(schema, db, tenant, None, o.parent, db(t)[id].cells[o.column])
                  && forall r, rid :: Reaches(schema, db, o.parent, db(t)[id].cells[o.column], r, rid) ==>
                                        schema.personal(r, rid, user)
      {
        UserScopeExactlyWhen(schema, db, tenant, user, o.parent, db(t)[id].cells[o.column]);
      }
      forall o, r, rid | o in Owners(schema.filter(t)) && o.column in db(t)[id].cells
                         && Reaches(schema, db, o.parent, db(t)[id].cells[o.column], r, rid)
        ensures Reaches(schema, db, t, id, r, rid)
      {
      }
      if InScope(schema, db, tenant, Some(user), t, id) {
        UserScopeIsSmaller(schema, db, tenant, user, t, id);
      }
    }
  }
}
