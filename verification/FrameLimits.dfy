/**
 * The frame theorem is exact: a table that is not safe can be entered by an accepted flush. The
 * proof builds, for an unsafe ancestor, the tables and the one write that do it.
 */
module FrameLimits {
  import opened Sql
  import opened TenantScope
  import opened FlushSafety

  // Into any state.

  function Added<T(==)>(pre: Db<T>, t: T, id: int, row: Row): Db<T> {
    u => if u == t then pre(u)[id := row] else pre(u)
  }

  lemma NothingToLookUp<T(!new)>(schema: Schema<T>, batch: seq<Write<T>>, w: Write<T>)
    requires forall fk :: fk in schema.fks(w.table) && schema.checked(fk.parent) && fk.parts != [] ==>
                            !Complete(fk, w.row)
    ensures Needs(schema, batch, w) == {}
  {
  }

  /** A new row whose single owner column is filled, and none of its keys to checked tables: whatever
      the tables hold, it may name any row of another tenant, and the flush is accepted. */
  lemma NewRowIntrudes<T(!new)>(schema: Schema<T>, pre: Db<T>, tenant: int, other: int, t: T, o: Owner<T>,
                                row: Row, id: int)
    requires WellFormed(schema) && OneOwner(schema, pre) && other != tenant
    requires schema.scoped(t) && !schema.hasTenant(t) && schema.filter(t) == AllOf([o])
    requires o.column in row.cells && "id" !in row.cells && schema.required(t) <= row.cells.Keys
    requires forall fk :: fk in schema.fks(t) && schema.checked(fk.parent) && fk.parts != [] ==> !Complete(fk, row)
    requires InScope(schema, pre, other, None, o.parent, row.cells[o.column]) && id !in pre(t)
    ensures
      var batch, post := [Write(New, t, id, None, row)], Added(pre, t, id, row);
      && Scenario(schema, pre, batch, post, tenant) && NotNull(schema, batch)
      && !InScope(schema, pre, other, None, t, id) && InScope(schema, post, other, None, t, id)
  {
    var w := Write(New, t, id, None, row);
    var batch, post := [w], Added(pre, t, id, row);
    assert o in Owners(schema.filter(t));
    NothingToLookUp(schema, batch, w);
    assert Flushed(pre, batch, post) by {
      assert batch[0].table == t && batch[0].id == id;
      assert Touched(batch, t, id);
    }
    OthersKeepTheirs(schema, pre, batch, post, tenant, other, o.parent, row.cells[o.column]);
  }

  // The exact condition.

  /** No accepted flush of one tenant, its NOT NULL columns filled, brings a row of t into the scope of
      another. */
  ghost predicate Protected<T(!new)>(schema: Schema<T>, t: T)
    requires WellFormed(schema)
  {
    forall pre: Db<T>, batch: seq<Write<T>>, post: Db<T>, tenant: int, other: int, id: int ::
      Scenario(schema, pre, batch, post, tenant) && NotNull(schema, batch) && other != tenant ==>
        InScope(schema, post, other, None, t, id) ==> InScope(schema, pre, other, None, t, id)
  }

  /** Owner columns of a table are distinct, somebody owns its rows, and no required column decides by
      itself which of several possible owners it is. */
  ghost predicate WellOwned<T(!new)>(schema: Schema<T>, t: T) {
    var owners := Owners(schema.filter(t));
    && (schema.filter(t).AnyOf? ==> owners != [] && schema.required(t) !! OwnerColumns(owners))
    && (forall o, p :: o in owners && p in owners && o.column == p.column ==> o == p)
    && "id" !in schema.required(t)
  }

  /** The columns a row fills that names its owners and nothing it need not. */
  function Needed<T(!new)>(schema: Schema<T>, t: T): set<Column> {
    schema.required(t) + OwnerColumns(Owners(schema.filter(t)))
  }

  ghost predicate FilledBy<T(!new)>(fk: Fk<T>, columns: set<Column>) {
    forall part :: part in fk.parts ==> part.0 in columns
  }

  /** The key refers to row keys or required columns of covered tables. */
  ghost predicate Plain<T(!new)>(schema: Schema<T>, fk: Fk<T>) {
    schema.scoped(fk.parent) && forall part :: part in fk.parts ==> part.1 == "id" || part.1 in schema.required(fk.parent)
  }

  /** A checked key that such rows fill checks one of the owners whose columns it uses, or uses none. */
  ghost predicate KeyFits<T(!new)>(schema: Schema<T>, t: T, fk: Fk<T>) {
    || (exists o :: o in Owners(schema.filter(t)) && Checked(schema, t, o) && Uses(fk, o.column))
    || (Plain(schema, fk) && FilledBy(fk, schema.required(t) - OwnerColumns(Owners(schema.filter(t)))))
  }

  ghost predicate KeysFit<T(!new)>(schema: Schema<T>, t: T) {
    forall fk :: fk in schema.fks(t) && schema.checked(fk.parent) && fk.parts != [] && FilledBy(fk, Needed(schema, t)) ==>
                   KeyFits(schema, t, fk)
  }

  ghost predicate WellKeyed<T(!new)>(schema: Schema<T>) {
    forall t :: schema.scoped(t) ==> WellOwned(schema, t) && KeysFit(schema, t)
  }

  function OwnerColumns<T(!new)>(owners: seq<Owner<T>>): (r: set<Column>)
    ensures forall o :: o in owners ==> o.column in r
    ensures forall c :: c in r ==> exists o :: o in owners && o.column == c
  {
    if owners == [] then {} else {owners[0].column} + OwnerColumns(owners[1..])
  }

  ghost predicate Uses<T(!new)>(fk: Fk<T>, column: Column) {
    exists part :: part in fk.parts && part.0 == column
  }

  /** Table u is reached from v by owner links. */
  ghost predicate Leads<T(!new)>(schema: Schema<T>, v: T, u: T)
    requires WellFormed(schema)
    decreases schema.rank(v)
  {
    v == u || exists o :: o in Owners(schema.filter(v)) && Leads(schema, o.parent, u)
  }

  /** Where a watch is missing: at u, through o. */
  ghost predicate Gap<T(!new)>(schema: Schema<T>, u: T, o: Owner<T>) {
    match schema.filter(u)
    case ByTenant => false
    case AllOf(owners) => o in owners && forall p :: p in owners ==> !Checked(schema, u, p)
    case AnyOf(owners) => o in owners && !Checked(schema, u, o)
  }

  lemma {:induction false} UnsafeHasGap<T(!new)>(schema: Schema<T>, t: T) returns (u: T, o: Owner<T>)
    requires WellFormed(schema) && schema.scoped(t) && !Safe(schema, t)
    ensures Leads(schema, t, u) && schema.scoped(u) && Gap(schema, u, o)
    decreases schema.rank(t)
  {
    if p :| p in Owners(schema.filter(t)) && !Safe(schema, p.parent) {
      u, o := UnsafeHasGap(schema, p.parent);
    } else {
      u := t;
      match schema.filter(t) {
        case AllOf(owners) => o := owners[0];
        case AnyOf(owners) => o :| o in owners && !Checked(schema, t, o);
      }
    }
  }

  // The tables: rows 1 and 2 of every table belong to tenants 1 and 2. Row 3 leads from t to u.

  /** Owner columns set to k: all of them, or the given one where one is enough. */
  function Fill<T(!new)>(f: Filter<T>, column: Column, k: int): map<Column, int> {
    match f
    case ByTenant => map[]
    case AllOf(owners) => map c | c in OwnerColumns(owners) :: k
    case AnyOf(_) => map[column := k]
  }

  function FirstColumn<T(!new)>(f: Filter<T>): Column {
    if Owners(f) == [] then "" else Owners(f)[0].column
  }

  /** The required columns all set to a, then the owner columns to k. */
  function Cells<T(!new)>(schema: Schema<T>, v: T, column: Column, a: int, k: int): map<Column, int> {
    (map c | c in schema.required(v) :: a) + Fill(schema.filter(v), column, k)
  }

  function Lineage<T(!new)>(schema: Schema<T>, v: T, k: int): Row {
    Row(Some(k), Cells(schema, v, FirstColumn(schema.filter(v)), k, k))
  }

  ghost predicate Toward<T(!new)>(schema: Schema<T>, v: T, u: T, column: Column)
    requires WellFormed(schema)
  {
    exists o :: o in Owners(schema.filter(v)) && o.column == column && Leads(schema, o.parent, u)
  }

  ghost function Leading<T(!new)>(schema: Schema<T>, v: T, u: T): (o: Owner<T>)
    requires WellFormed(schema) && v != u && Leads(schema, v, u)
    ensures o in Owners(schema.filter(v)) && Leads(schema, o.parent, u)
  {
    var o :| o in Owners(schema.filter(v)) && Leads(schema, o.parent, u);
    o
  }

  ghost function Downwards<T(!new)>(schema: Schema<T>, v: T, u: T): map<Column, int>
    requires WellFormed(schema) && v != u && Leads(schema, v, u)
  {
    match schema.filter(v)
    case ByTenant => map[]
    case AllOf(owners) => map c | c in OwnerColumns(owners) :: if Toward(schema, v, u, c) then 3 else 2
    case AnyOf(_) => map[Leading(schema, v, u).column := 3]
  }

  ghost function Third<T(!new)>(schema: Schema<T>, v: T, u: T, o: Owner<T>): Row
    requires WellFormed(schema) && Leads(schema, v, u)
  {
    if v == u then Row(Some(1), Fill(schema.filter(u), o.column, 1))
    else Row(Some(1), Downwards(schema, v, u))
  }

  ghost function Rows<T(!new)>(schema: Schema<T>, v: T, u: T, o: Owner<T>): map<int, Row>
    requires WellFormed(schema)
  {
    if !schema.scoped(v) then map[]
    else if Leads(schema, v, u) then map[1 := Lineage(schema, v, 1), 2 := Lineage(schema, v, 2), 3 := Third(schema, v, u, o)]
    else map[1 := Lineage(schema, v, 1), 2 := Lineage(schema, v, 2)]
  }

  ghost function Before<T(!new)>(schema: Schema<T>, u: T, o: Owner<T>): Db<T>
    requires WellFormed(schema)
  {
    v => Rows(schema, v, u, o)
  }

  /** Row 3 of u, handed over to tenant 2. */
  function Handed<T(!new)>(schema: Schema<T>, u: T, o: Owner<T>): Row {
    Row(Some(1), Cells(schema, u, o.column, 1, 2))
  }

  ghost function After<T(!new)>(schema: Schema<T>, u: T, o: Owner<T>): Db<T>
    requires WellFormed(schema)
  {
    v => if v == u then Rows(schema, v, u, o)[3 := Handed(schema, u, o)] else Rows(schema, v, u, o)
  }

  function Hand<T(!new)>(schema: Schema<T>, u: T, o: Owner<T>): seq<Write<T>> {
    [Write(Dirty, u, 3, None, Handed(schema, u, o))]
  }

  ghost predicate Setting<T(!new)>(schema: Schema<T>, u: T, o: Owner<T>) {
    WellFormed(schema) && WellKeyed(schema) && schema.scoped(u) && Gap(schema, u, o)
  }

  ghost predicate Contains(cells: map<Column, int>, some: map<Column, int>) {
    forall c :: c in some ==> c in cells && cells[c] == some[c]
  }

  /** A row that fills its owner columns with k lies in a tenant's scope when the k-th owners do. */
  lemma FilledInScope<T(!new)>(schema: Schema<T>, db: Db<T>, tenant: int, v: T, id: int, o: Owner<T>, k: int)
    requires WellFormed(schema) && !schema.filter(v).ByTenant? && id in db(v)
    requires o in Owners(schema.filter(v)) && Contains(db(v)[id].cells, Fill(schema.filter(v), o.column, k))
    requires forall p :: p in Owners(schema.filter(v)) ==> InScope(schema, db, tenant, None, p.parent, k)
    ensures InScope(schema, db, tenant, None, v, id)
  {
    assert o.column in db(v)[id].cells;
  }

  lemma {:induction false} LineageInScope<T(!new)>(schema: Schema<T>, db: Db<T>, u: T, o: Owner<T>, v: T, k: int)
    requires Setting(schema, u, o) && schema.scoped(v) && (k == 1 || k == 2)
    requires db == Before(schema, u, o) || db == After(schema, u, o)
    ensures InScope(schema, db, k, None, v, k)
    decreases schema.rank(v)
  {
    assert k in db(v) && db(v)[k] == Lineage(schema, v, k);
    if !schema.filter(v).ByTenant? {
      forall p | p in Owners(schema.filter(v)) ensures InScope(schema, db, k, None, p.parent, k) {
        LineageInScope(schema, db, u, o, p.parent, k);
      }
      FilledInScope(schema, db, k, v, k, Owners(schema.filter(v))[0], k);
    }
  }

  lemma LineageColumn<T(!new)>(schema: Schema<T>, v: T, k: int, a: Column)
    requires WellOwned(schema, v) && schema.filter(v).AnyOf? && a in OwnerColumns(Owners(schema.filter(v)))
    requires a in Lineage(schema, v, k).cells
    ensures a == FirstColumn(schema.filter(v))
  {
  }

  ghost function OnlyColumn<T(!new)>(schema: Schema<T>, u: T, o: Owner<T>, v: T, id: int): Column
    requires WellFormed(schema)
  {
    if id != 3 || !Leads(schema, v, u) then FirstColumn(schema.filter(v))
    else if v == u then o.column
    else Leading(schema, v, u).column
  }

  lemma ThirdColumn<T(!new)>(schema: Schema<T>, u: T, o: Owner<T>, v: T, a: Column)
    requires WellFormed(schema) && Leads(schema, v, u) && schema.filter(v).AnyOf?
    requires a in Third(schema, v, u, o).cells
    ensures a == OnlyColumn(schema, u, o, v, 3)
  {
  }

  lemma OneColumn<T(!new)>(schema: Schema<T>, u: T, o: Owner<T>, v: T, id: int, a: Column)
    requires WellFormed(schema) && WellOwned(schema, v) && schema.filter(v).AnyOf? && id in Rows(schema, v, u, o)
    requires a in Rows(schema, v, u, o)[id].cells && a in OwnerColumns(Owners(schema.filter(v)))
    ensures a == OnlyColumn(schema, u, o, v, id)
  {
    if id == 1 || id == 2 {
      LineageColumn(schema, v, id, a);
    } else {
      ThirdColumn(schema, u, o, v, a);
    }
  }

  lemma BeforeHasOneOwner<T(!new)>(schema: Schema<T>, u: T, o: Owner<T>)
    requires Setting(schema, u, o)
    ensures OneOwner(schema, Before(schema, u, o))
  {
    var db := Before(schema, u, o);
    forall v, id, p, q | schema.filter(v).AnyOf? && id in db(v) && p in schema.filter(v).owners
                         && q in schema.filter(v).owners && p.column in db(v)[id].cells
                         && q.column in db(v)[id].cells ensures p == q
    {
      assert schema.scoped(v) && p in Owners(schema.filter(v)) && q in Owners(schema.filter(v));
      OneColumn(schema, u, o, v, id, p.column);
      OneColumn(schema, u, o, v, id, q.column);
    }
  }

  lemma ThirdBelongsToOne<T(!new)>(schema: Schema<T>, u: T, o: Owner<T>)
    requires Setting(schema, u, o)
    ensures InScope(schema, Before(schema, u, o), 1, None, u, 3)
    ensures !InScope(schema, Before(schema, u, o), 2, None, u, 3)
  {
    var db := Before(schema, u, o);
    forall p | p in Owners(schema.filter(u)) ensures InScope(schema, db, 1, None, p.parent, 1) {
      LineageInScope(schema, db, u, o, p.parent, 1);
    }
    FilledInScope(schema, db, 1, u, 3, o, 1);
    BeforeHasOneOwner(schema, u, o);
    if InScope(schema, db, 2, None, u, 3) {
      ScopesAreDisjoint(schema, db, 1, 2, u, 3);
    }
  }

  /** Before, row 3 is not tenant 2's anywhere on the way. */
  lemma {:induction false} NotBefore<T(!new)>(schema: Schema<T>, u: T, o: Owner<T>, v: T)
    requires Setting(schema, u, o) && schema.scoped(v) && Leads(schema, v, u)
    ensures !InScope(schema, Before(schema, u, o), 2, None, v, 3)
    decreases schema.rank(v)
  {
    var db := Before(schema, u, o);
    if v == u {
      ThirdBelongsToOne(schema, u, o);
    } else {
      forall p | p in Owners(schema.filter(v)) && Leads(schema, p.parent, u)
        ensures !InScope(schema, db, 2, None, p.parent, 3)
      {
        NotBefore(schema, u, o, p.parent);
      }
      NoWayIn(schema, db, u, o, v);
    }
  }

  /** The column of a leading owner identifies it. */
  lemma ColumnLeads<T(!new)>(schema: Schema<T>, v: T, u: T, p: Owner<T>)
    requires WellFormed(schema) && WellKeyed(schema) && schema.scoped(v)
    requires p in Owners(schema.filter(v)) && Toward(schema, v, u, p.column)
    ensures Leads(schema, p.parent, u)
  {
    var q :| q in Owners(schema.filter(v)) && q.column == p.column && Leads(schema, q.parent, u);
    assert p == q;
  }

  /** Row 3 on the way: the leading columns say 3, any others 2, and some column leads. */
  lemma DownwardsHolds<T(!new)>(schema: Schema<T>, v: T, u: T)
    requires WellFormed(schema) && v != u && Leads(schema, v, u)
    ensures forall c :: c in Downwards(schema, v, u) && Toward(schema, v, u, c) ==> Downwards(schema, v, u)[c] == 3
    ensures exists p :: p in Owners(schema.filter(v)) && Leads(schema, p.parent, u) && p.column in Downwards(schema, v, u)
    ensures schema.filter(v).AnyOf? ==> forall c :: c in Downwards(schema, v, u) ==> Toward(schema, v, u, c)
    ensures schema.filter(v).AllOf? ==>
              forall c :: c in Downwards(schema, v, u) && !Toward(schema, v, u, c) ==> Downwards(schema, v, u)[c] == 2
    ensures schema.filter(v).AllOf? ==>
              forall p :: p in schema.filter(v).owners ==> p.column in Downwards(schema, v, u)
  {
    var p := Leading(schema, v, u);
    assert Toward(schema, v, u, p.column);
  }

  lemma NoWayIn<T(!new)>(schema: Schema<T>, db: Db<T>, u: T, o: Owner<T>, v: T)
    requires Setting(schema, u, o) && schema.scoped(v) && Leads(schema, v, u) && v != u
    requires 3 in db(v) && db(v)[3].cells == Downwards(schema, v, u)
    requires forall p :: p in Owners(schema.filter(v)) && Leads(schema, p.parent, u) ==>
                           !InScope(schema, db, 2, None, p.parent, 3)
    ensures !InScope(schema, db, 2, None, v, 3)
  {
    DownwardsHolds(schema, v, u);
    if InScope(schema, db, 2, None, v, 3) {
      if schema.filter(v).AllOf? {
        var p := Leading(schema, v, u);
        assert Toward(schema, v, u, p.column);
        EveryOwner(schema, db, 2, v, 3, p);
      } else {
        var q := SomeOwner(schema, db, 2, v, 3);
        ColumnLeads(schema, v, u, q);
      }
    }
  }

  /** Afterwards it is tenant 2's all the way down. */
  lemma {:induction false} TakenAfter<T(!new)>(schema: Schema<T>, u: T, o: Owner<T>, v: T)
    requires Setting(schema, u, o) && schema.scoped(v) && Leads(schema, v, u)
    ensures InScope(schema, After(schema, u, o), 2, None, v, 3)
    decreases schema.rank(v)
  {
    var db := After(schema, u, o);
    forall p | p in Owners(schema.filter(v)) ensures InScope(schema, db, 2, None, p.parent, 2) {
      LineageInScope(schema, db, u, o, p.parent, 2);
    }
    if v == u {
      FilledInScope(schema, db, 2, u, 3, o, 2);
    } else {
      forall p | p in Owners(schema.filter(v)) && Leads(schema, p.parent, u)
        ensures InScope(schema, db, 2, None, p.parent, 3)
      {
        TakenAfter(schema, u, o, p.parent);
      }
      WayIn(schema, db, u, o, v);
    }
  }

  lemma WayIn<T(!new)>(schema: Schema<T>, db: Db<T>, u: T, o: Owner<T>, v: T)
    requires Setting(schema, u, o) && schema.scoped(v) && Leads(schema, v, u) && v != u
    requires 3 in db(v) && db(v)[3].cells == Downwards(schema, v, u)
    requires forall p :: p in Owners(schema.filter(v)) ==> InScope(schema, db, 2, None, p.parent, 2)
    requires forall p :: p in Owners(schema.filter(v)) && Leads(schema, p.parent, u) ==>
                           InScope(schema, db, 2, None, p.parent, 3)
    ensures InScope(schema, db, 2, None, v, 3)
  {
    DownwardsHolds(schema, v, u);
    if schema.filter(v).AllOf? {
      forall p | p in schema.filter(v).owners
        ensures p.column in db(v)[3].cells && InScope(schema, db, 2, None, p.parent, db(v)[3].cells[p.column])
      {
        assert p in Owners(schema.filter(v));
        if Toward(schema, v, u, p.column) {
          ColumnLeads(schema, v, u, p);
        }
      }
    } else {
      var p :| p in Owners(schema.filter(v)) && Leads(schema, p.parent, u) && p.column in Downwards(schema, v, u);
      assert Toward(schema, v, u, p.column);
    }
  }

  // The write.

  lemma HandIsFlushed<T(!new)>(schema: Schema<T>, u: T, o: Owner<T>)
    requires Setting(schema, u, o)
    ensures ValidBatch(Before(schema, u, o), Hand(schema, u, o))
    ensures Flushed(Before(schema, u, o), Hand(schema, u, o), After(schema, u, o))
  {
    var batch := Hand(schema, u, o);
    assert batch[0].table == u && batch[0].id == 3;
    assert Touched(batch, u, 3);
    HandedColumn(schema, u, o, "id");
  }

  lemma HandedColumns<T(!new)>(schema: Schema<T>, u: T, o: Owner<T>, p: Owner<T>)
    requires Setting(schema, u, o) && p in Owners(schema.filter(u))
    requires p.column in Handed(schema, u, o).cells
    ensures !Checked(schema, u, p)
  {
    if schema.filter(u).AnyOf? {
      assert p == o;
    }
  }

  lemma HandedColumn<T(!new)>(schema: Schema<T>, u: T, o: Owner<T>, c: Column)
    requires Setting(schema, u, o)
    ensures c in Handed(schema, u, o).cells ==> c in Needed(schema, u) && c != "id"
    ensures c in schema.required(u) - OwnerColumns(Owners(schema.filter(u))) ==>
              c in Handed(schema, u, o).cells && Handed(schema, u, o).cells[c] == 1
  {
  }

  /** A key that the handed row fills uses none of its owner columns. */
  lemma FilledKeyIsPlain<T(!new)>(schema: Schema<T>, u: T, o: Owner<T>, fk: Fk<T>)
    requires Setting(schema, u, o) && Complete(fk, Handed(schema, u, o))
    requires fk in schema.fks(u) && schema.checked(fk.parent) && fk.parts != []
    ensures Plain(schema, fk) && FilledBy(fk, schema.required(u) - OwnerColumns(Owners(schema.filter(u))))
  {
    forall part | part in fk.parts ensures part.0 in Needed(schema, u) {
      HandedColumn(schema, u, o, part.0);
    }
    forall p | p in Owners(schema.filter(u)) && Uses(fk, p.column) ensures !Checked(schema, u, p) {
      var part :| part in fk.parts && part.0 == p.column;
      HandedColumns(schema, u, o, p);
    }
  }

  /** Row 1 of the parent is what such a key refers to. */
  lemma PlainIsKnown<T(!new)>(schema: Schema<T>, u: T, o: Owner<T>, fk: Fk<T>, part: (Column, Column))
    requires Setting(schema, u, o) && Plain(schema, fk) && part in fk.parts
    ensures Known(schema, Before(schema, u, o), 1, Need(fk.parent, part.1, 1))
  {
    var pre, q := Before(schema, u, o), fk.parent;
    LineageInScope(schema, pre, u, o, q, 1);
    assert 1 in pre(q) && pre(q)[1] == Lineage(schema, q, 1);
    assert Cell(1, pre(q)[1], part.1) == Some(1);
  }

  lemma HandIsNotNull<T(!new)>(schema: Schema<T>, u: T, o: Owner<T>)
    ensures NotNull(schema, Hand(schema, u, o))
  {
  }

  lemma OneWriteAccepted<T(!new)>(schema: Schema<T>, db: Db<T>, tenant: int, w: Write<T>)
    requires WellFormed(schema) && TenantKept(schema, tenant, w) && InScope(schema, db, tenant, None, w.table, w.id)
    requires forall need :: need in Needs(schema, [w], w) ==> Known(schema, db, tenant, need)
    ensures Acceptable(schema, db, tenant, [w])
  {
  }

  lemma HandIsAccepted<T(!new)>(schema: Schema<T>, u: T, o: Owner<T>)
    requires Setting(schema, u, o)
    ensures Acceptable(schema, Before(schema, u, o), 1, Hand(schema, u, o))
    ensures NotNull(schema, Hand(schema, u, o))
  {
    var w := Hand(schema, u, o)[0];
    HandIsNotNull(schema, u, o);
    ThirdBelongsToOne(schema, u, o);
    forall need | need in Needs(schema, [w], w) ensures Known(schema, Before(schema, u, o), 1, need) {
      NeedIsKnown(schema, u, o, need);
    }
    OneWriteAccepted(schema, Before(schema, u, o), 1, w);
  }

  lemma NeedIsKnown<T(!new)>(schema: Schema<T>, u: T, o: Owner<T>, need: Need<T>)
    requires Setting(schema, u, o) && need in Needs(schema, Hand(schema, u, o), Hand(schema, u, o)[0])
    ensures Known(schema, Before(schema, u, o), 1, need)
  {
    var batch := Hand(schema, u, o);
    var fk, part :| fk in schema.fks(u) && part in fk.parts && Complete(fk, batch[0].row)
                    && part.0 in batch[0].row.cells && schema.checked(fk.parent)
                    && need == Need(fk.parent, part.1, batch[0].row.cells[part.0]);
    FilledKeyIsPlain(schema, u, o, fk);
    HandedColumn(schema, u, o, part.0);
    PlainIsKnown(schema, u, o, fk, part);
  }

  /** Through a gap above it, an accepted flush of tenant 1 puts a row of t into tenant 2's scope. */
  lemma GapIntrudes<T(!new)>(schema: Schema<T>, t: T, u: T, o: Owner<T>)
    requires Setting(schema, u, o) && schema.scoped(t) && Leads(schema, t, u)
    ensures
      var pre, post := Before(schema, u, o), After(schema, u, o);
      && Scenario(schema, pre, Hand(schema, u, o), post, 1) && NotNull(schema, Hand(schema, u, o))
      && InScope(schema, post, 2, None, t, 3) && !InScope(schema, pre, 2, None, t, 3)
  {
    BeforeHasOneOwner(schema, u, o);
    HandIsFlushed(schema, u, o);
    HandIsAccepted(schema, u, o);
    NotBefore(schema, u, o, t);
    TakenAfter(schema, u, o, t);
  }

  /** The frame holds exactly for safe tables: those every ancestor of which, and which themselves,
      have the owners checked that their filter needs. */
  lemma FrameIsExact<T(!new)>(schema: Schema<T>, t: T)
    requires WellFormed(schema) && WellKeyed(schema) && schema.scoped(t)
    ensures Protected(schema, t) <==> Safe(schema, t)
  {
    if Safe(schema, t) {
      forall pre: Db<T>, batch: seq<Write<T>>, post: Db<T>, tenant: int, other: int, id: int
        | Scenario(schema, pre, batch, post, tenant) && NotNull(schema, batch) && other != tenant
          && InScope(schema, post, other, None, t, id)
        ensures InScope(schema, pre, other, None, t, id)
      {
        SafeMeansSafeIn(schema, batch, t);
        OthersGainNothing(schema, pre, batch, post, tenant, other, t, id);
      }
    } else {
      var u, o := UnsafeHasGap(schema, t);
      GapIntrudes(schema, t, u, o);
    }
  }
}
