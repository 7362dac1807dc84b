/** The read cache of one session: nested scopes, each with its own dictionary, cleared together. */
module ReadCache {
  import opened Sql

  /** Realm, tenant and user of the session. */
  datatype Context = Context(realm: string, tenant: Option<int>, user: Option<int>)

  /** Namespace and key of an entry. */
  datatype Key = Key(namespace: string, key: string)

  /** A name for what the session can currently see of the database. */
  type View = int

  /** A loader is pure: its value depends on the key, the view and the context alone. */
  type Loader = (Key, View, Context) -> int

  datatype Entry = Entry(transaction: int, context: Context, value: int)

  /** What a cache remembers of a key: the context and the view it was loaded in. */
  datatype Seen = Seen(context: Context, view: View)

  type Memory = map<Key, Seen>

  class Cache {
    var entries: map<Key, Entry>

    /** The views in which the entries were loaded. */
    ghost var views: map<Key, View>

    constructor ()
      ensures entries == map[] && views == map[]
    {
      entries, views := map[], map[];
    }

    ghost function Remembered(): Memory
      reads this
    {
      map k | k in entries && k in views :: Seen(entries[k].context, views[k])
    }
  }

  /** What reads depend on. A transaction is open or not; unflushed edits are pending or not. */
  datatype World = World(view: View, context: Context, open: bool, pending: bool)

  class Session {
    const load: Loader
    var current: Cache?
    var scopes: seq<Cache>
    var context: Context
    var pending: bool
    var transaction: Option<int>
    var nextTransaction: int
    var view: View

    ghost function Now(): World
      reads this
    {
      World(view, context, transaction.Some?, pending)
    }

    /** What the caches on the stack remember, outermost first. */
    ghost function Stack(): seq<Memory>
      reads this, scopes
    {
      seq(|scopes|, i requires 0 <= i < |scopes| reads this, scopes => scopes[i].Remembered())
    }

    /** Every entry of every cache on the stack was loaded in the open transaction, and holds what the
        loader gave in its view and context. */
    ghost predicate EntriesLoaded()
      reads this, scopes
    {
      forall i, k :: 0 <= i < |scopes| && k in scopes[i].entries ==>
        var e := scopes[i].entries[k];
        && transaction == Some(e.transaction) && k in scopes[i].views
        && e.value == load(k, scopes[i].views[k], e.context)
    }

    ghost predicate Nested()
      reads this
    {
      && (forall i, j :: 0 <= i < j < |scopes| ==> scopes[i] != scopes[j])
      && (if scopes == [] then current == null else current == scopes[|scopes| - 1])
    }

    ghost predicate Valid()
      reads this, scopes
    {
      Nested() && EntriesLoaded()
    }

    constructor (load: Loader, context: Context, view: View)
      ensures Valid() && scopes == [] && current == null
      ensures Now() == World(view, context, false, false) && this.load == load
    {
      this.load := load;
      current, scopes := null, [];
      this.context, pending, transaction, nextTransaction := context, false, None, 0;
      this.view := view;
    }

    /** Entering a scope. */
    method Enter() returns (previous: Cache?)
      requires Valid()
      modifies this
      ensures Valid() && previous == old(current) && Now() == old(Now())
      ensures |scopes| == |old(scopes)| + 1 && scopes[..|old(scopes)|] == old(scopes)
      ensures fresh(scopes[|old(scopes)|]) && Stack() == old(Stack()) + [map[]]
    {
      previous := current;
      current := new Cache();
      scopes := scopes + [current];
    }

    /** Leaving it, normally or by an exception. */
    method Exit(previous: Cache?)
      requires Valid() && scopes != []
      requires if |scopes| == 1 then previous == null else previous == scopes[|scopes| - 2]
      modifies this
      ensures Valid() && current == previous && Now() == old(Now())
      ensures scopes == old(scopes)[..|old(scopes)| - 1]
      ensures Stack() == old(Stack())[..|old(scopes)| - 1]
    {
      scopes := scopes[..|scopes| - 1];
      current := previous;
    }

    /** Loading opens a transaction when none is open. */
    method Load(key: Key) returns (value: int)
      modifies this`transaction, this`nextTransaction
      ensures value == load(key, view, context) && transaction.Some?
      ensures old(transaction).Some? ==> transaction == old(transaction)
    {
      if transaction.None? {
        transaction := Some(nextTransaction);
        nextTransaction := nextTransaction + 1;
      }
      return load(key, view, context);
    }

    /** A read through the innermost cache; with pending edits the cache is neither used nor filled. It
        returns what loading gives in the view the answer is from. */
    method CachedRead(key: Key) returns (value: int)
      requires Valid()
      modifies this`transaction, this`nextTransaction, scopes
      ensures Valid() && Now() == old(Now()).(open := true)
      ensures value == load(key, ViewOf(key, old(Now()), old(Stack())), context)
      ensures Stack() == Remember(key, old(Now()), old(Stack()))
    {
      var cache := current;
      if cache == null || pending {
        value := Load(key);
        return;
      }
      assert Stack()[|scopes| - 1] == cache.Remembered();
      if key in cache.entries {
        var e := cache.entries[key];
        if transaction == Some(e.transaction) && e.context == context {
          Answered(Stack(), key, Now());
          value := e.value;
          return;
        }
      }
      value := Load(key);
      Store(key, value);
    }

    /** Remember a value just loaded, in the innermost cache. */
    method Store(key: Key, value: int)
      requires Valid() && scopes != [] && transaction.Some? && value == load(key, view, context)
      modifies current
      ensures Valid()
      ensures Stack() == old(Stack())[|scopes| - 1 := old(Stack())[|scopes| - 1][key := Seen(context, view)]]
    {
      var cache := current;
      ghost var before := cache.Remembered();
      cache.entries := cache.entries[key := Entry(transaction.value, context, value)];
      cache.views := cache.views[key := view];
      assert cache.Remembered() == before[key := Seen(context, view)];
    }

    /** Clear every cache on the stack, not only the innermost. */
    method Clear()
      requires Nested()
      modifies scopes
      ensures forall i :: 0 <= i < |scopes| ==> scopes[i].entries == map[]
      ensures Stack() == Cleared(old(Stack()))
    {
      for i := 0 to |scopes|
        invariant forall k :: 0 <= k < i ==> scopes[k].entries == map[]
      {
        scopes[i].entries := map[];
      }
    }

    method Edit()
      requires Valid()
      modifies this`pending
      ensures Valid() && Now() == old(Now()).(pending := true) && Stack() == old(Stack())
    {
      pending := true;
    }

    /** A flush may change what the session sees, and clears the caches. */
    method Flush(seen: View)
      requires Valid()
      modifies this, scopes
      ensures Valid() && scopes == old(scopes) && current == old(current)
      ensures Now() == World(seen, old(context), true, false) && Stack() == Cleared(old(Stack()))
    {
      if transaction.None? {
        transaction, nextTransaction := Some(nextTransaction), nextTransaction + 1;
      }
      Clear();
      view, pending := seen, false;
    }

    /** A transaction or savepoint ends, by commit or rollback. */
    method EndTransaction(seen: View, savepoint: bool)
      requires Valid()
      modifies this, scopes
      ensures Valid() && scopes == old(scopes) && current == old(current)
      ensures Now() == World(seen, old(context), savepoint && old(transaction).Some?, false)
      ensures Stack() == Cleared(old(Stack()))
    {
      Clear();
      view, pending := seen, false;
      if !savepoint {
        transaction := None;
      }
    }

    method SwitchContext(next: Context)
      requires Valid()
      modifies this`context
      ensures Valid() && Now() == old(Now()).(context := next) && Stack() == old(Stack())
    {
      context := next;
    }

    /** Another session commits. Under READ COMMITTED the next statement sees it, even in an open
        transaction; the caches do not notice. */
    method Elsewhere(seen: View)
      requires Valid()
      modifies this`view
      ensures Valid() && Now() == old(Now()).(view := seen) && Stack() == old(Stack())
    {
      view := seen;
    }

    /** A program in a scope of its own. */
    method RunInside(body: Program) returns (values: seq<int>)
      requires Valid()
      modifies this, scopes
      ensures Valid() && scopes == old(scopes) && current == old(current)
      ensures
        var inner := Cached(load, body, old(Now()), old(Stack()) + [map[]]);
        values == inner.values && Now() == inner.world && Stack() == inner.stack[..|old(scopes)|]
      decreases body, 1
    {
      var previous := Enter();
      values := Run(body);
      Exit(previous);
    }

    /** Any properly nested program reads what its specification with remembered views says, and leaves
        the caller's cache and the depth of the stack as they were. */
    method Run(program: Program) returns (values: seq<int>)
      requires Valid()
      modifies this, scopes
      ensures Valid() && scopes == old(scopes) && current == old(current)
      ensures Outcome(values, Now(), Stack()) == Cached(load, program, old(Now()), old(Stack()))
      decreases program, 0
    {
      match program
      case Done => values := [];
      case Scope(body, rest) =>
        values := RunInside(body);
        var more := Run(rest);
        values := values + more;
      case Then(act, rest) =>
        var first := [];
        match act {
          case Look(key) =>
            var value := CachedRead(key);
            first := [value];
          case Change => Edit();
          case Flushed(seen) => Flush(seen);
          case Ended(seen, savepoint) => EndTransaction(seen, savepoint);
          case Switched(next) => SwitchContext(next);
          case Others(seen) => Elsewhere(seen);
        }
        var more := Run(rest);
        values := first + more;
    }
  }

  datatype Act =
    | Look(key: Key)
    | Change
    | Flushed(seen: View)
    | Ended(seen: View, savepoint: bool)
    | Switched(next: Context)
    | Others(seen: View)

  datatype Program = Done | Then(act: Act, rest: Program) | Scope(body: Program, rest: Program)

  /** What an act does to the world. A read opens a transaction; one answered from the cache finds it
      open, because entries do not outlive their transaction. */
  function After(act: Act, w: World): World {
    match act
    case Look(_) => w.(open := true)
    case Change => w.(pending := true)
    case Flushed(seen) => World(seen, w.context, true, false)
    case Ended(seen, savepoint) => World(seen, w.context, savepoint && w.open, false)
    case Switched(next) => w.(context := next)
    case Others(seen) => w.(view := seen)
  }

  // With remembered views.

  /** The view a cached read answers from. */
  function ViewOf(key: Key, w: World, stack: seq<Memory>): View {
    if stack == [] || w.pending then w.view
    else
      var top := stack[|stack| - 1];
      if key in top && top[key].context == w.context then top[key].view else w.view
  }

  function Remember(key: Key, w: World, stack: seq<Memory>): (r: seq<Memory>)
    ensures |r| == |stack|
  {
    if stack == [] || w.pending then stack
    else
      var last := |stack| - 1;
      stack[last := stack[last][key := Seen(w.context, ViewOf(key, w, stack))]]
  }

  /** An answer from the cache leaves the stack as it is. */
  lemma Answered(stack: seq<Memory>, key: Key, w: World)
    requires stack != [] && !w.pending
    requires key in stack[|stack| - 1] && stack[|stack| - 1][key].context == w.context
    ensures Remember(key, w, stack) == stack
  {
    var top := stack[|stack| - 1];
    assert top[key] == Seen(w.context, ViewOf(key, w, stack));
    assert top[key := top[key]] == top;
  }

  function Cleared(stack: seq<Memory>): seq<Memory> {
    seq(|stack|, i => map[])
  }

  function Memories(act: Act, w: World, stack: seq<Memory>): (r: seq<Memory>)
    ensures |r| == |stack|
  {
    match act
    case Look(key) => Remember(key, w, stack)
    case Flushed(_) => Cleared(stack)
    case Ended(_, _) => Cleared(stack)
    case _ => stack
  }

  datatype Outcome = Outcome(values: seq<int>, world: World, stack: seq<Memory>)

  function Cached(load: Loader, program: Program, w: World, stack: seq<Memory>): (r: Outcome)
    ensures |r.stack| == |stack|
  {
    match program
    case Done => Outcome([], w, stack)
    case Scope(body, rest) =>
      var inner := Cached(load, body, w, stack + [map[]]);
      var more := Cached(load, rest, inner.world, inner.stack[..|stack|]);
      more.(values := inner.values + more.values)
    case Then(act, rest) =>
      var first := if act.Look? then [load(act.key, ViewOf(act.key, w, stack), w.context)] else [];
      var more := Cached(load, rest, After(act, w), Memories(act, w, stack));
      more.(values := first + more.values)
  }

  // Without any cache.

  function Uncached(load: Loader, program: Program, w: World): (seq<int>, World) {
    match program
    case Done => ([], w)
    case Scope(body, rest) =>
      var (first, mid) := Uncached(load, body, w);
      var (more, end) := Uncached(load, rest, mid);
      (first + more, end)
    case Then(act, rest) =>
      var first := if act.Look? then [load(act.key, w.view, w.context)] else [];
      var (more, end) := Uncached(load, rest, After(act, w));
      (first + more, end)
  }

  /** Every read of the program answers from a view in which its key loads as it does now. */
  ghost predicate Current(load: Loader, program: Program, w: World, stack: seq<Memory>) {
    match program
    case Done => true
    case Scope(body, rest) =>
      var inner := Cached(load, body, w, stack + [map[]]);
      && Current(load, body, w, stack + [map[]])
      && Current(load, rest, inner.world, inner.stack[..|stack|])
    case Then(act, rest) =>
      && (act.Look? ==>
            load(act.key, ViewOf(act.key, w, stack), w.context) == load(act.key, w.view, w.context))
      && Current(load, rest, After(act, w), Memories(act, w, stack))
  }

  lemma Concatenated<T>(a: seq<T>, b: seq<T>, c: seq<T>, d: seq<T>)
    requires |a| == |c|
    ensures a + b == c + d <==> a == c && b == d
  {
    if a + b == c + d {
      assert (a + b)[..|a|] == a && (c + d)[..|a|] == c;
      assert (a + b)[|a|..] == b && (c + d)[|a|..] == d;
    }
  }

  /** For one loader: the cached program reads as often and leaves the same world, and reads the same
      values if and only if each read agrees. */
  lemma {:induction false} CachedExactlyWhenCurrent(load: Loader, program: Program, w: World, stack: seq<Memory>)
    ensures
      var cached, uncached := Cached(load, program, w, stack), Uncached(load, program, w);
      && |cached.values| == |uncached.0| && cached.world == uncached.1
      && (cached.values == uncached.0 <==> Current(load, program, w, stack))
    decreases program
  {
    match program
    case Done =>
    case Scope(body, rest) =>
      var inner := Cached(load, body, w, stack + [map[]]);
      CachedExactlyWhenCurrent(load, body, w, stack + [map[]]);
      CachedExactlyWhenCurrent(load, rest, inner.world, inner.stack[..|stack|]);
      Concatenated(inner.values, Cached(load, rest, inner.world, inner.stack[..|stack|]).values,
                   Uncached(load, body, w).0, Uncached(load, rest, inner.world).0);
    case Then(act, rest) =>
      var next, memories := After(act, w), Memories(act, w, stack);
      CachedExactlyWhenCurrent(load, rest, next, memories);
      var answered := if act.Look? then [load(act.key, ViewOf(act.key, w, stack), w.context)] else [];
      var loaded := if act.Look? then [load(act.key, w.view, w.context)] else [];
      Concatenated(answered, Cached(load, rest, next, memories).values, loaded, Uncached(load, rest, next).0);
  }

  // For every loader.

  function End(program: Program, w: World): World {
    match program
    case Done => w
    case Scope(body, rest) => End(rest, End(body, w))
    case Then(act, rest) => End(rest, After(act, w))
  }

  /** The stack a program leaves, which does not depend on what is loaded. */
  function Left(program: Program, w: World, stack: seq<Memory>): (r: seq<Memory>)
    ensures |r| == |stack|
  {
    match program
    case Done => stack
    case Scope(body, rest) => Left(rest, End(body, w), Left(body, w, stack + [map[]])[..|stack|])
    case Then(act, rest) => Left(rest, After(act, w), Memories(act, w, stack))
  }

  /** Every read answers from the view of now: what it finds in a cache was remembered in that view.
      Nothing is loaded to find out. */
  predicate ViewsCurrent(program: Program, w: World, stack: seq<Memory>) {
    match program
    case Done => true
    case Scope(body, rest) =>
      && ViewsCurrent(body, w, stack + [map[]])
      && ViewsCurrent(rest, End(body, w), Left(body, w, stack + [map[]])[..|stack|])
    case Then(act, rest) =>
      && (act.Look? ==> ViewOf(act.key, w, stack) == w.view)
      && ViewsCurrent(rest, After(act, w), Memories(act, w, stack))
  }

  lemma {:induction false} CachedLeaves(load: Loader, program: Program, w: World, stack: seq<Memory>)
    ensures Cached(load, program, w, stack).world == End(program, w)
    ensures Cached(load, program, w, stack).stack == Left(program, w, stack)
    decreases program
  {
    match program
    case Done =>
    case Scope(body, rest) =>
      CachedLeaves(load, body, w, stack + [map[]]);
      CachedLeaves(load, rest, End(body, w), Left(body, w, stack + [map[]])[..|stack|]);
    case Then(act, rest) =>
      CachedLeaves(load, rest, After(act, w), Memories(act, w, stack));
  }

  lemma {:induction false} CurrentViewsLoadTheSame(load: Loader, program: Program, w: World, stack: seq<Memory>)
    requires ViewsCurrent(program, w, stack)
    ensures Current(load, program, w, stack)
    decreases program
  {
    match program
    case Done =>
    case Scope(body, rest) =>
      CachedLeaves(load, body, w, stack + [map[]]);
      CurrentViewsLoadTheSame(load, body, w, stack + [map[]]);
      CurrentViewsLoadTheSame(load, rest, End(body, w), Left(body, w, stack + [map[]])[..|stack|]);
    case Then(act, rest) =>
      CurrentViewsLoadTheSame(load, rest, After(act, w), Memories(act, w, stack));
  }

  /** A loader that returns the view it loads in. */
  function Tell(key: Key, view: View, context: Context): int {
    view
  }

  lemma {:induction false} TellingShowsViews(program: Program, w: World, stack: seq<Memory>)
    requires Current(Tell, program, w, stack)
    ensures ViewsCurrent(program, w, stack)
    decreases program
  {
    match program
    case Done =>
    case Scope(body, rest) =>
      CachedLeaves(Tell, body, w, stack + [map[]]);
      TellingShowsViews(body, w, stack + [map[]]);
      TellingShowsViews(rest, End(body, w), Left(body, w, stack + [map[]])[..|stack|]);
    case Then(act, rest) =>
      TellingShowsViews(rest, After(act, w), Memories(act, w, stack));
  }

  ghost predicate Transparent(program: Program, w: World, stack: seq<Memory>) {
    forall load: Loader :: Cached(load, program, w, stack).values == Uncached(load, program, w).0
  }

  /** A program reads the same with and without cache, whatever the loader, if and only if every cached
      answer comes from the view of the moment. */
  lemma TransparentExactlyWhen(program: Program, w: World, stack: seq<Memory>)
    ensures Transparent(program, w, stack) <==> ViewsCurrent(program, w, stack)
  {
    if ViewsCurrent(program, w, stack) {
      forall load: Loader ensures Cached(load, program, w, stack).values == Uncached(load, program, w).0 {
        CurrentViewsLoadTheSame(load, program, w, stack);
        CachedExactlyWhenCurrent(load, program, w, stack);
      }
    }
    if Transparent(program, w, stack) {
      CachedExactlyWhenCurrent(Tell, program, w, stack);
      assert Cached(Tell, program, w, stack).values == Uncached(Tell, program, w).0;
      TellingShowsViews(program, w, stack);
    }
  }

  // When a read is answered from the cache.

  /** With pending edits, outside any scope, or in a context the key was not read in, a read loads now;
      with pending edits it is not remembered either. */
  lemma ReadsThatLoad(load: Loader, key: Key, w: World, stack: seq<Memory>)
    requires w.pending || stack == [] || key !in stack[|stack| - 1] || stack[|stack| - 1][key].context != w.context
    ensures
      var read := Cached(load, Then(Look(key), Done), w, stack);
      && read.values == [load(key, w.view, w.context)] && read.world == w.(open := true)
      && (w.pending || stack == [] ==> read.stack == stack)
      && (!w.pending && stack != [] ==>
            read.stack == stack[..|stack| - 1] + [stack[|stack| - 1][key := Seen(w.context, w.view)]])
  {
    assert Cached(load, Done, w.(open := true), Remember(key, w, stack)) == Outcome([], w.(open := true), Remember(key, w, stack));
  }

  /** Nothing but reads, own and nested, and commits of others. */
  predicate Calm(program: Program) {
    match program
    case Done => true
    case Scope(body, rest) => Calm(body) && Calm(rest)
    case Then(act, rest) => (act.Look? || act.Others?) && Calm(rest)
  }

  lemma {:induction false} CalmKeepsOuterCaches(program: Program, w: World, stack: seq<Memory>)
    requires Calm(program) && stack != []
    ensures Left(program, w, stack)[..|stack| - 1] == stack[..|stack| - 1]
    ensures End(program, w).context == w.context && End(program, w).pending == w.pending
    decreases program
  {
    match program
    case Done =>
    case Scope(body, rest) =>
      CalmKeepsOuterCaches(body, w, stack + [map[]]);
      assert Left(body, w, stack + [map[]])[..|stack|] == stack;
      CalmKeepsOuterCaches(rest, End(body, w), stack);
    case Then(act, rest) =>
      CalmKeepsOuterCaches(rest, After(act, w), Memories(act, w, stack));
  }

  lemma {:induction false} CalmKeepsTheKey(program: Program, w: World, stack: seq<Memory>, key: Key)
    requires Calm(program) && stack != []
    requires key in stack[|stack| - 1] && stack[|stack| - 1][key].context == w.context
    ensures
      var top := Left(program, w, stack)[|stack| - 1];
      key in top && top[key] == stack[|stack| - 1][key]
    decreases program
  {
    match program
    case Done =>
    case Scope(body, rest) =>
      CalmKeepsOuterCaches(body, w, stack + [map[]]);
      assert Left(body, w, stack + [map[]])[..|stack|] == stack;
      CalmKeepsTheKey(rest, End(body, w), stack, key);
    case Then(act, rest) =>
      CalmKeepsTheKey(rest, After(act, w), Memories(act, w, stack), key);
  }

  /** Reads are repeatable within a scope: a key read again reads the same, whatever is read in between,
      in nested scopes too, and whatever others commit meanwhile. */
  lemma ReadsAreRepeatable(load: Loader, key: Key, between: Program, w: World, stack: seq<Memory>)
    requires Calm(between) && stack != [] && !w.pending
    ensures
      var before := Cached(load, Then(Look(key), between), w, stack);
      Cached(load, Then(Look(key), Done), before.world, before.stack).values == [before.values[0]]
  {
    var next, stored := w.(open := true), Remember(key, w, stack);
    CachedLeaves(load, between, next, stored);
    CalmKeepsOuterCaches(between, next, stored);
    CalmKeepsTheKey(between, next, stored, key);
  }

  // No foreign commit inside a transaction.

  /** Other sessions commit only while this one has no transaction open. */
  predicate Quiet(program: Program, w: World) {
    match program
    case Done => true
    case Scope(body, rest) => Quiet(body, w) && Quiet(rest, End(body, w))
    case Then(act, rest) => (act.Others? ==> !w.open) && Quiet(rest, After(act, w))
  }

  /** What is remembered was seen in the view of now, in the open transaction. */
  ghost predicate Fresh(w: World, stack: seq<Memory>) {
    forall i, k :: 0 <= i < |stack| && k in stack[i] ==> w.open && stack[i][k].view == w.view
  }

  lemma FreshAct(act: Act, w: World, stack: seq<Memory>)
    requires Fresh(w, stack) && (act.Others? ==> !w.open)
    ensures Fresh(After(act, w), Memories(act, w, stack))
  {
  }

  lemma {:induction false} QuietViewsAreCurrent(program: Program, w: World, stack: seq<Memory>)
    requires Fresh(w, stack) && Quiet(program, w)
    ensures Fresh(End(program, w), Left(program, w, stack))
    ensures ViewsCurrent(program, w, stack)
    decreases program
  {
    match program
    case Done =>
    case Scope(body, rest) =>
      QuietViewsAreCurrent(body, w, stack + [map[]]);
      QuietViewsAreCurrent(rest, End(body, w), Left(body, w, stack + [map[]])[..|stack|]);
    case Then(act, rest) =>
      FreshAct(act, w, stack);
      QuietViewsAreCurrent(rest, After(act, w), Memories(act, w, stack));
  }

  /** Then the cache cannot be told from no cache. */
  lemma QuietProgramsAreTransparent(program: Program, w: World, stack: seq<Memory>)
    requires Fresh(w, stack) && Quiet(program, w)
    ensures Transparent(program, w, stack)
  {
    QuietViewsAreCurrent(program, w, stack);
    TransparentExactlyWhen(program, w, stack);
  }

  // Nesting.

  /** q after p, without a scope around p. */
  function Append(p: Program, q: Program): Program {
    match p
    case Done => q
    case Scope(body, rest) => Scope(body, Append(rest, q))
    case Then(act, rest) => Then(act, Append(rest, q))
  }

  function Flatten(p: Program): Program {
    match p
    case Done => Done
    case Scope(body, rest) => Append(Flatten(body), Flatten(rest))
    case Then(act, rest) => Then(act, Flatten(rest))
  }

  lemma {:induction false} AppendRuns(load: Loader, p: Program, q: Program, w: World)
    ensures
      var (first, mid) := Uncached(load, p, w);
      var (more, end) := Uncached(load, q, mid);
      Uncached(load, Append(p, q), w) == (first + more, end)
    ensures Uncached(load, p, w).1 == End(p, w)
    ensures Quiet(Append(p, q), w) <==> Quiet(p, w) && Quiet(q, End(p, w))
    decreases p
  {
    match p
    case Done =>
      var (more, end) := Uncached(load, q, w);
      assert [] + more == more;
    case Scope(body, rest) =>
      var (inner, mid) := Uncached(load, body, w);
      AppendRuns(load, body, Done, w);
      AppendRuns(load, rest, q, mid);
      var (first, later) := Uncached(load, rest, mid);
      var (more, end) := Uncached(load, q, later);
      assert inner + (first + more) == (inner + first) + more;
    case Then(act, rest) =>
      AppendRuns(load, rest, q, After(act, w));
      var seen := if act.Look? then [load(act.key, w.view, w.context)] else [];
      var (first, later) := Uncached(load, rest, After(act, w));
      var (more, end) := Uncached(load, q, later);
      assert seen + (first + more) == (seen + first) + more;
  }

  lemma {:induction false} FlatRuns(load: Loader, p: Program, w: World)
    ensures Uncached(load, Flatten(p), w) == Uncached(load, p, w)
    ensures Quiet(Flatten(p), w) <==> Quiet(p, w)
    decreases p
  {
    match p
    case Done =>
    case Scope(body, rest) =>
      var (inner, mid) := Uncached(load, body, w);
      FlatRuns(load, body, w);
      FlatRuns(load, rest, mid);
      AppendRuns(load, body, Done, w);
      AppendRuns(load, Flatten(body), Flatten(rest), w);
    case Then(act, rest) =>
      FlatRuns(load, rest, After(act, w));
  }

  /** In a quiet program it does not matter how cached reads are nested in scopes, nor from which fresh
      stack they start. */
  lemma NestingDoesNotMatter(load: Loader, p: Program, w: World, here: seq<Memory>, there: seq<Memory>)
    requires Fresh(w, here) && Fresh(w, there) && Quiet(p, w)
    ensures Cached(load, p, w, here).values == Cached(load, Flatten(p), w, there).values
  {
    FlatRuns(load, p, w);
    QuietProgramsAreTransparent(p, w, here);
    QuietProgramsAreTransparent(Flatten(p), w, there);
  }

  const KEY := Key("n", "k")

  /** A read, a foreign commit, and a second read that may lie in a scope of its own. */
  function Interrupted(scoped: bool): Program {
    var again := Then(Look(KEY), Done);
    Then(Look(KEY), Then(Others(1), if scoped then Scope(again, Done) else again))
  }

  /** With a foreign commit inside the transaction it does: the outer scope goes on answering from the
      old view, while an inner scope loads the new one. */
  lemma NestingMattersOtherwise(context: Context)
    ensures
      var load: Loader := (key, view, c) => view;
      var w := World(0, context, false, false);
      && Cached(load, Interrupted(false), w, [map[]]).values == [0, 0]
      && Cached(load, Interrupted(true), w, [map[]]).values == [0, 1]
      && Uncached(load, Interrupted(false), w).0 == [0, 1]
  {
    var load: Loader := (key, view, c) => view;
    var w := World(0, context, false, false);
    var later, memory := World(1, context, true, false), map[KEY := Seen(context, 0)];
    var again := Then(Look(KEY), Done);
    assert Memories(Look(KEY), w, [map[]]) == [memory];
    assert Cached(load, again, later, [memory]).values == [0] + [];
    assert Cached(load, again, later, [memory] + [map[]]).values == [1] + [];
    assert Cached(load, Scope(again, Done), later, [memory]).values == [1] + [] + [];
    assert Uncached(load, again, later).0 == [1] + [];
    assert After(Others(1), After(Look(KEY), w)) == later;
    assert Uncached(load, Then(Others(1), again), After(Look(KEY), w)).0 == [1];
    assert [0] + [1] == [0, 1];
  }
}
