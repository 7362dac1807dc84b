/** Splicing a guarded fragment into stored function definitions, and taking it out again. */
module Splice {
  import opened Sql

  // Searching text.

  ghost predicate Occurs(t: string, d: string, p: nat) {
    p + |t| <= |d| && d[p..p + |t|] == t
  }

  ghost predicate Contains(t: string, d: string) {
    exists p: nat :: Occurs(t, d, p)
  }

  /** The first occurrence at or after `from`. */
  function Find(t: string, d: string, from: nat): (r: Option<nat>)
    ensures r.Some? ==> r.value >= from && Occurs(t, d, r.value)
    ensures r.Some? ==> forall q: nat :: from <= q < r.value ==> !Occurs(t, d, q)
    ensures r.None? ==> forall q: nat :: q >= from ==> !Occurs(t, d, q)
    decreases |d| - from
  {
    if from + |t| > |d| then None
    else if d[from..from + |t|] == t then Some(from)
    else Find(t, d, from + 1)
  }

  /** Occurrences that do not overlap, from left to right. */
  function Count(t: string, d: string, from: nat): nat
    requires t != []
    decreases |d| - from
  {
    match Find(t, d, from)
    case None => 0
    case Some(p) => 1 + Count(t, d, p + |t|)
  }

  // The word BEGIN.

  /** Which characters are word characters is left open. */
  type WordChar = char -> bool

  const BEGIN := "BEGIN"

  function WordAt(word: WordChar, d: string, p: int): bool {
    0 <= p < |d| && word(d[p])
  }

  function Boundary(word: WordChar, d: string, p: int): bool {
    WordAt(word, d, p - 1) != WordAt(word, d, p)
  }

  predicate BeginAt(word: WordChar, d: string, p: nat) {
    p + |BEGIN| <= |d| && d[p..p + |BEGIN|] == BEGIN && Boundary(word, d, p) && Boundary(word, d, p + |BEGIN|)
  }

  function FindBegin(word: WordChar, d: string, from: nat): (r: Option<nat>)
    ensures r.Some? ==> r.value >= from && BeginAt(word, d, r.value)
    ensures r.Some? ==> forall q: nat :: from <= q < r.value ==> !BeginAt(word, d, q)
    ensures r.None? ==> forall q: nat :: q >= from ==> !BeginAt(word, d, q)
    decreases |d| - from
  {
    if from + |BEGIN| > |d| then None
    else if BeginAt(word, d, from) then Some(from)
    else FindBegin(word, d, from + 1)
  }

  // One definition.

  const MARKER := "guest-fixed-approval-v1"

  datatype Refusal = AlreadyPresent | UnknownGuard | UnexpectedGuard | NoSuchFunction

  datatype Outcome<T> = Ok(value: T) | Refused(why: Refusal)

  function Insert(word: WordChar, d: string, fragment: string): Outcome<string> {
    if Find(MARKER, d, 0).Some? then Refused(AlreadyPresent)
    else
      match FindBegin(word, d, 0)
      case None => Refused(UnknownGuard)
      case Some(p) => Ok(d[..p + |BEGIN|] + fragment + d[p + |BEGIN|..])
  }

  function Remove(d: string, fragment: string): Outcome<string>
    requires fragment != []
  {
    if Count(fragment, d, 0) != 1 then Refused(UnexpectedGuard)
    else
      match Find(fragment, d, 0)
      case None => assert false; Refused(UnexpectedGuard)
      case Some(p) => Ok(d[..p] + d[p + |fragment|..])
  }

  /** A fragment made of whole lines, the marker on exactly one of them. */
  ghost predicate WholeLines(fragment: string, at: nat) {
    && |fragment| >= 2 && fragment[0] == '\n' && fragment[|fragment| - 1] == '\n'
    && Occurs(MARKER, fragment, at)
    && forall q: nat :: Occurs(MARKER, fragment, q) ==> q == at
  }

  lemma OccursChar(t: string, d: string, p: nat, k: nat)
    requires Occurs(t, d, p) && k < |t|
    ensures d[p + k] == t[k]
  {
    assert d[p..p + |t|][k] == t[k];
  }

  lemma OccursBy(t: string, d: string, p: nat)
    requires p + |t| <= |d| && forall k :: 0 <= k < |t| ==> d[p + k] == t[k]
    ensures Occurs(t, d, p)
  {
  }

  /** The marker has no line break, so an occurrence never crosses one. */
  lemma MarkerStaysOnItsLine(d: string, p: nat, line: nat)
    requires Occurs(MARKER, d, p) && line < |d| && d[line] == '\n'
    ensures line < p || p + |MARKER| <= line
  {
    if p <= line < p + |MARKER| {
      OccursChar(MARKER, d, p, line - p);
      assert MARKER[line - p] == '\n';
      MarkerHasNoBreak(line - p);
    }
  }

  lemma MarkerHasNoBreak(k: nat)
    requires k < |MARKER|
    ensures MARKER[k] != '\n'
  {
  }

  /** After insertion the marker occurs where the fragment put it and nowhere else. */
  lemma MarkerOnlyInFragment(pre: string, fragment: string, post: string, at: nat, q: nat)
    requires WholeLines(fragment, at) && !Contains(MARKER, pre + post)
    requires Occurs(MARKER, pre + fragment + post, q)
    ensures q == |pre| + at
  {
    var d := pre + fragment + post;
    assert d[|pre|] == '\n' && d[|pre| + |fragment| - 1] == '\n';
    MarkerStaysOnItsLine(d, q, |pre|);
    MarkerStaysOnItsLine(d, q, |pre| + |fragment| - 1);
    forall k | 0 <= k < |MARKER| ensures d[q + k] == MARKER[k] {
      OccursChar(MARKER, d, q, k);
    }
    if q + |MARKER| <= |pre| {
      OccursBy(MARKER, pre + post, q);
    } else if q > |pre| + |fragment| - 1 {
      OccursBy(MARKER, pre + post, q - |fragment|);
    } else {
      OccursBy(MARKER, fragment, q - |pre|);
    }
  }

  lemma OccursInside(inner: string, t: string, d: string, p: nat, k: nat)
    requires Occurs(inner, t, k) && Occurs(t, d, p)
    ensures Occurs(inner, d, p + k)
  {
    forall j | 0 <= j < |inner| ensures d[p + k + j] == inner[j] {
      OccursChar(inner, t, k, j);
      OccursChar(t, d, p, k + j);
    }
    OccursBy(inner, d, p + k);
  }

  /** The fragment occurs exactly where it was inserted. */
  lemma FragmentOccursOnce(pre: string, fragment: string, post: string, at: nat, q: nat)
    requires WholeLines(fragment, at) && !Contains(MARKER, pre + post)
    ensures Occurs(fragment, pre + fragment + post, q) <==> q == |pre|
  {
    var d := pre + fragment + post;
    assert d[|pre|..|pre| + |fragment|] == fragment;
    if Occurs(fragment, d, q) {
      OccursInside(MARKER, fragment, d, q, at);
      MarkerOnlyInFragment(pre, fragment, post, at, q + at);
    }
  }

  lemma RemoveUndoesInsertion(pre: string, fragment: string, post: string, at: nat)
    requires WholeLines(fragment, at) && !Contains(MARKER, pre + post)
    ensures Count(fragment, pre + fragment + post, 0) == 1
    ensures Remove(pre + fragment + post, fragment) == Ok(pre + post)
  {
    var d := pre + fragment + post;
    forall q: nat ensures Occurs(fragment, d, q) <==> q == |pre| {
      FragmentOccursOnce(pre, fragment, post, at, q);
    }
    assert Occurs(fragment, d, |pre|);
    assert Find(fragment, d, 0) == Some(|pre|);
    assert Find(fragment, d, |pre| + |fragment|) == None;
    assert d[..|pre|] == pre && d[|pre| + |fragment|..] == post;
  }

  /** Insertion is accepted exactly when the marker is absent and the word BEGIN is present; the
      fragment then occurs once, removing it gives the definition back, and a second insertion is
      refused. */
  lemma RoundTrip(word: WordChar, d: string, fragment: string, at: nat)
    requires WholeLines(fragment, at)
    ensures Insert(word, d, fragment).Ok? <==> !Contains(MARKER, d) && exists p: nat :: BeginAt(word, d, p)
    ensures Insert(word, d, fragment).Ok? ==>
              var spliced := Insert(word, d, fragment).value;
              && Count(fragment, spliced, 0) == 1
              && Remove(spliced, fragment) == Ok(d)
              && forall other :: Insert(word, spliced, other) == Refused(AlreadyPresent)
  {
    if Insert(word, d, fragment).Ok? {
      var p := FindBegin(word, d, 0).value + |BEGIN|;
      var pre, post := d[..p], d[p..];
      assert pre + post == d;
      RemoveUndoesInsertion(pre, fragment, post, at);
      FragmentOccursOnce(pre, fragment, post, at, |pre|);
      OccursInside(MARKER, fragment, pre + fragment + post, |pre|, at);
    }
  }

  /** The fragment goes right after the first BEGIN that is a word of its own. */
  lemma FragmentFollowsBegin(word: WordChar, d: string, fragment: string)
    requires word('B') && word('N')
    ensures
      match Insert(word, d, fragment)
      case Ok(r) =>
        exists p: nat ::
          && p + 5 <= |d| && r == d[..p + 5] + fragment + d[p + 5..]
          && WordBegin(word, d, p) && forall q: nat :: q < p ==> !WordBegin(word, d, q)
      case Refused(why) =>
        if Contains(MARKER, d) then why == AlreadyPresent
        else why == UnknownGuard && forall q: nat :: !WordBegin(word, d, q)
  {
    forall p: nat ensures BeginAt(word, d, p) <==> WordBegin(word, d, p) {
      if p + 5 <= |d| && d[p..p + 5] == "BEGIN" {
        assert d[p] == d[p..p + 5][0] == 'B' && d[p + 4] == d[p..p + 5][4] == 'N';
      }
    }
    if Insert(word, d, fragment).Ok? {
      assert WordBegin(word, d, FindBegin(word, d, 0).value);
    }
  }

  ghost predicate WordBegin(word: WordChar, d: string, p: nat) {
    && p + 5 <= |d| && d[p..p + 5] == "BEGIN"
    && (p > 0 ==> !word(d[p - 1])) && (p + 5 < |d| ==> !word(d[p + 5]))
  }

  lemma OneMeansNoNext(t: string, d: string)
    requires t != []
    ensures Count(t, d, 0) == 1 <==>
              Find(t, d, 0).Some? && Find(t, d, Find(t, d, 0).value + |t|).None?
  {
    if Find(t, d, 0).Some? {
      var next := Find(t, d, 0).value + |t|;
      assert Count(t, d, 0) == 1 + Count(t, d, next);
    }
  }

  /** Removal takes out the only occurrence, and is refused when there is none or another after it. */
  lemma RemovalTakesOutTheOnlyOne(d: string, fragment: string)
    requires fragment != []
    ensures
      match Remove(d, fragment)
      case Ok(r) => exists p: nat :: OnlyAt(fragment, d, p) && r == d[..p] + d[p + |fragment|..]
      case Refused(why) => why == UnexpectedGuard && forall p: nat :: !OnlyAt(fragment, d, p)
  {
    OneMeansNoNext(fragment, d);
    if first: nat :| OnlyAt(fragment, d, first) {
      assert Find(fragment, d, 0) == Some(first);
      assert Find(fragment, d, first + |fragment|) == None;
    }
    if Remove(d, fragment).Ok? {
      var first := Find(fragment, d, 0).value;
      assert OnlyAt(fragment, d, first);
    }
  }

  /** The first occurrence, and none follows it without overlap. */
  ghost predicate OnlyAt(t: string, d: string, p: nat) {
    && Occurs(t, d, p) && (forall q: nat :: q < p ==> !Occurs(t, d, q))
    && forall q: nat :: q >= p + |t| ==> !Occurs(t, d, q)
  }

  // The fragments of the migration: a marker line, then the lines of a body without the marker.

  const LEAD := "\n          -- "

  const HEADER := LEAD + MARKER + "\n"

  lemma HeaderHasOneMarker(q: nat)
    requires q < |HEADER|
    ensures HEADER[q] == MARKER[0] <==> q == |LEAD|
  {
    if q < |LEAD| {
      assert HEADER[q] == LEAD[q];
    } else if q < |LEAD| + |MARKER| {
      assert HEADER[q] == MARKER[q - |LEAD|];
    }
  }

  lemma MarkedBodyIsWholeLines(body: string)
    requires !Contains(MARKER, body) && (body == [] || body[|body| - 1] == '\n')
    ensures WholeLines(HEADER + body, |LEAD|)
  {
    var f := HEADER + body;
    assert f == LEAD + MARKER + ("\n" + body);
    assert Occurs(MARKER, f, |LEAD|);
    forall q: nat | Occurs(MARKER, f, q) ensures q == |LEAD| {
      OccursChar(MARKER, f, q, 0);
      assert f[|HEADER| - 1] == '\n';
      MarkerStaysOnItsLine(f, q, |HEADER| - 1);
      if q >= |HEADER| {
        assert Occurs(MARKER, body, q - |HEADER|);
      } else {
        HeaderHasOneMarker(q);
      }
    }
  }

  // All functions of the migration.

  datatype Direction = Forward | Reverse

  datatype Edit = Edit(name: string, fragment: string, at: nat)

  ghost predicate Marked(edits: seq<Edit>) {
    && (forall i :: 0 <= i < |edits| ==> WholeLines(edits[i].fragment, edits[i].at))
    && (forall i, j :: 0 <= i < j < |edits| ==> edits[i].name != edits[j].name)
  }

  function Change(word: WordChar, direction: Direction, d: string, fragment: string): Outcome<string>
    requires fragment != []
  {
    match direction
    case Forward => Insert(word, d, fragment)
    case Reverse => Remove(d, fragment)
  }

  predicate Fits(word: WordChar, direction: Direction, definitions: map<string, string>, edit: Edit)
    requires edit.fragment != []
  {
    edit.name in definitions && Change(word, direction, definitions[edit.name], edit.fragment).Ok?
  }

  /** The definitions after a pass over the first n edits, whatever their order. */
  ghost predicate Edited(word: WordChar, direction: Direction, before: map<string, string>, edits: seq<Edit>, n: nat,
                         after: map<string, string>)
    requires n <= |edits| && Marked(edits)
  {
    && after.Keys == before.Keys
    && (forall i :: 0 <= i < n ==>
          && Fits(word, direction, before, edits[i])
          && Ok(after[edits[i].name]) == Change(word, direction, before[edits[i].name], edits[i].fragment))
    && (forall name :: name in before && (forall i :: 0 <= i < n ==> edits[i].name != name) ==>
          after[name] == before[name])
  }

  lemma EditedStep(word: WordChar, direction: Direction, before: map<string, string>, edits: seq<Edit>, n: nat,
                   now: map<string, string>)
    requires n < |edits| && Marked(edits) && Edited(word, direction, before, edits, n, now)
    ensures Fits(word, direction, now, edits[n]) <==> Fits(word, direction, before, edits[n])
    ensures Fits(word, direction, now, edits[n]) ==>
              var changed := Change(word, direction, now[edits[n].name], edits[n].fragment);
              Edited(word, direction, before, edits, n + 1, now[edits[n].name := changed.value])
  {
    assert edits[n].name in before ==> now[edits[n].name] == before[edits[n].name];
  }

  class Functions {
    var definitions: map<string, string>

    constructor (definitions: map<string, string>)
      ensures this.definitions == definitions
    {
      this.definitions := definitions;
    }

    /** Rewrites the functions one by one and stops at the first that does not fit. */
    method Splice(word: WordChar, direction: Direction, edits: seq<Edit>) returns (refused: Option<Refusal>)
      requires Marked(edits)
      modifies this
      ensures refused.None? <==> forall i :: 0 <= i < |edits| ==> Fits(word, direction, old(definitions), edits[i])
      ensures refused.None? ==> Edited(word, direction, old(definitions), edits, |edits|, definitions)
    {
      var n := 0;
      while n < |edits|
        invariant 0 <= n <= |edits|
        invariant Edited(word, direction, old(definitions), edits, n, definitions)
      {
        var edit := edits[n];
        EditedStep(word, direction, old(definitions), edits, n, definitions);
        if edit.name !in definitions {
          return Some(NoSuchFunction);
        }
        var changed := Change(word, direction, definitions[edit.name], edit.fragment);
        if changed.Refused? {
          return Some(changed.why);
        }
        definitions := definitions[edit.name := changed.value];
        n := n + 1;
      }
      return None;
    }
  }

  /** Downgrading right after upgrading always succeeds and restores every definition, and upgrading
      twice is refused at the first function. */
  lemma DowngradeRestores(word: WordChar, edits: seq<Edit>, before: map<string, string>, spliced: map<string, string>)
    requires Marked(edits) && Edited(word, Forward, before, edits, |edits|, spliced)
    ensures forall i :: 0 <= i < |edits| ==> Fits(word, Reverse, spliced, edits[i])
    ensures forall i :: 0 <= i < |edits| ==> !Fits(word, Forward, spliced, edits[i])
    ensures forall after :: Edited(word, Reverse, spliced, edits, |edits|, after) ==> after == before
  {
    forall i | 0 <= i < |edits|
      ensures Fits(word, Reverse, spliced, edits[i]) && !Fits(word, Forward, spliced, edits[i])
      ensures Change(word, Reverse, spliced[edits[i].name], edits[i].fragment) == Ok(before[edits[i].name])
    {
      RoundTrip(word, before[edits[i].name], edits[i].fragment, edits[i].at);
    }
    forall after | Edited(word, Reverse, spliced, edits, |edits|, after) ensures after == before {
      forall name | name in before ensures after[name] == before[name] {
        if i :| 0 <= i < |edits| && edits[i].name == name {
          assert Ok(after[name]) == Ok(before[name]);
        }
      }
    }
  }
}
