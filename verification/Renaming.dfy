/** Renaming numbered test patterns to short codes without ever colliding. */
module Renaming {
  import opened Sql
  import opened Counting

  // Printing `P{number:03d}`.

  function Digit(d: nat): char
    requires d < 10
  {
    "0123456789"[d]
  }

  function DigitValue(c: char): nat {
    if c == '1' then 1 else if c == '2' then 2 else if c == '3' then 3 else if c == '4' then 4
    else if c == '5' then 5 else if c == '6' then 6 else if c == '7' then 7 else if c == '8' then 8
    else if c == '9' then 9 else 0
  }

  function Decimal(n: nat): (r: string)
    ensures r != []
  {
    if n < 10 then [Digit(n)] else Decimal(n / 10) + [Digit(n % 10)]
  }

  function Pad(s: string): string
    decreases 3 - |s|
  {
    if |s| >= 3 then s else Pad("0" + s)
  }

  function Print(n: nat): string {
    "P" + Pad(Decimal(n))
  }

  function Value(s: string): nat {
    if s == [] then 0 else 10 * Value(s[..|s| - 1]) + DigitValue(s[|s| - 1])
  }

  lemma {:induction false} DecimalValue(n: nat)
    ensures Value(Decimal(n)) == n
  {
    if n >= 10 {
      DecimalValue(n / 10);
      var s := Decimal(n / 10) + [Digit(n % 10)];
      assert s[..|s| - 1] == Decimal(n / 10);
    }
  }

  lemma {:induction false} LeadingZero(s: string)
    ensures Value("0" + s) == Value(s)
  {
    var z := "0" + s;
    if s == [] {
      assert z[..0] == [];
    } else {
      assert z[..|z| - 1] == "0" + s[..|s| - 1];
      LeadingZero(s[..|s| - 1]);
    }
  }

  lemma {:induction false} PadValue(s: string)
    ensures Value(Pad(s)) == Value(s)
    decreases 3 - |s|
  {
    if |s| < 3 {
      LeadingZero(s);
      PadValue("0" + s);
    }
  }

  /** Different numbers print differently, padded or not. */
  lemma PrintIsInjective(a: nat, b: nat)
    requires Print(a) == Print(b)
    ensures a == b
  {
    assert Print(a)[1..] == Pad(Decimal(a)) && Print(b)[1..] == Pad(Decimal(b));
    PadValue(Decimal(a));
    PadValue(Decimal(b));
    DecimalValue(a);
    DecimalValue(b);
  }

  lemma {:induction false} DecimalShape(n: nat)
    ensures forall i :: 0 <= i < |Decimal(n)| ==> '0' <= Decimal(n)[i] <= '9'
    ensures n > 0 ==> Decimal(n)[0] != '0'
    ensures |Decimal(n)| == 1 <==> n < 10
    ensures |Decimal(n)| <= 2 <==> n < 100
    ensures |Decimal(n)| <= 3 <==> n < 1000
  {
    if n >= 10 {
      DecimalShape(n / 10);
    }
  }

  lemma {:induction false} PadShape(s: string)
    requires forall i :: 0 <= i < |s| ==> '0' <= s[i] <= '9'
    ensures forall i :: 0 <= i < |Pad(s)| ==> '0' <= Pad(s)[i] <= '9'
    ensures |Pad(s)| == if |s| < 3 then 3 else |s|
    ensures |s| >= 3 ==> Pad(s) == s
    decreases 3 - |s|
  {
    if |s| < 3 {
      PadShape("0" + s);
    }
  }

  /** A code is the letter P and the number in decimal, with zeros in front up to three digits. */
  lemma PrintedCode(n: nat)
    ensures
      var code := Print(n);
      && |code| >= 4 && code[0] == 'P'
      && (forall i :: 1 <= i < |code| ==> '0' <= code[i] <= '9') && Value(code[1..]) == n
      && (|code| == 4 <==> n < 1000) && (n >= 1000 ==> code[1] != '0')
  {
    DecimalShape(n);
    PadShape(Decimal(n));
    PadValue(Decimal(n));
    DecimalValue(n);
    assert Print(n)[1..] == Pad(Decimal(n));
  }

  lemma PrintingIsInjective()
    ensures Injective(Print)
  {
    forall a: nat, b: nat | Print(a) == Print(b) ensures a == b {
      PrintIsInjective(a, b);
    }
  }

  // The search for a free number, for any injective printing.

  type Printer = nat -> string

  ghost predicate Injective(show: Printer) {
    forall a: nat, b: nat :: show(a) == show(b) ==> a == b
  }

  ghost predicate IsLeastFree(show: Printer, codes: set<string>, from: nat, n: nat) {
    n >= from && show(n) !in codes && forall k: nat :: from <= k < n ==> show(k) in codes
  }

  /** Printed codes of [from, n). */
  ghost function Tried(show: Printer, from: nat, n: nat): set<string>
    requires from <= n
    decreases n
  {
    if n == from then {} else Tried(show, from, n - 1) + {show(n - 1)}
  }

  lemma {:induction false} TriedHolds(show: Printer, from: nat, n: nat, x: string) returns (k: nat)
    requires from <= n && x in Tried(show, from, n)
    ensures from <= k < n && x == show(k)
    decreases n
  {
    if x == show(n - 1) {
      k := n - 1;
    } else {
      k := TriedHolds(show, from, n - 1, x);
    }
  }

  /** A number not tried yet prints a new code. */
  lemma NextIsNew(show: Printer, from: nat, n: nat)
    requires from <= n && Injective(show)
    ensures show(n) !in Tried(show, from, n)
  {
    if show(n) in Tried(show, from, n) {
      var k := TriedHolds(show, from, n, show(n));
    }
  }

  lemma {:induction false} TriedSize(show: Printer, from: nat, n: nat)
    requires from <= n && Injective(show)
    ensures |Tried(show, from, n)| == n - from
    decreases n
  {
    if n > from {
      TriedSize(show, from, n - 1);
      NextIsNew(show, from, n - 1);
    }
  }

  /** Every number tried and taken uses up another code. */
  lemma OneMoreTried(show: Printer, codes: set<string>, from: nat, n: nat)
    requires Injective(show) && from <= n && Tried(show, from, n) <= codes && show(n) in codes
    ensures Tried(show, from, n + 1) <= codes && n + 1 - from <= |codes|
  {
    TriedSize(show, from, n + 1);
    SubsetSize(Tried(show, from, n + 1), codes);
  }

  /** The least free number at or above `from`; the search ends because only |codes| numbers can
      be taken. */
  method FindFree(show: Printer, codes: set<string>, from: nat) returns (number: nat)
    requires Injective(show)
    ensures IsLeastFree(show, codes, from, number)
    ensures number <= from + |codes|
  {
    number := from;
    while show(number) in codes
      invariant from <= number && Tried(show, from, number) <= codes
      invariant forall k: nat :: from <= k < number ==> show(k) in codes
      invariant number - from <= |codes|
      decreases |codes| - (number - from)
    {
      OneMoreTried(show, codes, from, number);
      number := number + 1;
    }
  }

  lemma {:induction false} FreeExists(show: Printer, codes: set<string>, from: nat, n: nat)
    requires Injective(show) && n >= from && forall k: nat :: from <= k < n ==> show(k) in codes
    requires Tried(show, from, n) <= codes && n - from <= |codes|
    ensures exists m: nat :: IsLeastFree(show, codes, from, m)
    decreases |codes| - (n - from)
  {
    if show(n) in codes {
      OneMoreTried(show, codes, from, n);
      FreeExists(show, codes, from, n + 1);
    } else {
      assert IsLeastFree(show, codes, from, n);
    }
  }

  ghost function LeastFree(show: Printer, codes: set<string>, from: nat): (n: nat)
    requires Injective(show)
    ensures IsLeastFree(show, codes, from, n)
  {
    FreeExists(show, codes, from, from);
    var m: nat :| IsLeastFree(show, codes, from, m);
    m
  }

  lemma LeastFreeIsUnique(show: Printer, codes: set<string>, from: nat, n: nat)
    requires Injective(show) && IsLeastFree(show, codes, from, n)
    ensures n == LeastFree(show, codes, from)
  {
  }

  // The renaming.

  datatype Design = Design(id: int)

  /** Codes must be unique within one design and table. */
  datatype Group = Group(design: Design, tableId: int)

  datatype Pattern = Pattern(id: int, group: Group, code: string)

  /** The number in a code to be renamed, None for any other code. */
  type Parser = string -> Option<nat>

  datatype Rules = Rules(parse: Parser, show: Printer)

  type Scheme = rules: Rules | Injective(rules.show) ghost witness (PrintingIsInjective(); Rules(code => None, Print))

  function OriginalCodes(rows: seq<Pattern>, g: Group): set<string> {
    set r | r in rows && r.group == g :: r.code
  }

  /** New codes already given to the group. */
  ghost function Given(rows: seq<Pattern>, done: seq<string>, g: Group): set<string>
    requires |done| <= |rows|
  {
    set k | 0 <= k < |done| && rows[k].group == g :: done[k]
  }

  /** The codes after renaming the first n rows in order. */
  ghost function NewCodes(rows: seq<Pattern>, scheme: Scheme, n: nat): (r: seq<string>)
    requires n <= |rows|
    ensures |r| == n
  {
    if n == 0 then []
    else
      var done := NewCodes(rows, scheme, n - 1);
      var row := rows[n - 1];
      var number := scheme.parse(row.code);
      done + [if number.None? then row.code
              else scheme.show(LeastFree(scheme.show, OriginalCodes(rows, row.group) + Given(rows, done, row.group),
                                   number.value))]
  }

  lemma {:induction false} NewCodesStay(rows: seq<Pattern>, scheme: Scheme, k: nat, n: nat)
    requires k <= n <= |rows|
    ensures NewCodes(rows, scheme, n)[..k] == NewCodes(rows, scheme, k)
    decreases n
  {
    if k < n {
      NewCodesStay(rows, scheme, k, n - 1);
      assert NewCodes(rows, scheme, n)[..k] == NewCodes(rows, scheme, n - 1)[..k];
    }
  }

  /** The first n rows carry their new codes, the others their old ones. */
  ghost predicate Progress(codes: map<int, string>, rows: seq<Pattern>, scheme: Scheme, n: nat)
    requires n <= |rows|
  {
    && (forall i :: 0 <= i < |rows| ==> rows[i].id in codes)
    && (forall i :: 0 <= i < n ==> codes[rows[i].id] == NewCodes(rows, scheme, n)[i])
    && (forall i :: n <= i < |rows| ==> codes[rows[i].id] == rows[i].code)
  }

  lemma ProgressStep(codes: map<int, string>, rows: seq<Pattern>, scheme: Scheme, n: nat)
    requires n < |rows| && Progress(codes, rows, scheme, n)
    requires forall i, j :: 0 <= i < j < |rows| ==> rows[i].id != rows[j].id
    ensures Progress(codes[rows[n].id := NewCodes(rows, scheme, n + 1)[n]], rows, scheme, n + 1)
  {
    var more := NewCodes(rows, scheme, n + 1);
    NewCodesStay(rows, scheme, n, n + 1);
    forall i | 0 <= i < n ensures more[i] == NewCodes(rows, scheme, n)[i] {
      assert more[i] == more[..n][i];
    }
  }

  ghost function Used(rows: seq<Pattern>, scheme: Scheme, n: nat, g: Group): set<string>
    requires n <= |rows|
  {
    OriginalCodes(rows, g) + Given(rows, NewCodes(rows, scheme, n), g)
  }

  lemma UsedGrows(rows: seq<Pattern>, scheme: Scheme, n: nat, g: Group)
    requires n < |rows|
    ensures Used(rows, scheme, n + 1, g)
         == Used(rows, scheme, n, g)
            + if g == rows[n].group then {NewCodes(rows, scheme, n + 1)[n]} else {}
  {
    var done, more := NewCodes(rows, scheme, n), NewCodes(rows, scheme, n + 1);
    NewCodesStay(rows, scheme, n, n + 1);
    forall x ensures x in Given(rows, more, g)
                     <==> x in Given(rows, done, g) || (g == rows[n].group && x == more[n])
    {
      if x in Given(rows, more, g) {
        var k :| 0 <= k < |more| && rows[k].group == g && more[k] == x;
        if k < n {
          assert done[k] == more[..n][k] == more[k];
        }
      }
      if x in Given(rows, done, g) {
        var k :| 0 <= k < |done| && rows[k].group == g && done[k] == x;
        assert done[k] == more[..n][k] == more[k];
      }
    }
  }

  ghost predicate UsedMatches(used: map<Group, set<string>>, rows: seq<Pattern>, scheme: Scheme, n: nat)
    requires n <= |rows|
  {
    && (forall i :: 0 <= i < |rows| ==> rows[i].group in used)
    && (forall g :: g in used ==> used[g] == Used(rows, scheme, n, g))
  }

  lemma RenamedStep(used: map<Group, set<string>>, rows: seq<Pattern>, scheme: Scheme, n: nat)
    requires n < |rows| && UsedMatches(used, rows, scheme, n)
    ensures
      var group := rows[n].group;
      UsedMatches(used[group := used[group] + {NewCodes(rows, scheme, n + 1)[n]}], rows, scheme, n + 1)
  {
    forall g ensures Used(rows, scheme, n + 1, g)
                  == Used(rows, scheme, n, g)
                     + if g == rows[n].group then {NewCodes(rows, scheme, n + 1)[n]} else {}
    {
      UsedGrows(rows, scheme, n, g);
    }
  }

  lemma UnmatchedKeepsCodeNow(rows: seq<Pattern>, scheme: Scheme, n: nat)
    requires n < |rows| && scheme.parse(rows[n].code).None?
    ensures NewCodes(rows, scheme, n + 1)[n] == rows[n].code
  {
  }

  lemma OwnCodeIsUsed(rows: seq<Pattern>, scheme: Scheme, n: nat, m: nat)
    requires n < |rows| && m <= |rows|
    ensures rows[n].code in Used(rows, scheme, m, rows[n].group)
  {
    assert rows[n] in rows;
    assert rows[n].code in OriginalCodes(rows, rows[n].group);
  }

  lemma UnmatchedStep(used: map<Group, set<string>>, rows: seq<Pattern>, scheme: Scheme, n: nat)
    requires n < |rows| && UsedMatches(used, rows, scheme, n) && scheme.parse(rows[n].code).None?
    ensures UsedMatches(used, rows, scheme, n + 1)
  {
    forall g | g in used ensures used[g] == Used(rows, scheme, n + 1, g) {
      UsedGrows(rows, scheme, n, g);
      UnmatchedKeepsCodeNow(rows, scheme, n);
      OwnCodeIsUsed(rows, scheme, n, n);
    }
  }

  /** The number the search returns is the one the specification names. */
  lemma ChosenCode(used: map<Group, set<string>>, rows: seq<Pattern>, scheme: Scheme, n: nat, number: nat)
    requires n < |rows| && UsedMatches(used, rows, scheme, n) && scheme.parse(rows[n].code).Some?
    requires IsLeastFree(scheme.show, used[rows[n].group], scheme.parse(rows[n].code).value, number)
    ensures NewCodes(rows, scheme, n + 1)[n] == scheme.show(number)
  {
    LeastFreeIsUnique(scheme.show, used[rows[n].group], scheme.parse(rows[n].code).value, number);
  }

  lemma NewCodeAt(rows: seq<Pattern>, scheme: Scheme, i: nat)
    requires i < |rows|
    ensures NewCodes(rows, scheme, |rows|)[i] == NewCodes(rows, scheme, i + 1)[i]
    ensures forall k :: 0 <= k < i ==>
              NewCodes(rows, scheme, |rows|)[k] == NewCodes(rows, scheme, i)[k]
  {
    var all := NewCodes(rows, scheme, |rows|);
    NewCodesStay(rows, scheme, i, |rows|);
    NewCodesStay(rows, scheme, i + 1, |rows|);
    assert all[i] == all[..i + 1][i];
    assert forall k :: 0 <= k < i ==> all[k] == all[..i][k];
  }

  lemma ChosenIsFree(rows: seq<Pattern>, scheme: Scheme, i: nat)
    requires i < |rows| && scheme.parse(rows[i].code).Some?
    ensures NewCodes(rows, scheme, i + 1)[i] !in OriginalCodes(rows, rows[i].group)
    ensures NewCodes(rows, scheme, i + 1)[i] !in Given(rows, NewCodes(rows, scheme, i), rows[i].group)
  {
  }

  /** A renamed row's code is new to its group: no pattern had it before, and no earlier row, renamed
      or not, has it now. */
  lemma RenamedIsNew(rows: seq<Pattern>, scheme: Scheme, i: nat, j: nat)
    requires i < |rows| && j < |rows| && rows[i].group == rows[j].group
    requires scheme.parse(rows[i].code).Some?
    ensures NewCodes(rows, scheme, |rows|)[i] != rows[j].code
    ensures j < i ==> NewCodes(rows, scheme, |rows|)[i] != NewCodes(rows, scheme, |rows|)[j]
  {
    NewCodeAt(rows, scheme, i);
    ChosenIsFree(rows, scheme, i);
    assert rows[j] in rows && rows[j].code in OriginalCodes(rows, rows[i].group);
    if j < i {
      assert NewCodes(rows, scheme, i)[j] in Given(rows, NewCodes(rows, scheme, i), rows[i].group);
    }
  }

  lemma UnmatchedKeepsCode(rows: seq<Pattern>, scheme: Scheme, i: nat)
    requires i < |rows| && scheme.parse(rows[i].code).None?
    ensures NewCodes(rows, scheme, |rows|)[i] == rows[i].code
  {
    NewCodesStay(rows, scheme, i + 1, |rows|);
    assert NewCodes(rows, scheme, |rows|)[i] == NewCodes(rows, scheme, |rows|)[..i + 1][i];
  }

  /** Two patterns of a group share a code afterwards only if both were left alone and shared it
      before: distinct codes stay distinct. */
  lemma DistinctStaysDistinct(rows: seq<Pattern>, scheme: Scheme, i: nat, j: nat)
    requires i < j < |rows| && rows[i].group == rows[j].group
    requires NewCodes(rows, scheme, |rows|)[i] == NewCodes(rows, scheme, |rows|)[j]
    ensures scheme.parse(rows[i].code).None? && scheme.parse(rows[j].code).None? && rows[i].code == rows[j].code
  {
    if scheme.parse(rows[j].code).Some? {
      RenamedIsNew(rows, scheme, j, i);
    } else {
      UnmatchedKeepsCode(rows, scheme, j);
      if scheme.parse(rows[i].code).Some? {
        RenamedIsNew(rows, scheme, i, j);
      } else {
        UnmatchedKeepsCode(rows, scheme, i);
      }
    }
  }

  function ChangedDesigns(rows: seq<Pattern>, scheme: Scheme, n: nat): set<Design>
    requires n <= |rows|
  {
    if n == 0 then {}
    else ChangedDesigns(rows, scheme, n - 1)
         + if scheme.parse(rows[n - 1].code).Some? then {rows[n - 1].group.design} else {}
  }

  /** The designs whose version rises are those owning a renamed pattern. */
  lemma {:induction false} ChangedExactlyWhen(rows: seq<Pattern>, scheme: Scheme, n: nat, d: Design)
    requires n <= |rows|
    ensures d in ChangedDesigns(rows, scheme, n)
       <==> exists k :: 0 <= k < n && scheme.parse(rows[k].code).Some? && rows[k].group.design == d
  {
    if n > 0 {
      ChangedExactlyWhen(rows, scheme, n - 1, d);
    }
  }

  /** What the renaming loop has reached after n rows. */
  datatype Work = Work(codes: map<int, string>, used: map<Group, set<string>>, changed: set<Design>)

  ghost predicate Reached(w: Work, rows: seq<Pattern>, scheme: Scheme, n: nat)
    requires n <= |rows|
  {
    && Progress(w.codes, rows, scheme, n)
    && UsedMatches(w.used, rows, scheme, n)
    && w.changed == ChangedDesigns(rows, scheme, n)
  }

  ghost predicate DistinctIds(rows: seq<Pattern>) {
    forall i, j :: 0 <= i < j < |rows| ==> rows[i].id != rows[j].id
  }

  lemma ProgressSkip(codes: map<int, string>, rows: seq<Pattern>, scheme: Scheme, n: nat)
    requires n < |rows| && Progress(codes, rows, scheme, n)
    requires scheme.parse(rows[n].code).None?
    ensures Progress(codes, rows, scheme, n + 1)
  {
    var more := NewCodes(rows, scheme, n + 1);
    NewCodesStay(rows, scheme, n, n + 1);
    UnmatchedKeepsCodeNow(rows, scheme, n);
    forall i | 0 <= i < n + 1 ensures codes[rows[i].id] == more[i] {
      if i < n {
        assert more[i] == more[..n][i];
      }
    }
  }

  lemma StartReaches(w: Work, rows: seq<Pattern>, scheme: Scheme)
    requires forall i :: 0 <= i < |rows| ==> rows[i].id in w.codes && w.codes[rows[i].id] == rows[i].code
    requires forall i :: 0 <= i < |rows| ==> rows[i].group in w.used
    requires forall g :: g in w.used ==> w.used[g] == OriginalCodes(rows, g)
    requires w.changed == {}
    ensures Reached(w, rows, scheme, 0)
  {
    forall g | g in w.used ensures w.used[g] == Used(rows, scheme, 0, g) {
      assert Given(rows, NewCodes(rows, scheme, 0), g) == {};
    }
  }

  lemma RowIsKnown(w: Work, rows: seq<Pattern>, scheme: Scheme, n: nat)
    requires n < |rows| && Reached(w, rows, scheme, n)
    ensures rows[n].id in w.codes && rows[n].group in w.used
  {
  }

  lemma SkipReaches(w: Work, rows: seq<Pattern>, scheme: Scheme, n: nat)
    requires n < |rows| && Reached(w, rows, scheme, n) && DistinctIds(rows)
    requires scheme.parse(rows[n].code).None?
    ensures Reached(w, rows, scheme, n + 1)
  {
    ProgressSkip(w.codes, rows, scheme, n);
    UnmatchedStep(w.used, rows, scheme, n);
  }

  function Renamed(w: Work, row: Pattern, code: string): Work
    requires row.group in w.used
  {
    Work(w.codes[row.id := code], w.used[row.group := w.used[row.group] + {code}], w.changed + {row.group.design})
  }

  lemma RenameReaches(w: Work, rows: seq<Pattern>, scheme: Scheme, n: nat, number: nat)
    requires n < |rows| && Reached(w, rows, scheme, n) && DistinctIds(rows)
    requires scheme.parse(rows[n].code).Some?
    requires IsLeastFree(scheme.show, w.used[rows[n].group], scheme.parse(rows[n].code).value, number)
    ensures Reached(Renamed(w, rows[n], scheme.show(number)), rows, scheme, n + 1)
  {
    ChosenCode(w.used, rows, scheme, n, number);
    ProgressStep(w.codes, rows, scheme, n);
    RenamedStep(w.used, rows, scheme, n);
  }

  class PatternTables {
    var codes: map<int, string>
    var versions: map<Design, int>

    constructor (codes: map<int, string>, versions: map<Design, int>)
      ensures this.codes == codes && this.versions == versions
    {
      this.codes, this.versions := codes, versions;
    }

    /** `rows` is the result of reading the pattern table. */
    ghost predicate Read(rows: seq<Pattern>)
      reads this
    {
      && DistinctIds(rows)
      && (forall i :: 0 <= i < |rows| ==> rows[i].id in codes && codes[rows[i].id] == rows[i].code)
      && (forall i :: 0 <= i < |rows| ==> rows[i].group.design in versions)
    }

    /** The migration: `parse` recognises the codes to rename, new codes are printed P001, P002, … */
    method Upgrade(rows: seq<Pattern>, parse: Parser)
      requires Read(rows)
      modifies this
      ensures Injective(Print)
      ensures codes.Keys == old(codes).Keys
      ensures Progress(codes, rows, Rules(parse, Print), |rows|)
      ensures versions.Keys == old(versions).Keys
      ensures forall d :: d in versions ==>
                versions[d] == old(versions)[d] + if d in ChangedDesigns(rows, Rules(parse, Print), |rows|) then 1 else 0
    {
      PrintingIsInjective();
      UpgradeWith(rows, Rules(parse, Print));
    }

    method UpgradeWith(rows: seq<Pattern>, scheme: Scheme)
      requires Read(rows)
      modifies this
      ensures codes.Keys == old(codes).Keys
      ensures Progress(codes, rows, scheme, |rows|)
      ensures versions.Keys == old(versions).Keys
      ensures forall d :: d in versions ==>
                versions[d] == old(versions)[d] + if d in ChangedDesigns(rows, scheme, |rows|) then 1 else 0
    {
      var used := CollectUsed(rows);
      StartReaches(Work(codes, used, {}), rows, scheme);
      var changed := Rename(rows, scheme, used);
      forall d ensures d in changed ==> d in versions {
        ChangedExactlyWhen(rows, scheme, |rows|, d);
      }
      RaiseVersions(changed);
    }

    method CollectUsed(rows: seq<Pattern>) returns (used: map<Group, set<string>>)
      ensures forall i :: 0 <= i < |rows| ==> rows[i].group in used
      ensures forall g :: g in used ==> used[g] == OriginalCodes(rows, g)
    {
      used := map[];
      var n := 0;
      while n < |rows|
        invariant 0 <= n <= |rows|
        invariant forall i :: 0 <= i < n ==> rows[i].group in used
        invariant forall g :: g in used ==> used[g] == OriginalCodes(rows[..n], g)
        invariant forall g :: g !in used ==> OriginalCodes(rows[..n], g) == {}
      {
        var row := rows[n];
        assert rows[..n + 1] == rows[..n] + [row];
        forall g ensures OriginalCodes(rows[..n + 1], g)
                      == OriginalCodes(rows[..n], g) + if g == row.group then {row.code} else {}
        {
        }
        used := used[row.group := (if row.group in used then used[row.group] else {}) + {row.code}];
        n := n + 1;
      }
      assert rows[..n] == rows;
    }

    /** One row of the loop. */
    method RenameRow(rows: seq<Pattern>, scheme: Scheme, n: nat, used: map<Group, set<string>>, changed: set<Design>)
      returns (used': map<Group, set<string>>, changed': set<Design>)
      requires n < |rows| && DistinctIds(rows) && Reached(Work(codes, used, changed), rows, scheme, n)
      modifies this`codes
      ensures codes.Keys == old(codes).Keys && Reached(Work(codes, used', changed'), rows, scheme, n + 1)
    {
      var row := rows[n];
      var found := scheme.parse(row.code);
      RowIsKnown(Work(codes, used, changed), rows, scheme, n);
      if found.None? {
        SkipReaches(Work(codes, used, changed), rows, scheme, n);
        return used, changed;
      }
      var number := FindFree(scheme.show, used[row.group], found.value);
      var code := scheme.show(number);
      RenameReaches(Work(codes, used, changed), rows, scheme, n, number);
      used' := used[row.group := used[row.group] + {code}];
      codes := codes[row.id := code];
      changed' := changed + {row.group.design};
    }

    method Rename(rows: seq<Pattern>, scheme: Scheme, originals: map<Group, set<string>>)
      returns (changed: set<Design>)
      requires DistinctIds(rows) && Reached(Work(codes, originals, {}), rows, scheme, 0)
      modifies this`codes
      ensures codes.Keys == old(codes).Keys && Progress(codes, rows, scheme, |rows|)
      ensures changed == ChangedDesigns(rows, scheme, |rows|)
    {
      var used := originals;
      changed := {};
      var n := 0;
      while n < |rows|
        invariant 0 <= n <= |rows| && codes.Keys == old(codes).Keys
        invariant Reached(Work(codes, used, changed), rows, scheme, n)
      {
        used, changed := RenameRow(rows, scheme, n, used, changed);
        n := n + 1;
      }
    }

    method RaiseVersions(changed: set<Design>)
      requires changed <= versions.Keys
      modifies this`versions
      ensures versions.Keys == old(versions).Keys
      ensures forall d :: d in versions ==> versions[d] == old(versions)[d] + if d in changed then 1 else 0
    {
      var todo := changed;
      while todo != {}
        invariant todo <= changed && versions.Keys == old(versions).Keys
        invariant forall d :: d in versions ==>
                    versions[d] == old(versions)[d] + if d in changed - todo then 1 else 0
      {
        var d :| d in todo;
        versions := versions[d := versions[d] + 1];
        todo := todo - {d};
      }
    }
  }
}
