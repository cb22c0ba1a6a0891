/**
 The three axes together: `assess` measures the declared helpers and entry points in order,
 each with the sets computed before it, and states one verdict.  CLEAR is worth this much:
 in a well-formed program every declared function exits in contract on every run.
 */
module Assess {
  import opened MiniPython
  import opened OwnNodes
  import opened PythonRuns
  import opened ExitSets
  import opened ExitSoundness
  import opened Containment

  const EXIT_CLEAR: int := 0
  const EXIT_RED: int := 5
  const EXIT_UNMEASURED: int := 95

  datatype Item = Item(path: Path, line: nat)

  /** What measuring some units adds to an axis and to the two lists. */
  datatype Report = Report(total: nat, good: nat, bad: nat, unresolved: nat, findings: seq<Item>, unmeasured: seq<Item>)

  const NOTHING: Report := Report(0, 0, 0, 0, [], [])

  function Plus(a: Report, b: Report): Report
  {
    Report(a.total + b.total, a.good + b.good, a.bad + b.bad, a.unresolved + b.unresolved,
           a.findings + b.findings, a.unmeasured + b.unmeasured)
  }

  /** One measured unit: unresolved, inside the contract, or outside it. */
  function UnitReport(codes: Codes, at: Item): Report
  {
    match codes
    case None => Report(1, 0, 0, 1, [], [at])
    case Some(s) => if s <= CONTRACT then Report(1, 1, 0, 0, [], []) else Report(1, 0, 1, 0, [at], [])
  }

  function ReturnsReport(w: Where, rets: seq<Ret>, locals: LocalTable): Report
  {
    if rets == [] then NOTHING
    else
      var last := rets[|rets| - 1];
      Plus(ReturnsReport(w, rets[..|rets| - 1], locals),
           UnitReport(ReturnSet(w, last, locals), Item(w.path, last.line)))
  }

  // ----- axis RETURN -----

  function EntryCodes(p: Program, entries: map<Key, Codes>, k: Key): Codes
  {
    if k.1 !in TablesOf(p, k.0).funcs then None
    else
      var w, f := EntryWhere(p, entries, k), TablesOf(p, k.0).funcs[k.1];
      ReturnsSet(w, BlockReturns(f.body), LocalMap(w, f))
  }

  function EntryReport(p: Program, entries: map<Key, Codes>, k: Key): Report
  {
    if k.1 !in TablesOf(p, k.0).funcs then Report(0, 0, 0, 0, [], [Item(k.0, 0)])
    else
      var w, f := EntryWhere(p, entries, k), TablesOf(p, k.0).funcs[k.1];
      ReturnsReport(w, BlockReturns(f.body), LocalMap(w, f))
  }

  /** `skip` is true for the helpers, which are passed over when absent. */
  function Measured(p: Program, ks: seq<Key>, skip: bool, start: map<Key, Codes>): (r: (map<Key, Codes>, Report))
  {
    if ks == [] then (start, NOTHING)
    else
      var (entries, report) := Measured(p, ks[..|ks| - 1], skip, start);
      var k := ks[|ks| - 1];
      if skip && k.1 !in TablesOf(p, k.0).funcs then (entries, report)
      else (entries[k := EntryCodes(p, entries, k)], Plus(report, EntryReport(p, entries, k)))
  }

  // ----- axis MODULE-EXIT -----

  function SiteValues(p: Program, path: Path, entries: map<Key, Codes>, args: seq<Expr>): Codes
  {
    if args == [] then Some({0})
    else if |args| > 1 then Some({1})
    else if args[0] == Lit(NoneConst) then Some({0})
    else if args[0] == Lit(TextConst) then Some({1})
    else Resolve(Where(p, path, 0, {}, entries), args[0], None)
  }

  function SitesReport(p: Program, path: Path, entries: map<Key, Codes>, sites: seq<ExitSite>): Report
  {
    if sites == [] then NOTHING
    else
      var last := sites[|sites| - 1];
      Plus(SitesReport(p, path, entries, sites[..|sites| - 1]),
           UnitReport(SiteValues(p, path, entries, last.args), Item(path, last.line)))
  }

  function FilesReport(p: Program, files: seq<Path>, entries: map<Key, Codes>): Report
    requires forall q :: q in files ==> q in p.mods
  {
    if files == [] then NOTHING
    else
      var q := files[|files| - 1];
      Plus(FilesReport(p, files[..|files| - 1], entries), SitesReport(p, q, entries, p.mods[q].sites))
  }

  // ----- axis ESCAPE -----

  function EscapeReport(p: Program, all: set<Key>, eps: seq<Key>, entries: map<Key, Codes>): Report
    requires forall k :: k in eps ==> k in all
  {
    if eps == [] then NOTHING
    else
      var k := eps[|eps| - 1];
      Plus(EscapeReport(p, all, eps[..|eps| - 1], entries),
           StatusReport(EscapeStatus(p, all, entries, k, {}), Item(k.0, 0)))
  }

  function StatusReport(status: Protection, at: Item): Report
  {
    match status
    case Protected => NOTHING
    case Unprotected => Report(0, 0, 0, 0, [at], [])
    case Unmeasured => Report(0, 0, 0, 0, [], [at])
  }

  // ----- the verdict -----

  function SetOf(ks: seq<Key>): (r: set<Key>)
    ensures forall k :: k in r <==> k in ks
  {
    set k | k in ks
  }

  predicate AllParsed(p: Program, helpers: seq<Key>, eps: seq<Key>, files: seq<Path>)
  {
    && (forall k :: k in helpers ==> k.0 in p.mods)
    && (forall k :: k in eps ==> k.0 in p.mods)
    && (forall q :: q in files ==> q in p.mods)
  }

  /** The sets computed for the declared functions, helpers first. */
  function EntriesOf(p: Program, helpers: seq<Key>, eps: seq<Key>): map<Key, Codes>
  {
    Measured(p, eps, false, Measured(p, helpers, true, map[]).0).0
  }

  function AxisReturn(p: Program, helpers: seq<Key>, eps: seq<Key>): Report
  {
    Plus(Measured(p, helpers, true, map[]).1, Measured(p, eps, false, Measured(p, helpers, true, map[]).0).1)
  }

  /** Red before unmeasured before clear; nothing counted is unmeasured. */
  function Decision(findings: seq<Item>, total: nat, unmeasured: seq<Item>): int
  {
    if findings != [] then EXIT_RED
    else if total == 0 then EXIT_UNMEASURED
    else if unmeasured != [] then EXIT_UNMEASURED
    else EXIT_CLEAR
  }

  function Weigh(axis1: Report, axis2: Report, escape: Report): int
  {
    Decision(axis1.findings + axis2.findings + escape.findings, axis1.total + axis2.total,
             axis1.unmeasured + axis2.unmeasured + escape.unmeasured)
  }

  function Verdict(p: Program, helpers: seq<Key>, eps: seq<Key>, files: seq<Path>): int
  {
    if !AllParsed(p, helpers, eps, files) then EXIT_UNMEASURED
    else
      var entries := EntriesOf(p, helpers, eps);
      Weigh(AxisReturn(p, helpers, eps), FilesReport(p, files, entries), EscapeReport(p, SetOf(eps), eps, entries))
  }

  /** Every unit on an axis is in exactly one of its three classes. */
  predicate Balanced(r: Report)
  {
    r.total == r.good + r.bad + r.unresolved
  }

  lemma {:induction false} ReturnsBalance(w: Where, rets: seq<Ret>, locals: LocalTable)
    ensures Balanced(ReturnsReport(w, rets, locals)) && ReturnsReport(w, rets, locals).total == |rets|
    decreases |rets|
  {
    if rets != [] { ReturnsBalance(w, rets[..|rets| - 1], locals); }
  }

  lemma {:induction false} AxisBalances(p: Program, ks: seq<Key>, skip: bool, start: map<Key, Codes>)
    ensures Balanced(Measured(p, ks, skip, start).1)
    decreases |ks|
  {
    if ks != [] {
      var (entries, k) := (Measured(p, ks[..|ks| - 1], skip, start).0, ks[|ks| - 1]);
      AxisBalances(p, ks[..|ks| - 1], skip, start);
      if k.1 in TablesOf(p, k.0).funcs {
        var w, f := EntryWhere(p, entries, k), TablesOf(p, k.0).funcs[k.1];
        ReturnsBalance(w, BlockReturns(f.body), LocalMap(w, f));
      }
    }
  }

  lemma {:induction false} PlusAssoc(a: Report, b: Report, c: Report)
    ensures Plus(Plus(a, b), c) == Plus(a, Plus(b, c))
  {
    assert a.findings + b.findings + c.findings == a.findings + (b.findings + c.findings);
    assert a.unmeasured + b.unmeasured + c.unmeasured == a.unmeasured + (b.unmeasured + c.unmeasured);
  }

  lemma {:induction false} PlusNothing(a: Report)
    ensures Plus(a, NOTHING) == a && Plus(NOTHING, a) == a
  {
  }

  // ----- what a verdict means -----

  /** The sets known before the i-th declared function is measured; an absent helper is passed over. */
  function SetsBefore(p: Program, helpers: seq<Key>, eps: seq<Key>, i: nat): map<Key, Codes>
    requires i <= |helpers| + |eps|
  {
    if i == 0 then map[]
    else
      var before, k := SetsBefore(p, helpers, eps, i - 1), (helpers + eps)[i - 1];
      if i <= |helpers| && k.1 !in TablesOf(p, k.0).funcs then before else before[k := EntryCodes(p, before, k)]
  }

  /** The return `r` of the declared function k, measured over these sets, has these codes. */
  ghost predicate ReturnHasCodes(p: Program, entries: map<Key, Codes>, k: Key, r: Ret, codes: Codes)
  {
    k.1 in TablesOf(p, k.0).funcs &&
    var w, f := EntryWhere(p, entries, k), TablesOf(p, k.0).funcs[k.1];
    r in BlockReturns(f.body) && ReturnSet(w, r, LocalMap(w, f)) == codes
  }

  /** Some return of k has these codes. */
  ghost predicate HasCodes(p: Program, entries: map<Key, Codes>, k: Key, c: Codes)
  {
    exists r :: ReturnHasCodes(p, entries, k, r, c)
  }

  /** Some return of the i-th declared function has these codes. */
  ghost predicate ReturnAt(p: Program, helpers: seq<Key>, eps: seq<Key>, i: nat, codes: Codes)
    requires i < |helpers| + |eps|
  {
    HasCodes(p, SetsBefore(p, helpers, eps, i), (helpers + eps)[i], codes)
  }

  ghost predicate SomeReturn(p: Program, helpers: seq<Key>, eps: seq<Key>, codes: Codes)
  {
    exists i {:trigger ReturnAt(p, helpers, eps, i, codes)} ::
      0 <= i < |helpers| + |eps| && ReturnAt(p, helpers, eps, i, codes)
  }

  /** Some exit site of the file has these codes. */
  ghost predicate SiteHasCodes(p: Program, q: Path, entries: map<Key, Codes>, codes: Codes)
    requires q in p.mods
  {
    exists s :: s in p.mods[q].sites && SiteValues(p, q, entries, s.args) == codes
  }

  ghost predicate SomeSite(p: Program, files: seq<Path>, entries: map<Key, Codes>, codes: Codes)
  {
    exists q {:trigger SiteHasCodes(p, q, entries, codes)} ::
      q in files && q in p.mods && SiteHasCodes(p, q, entries, codes)
  }

  /** Some return of a declared function, or some exit site of a listed file, has these codes. */
  ghost predicate SomeUnit(p: Program, helpers: seq<Key>, eps: seq<Key>, files: seq<Path>, codes: Codes)
  {
    || SomeReturn(p, helpers, eps, codes)
    || SomeSite(p, files, SetsBefore(p, helpers, eps, |helpers| + |eps|), codes)
  }

  predicate Outside(codes: Codes) { codes.Some? && !(codes.value <= {0, 5, 95, 96}) }

  /** Some entry point has this status. */
  ghost predicate HasStatus(p: Program, all: set<Key>, eps: seq<Key>, entries: map<Key, Codes>, status: Protection)
    requires forall k :: k in eps ==> k in all
  {
    exists k :: k in eps && EscapeStatus(p, all, entries, k, {}) == status
  }

  ghost predicate SomeStatus(p: Program, helpers: seq<Key>, eps: seq<Key>, status: Protection)
  {
    HasStatus(p, SetOf(eps), eps, SetsBefore(p, helpers, eps, |helpers| + |eps|), status)
  }

  /** A unit is out of contract, or an entry point is unprotected. */
  ghost predicate Faulty(p: Program, helpers: seq<Key>, eps: seq<Key>, files: seq<Path>)
  {
    || (exists codes :: SomeUnit(p, helpers, eps, files, codes) && Outside(codes))
    || SomeStatus(p, helpers, eps, Unprotected)
  }

  /** A unit has no set, or the status of an entry point cannot be told. */
  ghost predicate Undecided(p: Program, helpers: seq<Key>, eps: seq<Key>, files: seq<Path>)
  {
    SomeUnit(p, helpers, eps, files, None) || SomeStatus(p, helpers, eps, Unmeasured)
  }

  ghost predicate Counted(p: Program, helpers: seq<Key>, eps: seq<Key>, files: seq<Path>)
  {
    exists codes :: SomeUnit(p, helpers, eps, files, codes)
  }

  /**
   Red: everything parses and something is wrong.  Unmeasured: not so, and something is not
   known.  Clear: neither.
   */
  ghost predicate Means(p: Program, helpers: seq<Key>, eps: seq<Key>, files: seq<Path>, rc: int)
  {
    var parsed := AllParsed(p, helpers, eps, files);
    var faulty, undecided := Faulty(p, helpers, eps, files), Undecided(p, helpers, eps, files);
    var counted := Counted(p, helpers, eps, files);
    && (rc == 5 <==> parsed && faulty)
    && (rc == 95 <==> !parsed || (!faulty && (!counted || undecided)))
    && (rc == 0 <==> parsed && !faulty && counted && !undecided)
  }

  /** A report over units with these codes; `extra`: something else is unmeasured. */
  ghost predicate Tallies(r: Report, units: iset<Codes>, extra: bool)
  {
    && (r.findings != [] <==> exists c :: c in units && Outside(c))
    && (r.unmeasured != [] <==> extra || None in units)
    && (r.total > 0 <==> exists c :: c in units)
  }

  lemma {:induction false} TalliesPlus(a: Report, x: iset<Codes>, ea: bool, b: Report, y: iset<Codes>, eb: bool)
    requires Tallies(a, x, ea) && Tallies(b, y, eb)
    ensures Tallies(Plus(a, b), x + y, ea || eb)
  {
    assert (a.findings + b.findings == []) <==> (a.findings == [] && b.findings == []);
    assert (a.unmeasured + b.unmeasured == []) <==> (a.unmeasured == [] && b.unmeasured == []);
    if c :| c in x { assert c in x + y; }
    if c :| c in y { assert c in x + y; }
  }

  lemma {:induction false} UnitTallies(c: Codes, at: Item)
    ensures Tallies(UnitReport(c, at), iset{c}, false)
  {
    assert c in iset{c};
  }

  ghost function ReturnUnits(w: Where, rets: seq<Ret>, locals: LocalTable): iset<Codes>
  {
    iset r | r in rets :: ReturnSet(w, r, locals)
  }

  lemma {:induction false} ReturnsTally(w: Where, rets: seq<Ret>, locals: LocalTable)
    ensures Tallies(ReturnsReport(w, rets, locals), ReturnUnits(w, rets, locals), false)
    decreases |rets|
  {
    if rets != [] {
      var init, last := rets[..|rets| - 1], rets[|rets| - 1];
      var c, at := ReturnSet(w, last, locals), Item(w.path, last.line);
      ReturnsTally(w, init, locals);
      UnitTallies(c, at);
      TalliesPlus(ReturnsReport(w, init, locals), ReturnUnits(w, init, locals), false,
                  UnitReport(c, at), iset{c}, false);
      assert forall r :: r in rets <==> r in init || r == last;
      assert ReturnUnits(w, rets, locals) == ReturnUnits(w, init, locals) + iset{c};
    }
  }

  ghost function EntryUnits(p: Program, entries: map<Key, Codes>, k: Key): iset<Codes>
  {
    iset c | HasCodes(p, entries, k, c)
  }

  lemma {:induction false} EntryTallies(p: Program, entries: map<Key, Codes>, k: Key)
    ensures Tallies(EntryReport(p, entries, k), EntryUnits(p, entries, k), k.1 !in TablesOf(p, k.0).funcs)
  {
    if k.1 in TablesOf(p, k.0).funcs {
      var w, f := EntryWhere(p, entries, k), TablesOf(p, k.0).funcs[k.1];
      ReturnsTally(w, BlockReturns(f.body), LocalMap(w, f));
      EntryUnitsAre(p, entries, k);
    }
  }

  lemma {:induction false} EntryUnitsAre(p: Program, entries: map<Key, Codes>, k: Key)
    requires k.1 in TablesOf(p, k.0).funcs
    ensures var w, f := EntryWhere(p, entries, k), TablesOf(p, k.0).funcs[k.1];
      EntryUnits(p, entries, k) == ReturnUnits(w, BlockReturns(f.body), LocalMap(w, f))
  {
    var w, f := EntryWhere(p, entries, k), TablesOf(p, k.0).funcs[k.1];
    forall c ensures c in ReturnUnits(w, BlockReturns(f.body), LocalMap(w, f)) <==> HasCodes(p, entries, k, c) {
      if r :| r in BlockReturns(f.body) && ReturnSet(w, r, LocalMap(w, f)) == c {
        assert ReturnHasCodes(p, entries, k, r, c);
      }
    }
  }

  /** The codes some of the first j units have. */
  ghost function UnionTo(units: seq<iset<Codes>>, j: nat): iset<Codes>
    requires j <= |units|
  {
    if j == 0 then iset{} else UnionTo(units, j - 1) + units[j - 1]
  }

  lemma {:induction false} UnionHas(units: seq<iset<Codes>>, j: nat, c: Codes)
    requires j <= |units|
    ensures c in UnionTo(units, j) <==> exists i :: 0 <= i < j && c in units[i]
  {
    if j > 0 { UnionHas(units, j - 1, c); }
  }

  ghost predicate AnyTo(marks: seq<bool>, j: nat)
    requires j <= |marks|
  {
    j > 0 && (AnyTo(marks, j - 1) || marks[j - 1])
  }

  lemma {:induction false} AnyHas(marks: seq<bool>, j: nat) returns (i: nat)
    requires j <= |marks| && AnyTo(marks, j)
    ensures i < j && marks[i]
  {
    if marks[j - 1] { i := j - 1; } else { i := AnyHas(marks, j - 1); }
  }

  /** A report kept up to date: `shown` before and after each addition. */
  ghost predicate Running(shown: seq<Report>, added: seq<Report>)
  {
    && |shown| == |added| + 1 && shown[0] == NOTHING
    && forall i {:trigger added[i]} :: 0 <= i < |added| ==> shown[i + 1] == Plus(shown[i], added[i])
  }

  ghost predicate AllTally(added: seq<Report>, units: seq<iset<Codes>>, extra: seq<bool>)
  {
    && |added| == |units| == |extra|
    && forall i {:trigger added[i]} :: 0 <= i < |added| ==> Tallies(added[i], units[i], extra[i])
  }

  lemma {:induction false} RunningTallies(shown: seq<Report>, added: seq<Report>, units: seq<iset<Codes>>,
                                          extra: seq<bool>, j: nat)
    requires Running(shown, added) && AllTally(added, units, extra) && j <= |added|
    ensures Tallies(shown[j], UnionTo(units, j), AnyTo(extra, j))
  {
    if j > 0 {
      RunningTallies(shown, added, units, extra, j - 1);
      TalliesPlus(shown[j - 1], UnionTo(units, j - 1), AnyTo(extra, j - 1), added[j - 1], units[j - 1], extra[j - 1]);
    }
  }

  predicate Absent(p: Program, k: Key) { k.1 !in TablesOf(p, k.0).funcs }

  /** The report once the first i declared functions are measured. */
  function ShownTo(p: Program, helpers: seq<Key>, eps: seq<Key>, i: nat): Report
    requires i <= |helpers| + |eps|
  {
    if i <= |helpers| then Measured(p, helpers[..i], true, map[]).1
    else
      var (start, first) := Measured(p, helpers, true, map[]);
      Plus(first, Measured(p, eps[..i - |helpers|], false, start).1)
  }

  /** What the i-th of them adds. */
  function AddedAt(p: Program, helpers: seq<Key>, eps: seq<Key>, i: nat): Report
    requires i < |helpers| + |eps|
  {
    var k := (helpers + eps)[i];
    if i < |helpers| && Absent(p, k) then NOTHING else EntryReport(p, SetsBefore(p, helpers, eps, i), k)
  }

  ghost function UnitsAt(p: Program, helpers: seq<Key>, eps: seq<Key>, i: nat): iset<Codes>
    requires i < |helpers| + |eps|
  {
    EntryUnits(p, SetsBefore(p, helpers, eps, i), (helpers + eps)[i])
  }

  /** An entry point that is not there is unmeasured. */
  predicate MissingAt(p: Program, helpers: seq<Key>, eps: seq<Key>, i: nat)
    requires i < |helpers| + |eps|
  {
    i >= |helpers| && Absent(p, (helpers + eps)[i])
  }

  lemma {:induction false} AddedTallies(p: Program, helpers: seq<Key>, eps: seq<Key>, i: nat)
    requires i < |helpers| + |eps|
    ensures Tallies(AddedAt(p, helpers, eps, i), UnitsAt(p, helpers, eps, i), MissingAt(p, helpers, eps, i))
  {
    EntryTallies(p, SetsBefore(p, helpers, eps, i), (helpers + eps)[i]);
  }

  /** One more function measured: the sets and the report grow by what it shows. */
  lemma {:induction false} MeasuredNext(p: Program, ks: seq<Key>, k: Key, skip: bool, start: map<Key, Codes>)
    ensures var (before, after) := (Measured(p, ks, skip, start), Measured(p, ks + [k], skip, start));
      if skip && Absent(p, k) then after == before
      else
        && after.0 == before.0[k := EntryCodes(p, before.0, k)]
        && after.1 == Plus(before.1, EntryReport(p, before.0, k))
  {
    assert (ks + [k])[..|ks + [k]| - 1] == ks;
  }

  /** The sets in hand before the i-th function, as the two passes leave them. */
  lemma {:induction false} HelperSets(p: Program, helpers: seq<Key>, eps: seq<Key>, i: nat)
    requires i <= |helpers|
    ensures Measured(p, helpers[..i], true, map[]).0 == SetsBefore(p, helpers, eps, i)
  {
    if i > 0 {
      HelperSets(p, helpers, eps, i - 1);
      assert helpers[..i] == helpers[..i - 1] + [helpers[i - 1]] && (helpers + eps)[i - 1] == helpers[i - 1];
      MeasuredNext(p, helpers[..i - 1], helpers[i - 1], true, map[]);
    }
  }

  lemma {:induction false} EntrySets(p: Program, helpers: seq<Key>, eps: seq<Key>, j: nat)
    requires j <= |eps|
    ensures Measured(p, eps[..j], false, Measured(p, helpers, true, map[]).0).0
         == SetsBefore(p, helpers, eps, |helpers| + j)
  {
    if j == 0 {
      HelperSets(p, helpers, eps, |helpers|);
      assert helpers[..|helpers|] == helpers && eps[..0] == [];
    } else {
      EntrySets(p, helpers, eps, j - 1);
      assert eps[..j] == eps[..j - 1] + [eps[j - 1]] && (helpers + eps)[|helpers| + j - 1] == eps[j - 1];
      MeasuredNext(p, eps[..j - 1], eps[j - 1], false, Measured(p, helpers, true, map[]).0);
    }
  }

  lemma {:induction false} HelperShown(p: Program, helpers: seq<Key>, eps: seq<Key>, i: nat)
    requires i < |helpers|
    ensures ShownTo(p, helpers, eps, i + 1) == Plus(ShownTo(p, helpers, eps, i), AddedAt(p, helpers, eps, i))
  {
    HelperSets(p, helpers, eps, i);
    assert helpers[..i + 1] == helpers[..i] + [helpers[i]] && (helpers + eps)[i] == helpers[i];
    MeasuredNext(p, helpers[..i], helpers[i], true, map[]);
    PlusNothing(ShownTo(p, helpers, eps, i));
  }

  lemma {:induction false} EntryShown(p: Program, helpers: seq<Key>, eps: seq<Key>, i: nat, j: nat)
    requires j < |eps| && i == |helpers| + j
    ensures ShownTo(p, helpers, eps, i + 1) == Plus(ShownTo(p, helpers, eps, i), AddedAt(p, helpers, eps, i))
  {
    var (start, first) := Measured(p, helpers, true, map[]);
    var report := EntryReport(p, SetsBefore(p, helpers, eps, i), eps[j]);
    EntryMeasured(p, helpers, eps, i, j);
    PlusAssoc(first, Measured(p, eps[..j], false, start).1, report);
    if j == 0 {
      assert helpers[..|helpers|] == helpers && eps[..0] == [];
      PlusNothing(first);
    }
  }

  lemma {:induction false} EntryMeasured(p: Program, helpers: seq<Key>, eps: seq<Key>, i: nat, j: nat)
    requires j < |eps| && i == |helpers| + j
    ensures var start := Measured(p, helpers, true, map[]).0;
      var before := Measured(p, eps[..j], false, start);
      && before.0 == SetsBefore(p, helpers, eps, i) && (helpers + eps)[i] == eps[j]
      && Measured(p, eps[..j + 1], false, start).1 == Plus(before.1, EntryReport(p, before.0, eps[j]))
  {
    EntrySets(p, helpers, eps, j);
    assert eps[..j + 1] == eps[..j] + [eps[j]];
    MeasuredNext(p, eps[..j], eps[j], false, Measured(p, helpers, true, map[]).0);
  }

  lemma {:induction false} ShownNext(p: Program, helpers: seq<Key>, eps: seq<Key>, i: nat)
    requires i < |helpers| + |eps|
    ensures ShownTo(p, helpers, eps, i + 1) == Plus(ShownTo(p, helpers, eps, i), AddedAt(p, helpers, eps, i))
  {
    if i < |helpers| { HelperShown(p, helpers, eps, i); } else { EntryShown(p, helpers, eps, i, i - |helpers|); }
  }

  ghost function UnitsOf(p: Program, helpers: seq<Key>, eps: seq<Key>): seq<iset<Codes>>
  {
    seq(|helpers| + |eps|, i requires 0 <= i < |helpers| + |eps| => UnitsAt(p, helpers, eps, i))
  }

  ghost function MissingOf(p: Program, helpers: seq<Key>, eps: seq<Key>): seq<bool>
  {
    seq(|helpers| + |eps|, i requires 0 <= i < |helpers| + |eps| => MissingAt(p, helpers, eps, i))
  }

  ghost function AddedOf(p: Program, helpers: seq<Key>, eps: seq<Key>): seq<Report>
  {
    seq(|helpers| + |eps|, i requires 0 <= i < |helpers| + |eps| => AddedAt(p, helpers, eps, i))
  }

  ghost function ShownOf(p: Program, helpers: seq<Key>, eps: seq<Key>): seq<Report>
  {
    seq(|helpers| + |eps| + 1, i requires 0 <= i <= |helpers| + |eps| => ShownTo(p, helpers, eps, i))
  }

  lemma {:induction false} AxisRuns(p: Program, helpers: seq<Key>, eps: seq<Key>)
    ensures Running(ShownOf(p, helpers, eps), AddedOf(p, helpers, eps))
  {
    forall i {:trigger AddedAt(p, helpers, eps, i)} | 0 <= i < |helpers| + |eps|
      ensures ShownTo(p, helpers, eps, i + 1) == Plus(ShownTo(p, helpers, eps, i), AddedAt(p, helpers, eps, i))
    {
      ShownNext(p, helpers, eps, i);
    }
    assert helpers[..0] == [];
  }

  lemma {:induction false} AxisAllTally(p: Program, helpers: seq<Key>, eps: seq<Key>)
    ensures AllTally(AddedOf(p, helpers, eps), UnitsOf(p, helpers, eps), MissingOf(p, helpers, eps))
  {
    forall i | 0 <= i < |helpers| + |eps|
      ensures Tallies(AddedAt(p, helpers, eps, i), UnitsAt(p, helpers, eps, i), MissingAt(p, helpers, eps, i))
    {
      AddedTallies(p, helpers, eps, i);
    }
  }

  ghost function SiteUnits(p: Program, path: Path, entries: map<Key, Codes>, sites: seq<ExitSite>): iset<Codes>
  {
    iset s | s in sites :: SiteValues(p, path, entries, s.args)
  }

  lemma {:induction false} SitesTally(p: Program, path: Path, entries: map<Key, Codes>, sites: seq<ExitSite>)
    ensures Tallies(SitesReport(p, path, entries, sites), SiteUnits(p, path, entries, sites), false)
    decreases |sites|
  {
    if sites != [] {
      var init, last := sites[..|sites| - 1], sites[|sites| - 1];
      var c, at := SiteValues(p, path, entries, last.args), Item(path, last.line);
      SitesTally(p, path, entries, init);
      UnitTallies(c, at);
      TalliesPlus(SitesReport(p, path, entries, init), SiteUnits(p, path, entries, init), false,
                  UnitReport(c, at), iset{c}, false);
      assert forall s :: s in sites <==> s in init || s == last;
      assert SiteUnits(p, path, entries, sites) == SiteUnits(p, path, entries, init) + iset{c};
    }
  }

  ghost function FileUnits(p: Program, files: seq<Path>, entries: map<Key, Codes>): iset<Codes>
  {
    iset c | SomeSite(p, files, entries, c)
  }

  lemma {:induction false} FilesTally(p: Program, files: seq<Path>, entries: map<Key, Codes>)
    requires forall q :: q in files ==> q in p.mods
    ensures Tallies(FilesReport(p, files, entries), FileUnits(p, files, entries), false)
    decreases |files|
  {
    if files != [] {
      FilesTally(p, files[..|files| - 1], entries);
      FileTalliesNext(p, files, entries);
    }
  }

  lemma {:induction false} FileTalliesNext(p: Program, files: seq<Path>, entries: map<Key, Codes>)
    requires files != [] && forall q :: q in files ==> q in p.mods
    requires var init := files[..|files| - 1];
      Tallies(FilesReport(p, init, entries), FileUnits(p, init, entries), false)
    ensures Tallies(FilesReport(p, files, entries), FileUnits(p, files, entries), false)
  {
    var init, q := files[..|files| - 1], files[|files| - 1];
    var x, y := FileUnits(p, init, entries), SiteUnits(p, q, entries, p.mods[q].sites);
    var a, b := FilesReport(p, init, entries), SitesReport(p, q, entries, p.mods[q].sites);
    assert Tallies(Plus(a, b), x + y, false) by {
      SitesTally(p, q, entries, p.mods[q].sites);
      TalliesPlus(a, x, false, b, y, false);
    }
    assert FilesReport(p, files, entries) == Plus(a, b);
    assert FileUnits(p, files, entries) == x + y by {
      assert files == init + [q];
      FileUnitsNext(p, init, q, entries);
    }
  }

  lemma {:induction false} FileUnitsNext(p: Program, init: seq<Path>, last: Path, entries: map<Key, Codes>)
    requires last in p.mods
    ensures FileUnits(p, init + [last], entries)
         == FileUnits(p, init, entries) + SiteUnits(p, last, entries, p.mods[last].sites)
  {
    var all := init + [last];
    assert forall q :: q in all <==> q in init || q == last;
    forall c ensures
      SomeSite(p, all, entries, c) <==> SomeSite(p, init, entries, c) || SiteHasCodes(p, last, entries, c) {}
    assert forall c :: SiteHasCodes(p, last, entries, c) <==> c in SiteUnits(p, last, entries, p.mods[last].sites);
  }

  ghost predicate EscapesShown(p: Program, all: set<Key>, eps: seq<Key>, entries: map<Key, Codes>, r: Report)
    requires forall k :: k in eps ==> k in all
  {
    && (r.findings != [] <==> HasStatus(p, all, eps, entries, Unprotected))
    && (r.unmeasured != [] <==> HasStatus(p, all, eps, entries, Unmeasured))
  }

  lemma {:induction false} EscapesTally(p: Program, all: set<Key>, eps: seq<Key>, entries: map<Key, Codes>)
    requires forall k :: k in eps ==> k in all
    ensures EscapesShown(p, all, eps, entries, EscapeReport(p, all, eps, entries))
    decreases |eps|
  {
    if eps != [] {
      var init, last := eps[..|eps| - 1], eps[|eps| - 1];
      EscapesTally(p, all, init, entries);
      EscapesNext(p, all, init, last, entries, EscapeReport(p, all, init, entries));
      assert eps == init + [last];
    }
  }

  lemma {:induction false} EscapesNext(p: Program, all: set<Key>, init: seq<Key>, last: Key, entries: map<Key, Codes>,
                                       r: Report)
    requires last in all && (forall k :: k in init ==> k in all) && EscapesShown(p, all, init, entries, r)
    ensures var status := EscapeStatus(p, all, entries, last, {});
      EscapesShown(p, all, init + [last], entries, Plus(r, StatusReport(status, Item(last.0, 0))))
  {
    StatusNext(p, all, init, last, entries, Unprotected);
    StatusNext(p, all, init, last, entries, Unmeasured);
    OneStatus(r, EscapeStatus(p, all, entries, last, {}), Item(last.0, 0));
  }

  lemma {:induction false} OneStatus(r: Report, status: Protection, at: Item)
    ensures var after := Plus(r, StatusReport(status, at));
      && (after.findings != [] <==> r.findings != [] || status == Unprotected)
      && (after.unmeasured != [] <==> r.unmeasured != [] || status == Unmeasured)
  {
  }

  lemma {:induction false} StatusNext(p: Program, all: set<Key>, init: seq<Key>, last: Key, entries: map<Key, Codes>,
                                      status: Protection)
    requires last in all && forall k :: k in init ==> k in all
    ensures HasStatus(p, all, init + [last], entries, status)
      <==> HasStatus(p, all, init, entries, status) || EscapeStatus(p, all, entries, last, {}) == status
  {
    var ks := init + [last];
    assert forall k :: k in ks <==> k in init || k == last;
  }

  /** The first axis, in terms of the units. */
  ghost function AxisUnits(p: Program, helpers: seq<Key>, eps: seq<Key>): iset<Codes>
  {
    UnionTo(UnitsOf(p, helpers, eps), |helpers| + |eps|)
  }

  ghost predicate SomeMissing(p: Program, helpers: seq<Key>, eps: seq<Key>)
  {
    AnyTo(MissingOf(p, helpers, eps), |helpers| + |eps|)
  }

  lemma {:induction false} AxisShown(p: Program, helpers: seq<Key>, eps: seq<Key>)
    ensures ShownTo(p, helpers, eps, |helpers| + |eps|) == AxisReturn(p, helpers, eps)
    ensures EntriesOf(p, helpers, eps) == SetsBefore(p, helpers, eps, |helpers| + |eps|)
  {
    EntrySets(p, helpers, eps, |eps|);
    assert helpers[..|helpers|] == helpers && eps[..|eps|] == eps;
    if eps == [] { PlusNothing(Measured(p, helpers, true, map[]).1); }
  }

  lemma {:induction false} AxisTallies(p: Program, helpers: seq<Key>, eps: seq<Key>)
    ensures Tallies(AxisReturn(p, helpers, eps), AxisUnits(p, helpers, eps), SomeMissing(p, helpers, eps))
  {
    AxisRuns(p, helpers, eps);
    AxisAllTally(p, helpers, eps);
    RunningTallies(ShownOf(p, helpers, eps), AddedOf(p, helpers, eps), UnitsOf(p, helpers, eps),
                   MissingOf(p, helpers, eps), |helpers| + |eps|);
    AxisShown(p, helpers, eps);
  }

  lemma {:induction false} MissingUnmeasured(p: Program, all: set<Key>, helpers: seq<Key>, eps: seq<Key>,
                                             entries: map<Key, Codes>)
    requires SomeMissing(p, helpers, eps) && forall k :: k in eps ==> k in all
    ensures HasStatus(p, all, eps, entries, Unmeasured)
  {
    var i := AnyHas(MissingOf(p, helpers, eps), |helpers| + |eps|);
    var k := (helpers + eps)[i];
    assert k == eps[i - |helpers|] && Absent(p, k);
    assert EscapeStatus(p, all, entries, k, {}) == Unmeasured;
  }

  /** What is weighed: the units of both axes, and what the third axis and absent functions add. */
  lemma {:induction false} WeighIs(a: Report, x: iset<Codes>, absent: bool, b: Report, y: iset<Codes>, e: Report)
    requires Tallies(a, x, absent) && Tallies(b, y, false)
    ensures var faulty := (exists c :: c in x + y && Outside(c)) || e.findings != [];
      var undecided := absent || None in x + y || e.unmeasured != [];
      Weigh(a, b, e) == if faulty then 5 else if !(exists c :: c in x + y) || undecided then 95 else 0
  {
    TalliesPlus(a, x, absent, b, y, false);
    var both := Plus(a, b);
    assert both.findings + e.findings == [] <==> both.findings == [] && e.findings == [];
    assert both.unmeasured + e.unmeasured == [] <==> both.unmeasured == [] && e.unmeasured == [];
  }

  ghost function AllUnits(p: Program, helpers: seq<Key>, eps: seq<Key>, files: seq<Path>): iset<Codes>
  {
    iset c | SomeUnit(p, helpers, eps, files, c)
  }

  lemma {:induction false} ReturnsAre(p: Program, helpers: seq<Key>, eps: seq<Key>, c: Codes)
    ensures SomeReturn(p, helpers, eps, c) <==> c in AxisUnits(p, helpers, eps)
  {
    var units := UnitsOf(p, helpers, eps);
    forall i {:trigger ReturnAt(p, helpers, eps, i, c)} | 0 <= i < |helpers| + |eps|
      ensures ReturnAt(p, helpers, eps, i, c) <==> c in units[i]
    {
      assert units[i] == UnitsAt(p, helpers, eps, i);
    }
    UnionHas(units, |helpers| + |eps|, c);
    if c in AxisUnits(p, helpers, eps) {
      var i :| 0 <= i < |helpers| + |eps| && c in units[i];
      assert ReturnAt(p, helpers, eps, i, c);
    }
  }

  lemma {:induction false} AllUnitsAre(p: Program, helpers: seq<Key>, eps: seq<Key>, files: seq<Path>)
    ensures AllUnits(p, helpers, eps, files)
         == AxisUnits(p, helpers, eps)
            + FileUnits(p, files, SetsBefore(p, helpers, eps, |helpers| + |eps|))
  {
    forall c ensures SomeReturn(p, helpers, eps, c) <==> c in AxisUnits(p, helpers, eps) {
      ReturnsAre(p, helpers, eps, c);
    }
  }

  /** The answer of the gate over a program that parses, from the units and the third axis. */
  lemma {:induction false} ParsedMeans(p: Program, helpers: seq<Key>, eps: seq<Key>, files: seq<Path>)
    requires AllParsed(p, helpers, eps, files)
    ensures Verdict(p, helpers, eps, files)
         == if Faulty(p, helpers, eps, files) then 5
            else if !Counted(p, helpers, eps, files) || Undecided(p, helpers, eps, files) then 95
            else 0
  {
    var entries := SetsBefore(p, helpers, eps, |helpers| + |eps|);
    var escapes := EscapeReport(p, SetOf(eps), eps, entries);
    AxisTallies(p, helpers, eps);
    AxisShown(p, helpers, eps);
    FilesTally(p, files, entries);
    EscapesTally(p, SetOf(eps), eps, entries);
    WeighIs(AxisReturn(p, helpers, eps), AxisUnits(p, helpers, eps), SomeMissing(p, helpers, eps),
            FilesReport(p, files, entries), FileUnits(p, files, entries), escapes);
    AllUnitsAre(p, helpers, eps, files);
    UnitsMean(p, helpers, eps, files, AllUnits(p, helpers, eps, files), escapes);
  }

  lemma {:induction false} UnitsMean(p: Program, helpers: seq<Key>, eps: seq<Key>, files: seq<Path>, units: iset<Codes>,
                                     e: Report)
    requires units == AllUnits(p, helpers, eps, files)
    requires e.findings != [] <==> SomeStatus(p, helpers, eps, Unprotected)
    requires e.unmeasured != [] <==> SomeStatus(p, helpers, eps, Unmeasured)
    ensures Faulty(p, helpers, eps, files) <==> (exists c :: c in units && Outside(c)) || e.findings != []
    ensures Counted(p, helpers, eps, files) <==> exists c :: c in units
    ensures Undecided(p, helpers, eps, files) <==> SomeMissing(p, helpers, eps) || None in units || e.unmeasured != []
  {
    assert forall c :: c in units <==> SomeUnit(p, helpers, eps, files, c);
    if SomeMissing(p, helpers, eps) {
      MissingUnmeasured(p, SetOf(eps), helpers, eps, SetsBefore(p, helpers, eps, |helpers| + |eps|));
    }
  }

  /** The verdict has the meaning stated above. */
  lemma {:induction false} VerdictMeans(p: Program, helpers: seq<Key>, eps: seq<Key>, files: seq<Path>)
    ensures Means(p, helpers, eps, files, Verdict(p, helpers, eps, files))
  {
    if AllParsed(p, helpers, eps, files) { ParsedMeans(p, helpers, eps, files); }
  }

  // ----- the imperative form -----

  class AxisCount {
    var total: nat
    var good: nat
    var bad: nat
    var unresolved: nat

    constructor ()
      ensures total == good == bad == unresolved == 0
    {
      total, good, bad, unresolved := 0, 0, 0, 0;
    }
  }

  /** The two lists of an assessment. */
  class Ledger {
    var findings: seq<Item>
    var unmeasured: seq<Item>

    constructor ()
      ensures findings == [] && unmeasured == []
    {
      findings, unmeasured := [], [];
    }
  }

  ghost function Snapshot(a: AxisCount, ledger: Ledger): Report
    reads a, ledger
  {
    Report(a.total, a.good, a.bad, a.unresolved, ledger.findings, ledger.unmeasured)
  }

  /** One unit counted on its axis and entered in the list it belongs to. */
  method CountUnit(codes: Codes, at: Item, axis: AxisCount, ledger: Ledger)
    modifies axis, ledger
    ensures Snapshot(axis, ledger) == Plus(old(Snapshot(axis, ledger)), UnitReport(codes, at))
    ensures axis.total == old(axis.total) + 1
    ensures axis.unresolved == old(axis.unresolved) + if codes.None? then 1 else 0
    ensures axis.bad == old(axis.bad) + if Outside(codes) then 1 else 0
    ensures axis.good == old(axis.good) + if codes.Some? && !Outside(codes) then 1 else 0
    ensures ledger.unmeasured == old(ledger.unmeasured) + if codes.None? then [at] else []
    ensures ledger.findings == old(ledger.findings) + if Outside(codes) then [at] else []
  {
    axis.total := axis.total + 1;
    if codes.None? {
      axis.unresolved := axis.unresolved + 1;
      ledger.unmeasured := ledger.unmeasured + [at];
    } else if codes.value <= CONTRACT {
      axis.good := axis.good + 1;
    } else {
      axis.bad := axis.bad + 1;
      ledger.findings := ledger.findings + [at];
    }
  }

  /** `_assess_entry`: one declared function; its set is None if any of its returns is. */
  method AssessEntry(p: Program, entries: map<Key, Codes>, k: Key, a1: AxisCount, ledger: Ledger)
    returns (combined: Codes)
    modifies a1, ledger
    ensures combined == EntryCodes(p, entries, k)
    ensures Snapshot(a1, ledger) == Plus(old(Snapshot(a1, ledger)), EntryReport(p, entries, k))
  {
    if k.1 !in TablesOf(p, k.0).funcs {
      ledger.unmeasured := ledger.unmeasured + [Item(k.0, 0)];
      return None;
    }
    var w, f := EntryWhere(p, entries, k), TablesOf(p, k.0).funcs[k.1];
    var locals := SolveLocals(w, f);
    combined := CountReturns(w, BlockReturns(f.body), locals, a1, ledger);
  }

  /** The loop over the returns of one function. */
  method CountReturns(w: Where, rets: seq<Ret>, locals: LocalTable, a1: AxisCount, ledger: Ledger)
    returns (combined: Codes)
    modifies a1, ledger
    ensures combined == ReturnsSet(w, rets, locals)
    ensures Snapshot(a1, ledger) == Plus(old(Snapshot(a1, ledger)), ReturnsReport(w, rets, locals))
  {
    var out: set<int> := {};
    var allResolved := true;
    ghost var before := Snapshot(a1, ledger);
    PlusNothing(before);
    for i := 0 to |rets|
      invariant ReturnsSet(w, rets[..i], locals) == if allResolved then Some(out) else None
      invariant Snapshot(a1, ledger) == Plus(before, ReturnsReport(w, rets[..i], locals))
    {
      assert rets[..i + 1][..i] == rets[..i];
      var s := ReturnSet(w, rets[i], locals);
      PlusAssoc(before, ReturnsReport(w, rets[..i], locals), UnitReport(s, Item(w.path, rets[i].line)));
      CountUnit(s, Item(w.path, rets[i].line), a1, ledger);
      if s.None? { allResolved := false; } else { out := out + s.value; }
    }
    assert rets[..|rets|] == rets;
    return if allResolved then Some(out) else None;
  }

  method MeasureAll(p: Program, ks: seq<Key>, skip: bool, start: map<Key, Codes>, a1: AxisCount, ledger: Ledger)
    returns (entries: map<Key, Codes>)
    modifies a1, ledger
    ensures entries == Measured(p, ks, skip, start).0
    ensures Snapshot(a1, ledger) == Plus(old(Snapshot(a1, ledger)), Measured(p, ks, skip, start).1)
  {
    entries := start;
    ghost var before := Snapshot(a1, ledger);
    PlusNothing(before);
    for i := 0 to |ks|
      invariant entries == Measured(p, ks[..i], skip, start).0
      invariant Snapshot(a1, ledger) == Plus(before, Measured(p, ks[..i], skip, start).1)
    {
      assert ks[..i + 1][..i] == ks[..i];
      if !(skip && ks[i].1 !in TablesOf(p, ks[i].0).funcs) {
        PlusAssoc(before, Measured(p, ks[..i], skip, start).1, EntryReport(p, entries, ks[i]));
        var combined := AssessEntry(p, entries, ks[i], a1, ledger);
        entries := entries[ks[i] := combined];
      }
    }
    assert ks[..|ks|] == ks;
  }

  method MeasureSites(p: Program, q: Path, sites: seq<ExitSite>, entries: map<Key, Codes>, a2: AxisCount,
                      ledger: Ledger)
    modifies a2, ledger
    ensures Snapshot(a2, ledger) == Plus(old(Snapshot(a2, ledger)), SitesReport(p, q, entries, sites))
  {
    ghost var before := Snapshot(a2, ledger);
    PlusNothing(before);
    for j := 0 to |sites|
      invariant Snapshot(a2, ledger) == Plus(before, SitesReport(p, q, entries, sites[..j]))
    {
      assert sites[..j + 1][..j] == sites[..j];
      var s := SiteValues(p, q, entries, sites[j].args);
      PlusAssoc(before, SitesReport(p, q, entries, sites[..j]), UnitReport(s, Item(q, sites[j].line)));
      CountUnit(s, Item(q, sites[j].line), a2, ledger);
    }
    assert sites[..|sites|] == sites;
  }

  method MeasureFiles(p: Program, files: seq<Path>, entries: map<Key, Codes>, a2: AxisCount, ledger: Ledger)
    requires forall q :: q in files ==> q in p.mods
    modifies a2, ledger
    ensures Snapshot(a2, ledger) == Plus(old(Snapshot(a2, ledger)), FilesReport(p, files, entries))
  {
    ghost var before := Snapshot(a2, ledger);
    PlusNothing(before);
    for i := 0 to |files|
      invariant Snapshot(a2, ledger) == Plus(before, FilesReport(p, files[..i], entries))
    {
      assert files[..i + 1][..i] == files[..i];
      var q := files[i];
      PlusAssoc(before, FilesReport(p, files[..i], entries), SitesReport(p, q, entries, p.mods[q].sites));
      MeasureSites(p, q, p.mods[q].sites, entries, a2, ledger);
    }
    assert files[..|files|] == files;
  }

  method EnterStatus(status: Protection, at: Item, ledger: Ledger)
    modifies ledger
    ensures ledger.findings == old(ledger.findings) + StatusReport(status, at).findings
    ensures ledger.unmeasured == old(ledger.unmeasured) + StatusReport(status, at).unmeasured
  {
    if status == Unprotected {
      ledger.findings := ledger.findings + [at];
    } else if status == Unmeasured {
      ledger.unmeasured := ledger.unmeasured + [at];
    }
  }

  lemma {:induction false} EscapeNext(p: Program, all: set<Key>, eps: seq<Key>, entries: map<Key, Codes>, i: nat,
                                      a: Report)
    requires i < |eps| && forall k :: k in eps ==> k in all
    ensures Plus(a, EscapeReport(p, all, eps[..i + 1], entries))
         == Plus(Plus(a, EscapeReport(p, all, eps[..i], entries)),
                 StatusReport(EscapeStatus(p, all, entries, eps[i], {}), Item(eps[i].0, 0)))
  {
    assert eps[..i + 1][..i] == eps[..i];
    PlusAssoc(a, EscapeReport(p, all, eps[..i], entries),
              StatusReport(EscapeStatus(p, all, entries, eps[i], {}), Item(eps[i].0, 0)));
  }

  method MeasureEscape(p: Program, all: set<Key>, eps: seq<Key>, entries: map<Key, Codes>, ledger: Ledger)
    requires forall k :: k in eps ==> k in all
    modifies ledger
    ensures ledger.findings == old(ledger.findings) + EscapeReport(p, all, eps, entries).findings
    ensures ledger.unmeasured == old(ledger.unmeasured) + EscapeReport(p, all, eps, entries).unmeasured
  {
    ghost var before := Report(0, 0, 0, 0, ledger.findings, ledger.unmeasured);
    PlusNothing(before);
    for i := 0 to |eps|
      invariant ledger.findings == Plus(before, EscapeReport(p, all, eps[..i], entries)).findings
      invariant ledger.unmeasured == Plus(before, EscapeReport(p, all, eps[..i], entries)).unmeasured
    {
      EscapeNext(p, all, eps, entries, i, before);
      var status := CheckEntry(p, all, entries, eps[i], {});
      EnterStatus(status, Item(eps[i].0, 0), ledger);
    }
    assert eps[..|eps|] == eps;
  }

  method MeasureReturns(p: Program, helpers: seq<Key>, eps: seq<Key>, a1: AxisCount, ledger: Ledger)
    returns (entries: map<Key, Codes>)
    requires Snapshot(a1, ledger) == NOTHING
    modifies a1, ledger
    ensures entries == EntriesOf(p, helpers, eps)
    ensures Snapshot(a1, ledger) == AxisReturn(p, helpers, eps)
  {
    ghost var first := Measured(p, helpers, true, map[]).1;
    var helped := MeasureAll(p, helpers, true, map[], a1, ledger);
    assert Snapshot(a1, ledger) == first by { PlusNothing(first); }
    entries := MeasureAll(p, eps, false, helped, a1, ledger);
  }

  /** Axis MODULE-EXIT, after axis RETURN has left `first` behind. */
  method MeasureExits(p: Program, files: seq<Path>, entries: map<Key, Codes>, a1: AxisCount, a2: AxisCount,
                      ledger: Ledger, ghost first: Report)
    requires a1 != a2 && Snapshot(a1, ledger) == first && a2.total == a2.good == a2.bad == a2.unresolved == 0
    requires forall q :: q in files ==> q in p.mods
    modifies a2, ledger
    ensures a2.total == FilesReport(p, files, entries).total
    ensures ledger.findings == first.findings + FilesReport(p, files, entries).findings
    ensures ledger.unmeasured == first.unmeasured + FilesReport(p, files, entries).unmeasured
  {
    MeasureFiles(p, files, entries, a2, ledger);
  }

  method Decide(a1: AxisCount, a2: AxisCount, ledger: Ledger) returns (rc: int)
    ensures rc == Decision(ledger.findings, a1.total + a2.total, ledger.unmeasured)
  {
    if ledger.findings != [] {
      rc := EXIT_RED;
    } else if a1.total + a2.total == 0 {
      rc := EXIT_UNMEASURED;
    } else if ledger.unmeasured != [] {
      rc := EXIT_UNMEASURED;
    } else {
      rc := EXIT_CLEAR;
    }
  }

  /** Axis ESCAPE and the verdict, after the other axes have left `first` and `second` behind. */
  method Conclude(p: Program, eps: seq<Key>, entries: map<Key, Codes>, a1: AxisCount, a2: AxisCount, ledger: Ledger,
                  ghost first: Report, ghost second: Report) returns (rc: int)
    requires ledger.findings == first.findings + second.findings
    requires ledger.unmeasured == first.unmeasured + second.unmeasured
    requires a1.total == first.total && a2.total == second.total
    modifies ledger
    ensures rc == Weigh(first, second, EscapeReport(p, SetOf(eps), eps, entries))
  {
    MeasureEscape(p, SetOf(eps), eps, entries, ledger);
    rc := Decide(a1, a2, ledger);
  }

  /** `assess`: the three axes in order, and one verdict over what they left behind. */
  method Run(p: Program, helpers: seq<Key>, eps: seq<Key>, files: seq<Path>) returns (rc: int)
    ensures rc == Verdict(p, helpers, eps, files) && Means(p, helpers, eps, files, rc)
  {
    VerdictMeans(p, helpers, eps, files);
    if !AllParsed(p, helpers, eps, files) { return EXIT_UNMEASURED; }
    var a1 := new AxisCount();
    var a2 := new AxisCount();
    var ledger := new Ledger();
    var entries := MeasureReturns(p, helpers, eps, a1, ledger);
    MeasureExits(p, files, entries, a1, a2, ledger, AxisReturn(p, helpers, eps));
    rc := Conclude(p, eps, entries, a1, a2, ledger, AxisReturn(p, helpers, eps), FilesReport(p, files, entries));
  }
}
