/** What a CLEAR verdict of the exit-contract gate is worth, over every run. */
module VerdictSoundness {
  import opened MiniPython
  import opened OwnNodes
  import opened PythonRuns
  import opened ExitSets
  import opened ExitSoundness
  import opened Containment
  import opened Delegation
  import opened Endings
  import opened RunsEnd
  import opened Nones
  import opened Assess

  // ----- the sets computed in order are all sound -----

  /** The declared functions are in the scope. */
  ghost predicate AllVisited(scope: set<Visit>, ks: seq<Key>)
  {
    forall k :: k in ks ==> Visit(k.0, k.1, false) in scope
  }

  lemma {:induction false} StepSound(p: Program, scope: set<Visit>, entries: map<Key, Codes>, k: Key)
    requires ProgramOk(p, scope) && EntriesSound(p, entries) && Visit(k.0, k.1, false) in scope
    ensures EntriesSound(p, entries[k := EntryCodes(p, entries, k)])
  {
    var codes, after := EntryCodes(p, entries, k), entries[k := EntryCodes(p, entries, k)];
    if codes.Some? {
      var w := EntryWhere(p, entries, k);
      EntryIsJudged(p, scope, entries, k);
      BodyCovered(w, TablesOf(p, k.0).funcs[k.1], codes.value);
    }
    forall x: Key ensures EntrySound(p, after, x) { assert EntrySound(p, entries, x); }
  }

  lemma {:induction false} MeasuredSound(p: Program, scope: set<Visit>, ks: seq<Key>, skip: bool, start: map<Key,
                                         Codes>)
    requires ProgramOk(p, scope) && EntriesSound(p, start) && AllVisited(scope, ks)
    ensures EntriesSound(p, Measured(p, ks, skip, start).0)
    decreases |ks|
  {
    if ks != [] {
      MeasuredSound(p, scope, ks[..|ks| - 1], skip, start);
      StepSound(p, scope, Measured(p, ks[..|ks| - 1], skip, start).0, ks[|ks| - 1]);
    }
  }

  /** Every set the gate computes covers the runs of its function; no set is presupposed. */
  lemma {:induction false} EntriesOfSound(p: Program, scope: set<Visit>, helpers: seq<Key>, eps: seq<Key>)
    requires ProgramOk(p, scope) && AllVisited(scope, helpers) && AllVisited(scope, eps)
    ensures EntriesSound(p, EntriesOf(p, helpers, eps))
  {
    var none: map<Key, Codes> := map[];
    forall k: Key ensures EntrySound(p, none, k) {}
    MeasuredSound(p, scope, helpers, true, none);
    MeasuredSound(p, scope, eps, false, Measured(p, helpers, true, none).0);
  }

  // ----- a clean report means every unit is in contract -----

  predicate Clean(r: Report)
  {
    r.findings == [] && r.unmeasured == []
  }

  ghost predicate InContract(entries: map<Key, Codes>, k: Key)
  {
    k in entries && entries[k].Some? && entries[k].value <= CONTRACT
  }

  lemma {:induction false} CleanParts(a: Report, b: Report)
    requires Clean(Plus(a, b))
    ensures Clean(a) && Clean(b)
  {
  }

  lemma {:induction false} CleanReturns(w: Where, rets: seq<Ret>, locals: LocalTable)
    requires Clean(ReturnsReport(w, rets, locals))
    ensures ReturnsSet(w, rets, locals).Some? && ReturnsSet(w, rets, locals).value <= CONTRACT
    decreases |rets|
  {
    if rets != [] { CleanReturns(w, rets[..|rets| - 1], locals); }
  }

  lemma {:induction false} CleanMeasured(p: Program, ks: seq<Key>, skip: bool, start: map<Key, Codes>, k: Key)
    requires Clean(Measured(p, ks, skip, start).1)
    requires InContract(start, k) || (k in ks && (skip ==> k.1 in TablesOf(p, k.0).funcs))
    ensures InContract(Measured(p, ks, skip, start).0, k)
    decreases |ks|
  {
    if ks != [] {
      var init, x := ks[..|ks| - 1], ks[|ks| - 1];
      var entries := Measured(p, init, skip, start).0;
      if x == k {
        if x.1 in TablesOf(p, x.0).funcs {
          var w, f := EntryWhere(p, entries, x), TablesOf(p, x.0).funcs[x.1];
          CleanReturns(w, BlockReturns(f.body), LocalMap(w, f));
        } else if skip {
          CleanMeasured(p, init, skip, start, k);
        }
      } else {
        CleanMeasured(p, init, skip, start, k);
      }
    }
  }

  lemma {:induction false} CleanEscape(p: Program, all: set<Key>, eps: seq<Key>, entries: map<Key, Codes>, k: Key)
    requires forall x :: x in eps ==> x in all
    requires Clean(EscapeReport(p, all, eps, entries)) && k in eps
    ensures EscapeStatus(p, all, entries, k, {}) == Protected
    decreases |eps|
  {
    if k != eps[|eps| - 1] { CleanEscape(p, all, eps[..|eps| - 1], entries, k); }
  }

  lemma {:induction false} CleanSites(p: Program, path: Path, entries: map<Key, Codes>, sites: seq<ExitSite>,
                                      s: ExitSite)
    requires Clean(SitesReport(p, path, entries, sites)) && s in sites
    ensures SiteValues(p, path, entries, s.args).Some? && SiteValues(p, path, entries, s.args).value <= CONTRACT
    decreases |sites|
  {
    var init, last := sites[..|sites| - 1], sites[|sites| - 1];
    CleanParts(SitesReport(p, path, entries, init),
               UnitReport(SiteValues(p, path, entries, last.args), Item(path, last.line)));
    if s != last {
      assert s in init;
      CleanSites(p, path, entries, init, s);
    }
  }

  lemma {:induction false} CleanFiles(p: Program, files: seq<Path>, entries: map<Key, Codes>, q: Path)
    requires forall x :: x in files ==> x in p.mods
    requires Clean(FilesReport(p, files, entries)) && q in files
    ensures Clean(SitesReport(p, q, entries, p.mods[q].sites))
    decreases |files|
  {
    var init, last := files[..|files| - 1], files[|files| - 1];
    assert last in files && forall x :: x in init ==> x in files;
    CleanParts(FilesReport(p, init, entries), SitesReport(p, last, entries, p.mods[last].sites));
    if q != last {
      assert q in init;
      CleanFiles(p, init, entries, q);
    }
  }

  // ----- module exits -----

  /** The status a site ends the interpreter with, once its single argument has a value. */
  function ExitStatus(kind: SiteKind, v: Value): int
  {
    if kind == OsExit && !v.IntV? && !v.BoolV? then 1 else Status(v)
  }

  /** The arguments of the site, one after the other. */
  function Evaluating(s: ExitSite): seq<Stmt>
  {
    seq(|s.args|, i requires 0 <= i < |s.args| => ExprStmt(s.args[i]))
    + seq(|s.keywords|, i requires 0 <= i < |s.keywords| => ExprStmt(s.keywords[i].value))
  }

  /** A function context in which a site's argument is evaluated. */
  function Around(s: ExitSite): FuncDef
  {
    FuncDef("", NO_PARAMS, Evaluating(s), s.locals, true)
  }

  function SiteAt(p: Program, path: Path, s: ExitSite): At { Here(p, path, Around(s)) }

  /** What the call at a site binds as its status. */
  datatype Argument = Absent | Refused | Given(e: Expr)

  /**
   `SystemExit` and `sys.exit` take no keyword and at most one argument (two make a tuple, or a
   TypeError: status 1 either way); `os._exit` takes exactly one, which may be called `status`.
   */
  function ArgumentOf(s: ExitSite): Argument
  {
    if |s.args| == 1 && s.keywords == [] then Given(s.args[0])
    else if s.kind == OsExit && s.args == [] && |s.keywords| == 1 && s.keywords[0].name == "status" then
      Given(s.keywords[0].value)
    else if s.kind != OsExit && s.args == [] && s.keywords == [] then Absent
    else Refused
  }

  /** Some run of the site's argument has a value that ends the interpreter with `status`. */
  ghost predicate ValueExits(p: Program, path: Path, s: ExitSite, e: Expr, status: int)
  {
    exists env: Env, o: Oracle ::
      && env.Keys <= LocalNames(Around(s)) && EvalExpr(SiteAt(p, path, s), e, env, o).Val?
      && status == ExitStatus(s.kind, EvalExpr(SiteAt(p, path, s), e, env, o).v)
  }

  /** The statuses a run of the site can end with; a TypeError ends with 1. */
  ghost predicate CanExitWith(p: Program, path: Path, s: ExitSite, status: int)
  {
    match ArgumentOf(s)
    case Absent => status == 0
    case Refused => status == 1
    case Given(e) => ValueExits(p, path, s, e, status)
  }

  ghost predicate ExitsIn(p: Program, path: Path, s: ExitSite, codes: set<int>)
  {
    forall status :: CanExitWith(p, path, s, status) ==> status in codes
  }

  /** A site whose locals keep clear of module names and whose calls lead into the scope. */
  ghost predicate SiteOk(p: Program, scope: set<Visit>, path: Path, s: ExitSite)
  {
    && (forall x :: x in LocalNames(Around(s)) ==> !ModuleName(p, path, x))
    && (forall e :: e in s.args ==> CallsIn(p, scope, path, false, e))
  }

  lemma {:induction false} ArgumentCovered(p: Program, scope: set<Visit>, path: Path, entries: map<Key, Codes>,
                                           s: ExitSite, env: Env, o: Oracle)
    requires ProgramOk(p, scope) && EntriesSound(p, entries) && SiteOk(p, scope, path, s) && |s.args| == 1
    ensures var w := Where(p, path, 0, {}, entries);
      var r := EvalExpr(SiteAt(p, path, s), s.args[0], env, o);
      r.Val? && Resolve(w, s.args[0], None).Some? ==> Covered(r.v, Resolve(w, s.args[0], None).value)
  {
    var w, e := Where(p, path, 0, {}, entries), s.args[0];
    assert CallsIn(p, scope, path, false, e);
    forall callee | callee in ValueCalls(e) ensures CallCovered(w, callee) { CallIsCovered(w, scope, callee); }
    EvalSound(w, SiteAt(p, path, s), None, e, env, o);
  }

  /** The status a None ends with: 0, but a TypeError, 1, for `os._exit`. */
  function NoneStatus(kind: SiteKind): int { if kind == OsExit then 1 else 0 }

  /** Calls good what ends with one of the codes. */
  function Accepting(kind: SiteKind, codes: set<int>): Judge
  {
    Judge(Some(codes), NoneStatus(kind) in codes, 1 in codes)
  }

  lemma {:induction false} AcceptedIff(kind: SiteKind, codes: set<int>, v: Value)
    ensures Bad(Accepting(kind, codes), v) <==> ExitStatus(kind, v) !in codes
  {
  }

  /** By its literals and callees the argument may end with a status outside the codes. */
  predicate MayExitOutside(p: Program, path: Path, s: ExitSite, e: Expr, codes: set<int>)
  {
    MayBeBad(CtxOf(SiteAt(p, path, s), Accepting(s.kind, codes)), e)
  }

  predicate MayBeNone(p: Program, path: Path, s: ExitSite, e: Expr)
  {
    MayBeBad(CtxOf(SiteAt(p, path, s), NONE_IS_BAD), e)
  }

  lemma {:induction false} SiteEvents(s: ExitSite, e: Expr)
    requires ArgumentOf(s) == Given(e)
    ensures forall ev :: ev in ExprEvents(e) ==> EventNames(ev) <= LocalNames(Around(s))
  {
    var b := Evaluating(s);
    assert ExprStmt(e) == b[0];
    assert ExprStmt(e) in b;
    EventsOf(b, ExprStmt(e));
    BodyEventsIn(CtxOf(Here(Program(map[], map[], {}, {}), [], Around(s)), ALL_GOOD));
  }

  /** Which statuses a site can end with, whatever was computed for it. */
  lemma {:induction false} SiteExitsIff(p: Program, path: Path, s: ExitSite, codes: set<int>)
    ensures ExitsIn(p, path, s, codes) <==>
      match ArgumentOf(s)
      case Absent => 0 in codes
      case Refused => 1 in codes
      case Given(e) => !MayExitOutside(p, path, s, e, codes)
  {
    match ArgumentOf(s)
    case Absent => assert CanExitWith(p, path, s, 0);
    case Refused => assert CanExitWith(p, path, s, 1);
    case Given(e) => GivenExitsIff(p, path, s, e, codes);
  }

  lemma {:induction false} GivenExitsIff(p: Program, path: Path, s: ExitSite, e: Expr, codes: set<int>)
    requires ArgumentOf(s) == Given(e)
    ensures ExitsIn(p, path, s, codes) <==> !MayExitOutside(p, path, s, e, codes)
  {
    var at, j := SiteAt(p, path, s), Accepting(s.kind, codes);
    SiteEvents(s, e);
    BadValueIff(at, j, e);
    if RunsBad(at, j, e) {
      var env: Env, o: Oracle :|
        env.Keys <= LocalNames(at.f) && EvalExpr(at, e, env, o).Val? && Bad(j, EvalExpr(at, e, env, o).v);
      var status := ExitStatus(s.kind, EvalExpr(at, e, env, o).v);
      AcceptedIff(s.kind, codes, EvalExpr(at, e, env, o).v);
      assert ValueExits(p, path, s, e, status);
      assert CanExitWith(p, path, s, status);
    }
    forall status | !RunsBad(at, j, e) && CanExitWith(p, path, s, status) ensures status in codes {
      var env: Env, o: Oracle :| env.Keys <= LocalNames(at.f) && EvalExpr(at, e, env, o).Val?
        && status == ExitStatus(s.kind, EvalExpr(at, e, env, o).v);
      AcceptedIff(s.kind, codes, EvalExpr(at, e, env, o).v);
    }
  }

  /**
   When the computed set is right about a site.  The analyser looks at positional arguments
   only, and counts None as 0 wherever it comes from.
   */
  predicate SetIsRight(p: Program, path: Path, s: ExitSite, codes: set<int>)
  {
    match ArgumentOf(s)
    case Absent => true
    case Refused => 1 in codes
    case Given(e) =>
      if s.args == [] then !MayExitOutside(p, path, s, e, codes)
      else NoneStatus(s.kind) in codes || !MayBeNone(p, path, s, e)
  }

  /** A positional argument that resolves: what it ends with is in the set, unless it is a None. */
  lemma {:induction false} PositionalExits(p: Program, scope: set<Visit>, path: Path, entries: map<Key, Codes>,
                                           s: ExitSite, status: int)
    requires ProgramOk(p, scope) && EntriesSound(p, entries) && SiteOk(p, scope, path, s)
    requires s.args != [] && ArgumentOf(s) == Given(s.args[0]) && SiteValues(p, path, entries, s.args).Some?
    requires ValueExits(p, path, s, s.args[0], status)
    ensures status in SiteValues(p, path, entries, s.args).value
      || (status == NoneStatus(s.kind) && MayBeNone(p, path, s, s.args[0]))
  {
    var at, e := SiteAt(p, path, s), s.args[0];
    var env: Env, o: Oracle :| env.Keys <= LocalNames(at.f) && EvalExpr(at, e, env, o).Val?
      && status == ExitStatus(s.kind, EvalExpr(at, e, env, o).v);
    var v := EvalExpr(at, e, env, o).v;
    if v.NoneV? {
      NoneRuns(p, path, s, e, env, o);
    } else if e != Lit(TextConst) {
      ArgumentCovered(p, scope, path, entries, s, env, o);
    }
  }

  lemma {:induction false} NoneRuns(p: Program, path: Path, s: ExitSite, e: Expr, env: Env, o: Oracle)
    requires ArgumentOf(s) == Given(e) && env.Keys <= LocalNames(Around(s))
    requires var r := EvalExpr(SiteAt(p, path, s), e, env, o); r.Val? && r.v.NoneV?
    ensures MayBeNone(p, path, s, e)
  {
    SiteEvents(s, e);
    BadValueIff(SiteAt(p, path, s), NONE_IS_BAD, e);
    assert Bad(NONE_IS_BAD, EvalExpr(SiteAt(p, path, s), e, env, o).v);
  }

  lemma {:induction false} NoneExits(p: Program, path: Path, s: ExitSite, e: Expr)
    requires ArgumentOf(s) == Given(e) && MayBeNone(p, path, s, e)
    ensures CanExitWith(p, path, s, NoneStatus(s.kind))
  {
    var at := SiteAt(p, path, s);
    SiteEvents(s, e);
    BadValueIff(at, NONE_IS_BAD, e);
    var env: Env, o: Oracle :|
      env.Keys <= LocalNames(at.f) && EvalExpr(at, e, env, o).Val? && Bad(NONE_IS_BAD, EvalExpr(at, e, env, o).v);
    assert NoneStatus(s.kind) == ExitStatus(s.kind, EvalExpr(at, e, env, o).v);
    assert ValueExits(p, path, s, e, NoneStatus(s.kind));
  }

  /** For a single positional argument, whatever else is allowed for. */
  lemma {:induction false} PositionalIff(p: Program, scope: set<Visit>, path: Path, entries: map<Key, Codes>,
                                         s: ExitSite, codes: set<int>)
    requires ProgramOk(p, scope) && EntriesSound(p, entries) && SiteOk(p, scope, path, s)
    requires s.args != [] && ArgumentOf(s) == Given(s.args[0])
    requires SiteValues(p, path, entries, s.args).Some? && SiteValues(p, path, entries, s.args).value <= codes
    ensures ExitsIn(p, path, s, codes) <==> NoneStatus(s.kind) in codes || !MayBeNone(p, path, s, s.args[0])
  {
    var e := s.args[0];
    if MayBeNone(p, path, s, e) { NoneExits(p, path, s, e); }
    forall status | CanExitWith(p, path, s, status)
      ensures status in codes || (status == NoneStatus(s.kind) && MayBeNone(p, path, s, e))
    {
      PositionalExits(p, scope, path, entries, s, status);
    }
  }

  /**
   The computed set of an exit site covers every status it can end with exactly when the call
   is not refused (or 1 is in the set), a `status=` keyword may only end with a code of the set,
   and an argument that may be None ends with one.
   */
  lemma {:induction false} SiteCoveredIff(p: Program, scope: set<Visit>, path: Path, entries: map<Key, Codes>,
                                          s: ExitSite)
    requires ProgramOk(p, scope) && EntriesSound(p, entries) && SiteOk(p, scope, path, s)
    requires SiteValues(p, path, entries, s.args).Some?
    ensures var codes := SiteValues(p, path, entries, s.args).value;
      ExitsIn(p, path, s, codes) <==> SetIsRight(p, path, s, codes)
  {
    var codes := SiteValues(p, path, entries, s.args).value;
    SiteExitsIff(p, path, s, codes);
    if ArgumentOf(s).Given? && s.args != [] { PositionalIff(p, scope, path, entries, s, codes); }
  }

  /** `os._exit(status=1)` is measured as {0} and ends with 1; `SystemExit(code=5)` as {0}, and is a TypeError. */
  lemma {:induction false} KeywordsAreMissed(p: Program, path: Path, entries: map<Key, Codes>, line: nat)
    ensures var s := ExitSite(OsExit, [], [Keyword("status", IntLit(1))], line, {});
      SiteValues(p, path, entries, s.args) == Some({0}) && CanExitWith(p, path, s, 1)
    ensures var s := ExitSite(RaiseSystemExit, [], [Keyword("code", IntLit(5))], line, {});
      SiteValues(p, path, entries, s.args) == Some({0}) && CanExitWith(p, path, s, 1)
  {
    var s := ExitSite(OsExit, [], [Keyword("status", IntLit(1))], line, {});
    var env: Env, o: Oracle := map[], [];
    assert EvalExpr(SiteAt(p, path, s), IntLit(1), env, o) == Val(IntV(1), env, o);
    assert ValueExits(p, path, s, IntLit(1), 1);
  }

  // ----- the verdict -----

  ghost predicate ExitsInContract(p: Program, k: Key)
  {
    k.1 in TablesOf(p, k.0).funcs ==>
      forall o: Oracle :: RunFunction(p, k.0, TablesOf(p, k.0).funcs[k.1], o).Result? ==>
        Status(RunFunction(p, k.0, TablesOf(p, k.0).funcs[k.1], o).v) in CONTRACT
  }

  lemma {:induction false} CoveredInContract(p: Program, entries: map<Key, Codes>, k: Key)
    requires EntriesSound(p, entries) && InContract(entries, k)
    ensures ExitsInContract(p, k)
  {
    assert EntrySound(p, entries, k);
  }

  /** Whether a site of a CLEAR program is safe: what is missing there is exactly what the set can be wrong about. */
  predicate SiteSafe(p: Program, path: Path, s: ExitSite)
  {
    match ArgumentOf(s)
    case Absent => true
    case Refused => false
    case Given(e) =>
      if s.args == [] then !MayExitOutside(p, path, s, e, CONTRACT)
      else s.kind != OsExit || !MayBeNone(p, path, s, e)
  }

  lemma {:induction false} SafeIff(p: Program, scope: set<Visit>, path: Path, entries: map<Key, Codes>, s: ExitSite)
    requires ProgramOk(p, scope) && EntriesSound(p, entries) && SiteOk(p, scope, path, s)
    requires SiteValues(p, path, entries, s.args).Some? && SiteValues(p, path, entries, s.args).value <= CONTRACT
    ensures ExitsIn(p, path, s, CONTRACT) <==> SiteSafe(p, path, s)
  {
    SiteExitsIff(p, path, s, CONTRACT);
    if ArgumentOf(s).Given? && s.args != [] { PositionalIff(p, scope, path, entries, s, CONTRACT); }
  }

  /** The well-formed program and the declarations a verdict is given on. */
  ghost predicate Declared(p: Program, scope: set<Visit>, helpers: seq<Key>, eps: seq<Key>)
  {
    && ProgramOk(p, scope) && AllVisited(scope, helpers) && AllVisited(scope, eps)
    && forall k :: k in eps ==> ChainSure(p, SetOf(eps), k)
  }

  /** What CLEAR says of one declared entry point and of those it hands control to. */
  ghost predicate EntryClear(p: Program, eps: seq<Key>, entries: map<Key, Codes>, k: Key)
  {
    && k.1 in TablesOf(p, k.0).funcs && ExitsInContract(p, k)
    && forall j :: OnChain(p, SetOf(eps), k, j) ==> Holds(p, SetOf(eps), entries, j)
  }

  /**
   CLEAR, on a well-formed program: each declared entry point exists, returns only codes of
   the contract on every run, and keeps its ordinary exceptions down its whole chain; each
   declared helper that exists returns only codes of the contract; and an exit site ends in
   contract exactly when it is safe.
   */
  lemma {:induction false} ClearIsSound(p: Program, scope: set<Visit>, helpers: seq<Key>, eps: seq<Key>,
                                        files: seq<Path>)
    requires Declared(p, scope, helpers, eps) && Verdict(p, helpers, eps, files) == EXIT_CLEAR
    ensures forall k :: k in helpers ==> ExitsInContract(p, k)
    ensures forall k :: k in eps ==> EntryClear(p, eps, EntriesOf(p, helpers, eps), k)
    ensures forall q, s :: q in files && s in p.mods[q].sites && SiteOk(p, scope, q, s) ==>
      (ExitsIn(p, q, s, CONTRACT) <==> SiteSafe(p, q, s))
  {
    var entries, helped := EntriesOf(p, helpers, eps), Measured(p, helpers, true, map[]).0;
    EntriesOfSound(p, scope, helpers, eps);
    forall k | k in helpers ensures ExitsInContract(p, k) {
      if k.1 in TablesOf(p, k.0).funcs {
        CleanMeasured(p, helpers, true, map[], k);
        CleanMeasured(p, eps, false, helped, k);
        CoveredInContract(p, entries, k);
      }
    }
    forall k | k in eps ensures EntryClear(p, eps, entries, k) {
      CleanEscape(p, SetOf(eps), eps, entries, k);
      CleanMeasured(p, eps, false, helped, k);
      CoveredInContract(p, entries, k);
      forall j | OnChain(p, SetOf(eps), k, j) ensures Holds(p, SetOf(eps), entries, j) {
        ChainContained(p, scope, SetOf(eps), entries, k, j);
      }
    }
    forall q, s | q in files && s in p.mods[q].sites && SiteOk(p, scope, q, s)
      ensures ExitsIn(p, q, s, CONTRACT) <==> SiteSafe(p, q, s)
    {
      CleanFiles(p, files, entries, q);
      CleanSites(p, q, entries, p.mods[q].sites, s);
      SafeIff(p, scope, q, entries, s);
    }
  }
}
