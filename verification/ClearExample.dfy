/** The promises of a CLEAR verdict are not empty: a guarded entry point obtains one. */
module ClearExample {
  import opened MiniPython
  import opened OwnNodes
  import opened PythonRuns
  import opened ExitSets
  import opened ExitSoundness
  import opened Containment
  import opened Assess
  import opened VerdictSoundness
  import opened Witnesses
  import opened EscapeWitnesses

  /** `def f(): try: return 0` and `except Exception: return 5`. */
  function Guarded(): FuncDef
  {
    Guarding(NO_PARAMS, Return(1, Some(IntLit(0))), [Returning(Plain("Exception"), 2)])
  }

  function GuardedProgram(): Program { Alone([TopDef(Guarded())]) }

  lemma {:induction false} OneReturn(b: seq<Stmt>, s: Stmt)
    requires b == [s]
    ensures BlockReturns(b) == StmtReturns(s)
  {
    assert b[1..] == [];
  }

  lemma {:induction false} OneHandler(hs: seq<Handler>, h: Handler)
    requires hs == [h]
    ensures HandlerReturns(hs) == BlockReturns(h.body)
  {
    assert hs[1..] == [];
  }

  lemma {:induction false} GuardedReturnsAre()
    ensures BlockReturns(Guarded().body) == [Ret(1, Some(IntLit(0))), Ret(2, Some(IntLit(5)))]
  {
    var s := Guarded().body[0];
    var h := Returning(Plain("Exception"), 2);
    OneReturn(Guarded().body, s);
    OneReturn(s.body, Return(1, Some(IntLit(0))));
    OneReturn(h.body, Return(2, Some(IntLit(5))));
    OneHandler(s.handlers, h);
  }

  lemma {:induction false} GuardedTables()
    ensures var p, f := GuardedProgram(), Guarded();
      TablesOf(p, "m") == Tables(map[], map["f" := f], {}, map[]) && AllBinds(p.mods["m"].body) == ["f"]
  {
    LoadOne(TopDef(Guarded()));
    assert [TopDef(Guarded())][..0] == [];
  }

  lemma {:induction false} GuardedProgramOk()
    ensures Declared(GuardedProgram(), {Visit("m", "f", false)}, [], [("m", "f")])
  {
    var p, f, eps := GuardedProgram(), Guarded(), [("m", "f")];
    GuardedTables();
    SettledOne(p.mods["m"].body, "f");
    GuardingCollects(NO_PARAMS, Return(1, Some(IntLit(0))), f.body[0].handlers);
    NoParams(f);
    PlainFunctionOk(p, {Visit("m", "f", false)}, f, false);
    forall q ensures ModuleFine(p, q) {}
    forall k ensures GuardsSure(p, k) { GuardedIsSure(k); }
  }

  lemma {:induction false} GuardedIsSure(k: Key)
    ensures GuardsSure(GuardedProgram(), k)
  {
    var p, f := GuardedProgram(), Guarded();
    GuardedTables();
    GuardingCollects(NO_PARAMS, Return(1, Some(IntLit(0))), f.body[0].handlers);
    NoParams(f);
    assert IsBuiltin(Here(p, "m", f), Plain("Exception"), EXCEPTION);
    assert Sure(Here(p, "m", f), Returning(Plain("Exception"), 2));
    assert f.body[0].handlers[0] in f.body[0].handlers;
  }

  lemma {:induction false} CleanPlus(a: Report, b: Report)
    requires Clean(a) && Clean(b)
    ensures Clean(Plus(a, b))
  {}

  lemma {:induction false} GoodReturn(w: Where, init: seq<Ret>, r: Ret, locals: LocalTable, c: int)
    requires ReturnSet(w, r, locals) == Some({c}) && c in CONTRACT && Clean(ReturnsReport(w, init, locals))
    ensures Clean(ReturnsReport(w, init + [r], locals)) && ReturnsReport(w, init + [r], locals).total > 0
  {
    assert (init + [r])[..|init|] == init;
    var unit := UnitReport(Some({c}), Item(w.path, r.line));
    assert {c} <= CONTRACT;
    CleanPlus(ReturnsReport(w, init, locals), unit);
  }

  lemma {:induction false} GuardedReturns(w: Where, f: FuncDef)
    requires f == Guarded()
    ensures Clean(ReturnsReport(w, BlockReturns(f.body), LocalMap(w, f)))
    ensures ReturnsReport(w, BlockReturns(f.body), LocalMap(w, f)).total > 0
  {
    var a, b := Ret(1, Some(IntLit(0))), Ret(2, Some(IntLit(5)));
    var none: seq<Ret> := [];
    assert BlockReturns(f.body) == none + [a] + [b] by { GuardedReturnsAre(); }
    GoodReturn(w, none, a, LocalMap(w, f), 0);
    GoodReturn(w, none + [a], b, LocalMap(w, f), 5);
  }

  lemma {:induction false} GuardedStatus(entries: map<Key, Codes>)
    ensures EscapeStatus(GuardedProgram(), {("m", "f")}, entries, ("m", "f"), {}) == Protected
  {
    GuardedTables();
    assert GuardOf(Guarded().body[0].handlers) == Some(Returning(Plain("Exception"), 2));
    GuardingIsProtected(GuardedProgram(), {("m", "f")}, entries, {}, Guarded(), Plain("Exception"), 2);
  }

  lemma {:induction false} OneEntry(p: Program, ep: Key, start: map<Key, Codes>)
    requires Clean(EntryReport(p, start, ep)) && EntryReport(p, start, ep).total > 0 && start == map[]
    ensures Clean(AxisReturn(p, [], [ep])) && AxisReturn(p, [], [ep]).total > 0
  {
    var eps := [ep];
    var none := eps[..0];
    assert Clean(Measured(p, none, false, start).1) && Measured(p, none, false, start).0 == start;
    CleanPlus(Measured(p, none, false, start).1, EntryReport(p, start, ep));
    CleanPlus(Measured(p, [], true, start).1, Measured(p, eps, false, start).1);
  }

  lemma {:induction false} OneEscape(p: Program, ep: Key, entries: map<Key, Codes>)
    requires EscapeStatus(p, {ep}, entries, ep, {}) == Protected
    ensures Clean(EscapeReport(p, {ep}, [ep], entries))
  {
    var eps := [ep];
    var none := eps[..0];
    CleanPlus(EscapeReport(p, {ep}, none, entries), StatusReport(Protected, Item(ep.0, 0)));
  }

  lemma {:induction false} OneFile(p: Program, q: Path, entries: map<Key, Codes>)
    requires q in p.mods && p.mods[q].sites == []
    ensures Clean(FilesReport(p, [q], entries))
  {
    var files := [q];
    var none := files[..0];
    CleanPlus(FilesReport(p, none, entries), SitesReport(p, q, entries, p.mods[q].sites));
  }

  lemma {:induction false} OneClear(p: Program, ep: Key, q: Path)
    requires ep.0 in p.mods && q in p.mods
    requires Clean(AxisReturn(p, [], [ep])) && AxisReturn(p, [], [ep]).total > 0
    requires var entries := EntriesOf(p, [], [ep]);
      Clean(EscapeReport(p, {ep}, [ep], entries)) && Clean(FilesReport(p, [q], entries))
    ensures Verdict(p, [], [ep], [q]) == EXIT_CLEAR
  {
    assert SetOf([ep]) == {ep};
  }

  /** A well-formed program that is CLEAR. */
  lemma {:induction false} ClearIsReachable(p: Program, ep: Key)
    requires p == GuardedProgram() && ep == ("m", "f")
    ensures Declared(p, {Visit("m", "f", false)}, [], [ep]) && Verdict(p, [], [ep], [ep.0]) == EXIT_CLEAR
  {
    var start: map<Key, Codes> := map[];
    GuardedProgramOk();
    GuardedTables();
    GuardedReturns(EntryWhere(p, start, ep), Guarded());
    OneEntry(p, ep, start);
    var entries := EntriesOf(p, [], [ep]);
    GuardedStatus(entries);
    OneEscape(p, ep, entries);
    OneFile(p, ep.0, entries);
    OneClear(p, ep, ep.0);
  }
}
