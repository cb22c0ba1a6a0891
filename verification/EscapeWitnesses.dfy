/**
 What PROTECTED does not say.  A handler before the blanket one may raise; a class called
 `Exception` may be another than the builtin.  Each program here breaks one condition only.
 */
module EscapeWitnesses {
  import opened MiniPython
  import opened OwnNodes
  import opened PythonRuns
  import opened ExitSets
  import opened LocalSolution
  import opened ExitSoundness
  import opened Containment
  import opened Witnesses
  import opened Endings
  import opened ReachedEndings
  import opened TotalGuards
  import opened Handoffs

  /** `def f(...): try: ...` with these handlers, and nothing else. */
  function Guarding(sig: Signature, inner: Stmt, hs: seq<Handler>): FuncDef
  {
    FuncDef("f", sig, [Try([inner], hs, [], [])], {}, true)
  }

  /** `except t: return 5`. */
  function Returning(t: TypeExpr, line: nat): Handler { Handler(Some(t), None, [Return(line, Some(IntLit(5)))]) }

  const RAISE: Stmt := Raise(Some(IntLit(0)))

  /** A function that binds no name but its parameters and returns literals only is well formed anywhere. */
  lemma {:induction false} PlainFunctionOk(p: Program, scope: set<Visit>, f: FuncDef, spent: bool)
    requires f.direct && f.hidden == {} && BlockEvents(f.body) == []
    requires forall r :: r in BlockReturns(f.body) && r.result.Some? ==> r.result.value.IntLit?
    requires f.name in TablesOf(p, "m").funcs && TablesOf(p, "m").funcs[f.name] == f
    requires forall x :: x in Params(f) ==> !ModuleName(p, "m", x)
    ensures VisitOk(p, scope, Visit("m", f.name, spent))
  {
    assert Assigned(f) == {} && Poisoned(f) == {};
    forall e | Trusted(f, e) ensures CallsIn(p, scope, "m", spent, e) {
      var line :| Ret(line, Some(e)) in BlockReturns(f.body);
    }
  }

  /** What is collected from `try: raise` with at most two handlers that hold one statement each. */
  lemma {:induction false} GuardingCollects(sig: Signature, inner: Stmt, hs: seq<Handler>)
    requires inner == RAISE || (inner.Return? && inner.result == Some(IntLit(0)))
    requires 1 <= |hs| <= 2
    requires forall h :: h in hs ==> h.bound.None? && |h.body| == 1
    requires forall h :: h in hs ==> h.body[0] == RAISE || (h.body[0].Return? && h.body[0].result == Some(IntLit(5)))
    ensures var f := Guarding(sig, inner, hs);
      && LocalNames(f) == Params(f) && BlockEvents(f.body) == []
      && forall r :: r in BlockReturns(f.body) ==> r.result.Some? && r.result.value.IntLit?
  {
    var f := Guarding(sig, inner, hs);
    assert f.body[1..] == [] && [inner][1..] == [];
    assert BlockEvents([inner]) == StmtEvents(inner) + BlockEvents([inner][1..]) == [];
    assert BlockReturns([inner]) == StmtReturns(inner) + BlockReturns([inner][1..]);
    HandlersCollect(hs);
    assert StmtEvents(f.body[0]) == [];
  }

  lemma {:induction false} HandlersCollect(hs: seq<Handler>)
    requires forall h :: h in hs ==> h.bound.None? && |h.body| == 1
    requires forall h :: h in hs ==> h.body[0] == RAISE || (h.body[0].Return? && h.body[0].result == Some(IntLit(5)))
    ensures HandlerEvents(hs) == []
    ensures forall r :: r in HandlerReturns(hs) ==> r.result.Some? && r.result.value.IntLit?
    decreases |hs|
  {
    if hs != [] {
      var b := hs[0].body;
      assert hs[0] in hs && b[1..] == [];
      assert BlockEvents(b) == StmtEvents(b[0]) + BlockEvents(b[1..]) == [];
      assert BlockReturns(b) == StmtReturns(b[0]) + BlockReturns(b[1..]);
      HandlersCollect(hs[1..]);
    }
  }

  lemma {:induction false} ReturnsFive(w: Where, f: FuncDef, line: nat)
    ensures var body := [Return(line, Some(IntLit(5)))];
      && BlockReturns(body) == [Ret(line, Some(IntLit(5)))]
      && GuardReturns(w, BlockReturns(body), LocalMap(w, f)) == Protected && EndsInReturnOrRaise(body)
  {
    var body, rets := [Return(line, Some(IntLit(5)))], [Ret(line, Some(IntLit(5)))];
    assert body[1..] == [] && rets[1..] == [];
    assert BlockReturns(body) == StmtReturns(body[0]) + BlockReturns(body[1..]) == rets;
    assert ReturnSet(w, rets[0], LocalMap(w, f)) == Some({5});
    assert BlockTerminals(body) == Some(body);
  }

  /** The guard is the last handler and returns 5. */
  lemma {:induction false} GuardingIsProtected(p: Program, eps: set<Key>, entries: map<Key, Codes>, seen: set<Key>,
                                               f: FuncDef, t: TypeExpr, line: nat)
    requires "f" in TablesOf(p, "m").funcs && TablesOf(p, "m").funcs["f"] == f
    requires |f.body| == 1 && f.body[0].Try? && f.body[0].orelse == [] && f.body[0].finalbody == []
    requires GuardOf(f.body[0].handlers) == Some(Returning(t, line))
    requires ("m", "f") in eps && ("m", "f") !in seen
    ensures EscapeStatus(p, eps, entries, ("m", "f"), seen) == Protected
  {
    var ep: Key := ("m", "f");
    var s, w := f.body[0], EntryWhere(p, entries, ep);
    ReturnsFive(w, f, line);
    assert f.body[1..] == [];
    assert GuardStatus(w, f, s) == Protected;
    assert AfterDocstring(f.body) == f.body;
    assert StmtStatus(p, eps, entries, ep, seen, s) == Protected;
    assert EscapeRest(p, eps, entries, ep, seen, f.body[1..]) == Protected;
  }

  // ----- a handler before the blanket one -----

  /** `except ValueError: raise` before `except Exception: return 5`. */
  function Reraising(): FuncDef
  {
    Guarding(NO_PARAMS, RAISE, [Narrow(), Returning(Plain("Exception"), 1)])
  }

  function Narrow(): Handler { Handler(Some(Plain("ValueError")), None, [RAISE]) }

  function ReraisingProgram(): Program { Alone([TopDef(Reraising())]) }

  lemma {:induction false} RaisesNow(at: At, env: Env, o: Oracle)
    requires o != [] && o[0].ordinary
    ensures RunBlock(at, [RAISE], env, o) == Done(Raised(true, Unguarded), env, o[1..])
  {
    assert EvalExpr(at, IntLit(0), env, o) == Val(IntV(0), env, o);
    assert RunRaise(at, RAISE, env, o) == Done(Raised(true, Unguarded), env, o[1..]);
    assert RunStmt(at, RAISE, env, o) == Done(Raised(true, Unguarded), env, o[1..]);
  }

  /** A function that is one `try` around a raise. */
  lemma {:induction false} RaisingRun(p: Program, hs: seq<Handler>, o: Oracle)
    requires |o| >= 2 && o[0] == ANY && o[1] == ANY
    ensures var f := Guarding(NO_PARAMS, RAISE, hs);
      RunFunction(p, "m", f, o) == CallOf(RunHandlers(Here(p, "m", f), hs, true, Unguarded, map[], o[1..][1..]))
  {
    var f := Guarding(NO_PARAMS, RAISE, hs);
    var at, s, none: Env := Here(p, "m", f), f.body[0], map[];
    NoParams(f);
    assert Enter(f, ANY.upd) == none;
    RaisesNow(at, none, o[1..]);
    PlainTry(at, s, none, o[1..]);
    var r := RunStmt(at, s, none, o[1..]);
    assert f.body[1..] == [];
    assert r.Done? && r.out.Normal? ==> RunBlock(at, f.body[1..], r.env, r.rest) == r;
    assert RunBlock(at, f.body, none, o[1..]) == r;
  }

  lemma {:induction false} ReraisingEscapes(p: Program)
    requires p == ReraisingProgram()
    ensures RunFunction(p, "m", Reraising(), [ANY, ANY, ANY.(go := true), ANY])
      == Escaped(true, InHandler("m", Reraising(), Narrow()), [])
  {
    var f, go := Reraising(), ANY.(go := true);
    var at, hs, none: Env := Here(p, "m", f), f.body[0].handlers, map[];
    var o: Oracle := [ANY, ANY, go, ANY];
    RaisingRun(p, hs, o);
    assert o[1..][1..] == [go, ANY] && [go, ANY][1..] == [ANY];
    NarrowTakes(f);
    RaisesNow(Handling(at, true), none, [ANY]);
    assert RunHandler(at, Narrow(), true, none, [ANY]) == Done(Raised(true, InHandler("m", f, Narrow())), none, []);
    assert RunHandlers(at, hs, true, Unguarded, none, [go, ANY]) == RunHandler(at, Narrow(), true, none, [ANY]);
  }

  /** The class `ValueError` is not known to hold only exceptions that are not ordinary. */
  lemma {:induction false} NarrowTakes(f: FuncDef)
    ensures Takes(Here(ReraisingProgram(), "m", f), Narrow(), true, true)
  {
    var at, t, tops := Here(ReraisingProgram(), "m", f), Plain("ValueError"), [TopDef(Reraising())];
    LoadOne(TopDef(Reraising()));
    assert OwnBinding(tops, "ValueError") == UnknownBinding;
    forall n | n in FATAL ensures !IsBuiltin(at, t, n) {
      assert "KeyboardInterrupt"[0] == 'K' && "SystemExit"[0] == 'S' && "GeneratorExit"[0] == 'G';
      assert "ValueError"[0] == 'V';
    }
  }

  lemma {:induction false} ReraisingIsProtected()
    ensures var p, ep := ReraisingProgram(), ("m", "f");
      EscapeStatus(p, {ep}, map[], ep, {}) == Protected && ep.1 in TablesOf(p, "m").funcs
      && TablesOf(p, "m").funcs["f"] == Reraising()
  {
    var p, f := ReraisingProgram(), Reraising();
    LoadOne(TopDef(f));
    var s := f.body[0];
    assert s.handlers[1..] == [Returning(Plain("Exception"), 1)];
    assert GuardOf(s.handlers) == Some(Returning(Plain("Exception"), 1));
    GuardingIsProtected(p, {("m", "f")}, map[], {}, f, Plain("Exception"), 1);
  }

  /** PROTECTED, the guard is sure, and yet an ordinary exception leaves: an earlier handler may raise. */
  lemma {:induction false} EarlierHandlerReraises()
    ensures var p, ep := ReraisingProgram(), ("m", "f");
      && EscapeStatus(p, {ep}, map[], ep, {}) == Protected && GuardsSure(p, ep)
      && LetsOrdinaryOut(p, ep) && !TotalEntry(p, ep)
  {
    var p := ReraisingProgram();
    ReraisingIsProtected();
    ReraisingIsSure();
    ReraisingCan(p);
    ReraisingNotTotal();
  }

  lemma {:induction false} ReraisingCan(p: Program)
    requires p == ReraisingProgram()
    ensures FunctionCan(p, ALL_GOOD, "m", Reraising(), Fails(true))
  {
    ReraisingEscapes(p);
    var o: Oracle := [ANY, ANY, ANY.(go := true), ANY];
    assert IsCall(ALL_GOOD, RunFunction(p, "m", Reraising(), o), Fails(true));
  }

  /** Computed: the narrow handler takes an ordinary exception and may raise. */
  lemma {:induction false} ReraisingLetsOut(f: FuncDef)
    ensures LetsOut(Here(ReraisingProgram(), "m", f), Reraising().body[0].handlers)
  {
    NarrowTakes(f);
    NarrowRaises(Here(ReraisingProgram(), "m", f));
    assert Reraising().body[0].handlers[0] == Narrow();
  }

  lemma {:induction false} ReraisingNotTotal()
    requires "f" in TablesOf(ReraisingProgram(), "m").funcs
    requires TablesOf(ReraisingProgram(), "m").funcs["f"] == Reraising()
    ensures !TotalEntry(ReraisingProgram(), ("m", "f"))
  {
    var f := Reraising();
    ReraisingLetsOut(f);
    assert AfterDocstring(f.body) == f.body && f.body[0] in f.body;
  }

  lemma {:induction false} NarrowRaises(at: At)
    ensures MayRaise(at, Narrow(), true)
  {
    var c, a, h := Bindings(at), NOTHING_BOUND, Narrow();
    assert a in States(ALL_GOOD, LocalNames(at.f)) by { NothingIsState(ALL_GOOD, LocalNames(at.f)); }
    RaiseEnds(c.(at := Handling(at, true)), a);
    var x := Ending(Throws(true), a);
    assert Entered(ALL_GOOD, h, a) == a && Cleared(h, a) == a;
    assert x in HandlerEnds(c, h, true, a) && x.end == Throws(true);
  }

  lemma {:induction false} NothingIsState(j: Judge, names: set<Name>)
    ensures NOTHING_BOUND in States(j, names)
  {
    var X: set<Name>, Y: set<Name> := {}, {};
    assert State((NOTHING_BOUND.bound - names) + X, (NOTHING_BOUND.bad - names) + Y) == NOTHING_BOUND;
  }

  lemma {:induction false} RaiseEnds(c: Ctx, a: State)
    ensures Ending(Throws(true), a) in BlockEnds(c, [RAISE], a)
  {
    var v := Eval1(Yields(Bad(c.judge, IntV(0))), a);
    assert v in ExprEnds(c, IntLit(0), a) && Ending(Throws(true), a) in AnyThrow(v.state);
    assert Ending(Throws(true), a) in StmtEnds(c, RAISE, a);
    assert Ending(Throws(true), a) in PastFirst(c, [RAISE], Ending(Throws(true), a));
  }

  lemma {:induction false} ReraisingIsSure()
    ensures GuardsSure(ReraisingProgram(), ("m", "f"))
  {
    var p, f := ReraisingProgram(), Reraising();
    LoadOne(TopDef(f));
    GuardingCollects(NO_PARAMS, RAISE, f.body[0].handlers);
    NoParams(f);
    assert [TopDef(f)][..0] == [];
    assert AllBinds([TopDef(f)]) == ["f"];
    assert IsBuiltin(Here(p, "m", f), Plain("Exception"), EXCEPTION);
    assert Sure(Here(p, "m", f), Returning(Plain("Exception"), 1));
    assert f.body[0].handlers[1] in f.body[0].handlers;
  }

  // ----- another class called Exception -----

  /** `import errors`, and `except errors.Exception: return 5`. */
  function Foreign(): FuncDef
  {
    Guarding(NO_PARAMS, RAISE, [Returning(Dotted(Plain("errors"), "Exception"), 1)])
  }

  function ForeignProgram(): Program { Alone([TopModule("errors", "errors"), TopDef(Foreign())]) }

  lemma {:induction false} ForeignTables()
    ensures var p, f := ForeignProgram(), Foreign();
      && TablesOf(p, "m") == Tables(map[], map["f" := f], {}, map[])
      && AllBinds(p.mods["m"].body) == ["errors", "f"]
      && OwnBinding(p.mods["m"].body, "errors") == ModuleBinding("errors")
  {
    LoadTwo(TopModule("errors", "errors"), TopDef(Foreign()));
  }

  lemma {:induction false} ForeignIsUnsure()
    ensures var p, f := ForeignProgram(), Foreign();
      forall h :: h in f.body[0].handlers ==> !Sure(Here(p, "m", f), h) && !Takes(Here(p, "m", f), h, true, false)
  {
    ForeignTables();
  }

  lemma {:induction false} ForeignEscapes()
    ensures RunFunction(ForeignProgram(), "m", Foreign(), [ANY, ANY, ANY]) == Escaped(true, Unguarded, [])
  {
    var p, f := ForeignProgram(), Foreign();
    var at, hs, none: Env := Here(p, "m", f), f.body[0].handlers, map[];
    var o: Oracle := [ANY, ANY, ANY];
    RaisingRun(p, hs, o);
    ForeignIsUnsure();
    assert o[1..][1..] == [ANY] && hs[1..] == [] && hs[0] in hs;
    assert RunHandlers(at, [], true, Unguarded, none, []) == Done(Raised(true, Unguarded), none, []);
    assert RunHandlers(at, hs, true, Unguarded, none, [ANY]) == Done(Raised(true, Unguarded), none, []);
  }

  lemma {:induction false} ForeignIsProper()
    ensures Proper(ForeignProgram(), {Visit("m", "f", false)}, {("m", "f")}, map[])
  {
    var p, f := ForeignProgram(), Foreign();
    ForeignTables();
    SettledTwo(p.mods["m"].body, "errors", "f");
    GuardingCollects(NO_PARAMS, RAISE, f.body[0].handlers);
    NoParams(f);
    PlainFunctionOk(p, {Visit("m", "f", false)}, f, false);
    var none: map<Key, Codes> := map[];
    forall k: Key ensures EntrySound(p, none, k) {}
    forall q ensures ModuleFine(p, q) {}
  }

  /**
   A class that is only called `Exception` passes for the builtin: the program is well formed,
   the entry point PROTECTED, and an ordinary exception leaves from unguarded code.
   */
  lemma {:induction false} ForeignException()
    ensures var p, ep := ForeignProgram(), ("m", "f");
      && Proper(p, {Visit("m", "f", false)}, {ep}, map[])
      && EscapeStatus(p, {ep}, map[], ep, {}) == Protected && !GuardsSure(p, ep)
      && !KeepsItsExceptions(p, {ep}, ep)
  {
    var p, f, ep := ForeignProgram(), Foreign(), ("m", "f");
    ForeignTables();
    ForeignIsProper();
    assert GuardOf(f.body[0].handlers) == Some(Returning(Dotted(Plain("errors"), "Exception"), 1));
    GuardingIsProtected(p, {ep}, map[], {}, f, Dotted(Plain("errors"), "Exception"), 1);
    ForeignIsUnsure();
    assert f.body[0] in f.body && f.body[0].Try?;
    ForeignLoses();
  }

  lemma {:induction false} ForeignLoses()
    ensures !KeepsItsExceptions(ForeignProgram(), {("m", "f")}, ("m", "f"))
  {
    var p, f, ep := ForeignProgram(), Foreign(), ("m", "f");
    ForeignTables();
    ForeignEscapes();
    assert RunFunction(p, "m", f, [ANY, ANY, ANY]).origin == Unguarded;
    assert !FromChain(p, {ep}, ep, Unguarded);
  }
}
