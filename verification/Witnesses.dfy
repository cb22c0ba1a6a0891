/**
 None of the well-formedness conditions can be dropped: for each there is a program that
 breaks that condition alone, a computed exit set, and a run whose value the set misses.
 */
module Witnesses {
  import opened MiniPython
  import opened OwnNodes
  import opened PythonRuns
  import opened ExitSets
  import opened LocalSolution
  import opened ExitSoundness

  /** The conditions of `FunctionOk`, one by one. */
  datatype Clauses = Clauses(direct: bool, sourcesApart: bool, unseenOpen: bool, apart: bool)

  ghost function ClausesOf(p: Program, path: Path, f: FuncDef): Clauses
  {
    Clauses(f.direct, SourcesApart(f), forall x :: x in Assigned(f) * Unseen(f) ==> NoSetFor(f, x),
            forall x :: x in LocalNames(f) ==> !ModuleName(p, path, x))
  }

  /** A set is computed for the function, and some run returns a value outside it. */
  ghost predicate Missed(p: Program, path: Path, name: Name)
  {
    name in TablesOf(p, path).funcs &&
    var codes := FuncExitSet(Where(p, path, 0, {}, map[]), name);
    codes.Some? && exists o: Oracle ::
      var r := RunFunction(p, path, TablesOf(p, path).funcs[name], o); r.Result? && !Covered(r.v, codes.value)
  }

  function Alone(body: seq<TopStmt>): Program
  {
    Program(map["m" := Module(body, [])], map[], {}, {})
  }

  const ANY: Choice := Choice(false, true, false, IntV(7), map[])

  lemma {:induction false} LoadOne(a: TopStmt)
    ensures Load([a]) == LoadStmt(Load([]), a)
    ensures forall id :: OwnBinding([a], id) == if id in TopBinds(a) then BindingIn(a, id) else UnknownBinding
  {
    assert [a][..0] == [];
  }

  /** Two names bound once each are settled. */
  lemma {:induction false} SettledTwo(body: seq<TopStmt>, m: Name, n: Name)
    requires AllBinds(body) == [m, n] && m != n && forall s :: s in body ==> !s.TopImport?
    ensures forall id :: Settled(body, id)
  {
  }

  lemma {:induction false} SettledOne(body: seq<TopStmt>, n: Name)
    requires AllBinds(body) == [n] && forall s :: s in body ==> !s.TopImport?
    ensures forall id :: Settled(body, id)
  {
  }

  function LastOf(a: TopStmt, b: TopStmt, id: Name): Binding
  {
    if id in TopBinds(b) then BindingIn(b, id) else if id in TopBinds(a) then BindingIn(a, id) else UnknownBinding
  }

  lemma {:induction false} LoadTwo(a: TopStmt, b: TopStmt)
    ensures Load([a, b]) == LoadStmt(LoadStmt(Load([]), a), b)
    ensures forall id :: OwnBinding([a, b], id) == LastOf(a, b, id)
    ensures AllBinds([a, b]) == TopBinds(a) + TopBinds(b)
  {
    assert [a, b][..1] == [a];
    LoadOne(a);
    assert [a][..0] == [];
    assert AllBinds([a]) == TopBinds(a);
  }

  /** A function whose body is one return of one expression. */
  function Returner(name: Name, sig: Signature, e: Expr, direct: bool): FuncDef
  {
    FuncDef(name, sig, [Return(1, Some(e))], {}, direct)
  }

  /** One parameter. */
  function Taking(x: Name): Signature { Signature([Param(x, true, false)], None, None) }

  lemma {:induction false} TakingOne(f: FuncDef, x: Name)
    requires f.sig == Taking(x)
    ensures Params(f) == {x}
  {
    assert f.sig.params[0].name == x;
  }

  lemma {:induction false} NoParams(f: FuncDef)
    requires f.sig == NO_PARAMS
    ensures Params(f) == {}
  {
  }

  predicate Plainly(e: Expr) { e.Ref? || (e.Call? && e.args == []) || e.IntLit? }

  lemma {:induction false} ReturnerCollects(name: Name, sig: Signature, e: Expr, direct: bool)
    requires Plainly(e)
    ensures var f := Returner(name, sig, e, direct);
      && Assigned(f) == {} && Poisoned(f) == {} && Sources(f) == [] && BlockReturns(f.body) == [Ret(1, Some(e))]
      && BlockEvents(f.body) == []
  {
    var f := Returner(name, sig, e, direct);
    assert f.body[1..] == [];
    assert BlockEvents(f.body) == StmtEvents(f.body[0]) + BlockEvents(f.body[1..]);
    assert BlockReturns(f.body) == StmtReturns(f.body[0]) + BlockReturns(f.body[1..]);
    assert StmtEvents(f.body[0]) == ExprEvents(e) == [];
  }

  lemma {:induction false} ReturnerClauses(p: Program, name: Name, sig: Signature, e: Expr, direct: bool)
    requires Plainly(e)
    ensures var f := Returner(name, sig, e, direct);
      ClausesOf(p, "m", f) == Clauses(direct, true, true, forall x :: x in Params(f) ==> !ModuleName(p, "m", x))
  {
    ReturnerCollects(name, sig, e, direct);
    var f := Returner(name, sig, e, direct);
    assert LocalNames(f) == Params(f);
  }

  /** From a set of {0} and an evaluation of the returned expression that is not covered by it. */
  lemma {:induction false} MissedBy(p: Program, f: FuncDef, e: Expr, o: Oracle)
    requires f.body == [Return(1, Some(e))] && o != []
    requires "f" in TablesOf(p, "m").funcs && TablesOf(p, "m").funcs["f"] == f
    requires FuncExitSet(Where(p, "m", 0, {}, map[]), "f") == Some({0})
    requires var r := EvalExpr(Here(p, "m", f), e, Enter(f, o[0].upd), o[1..]); r.Val? && !Covered(r.v, {0})
    ensures Missed(p, "m", "f")
  {
    ReturnerRun(p, "m", f, e, o);
  }

  lemma {:induction false} ReturnerSet(w: Where, name: Name, sig: Signature, e: Expr, direct: bool)
    requires Plainly(e) && name in TablesOf(w.p, w.path).funcs
    requires TablesOf(w.p, w.path).funcs[name] == Returner(name, sig, e, direct)
    requires (w.path, name) !in w.stack
    ensures FuncExitSet(w, name) == Resolve(w.(stack := w.stack + {(w.path, name)}), e, Some(map[]))
  {
    var f, inner := Returner(name, sig, e, direct), w.(stack := w.stack + {(w.path, name)});
    ReturnerCollects(name, sig, e, direct);
    assert LocalMap(inner, f) == map[];
    var rets := [Ret(1, Some(e))];
    assert rets[..0] == [];
    var s := ReturnSet(inner, rets[0], map[]);
    assert ReturnsSet(inner, rets, map[]) == Join(Some({}), s);
    if s.Some? { assert {} + s.value == s.value; }
  }

  lemma {:induction false} ReturnerRun(p: Program, path: Path, f: FuncDef, e: Expr, o: Oracle)
    requires f.body == [Return(1, Some(e))] && o != []
    requires EvalExpr(Here(p, path, f), e, Enter(f, o[0].upd), o[1..]).Val?
    ensures RunFunction(p, path, f, o).Result?
    ensures RunFunction(p, path, f, o).v == EvalExpr(Here(p, path, f), e, Enter(f, o[0].upd), o[1..]).v
  {
    assert f.body[0] == Return(1, Some(e));
    var at, env := Here(p, path, f), Enter(f, o[0].upd);
    var r := EvalExpr(at, e, env, o[1..]);
    assert RunStmt(at, f.body[0], env, o[1..]) == Done(Returned(r.v, Unguarded), r.env, r.rest);
    assert RunBlock(at, f.body, env, o[1..]) == Done(Returned(r.v, Unguarded), r.env, r.rest);
  }

  /** `X = 0` and `def f(X): return X`: a parameter that shadows a constant. */
  function Shadowing(): Program
  {
    Alone([TopAssign(["X"], IntLit(0), []), TopDef(Returner("f", Taking("X"), Ref("X"), true))])
  }

  lemma {:induction false} ShadowingTables()
    ensures var p, f := Shadowing(), Returner("f", Taking("X"), Ref("X"), true);
      TablesOf(p, "m") == Tables(map["X" := 0], map["f" := f], {}, map[]) && AllBinds(p.mods["m"].body) == ["X", "f"]
  {
    LoadTwo(TopAssign(["X"], IntLit(0), []), TopDef(Returner("f", Taking("X"), Ref("X"), true)));
    assert ["X"][1..] == [];
  }

  lemma {:induction false} ShadowedConstant()
    ensures var p, f := Shadowing(), Returner("f", Taking("X"), Ref("X"), true);
      Missed(p, "m", "f") && ModuleOk(p.mods["m"]) && ClausesOf(p, "m", f) == Clauses(true, true, true, false)
  {
    var p, f := Shadowing(), Returner("f", Taking("X"), Ref("X"), true);
    ShadowingTables();
    SettledTwo(p.mods["m"].body, "X", "f");
    ReturnerClauses(p, "f", Taking("X"), Ref("X"), true);
    assert ModuleName(p, "m", "X") && "X" in Params(f) by { TakingOne(f, "X"); }
    ReturnerSet(Where(p, "m", 0, {}, map[]), "f", Taking("X"), Ref("X"), true);
    TakingOne(f, "X");
    MissedBy(p, f, Ref("X"), [ANY.(upd := map["X" := IntV(7)])]);
  }

  /** `X = 0`, then `X = compute()`, and `def f(): return X`: a constant bound twice. */
  function Recomputing(): Program
  {
    Alone([TopAssign(["X"], IntLit(0), []), TopOther(["X"]), TopDef(Returner("f", NO_PARAMS, Ref("X"), true))])
  }

  lemma {:induction false} RecomputingTables()
    ensures var p, f := Recomputing(), Returner("f", NO_PARAMS, Ref("X"), true);
      && TablesOf(p, "m") == Tables(map["X" := 0], map["f" := f], {}, map[])
      && GlobalOf(p, "m", "X") == UnknownGlobal && AllBinds(p.mods["m"].body) == ["X", "X", "f"]
  {
    var a, b, c := TopAssign(["X"], IntLit(0), []), TopOther(["X"]), TopDef(Returner("f", NO_PARAMS, Ref("X"), true));
    LoadTwo(a, b);
    assert ["X"][1..] == [];
    assert [a, b, c][..2] == [a, b];
    assert Load([a, b, c]) == LoadStmt(Load([a, b]), c);
    assert OwnBinding([a, b, c], "X") == OwnBinding([a, b], "X");
    assert AllBinds([a, b, c]) == AllBinds([a, b]) + TopBinds(c);
  }

  lemma {:induction false} ReboundConstant()
    ensures var p, f := Recomputing(), Returner("f", NO_PARAMS, Ref("X"), true);
      && Missed(p, "m", "f") && ClausesOf(p, "m", f) == Clauses(true, true, true, true)
      && !Settled(p.mods["m"].body, "X") && Settled(p.mods["m"].body, "f")
  {
    var p, f := Recomputing(), Returner("f", NO_PARAMS, Ref("X"), true);
    RecomputingTables();
    ReturnerClauses(p, "f", NO_PARAMS, Ref("X"), true);
    NoParams(f);
    MissedGlobal(p, "X");
    FirstTwoAlike(p.mods["m"].body, "X", "f");
  }

  lemma {:induction false} FirstTwoAlike(body: seq<TopStmt>, x: Name, n: Name)
    requires AllBinds(body) == [x, x, n] && x != n && forall s :: s in body ==> !s.TopImport?
    ensures !Settled(body, x) && Settled(body, n)
  {
    assert AllBinds(body)[0] == AllBinds(body)[1] == x;
  }

  /** `from n import A as B` where n has both `A = 7` and `B = 0`, and `def f(): return B`. */
  function Renaming(): Program
  {
    var f := Returner("f", NO_PARAMS, Ref("B"), true);
    Program(map["m" := Module([TopImport("n", true, [Alias("A", "B")]), TopDef(f)], []),
                "n" := Module([TopAssign(["A"], IntLit(7), []), TopAssign(["B"], IntLit(0), [])], [])],
            map["n" := "n"], {}, {})
  }

  lemma {:induction false} RenamingHere()
    ensures var p, f := Renaming(), Returner("f", NO_PARAMS, Ref("B"), true);
      && TablesOf(p, "m") == Tables(map[], map["f" := f], {}, map["B" := "n"])
      && OwnBinding(p.mods["m"].body, "B") == ImportBinding("n", "A") && AllBinds(p.mods["m"].body) == ["B", "f"]
  {
    var f, imp := Returner("f", NO_PARAMS, Ref("B"), true), TopImport("n", true, [Alias("A", "B")]);
    LoadTwo(imp, TopDef(f));
    assert imp.aliases[1..] == [];
    assert BoundNames(imp.aliases) == ["B"];
    AddImportsSpec(Load([]), "n", imp.aliases);
    assert AddImports(Load([]), "n", imp.aliases).imports == map["B" := "n"];
    assert OwnBinding([imp, TopDef(f)], "B") == BindingIn(imp, "B") == ImportBinding("n", "A");
  }

  lemma {:induction false} RenamingThere()
    ensures var p := Renaming();
      && TablesOf(p, "n").consts == map["A" := 7, "B" := 0]
      && OwnBinding(p.mods["n"].body, "A") == IntBinding(7) && AllBinds(p.mods["n"].body) == ["A", "B"]
  {
    var a, b := TopAssign(["A"], IntLit(7), []), TopAssign(["B"], IntLit(0), []);
    LoadTwo(a, b);
    assert OwnBinding([a, b], "A") == BindingIn(a, "A");
  }

  lemma {:induction false} RenamingTables()
    ensures var p, f := Renaming(), Returner("f", NO_PARAMS, Ref("B"), true);
      && TablesOf(p, "m") == Tables(map[], map["f" := f], {}, map["B" := "n"])
      && TablesOf(p, "n").consts == map["A" := 7, "B" := 0]
      && GlobalOf(p, "m", "B") == IntGlobal(7)
      && AllBinds(p.mods["m"].body) == ["B", "f"] && AllBinds(p.mods["n"].body) == ["A", "B"]
  {
    RenamingHere();
    RenamingThere();
  }

  lemma {:induction false} RenamedImport()
    ensures Missed(Renaming(), "m", "f")
  {
    var p := Renaming();
    RenamingTables();
    assert Locate(p, "n") == Some("n");
    assert ConstOf(p, "m", "B") == Some(0);
    MissedGlobal(p, "B");
  }

  /** The analyser takes a module-level name for 0, and in some run it holds 7. */
  lemma {:induction false} MissedGlobal(p: Program, x: Name)
    requires var f := Returner("f", NO_PARAMS, Ref(x), true);
      "f" in TablesOf(p, "m").funcs && TablesOf(p, "m").funcs["f"] == f
    requires ConstOf(p, "m", x) == Some(0) && GlobalOf(p, "m", x) in {IntGlobal(7), UnknownGlobal}
    ensures Missed(p, "m", "f")
  {
    var f, o := Returner("f", NO_PARAMS, Ref(x), true), [ANY, ANY];
    ReturnerCollects("f", NO_PARAMS, Ref(x), true);
    NoParams(f);
    assert o[1..] == [ANY];
    ReturnerSet(Where(p, "m", 0, {}, map[]), "f", NO_PARAMS, Ref(x), true);
    MissedBy(p, f, Ref(x), o);
  }

  lemma {:induction false} RenamedImportBreaksOnlyThat()
    ensures var p, f := Renaming(), Returner("f", NO_PARAMS, Ref("B"), true);
      && !Unaliased(p.mods["m"].body[0], "B") && (forall n :: BoundOnce(AllBinds(p.mods["m"].body), n))
      && ModuleOk(p.mods["n"]) && ClausesOf(p, "m", f) == Clauses(true, true, true, true)
  {
    var p := Renaming();
    RenamingTables();
    ReturnerClauses(p, "f", NO_PARAMS, Ref("B"), true);
    SettledTwo(p.mods["n"].body, "A", "B");
    assert Alias("A", "B") in p.mods["m"].body[0].aliases;
  }

  function Coroutine(): FuncDef { Returner("g", NO_PARAMS, IntLit(0), false) }

  function Calling(): FuncDef { Returner("f", NO_PARAMS, Call("g", [], []), true) }

  /** `async def g(): return 0` and `def f(): return g()`: a call that yields a coroutine. */
  function Awaiting(): Program
  {
    Alone([TopDef(Coroutine()), TopDef(Calling())])
  }

  lemma {:induction false} AwaitingTables()
    ensures var p, g, f := Awaiting(), Coroutine(), Calling();
      && TablesOf(p, "m") == Tables(map[], map["g" := g, "f" := f], {}, map[])
      && GlobalOf(p, "m", "g") == DefGlobal("m", g) && AllBinds(p.mods["m"].body) == ["g", "f"]
  {
    var g, f := Coroutine(), Calling();
    LoadTwo(TopDef(g), TopDef(f));
    assert OwnBinding([TopDef(g), TopDef(f)], "g") == BindingIn(TopDef(g), "g");
  }

  lemma {:induction false} AwaitingSet()
    ensures "f" in TablesOf(Awaiting(), "m").funcs
    ensures FuncExitSet(Where(Awaiting(), "m", 0, {}, map[]), "f") == Some({0})
  {
    var p, g, f := Awaiting(), Coroutine(), Calling();
    AwaitingTables();
    ReturnerCollects("g", NO_PARAMS, IntLit(0), false);
    ReturnerCollects("f", NO_PARAMS, Call("g", [], []), true);
    var w := Where(p, "m", 0, {}, map[]);
    ReturnerSet(w, "f", NO_PARAMS, Call("g", [], []), true);
    var inner := w.(stack := w.stack + {("m", "f")});
    assert SiteOf(inner, "g") == Follow(inner.(depth := 1));
    ReturnerSet(inner.(depth := 1), "g", NO_PARAMS, IntLit(0), false);
  }

  lemma {:induction false} AwaitingMissed()
    ensures Missed(Awaiting(), "m", "f")
  {
    var p, f := Awaiting(), Calling();
    AwaitingTables();
    AwaitingSet();
    ReturnerCollects("f", NO_PARAMS, Call("g", [], []), true);
    var o: Oracle := [ANY, ANY, ANY.(v := OtherV)];
    var o2 := o[1..][1..];
    assert o2 == [ANY.(v := OtherV)];
    assert Invoke(p, "m", "g", o2) == Result(OtherV, o2[1..]);
    MissedBy(p, f, Call("g", [], []), o);
  }

  lemma {:induction false} IndirectCallee()
    ensures var p, g, f := Awaiting(), Coroutine(), Calling();
      && Missed(p, "m", "f") && ModuleOk(p.mods["m"])
      && ClausesOf(p, "m", f) == Clauses(true, true, true, true)
      && ClausesOf(p, "m", g) == Clauses(false, true, true, true)
  {
    var p := Awaiting();
    AwaitingTables();
    SettledTwo(p.mods["m"].body, "g", "f");
    ReturnerClauses(p, "g", NO_PARAMS, IntLit(0), false);
    ReturnerClauses(p, "f", NO_PARAMS, Call("g", [], []), true);
    AwaitingMissed();
  }

  // ----- functions with a local -----

  /** A statement that ends normally hands over to the rest of its block. */
  lemma {:induction false} BlockStep(at: At, b: seq<Stmt>, env: Env, o: Oracle, env1: Env, o1: Oracle)
    requires b != [] && RunStmt(at, b[0], env, o) == Done(Normal, env1, o1)
    ensures RunBlock(at, b, env, o) == RunBlock(at, b[1..], env1, o1)
  {
  }

  /** Any other ending is the ending of the block. */
  lemma {:induction false} BlockStops(at: At, b: seq<Stmt>, env: Env, o: Oracle, out: Outcome, env1: Env, o1: Oracle)
    requires b != [] && RunStmt(at, b[0], env, o) == Done(out, env1, o1) && !out.Normal?
    ensures RunBlock(at, b, env, o) == Done(out, env1, o1)
  {
  }

  lemma {:induction false} ReturnsLocal(p: Program, f: FuncDef, x: Name, env: Env)
    requires x in LocalNames(f) && x in env
    ensures RunStmt(Here(p, "m", f), Return(1, Some(Ref(x))), env, []) == Done(Returned(env[x], Unguarded), env, [])
  {
    assert EvalExpr(Here(p, "m", f), Ref(x), env, []) == Val(env[x], env, []);
  }

  /** `def f(x): if ...: x = 0` and then `return x`: a parameter that is also assigned. */
  function Overwriting(): FuncDef
  {
    FuncDef("f", Taking("x"), [If(Opaque({}), [Assign([NameTarget("x")], IntLit(0))], []), Return(1, Some(Ref("x")))],
            {}, true)
  }

  lemma {:induction false} OverwritingCollects()
    ensures var f := Overwriting();
      && BlockEvents(f.body) == [Poison({}), Source("x", IntLit(0))] && BlockReturns(f.body) == [Ret(1, Some(Ref("x")))]
      && Sources(f) == [Local("x", [IntLit(0)])] && Poisoned(f) == {} && Assigned(f) == {"x"}
  {
    var f := Overwriting();
    TwoCollect(f.body);
    OverwritingBranchCollects(f.body[0]);
    var evs := [Poison({}), Source("x", IntLit(0))];
    assert BlockEvents(f.body) == evs + [] == evs;
    assert evs[..1] == [evs[0]] && [evs[0]][..0] == [];
    assert SourcesOf([evs[0]]) == [] && PoisonedBy([evs[0]]) == {};
    assert AssignedBy(evs) == {"x"} by { assert evs[1].name == "x"; }
  }

  lemma {:induction false} OverwritingBranchCollects(s: Stmt)
    requires s == If(Opaque({}), [Assign([NameTarget("x")], IntLit(0))], [])
    ensures StmtEvents(s) == [Poison({}), Source("x", IntLit(0))] && StmtReturns(s) == []
  {
    var a := s.body[0];
    assert [NameTarget("x")][1..] == [] && s.body[1..] == [];
    assert BlockEvents(s.body) == StmtEvents(a) == [Source("x", IntLit(0))];
    assert BlockReturns(s.body) == [];
  }

  lemma {:induction false} TwoCollect(b: seq<Stmt>)
    requires |b| == 2
    ensures BlockEvents(b) == StmtEvents(b[0]) + StmtEvents(b[1])
    ensures BlockReturns(b) == StmtReturns(b[0]) + StmtReturns(b[1])
  {
    var c := b[1..];
    assert c[1..] == [] && c[0] == b[1];
    assert BlockEvents(c) == StmtEvents(c[0]) + BlockEvents(c[1..]) == StmtEvents(b[1]);
    assert BlockReturns(c) == StmtReturns(c[0]) + BlockReturns(c[1..]) == StmtReturns(b[1]);
  }

  lemma {:induction false} OverwritingSet()
    ensures FuncExitSet(Where(Alone([TopDef(Overwriting())]), "m", 0, {}, map[]), "f") == Some({0})
  {
    var f, p := Overwriting(), Alone([TopDef(Overwriting())]);
    LoadOne(TopDef(f));
    OverwritingCollects();
    var w := Where(p, "m", 0, {("m", "f")}, map[]);
    OneLocalSet(w, f, "x", IntLit(0), 0);
    assert Where(p, "m", 0, {}, map[]).stack + {("m", "f")} == {("m", "f")};
  }

  lemma {:induction false} OverwritingClauses()
    ensures var f, p := Overwriting(), Alone([TopDef(Overwriting())]);
      ModuleOk(p.mods["m"]) && ClausesOf(p, "m", f) == Clauses(true, true, false, true)
  {
    var f := Overwriting();
    LoadOne(TopDef(f));
    assert [TopDef(f)][..0] == [];
    assert AllBinds([TopDef(f)]) == ["f"];
    SettledOne([TopDef(f)], "f");
    OverwritingCollects();
    TakingOne(f, "x");
    assert "x" in Assigned(f) * Unseen(f) && !NoSetFor(f, "x");
  }

  lemma {:induction false} OverwrittenParameter()
    ensures var f, p := Overwriting(), Alone([TopDef(Overwriting())]);
      && Missed(p, "m", "f") && ModuleOk(p.mods["m"]) && ClausesOf(p, "m", f) == Clauses(true, true, false, true)
  {
    OverwritingClauses();
    LoadOne(TopDef(Overwriting()));
    OverwritingSet();
    OverwritingRun(Alone([TopDef(Overwriting())]));
  }

  /** `def f(x): x = x.resolve()` and then `return 0`: a parameter reassigned from what has no set is no harm. */
  function Reassigning(): FuncDef
  {
    FuncDef("f", Taking("x"), [Assign([NameTarget("x")], Opaque({})), Return(1, Some(IntLit(0)))], {}, true)
  }

  lemma {:induction false} ReassignedParameter()
    ensures "x" in Assigned(Reassigning()) * Params(Reassigning())
    ensures FunctionOk(Alone([TopDef(Reassigning())]), "m", Reassigning())
  {
    var f := Reassigning();
    LoadOne(TopDef(f));
    ReassigningCollects();
    TakingOne(f, "x");
    assert Source("x", Opaque({})) in BlockEvents(f.body) && NeverResolves(f, Opaque({}));
    assert "x"[0] == 'x' && "f"[0] == 'f';
  }

  lemma {:induction false} ReassigningCollects()
    ensures var f := Reassigning();
      BlockEvents(f.body) == [Source("x", Opaque({})), Poison({})] && Assigned(f) == {"x"} && Poisoned(f) == {}
  {
    var f := Reassigning();
    var evs := [Source("x", Opaque({})), Poison({})];
    assert [NameTarget("x")][1..] == [] && f.body[1..] == [f.body[1]] && [f.body[1]][1..] == [];
    assert StmtEvents(f.body[0]) == evs && BlockEvents([f.body[1]]) == [];
    assert BlockEvents(f.body) == evs;
    assert evs[0].name == "x";
    assert evs[..1] == [evs[0]] && [evs[0]][..0] == [] && PoisonedBy([evs[0]]) == {};
  }

  /** A function whose one local is one literal, and which returns that local. */
  lemma {:induction false} OneLocalSet(w: Where, f: FuncDef, x: Name, e: Expr, n: int)
    requires Sources(f) == [Local(x, [e])] && Poisoned(f) == {} && ConstInt(e) == Some(n)
    requires BlockReturns(f.body) == [Ret(1, Some(Ref(x)))]
    ensures ReturnsSet(w, BlockReturns(f.body), LocalMap(w, f)) == Some({n})
  {
    var left := [Local(x, [e])];
    var one: set<int> := {n};
    assert {} + one == one;
    assert left[..0] == [] && [e][..0] == [];
    assert AllSet(w, [e], map[]) == Join(Some({}), Some({n})) == Some({n});
    assert OnePass(w, left, map[]) == ([], map[x := Some({n})]);
    assert Solve(w, left, map[]) == map[x := Some({n})];
    assert LocalMap(w, f) == map[x := Some({n})];
    var rets := [Ret(1, Some(Ref(x)))];
    assert rets[..0] == [];
    assert ReturnSet(w, rets[0], LocalMap(w, f)) == Some(one);
    assert ReturnsSet(w, rets, LocalMap(w, f)) == Join(Some({}), Some(one)) == Some(one);
  }

  lemma {:induction false} OverwritingRun(p: Program)
    ensures RunFunction(p, "m", Overwriting(), [ANY.(upd := map["x" := IntV(7)]), ANY, ANY]) == Result(IntV(7), [])
  {
    var f := Overwriting();
    var at, upd := Here(p, "m", f), map["x" := IntV(7)];
    var o: Oracle := [ANY.(upd := upd), ANY, ANY];
    OverwritingCollects();
    TakingOne(f, "x");
    var env := Enter(f, upd);
    assert env == upd;
    assert o[1..] == [ANY, ANY];
    OverwritingBranch(at, env);
    BlockStep(at, f.body, env, [ANY, ANY], env, []);
    var tail := f.body[1..];
    assert tail == [Return(1, Some(Ref("x")))];
    ReturnsLocal(p, f, "x", env);
    BlockStops(at, tail, env, [], Returned(IntV(7), Unguarded), env, []);
  }

  /** The branch is not taken. */
  lemma {:induction false} OverwritingBranch(at: At, env: Env)
    requires at.f == Overwriting()
    ensures RunStmt(at, Overwriting().body[0], env, [ANY, ANY]) == Done(Normal, env, [])
  {
    var s, o := Overwriting().body[0], [ANY, ANY];
    assert o[1..] == [ANY] && [ANY][1..] == [];
    assert Havoc(env, {} + at.f.hidden, ANY.upd) == env;
    assert EvalExpr(at, s.value, env, o) == Val(IntV(7), env, [ANY]);
    assert RunBlock(at, s.orelse, env, []) == Done(Normal, env, []);
    assert RunAfter(at, s, env, [ANY]) == Done(Normal, env, []);
  }

  /** `x = 0`, `x += 7`, `y = x`, `return y`: a name both assigned and poisoned. */
  function Bumping(): FuncDef
  {
    FuncDef("f", NO_PARAMS, [Assign([NameTarget("x")], IntLit(0)), Rebind({"x"}, IntLit(7)),
                             Assign([NameTarget("y")], Ref("x")), Return(1, Some(Ref("y")))], {}, true)
  }

  lemma {:induction false} BumpingCollects()
    ensures var f := Bumping();
      && BlockEvents(f.body) == [Source("x", IntLit(0)), Poison({"x"}), Source("y", Ref("x"))]
      && BlockReturns(f.body) == [Ret(1, Some(Ref("y")))]
  {
    var b := Bumping().body;
    assert [NameTarget("x")][1..] == [] && [NameTarget("y")][1..] == [];
    FourCollect(b);
  }

  lemma {:induction false} FourCollect(b: seq<Stmt>)
    requires |b| == 4
    ensures BlockEvents(b) == StmtEvents(b[0]) + (StmtEvents(b[1]) + (StmtEvents(b[2]) + StmtEvents(b[3])))
    ensures BlockReturns(b) == StmtReturns(b[0]) + (StmtReturns(b[1]) + (StmtReturns(b[2]) + StmtReturns(b[3])))
  {
    ThreeCollect(b[1..]);
  }

  lemma {:induction false} ThreeCollect(b: seq<Stmt>)
    requires |b| == 3
    ensures BlockEvents(b) == StmtEvents(b[0]) + (StmtEvents(b[1]) + StmtEvents(b[2]))
    ensures BlockReturns(b) == StmtReturns(b[0]) + (StmtReturns(b[1]) + StmtReturns(b[2]))
  {
    var c := b[1..];
    var d := c[1..];
    assert d[1..] == [] && c[0] == b[1] && d[0] == b[2];
    assert BlockEvents(d) == StmtEvents(b[2]) && BlockReturns(d) == StmtReturns(b[2]);
    assert BlockEvents(c) == StmtEvents(b[1]) + BlockEvents(d);
    assert BlockReturns(c) == StmtReturns(b[1]) + BlockReturns(d);
  }

  lemma {:induction false} BumpingTables()
    ensures var f := Bumping();
      && Sources(f) == [Local("x", [IntLit(0)]), Local("y", [Ref("x")])] && Poisoned(f) == {"x"}
      && Assigned(f) == {"x", "y"}
  {
    var f := Bumping();
    BumpingCollects();
    var evs := [Source("x", IntLit(0)), Poison({"x"}), Source("y", Ref("x"))];
    assert BlockEvents(f.body) == evs;
    var two, one := [Source("x", IntLit(0)), Poison({"x"})], [Source("x", IntLit(0))];
    assert evs[..2] == two && two[..1] == one && one[..0] == [];
    assert SourcesOf(one) == [Local("x", [IntLit(0)])] && SourcesOf(two) == SourcesOf(one);
    assert PoisonedBy(one) == {} && PoisonedBy(two) == {"x"};
    var l := [Local("x", [IntLit(0)])];
    assert l[1..] == [] && AddSource([], "y", Ref("x")) == [Local("y", [Ref("x")])];
    assert AddSource(l, "y", Ref("x")) == [l[0]] + AddSource(l[1..], "y", Ref("x"));
    assert SourcesOf(evs) == AddSource(SourcesOf(two), "y", Ref("x"));
    assert evs[0].name == "x" && evs[2].name == "y";
    assert AssignedBy(evs) == {"x", "y"};
  }

  lemma {:induction false} BumpingSet(w: Where)
    requires w.p == Alone([TopDef(Bumping())]) && w.path == "m"
    ensures ReturnsSet(w, BlockReturns(Bumping().body), LocalMap(w, Bumping())) == Some({0})
  {
    var f := Bumping();
    BumpingCollects();
    BumpingTables();
    var x, y := Local("x", [IntLit(0)]), Local("y", [Ref("x")]);
    var zero: set<int> := {0};
    assert {} + zero == zero;
    var left := [x, y];
    assert left[..1] == [x] && [x][..0] == [] && [IntLit(0)][..0] == [] && [Ref("x")][..0] == [];
    var t := map["x" := Some(zero)];
    assert AllSet(w, [IntLit(0)], map[]) == Join(Some({}), Some(zero)) == Some(zero);
    assert OnePass(w, [x], map[]) == ([], t);
    assert AllSet(w, [Ref("x")], t) == Join(Some({}), Some(zero)) == Some(zero);
    var u := t["y" := Some(zero)];
    assert OnePass(w, left, map[]) == ([], u);
    assert Solve(w, left, map[]) == u;
    assert LocalMap(w, f)["y"] == Some(zero);
    var rets := [Ret(1, Some(Ref("y")))];
    assert rets[..0] == [];
    assert ReturnSet(w, rets[0], LocalMap(w, f)) == Some(zero);
    assert ReturnsSet(w, rets, LocalMap(w, f)) == Join(Some({}), Some(zero)) == Some(zero);
  }

  lemma {:induction false} AssignsPlain(at: At, x: Name, e: Expr, v: Value, env: Env, o: Oracle)
    requires EvalExpr(at, e, env, o) == Val(v, env, o)
    ensures RunStmt(at, Assign([NameTarget(x)], e), env, o) == Done(Normal, env[x := v], o)
  {
    var targets := [NameTarget(x)];
    assert targets[1..] == [];
    assert RunTargets(targets, v, env, o) == RunTargets([], v, env[x := v], o) == Done(Normal, env[x := v], o);
    assert RunStore(at, targets, e, env, o) == Done(Normal, env[x := v], o);
  }

  lemma {:induction false} BumpingSteps(at: At)
    requires at.f == Bumping()
    ensures var f, bump := Bumping(), ANY.(upd := map["x" := IntV(7)]);
      var e1, e2 := map["x" := IntV(0)], map["x" := IntV(7)];
      && RunStmt(at, f.body[0], map[], [bump]) == Done(Normal, e1, [bump])
      && RunStmt(at, f.body[1], e1, [bump]) == Done(Normal, e2, [])
      && RunStmt(at, f.body[2], e2, []) == Done(Normal, e2["y" := IntV(7)], [])
  {
    var f, bump := Bumping(), ANY.(upd := map["x" := IntV(7)]);
    var e0: Env, e1, e2 := map[], map["x" := IntV(0)], map["x" := IntV(7)];
    AssignsPlain(at, "x", IntLit(0), IntV(0), e0, [bump]);
    assert e0["x" := IntV(0)] == e1;
    assert Havoc(e1, {"x"}, bump.upd) == e2 && [bump][1..] == [];
    assert RunAfter(at, f.body[1], e1, [bump]) == Done(Normal, e2, []);
    BumpingTables();
    AssignsPlain(at, "y", Ref("x"), IntV(7), e2, []);
  }

  lemma {:induction false} BumpingRun(p: Program)
    ensures RunFunction(p, "m", Bumping(), [ANY, ANY.(upd := map["x" := IntV(7)])]) == Result(IntV(7), [])
  {
    var f, bump := Bumping(), ANY.(upd := map["x" := IntV(7)]);
    var at, b, o := Here(p, "m", f), f.body, [ANY, bump];
    NoParams(f);
    assert Enter(f, ANY.upd) == map[] && o[1..] == [bump];
    var e1, e2 := map["x" := IntV(0)], map["x" := IntV(7)];
    var e3 := e2["y" := IntV(7)];
    BumpingSteps(at);
    assert b[1..][1..] == b[2..] && b[2..][1..] == b[3..];
    BlockStep(at, b, map[], [bump], e1, [bump]);
    BlockStep(at, b[1..], e1, [bump], e2, []);
    BlockStep(at, b[2..], e2, [], e3, []);
    assert "y" in LocalNames(f) by { BumpingTables(); }
    ReturnsLocal(p, f, "y", e3);
    BlockStops(at, b[3..], e3, [], Returned(IntV(7), Unguarded), e3, []);
  }

  lemma {:induction false} BumpingClauses()
    ensures var f, p := Bumping(), Alone([TopDef(Bumping())]);
      ModuleOk(p.mods["m"]) && ClausesOf(p, "m", f) == Clauses(true, false, true, true)
  {
    var f := Bumping();
    LoadOne(TopDef(f));
    assert [TopDef(f)][..0] == [];
    assert AllBinds([TopDef(f)]) == ["f"];
    SettledOne([TopDef(f)], "f");
    NoParams(f);
    BumpingTainted();
  }

  lemma {:induction false} BumpingTainted()
    ensures !SourcesApart(Bumping()) && LocalNames(Bumping()) == {"x", "y"} + Params(Bumping())
  {
    var f := Bumping();
    BumpingTables();
    NotApart(f, BlockEvents(f.body), "y", "x") by { BumpingCollects(); }
  }

  /** `y = x` and nothing else makes `y` rest on a tainted `x`. */
  lemma {:induction false} NotApart(f: FuncDef, evs: seq<Event>, y: Name, x: Name)
    requires evs == BlockEvents(f.body) && |evs| == 3 && evs[2] == Source(y, Ref(x))
    requires y !in Poisoned(f) && x in Tainted(f)
    ensures !SourcesApart(f)
  {
    assert Source(y, Ref(x)) in BlockEvents(f.body) && x in ValueReads(Ref(x));
  }

  lemma {:induction false} BumpingExitSet()
    ensures var p := Alone([TopDef(Bumping())]);
      "f" in TablesOf(p, "m").funcs && FuncExitSet(Where(p, "m", 0, {}, map[]), "f") == Some({0})
  {
    LoadOne(TopDef(Bumping()));
    var w := Where(Alone([TopDef(Bumping())]), "m", 0, {}, map[]);
    BumpingSet(w.(stack := w.stack + {("m", "f")}));
  }

  /** One run with a value outside the computed set is enough. */
  lemma {:induction false} MissedByRun(p: Program, path: Path, f: FuncDef, codes: set<int>, o: Oracle)
    requires f.name in TablesOf(p, path).funcs && TablesOf(p, path).funcs[f.name] == f
    requires FuncExitSet(Where(p, path, 0, {}, map[]), f.name) == Some(codes)
    requires RunFunction(p, path, f, o).Result? && !Covered(RunFunction(p, path, f, o).v, codes)
    ensures Missed(p, path, f.name)
  {
  }

  lemma {:induction false} BumpingMissed()
    ensures Missed(Alone([TopDef(Bumping())]), "m", "f")
  {
    var p, o := Alone([TopDef(Bumping())]), [ANY, ANY.(upd := map["x" := IntV(7)])];
    BumpingExitSet();
    BumpingRun(p);
    LoadOne(TopDef(Bumping()));
    assert !Covered(IntV(7), {0});
    MissedByRun(p, "m", Bumping(), {0}, o);
  }

  lemma {:induction false} PoisonedLocal()
    ensures var f, p := Bumping(), Alone([TopDef(Bumping())]);
      && Missed(p, "m", "f") && ModuleOk(p.mods["m"]) && ClausesOf(p, "m", f) == Clauses(true, false, true, true)
  {
    BumpingClauses();
    BumpingMissed();
  }
}
