/**
 The conditions of `TotalGuards` and `Handoffs`, computed for three small programs: a guard that
 is total, a hand-off that raises nothing, and the same hand-off with other arguments.
 */
module GuardExamples {
  import opened MiniPython
  import opened OwnNodes
  import opened PythonRuns
  import opened Endings
  import opened RunsEnd
  import opened ReachedEndings
  import opened ExitSets
  import opened LocalSolution
  import opened ExitSoundness
  import opened Containment
  import opened TotalGuards
  import opened Handoffs
  import opened Witnesses
  import opened EscapeWitnesses

  // ----- a total guard -----

  /** `except Exception: return 5` may not raise. */
  lemma {:induction false} ReturningKeeps(at: At, t: TypeExpr, line: nat, ordinary: bool)
    ensures !MayRaise(at, Returning(t, line), ordinary)
  {
    var c, h := Bindings(at), Returning(t, line);
    forall a, x | a in States(ALL_GOOD, LocalNames(at.f)) && x in HandlerEnds(c, h, ordinary, a)
      ensures x.end != Throws(true)
    {
      ReturnEnds(c.(at := Handling(at, ordinary)), line, 5, a);
    }
  }

  lemma {:induction false} ReturnEnds(c: Ctx, line: nat, n: nat, a: State)
    ensures forall x :: x in BlockEnds(c, [Return(line, Some(IntLit(n)))], a) ==> x.end.Leaves?
  {
    var b := [Return(line, Some(IntLit(n)))];
    assert ExprEnds(c, IntLit(n), a) == {Eval1(Yields(Bad(c.judge, IntV(n))), a)};
    assert forall r :: r in StmtEnds(c, b[0], a) ==> r.end.Leaves?;
    assert forall r :: r in StmtEnds(c, b[0], a) ==> PastFirst(c, b, r) == {r};
  }

  /** `except ...: return reject()` may not raise either, if no run of `reject` does. */
  lemma {:induction false} CallingKeeps(at: At, h: Handler, line: nat, callee: Name, q: Path, g: FuncDef,
                                        ordinary: bool)
    requires h.bound.None? && h.body == [Return(line, Some(Call(callee, [], [])))] && callee !in LocalNames(at.f)
    requires GlobalOf(at.p, at.path, callee) == DefGlobal(q, g) && g.direct && Accepts(g.sig, 0, [])
    requires !FunctionCan(at.p, ALL_GOOD, q, g, Fails(true))
    ensures !MayRaise(at, h, ordinary)
  {
    var c, e := Bindings(at).(at := Handling(at, ordinary)), Call(callee, [], []);
    GlobalIsDef(at.p, at.path, callee);
    KnownIsExact(at.p, ALL_GOOD, q, g, Fails(true));
    assert Fails(true) !in CallOuts(c, callee, 0, []);
    forall a, x | x in HandlerEnds(Bindings(at), h, ordinary, a) ensures x.end != Throws(true) {
      CallReturns(c, h.body, e, a);
    }
  }

  lemma {:induction false} CallReturns(c: Ctx, b: seq<Stmt>, e: Expr, a: State)
    requires |b| == 1 && b[0].Return? && b[0].result == Some(e) && e.Call? && e.args == []
    requires e.callee !in Frame(c) && Fails(true) !in CallOuts(c, e.callee, 0, e.keywords)
    ensures forall x :: x in BlockEnds(c, b, a) ==> x.end != Throws(true)
  {
    forall x | x in BlockEnds(c, b, a) ensures x.end != Throws(true) {
      var r :| r in StmtEnds(c, b[0], a) && x in PastFirst(c, b, r);
      assert ArgsEnds(c, e.args, a) == {ArgsEnd(None, a)};
      assert forall v :: v in ExprEnds(c, e, a) ==> v.out in CallOuts(c, e.callee, 0, e.keywords);
    }
  }

  /** `def reject(): return 96`. */
  lemma {:induction false} RejectKeeps(p: Program)
    ensures !FunctionCan(p, ALL_GOOD, "m", Returner("reject", NO_PARAMS, IntLit(96), true), Fails(true))
  {
    var f := Returner("reject", NO_PARAMS, IntLit(96), true);
    forall o ensures !RunFunction(p, "m", f, o).Escaped? {
      if o != [] { ReturnerRun(p, "m", f, IntLit(96), o); }
    }
  }

  /** `def f(c): try: return 0` and `except Exception: return 5`. */
  function Train(): FuncDef
  {
    Guarding(Taking("c"), Return(1, Some(IntLit(0))), [Returning(Plain("Exception"), 2)])
  }

  /** `def h(c): return f(...)`. */
  function Handing(args: seq<Expr>): FuncDef
  {
    FuncDef("h", Taking("c"), [Return(3, Some(Call("f", args, [])))], {}, true)
  }

  function HandingProgram(args: seq<Expr>): Program { Alone([TopDef(Train()), TopDef(Handing(args))]) }

  const F: Key := ("m", "f")
  const H: Key := ("m", "h")

  lemma {:induction false} HandingTables(args: seq<Expr>)
    ensures var p := HandingProgram(args);
      && TablesOf(p, "m") == Tables(map[], map["f" := Train(), "h" := Handing(args)], {}, map[])
      && AllBinds(p.mods["m"].body) == ["f", "h"]
      && OwnBinding(p.mods["m"].body, "Exception") == UnknownBinding
      && GlobalOf(p, "m", "f") == DefGlobal("m", Train())
  {
    LoadTwo(TopDef(Train()), TopDef(Handing(args)));
    assert "Exception"[0] == 'E' && "f"[0] == 'f' && "h"[0] == 'h';
  }

  lemma {:induction false} TrainIsTotal(args: seq<Expr>)
    ensures TotalEntry(HandingProgram(args), F)
  {
    var p, f := HandingProgram(args), Train();
    var at, hs := Here(p, "m", f), f.body[0].handlers;
    HandingTables(args);
    TrainCatches(args);
    ReturningKeeps(at, Plain("Exception"), 2, true);
    ReturningKeeps(at, Plain("Exception"), 2, false);
    assert hs[1..] == [] && !LetsOutFor(at, [], false);
    assert !LetsOut(at, hs);
    assert AfterDocstring(f.body) == f.body;
  }

  lemma {:induction false} TrainCatches(args: seq<Expr>)
    ensures Takes(Here(HandingProgram(args), "m", Train()), Returning(Plain("Exception"), 2), true, false)
  {
    var f := Train();
    HandingTables(args);
    GuardingCollects(Taking("c"), Return(1, Some(IntLit(0))), f.body[0].handlers);
    TakingOne(f, "c");
    assert "Exception"[0] == 'E' && "c"[0] == 'c';
    assert IsBuiltin(Here(HandingProgram(args), "m", f), Plain("Exception"), EXCEPTION);
  }

  // ----- hand-offs -----

  /** Arguments that bind no names. */
  predicate Pure(args: seq<Expr>) { ArgEvents(args) == [] || ArgEvents(args) == [Poison({})] }

  lemma {:induction false} HandingCollects(args: seq<Expr>)
    requires Pure(args)
    ensures var f := Handing(args);
      && Assigned(f) == {} && Poisoned(f) == {} && LocalNames(f) == {"c"}
      && BlockReturns(f.body) == [Ret(3, Some(Call("f", args, [])))]
      && forall ev :: ev in BlockEvents(f.body) ==> ev == Poison({})
  {
    var f := Handing(args);
    TakingOne(f, "c");
    assert f.body[1..] == [];
    assert BlockEvents(f.body) == StmtEvents(f.body[0]) + BlockEvents(f.body[1..]) == ArgEvents(args);
    forall x ensures x !in Poisoned(f) { PoisonedByIff(BlockEvents(f.body), x); }
    assert BlockReturns(f.body) == StmtReturns(f.body[0]) + BlockReturns(f.body[1..]);
  }

  const SCOPE: set<Visit> := {Visit("m", "f", false), Visit("m", "f", true), Visit("m", "h", false)}

  lemma {:induction false} HandingOk(args: seq<Expr>)
    requires Pure(args)
    ensures EntriesOk(HandingProgram(args), SCOPE, {F, H})
  {
    var p := HandingProgram(args);
    HandingTables(args);
    SettledTwo(p.mods["m"].body, "f", "h");
    TrainVisit(args, false);
    TrainVisit(args, true);
    HandingVisit(args);
    forall q ensures ModuleFine(p, q) {}
    forall v | v in SCOPE ensures VisitOk(p, SCOPE, v) {}
  }

  lemma {:induction false} TrainVisit(args: seq<Expr>, spent: bool)
    ensures VisitOk(HandingProgram(args), SCOPE, Visit("m", "f", spent))
  {
    var p, f := HandingProgram(args), Train();
    HandingTables(args);
    GuardingCollects(Taking("c"), Return(1, Some(IntLit(0))), f.body[0].handlers);
    TakingOne(f, "c");
    assert "c"[0] == 'c' && "f"[0] == 'f' && "h"[0] == 'h';
    PlainFunctionOk(p, SCOPE, f, spent);
  }

  lemma {:induction false} HandingVisit(args: seq<Expr>)
    requires Pure(args)
    ensures VisitOk(HandingProgram(args), SCOPE, Visit("m", "h", false))
  {
    var p, f := HandingProgram(args), Handing(args);
    HandingTables(args);
    HandingCollects(args);
    assert "c"[0] == 'c' && "f"[0] == 'f' && "h"[0] == 'h';
    forall e | Trusted(f, e) ensures CallsIn(p, SCOPE, "m", false, e) {
      assert e == Call("f", args, []);
    }
  }

  lemma {:induction false} HandingIsProtected(args: seq<Expr>)
    ensures IsProtected(HandingProgram(args), {F, H}, map[], H, {})
  {
    var p, f, eps := HandingProgram(args), Handing(args), {F, H};
    HandingTables(args);
    assert GuardOf(Train().body[0].handlers) == Some(Returning(Plain("Exception"), 2));
    GuardingIsProtected(p, eps, map[], {H}, Train(), Plain("Exception"), 2);
    HandsTo(args);
    SeenGrows(eps, {}, H);
    assert {} + {H} == {H};
    assert StmtStatus(p, eps, map[], H, {}, f.body[0]) == Protected;
    assert AfterDocstring(f.body) == f.body && f.body[1..] == [];
    assert EscapeRest(p, eps, map[], H, {}, f.body[1..]) == Protected;
  }

  lemma {:induction false} HandsTo(args: seq<Expr>)
    ensures DelegationTarget(HandingProgram(args), "m", {F, H}, Handing(args).body[0]) == Some(F)
    ensures F != H
  {
    HandingTables(args);
    assert "f"[0] == 'f' && "h"[0] == 'h';
  }

  lemma {:induction false} HandingIsTotal(args: seq<Expr>)
    ensures TotalDown(HandingProgram(args), {F, H}, H, {})
  {
    var p, eps := HandingProgram(args), {F, H};
    HandingTables(args);
    HandsTo(args);
    TrainIsTotal(args);
    assert Train().body[0].Try? && AfterDocstring(Train().body) == Train().body;
    assert Targets(p, eps, F) == {};
    assert AfterDocstring(Handing(args).body) == Handing(args).body;
    assert {} + {H} == {H};
    assert TotalDown(p, eps, F, {H});
  }

  /** What `h` computes to: at its one statement it has its parameter, and `f` takes one argument. */
  lemma {:induction false} HandingRaisesIff(args: seq<Expr>)
    requires Pure(args) && |args| == 1
    ensures var c := Bindings(Here(HandingProgram(args), "m", Handing(args)));
      HandoffRaises(HandingProgram(args), {F, H}, H, {}) <==>
        exists a :: a in Entries(ALL_GOOD, Handing(args)) && ArgsRaise(c, args, a)
  {
    var p, f := HandingProgram(args), Handing(args);
    var c := Bindings(Here(p, "m", f));
    HandingTables(args);
    OneStatement(p, {F, H}, H, {}, c, f.body[0]);
    forall a ensures RaisesAt(p, {F, H}, H, {}, c, f.body[0], a) <==> ArgsRaise(c, args, a) {
      HandingRaisesAt(args, c, a);
    }
  }

  lemma {:induction false} OneStatement(p: Program, eps: set<Key>, ep: Key, seen: set<Key>, c: Ctx, s: Stmt)
    requires ep in eps && ep !in seen && ep.1 in TablesOf(p, ep.0).funcs
    requires c == Bindings(Here(p, ep.0, TablesOf(p, ep.0).funcs[ep.1])) && c.at.f.body == [s] && s.Return?
    ensures HandoffRaises(p, eps, ep, seen) <==>
      exists a :: a in Entries(ALL_GOOD, c.at.f) && RaisesAt(p, eps, ep, seen, c, s, a)
  {
    assert AfterDocstring(c.at.f.body) == c.at.f.body;
    ArrivingFirst(c, c.at.f.body);
  }

  lemma {:induction false} HandingRaisesAt(args: seq<Expr>, c: Ctx, a: State)
    requires |args| == 1
    ensures RaisesAt(HandingProgram(args), {F, H}, H, {}, c, Handing(args).body[0], a) <==> ArgsRaise(c, args, a)
  {
    HandsTo(args);
    TrainTakesOne(args);
    TrainRaisesNothing(args);
    assert {} + {H} == {H};
  }

  lemma {:induction false} ArrivingFirst(c: Ctx, rest: seq<Stmt>)
    ensures Arriving(c, rest, 0) == Entries(c.judge, c.at.f)
  {
    assert rest[..0] == [];
    forall a ensures a in Arriving(c, rest, 0) <==> a in Entries(c.judge, c.at.f) {
      assert Ending(Falls, a) in BlockEnds(c, [], a);
    }
  }

  lemma {:induction false} TrainTakesOne(args: seq<Expr>)
    ensures Fits(GlobalOf(HandingProgram(args), "m", "f"), 1, [])
  {
    HandingTables(args);
    var ps := Train().sig.params;
    var positional := set i | 0 <= i < |ps| && !ps[i].keywordOnly;
    assert 0 in positional;
    assert positional == {0};
  }

  lemma {:induction false} TrainRaisesNothing(args: seq<Expr>)
    requires F != H
    ensures !HandoffRaises(HandingProgram(args), {F, H}, F, {H})
  {
    HandingTables(args);
    assert AfterDocstring(Train().body) == Train().body;
  }

  /** `def h(c): return f(c)`: the parameter is bound, and no ordinary exception ever leaves `h`. */
  lemma {:induction false} QuietHandoffKeeps()
    ensures var (p, args) := (HandingProgram([Ref("c")]), [Ref("c")]);
      && IsProtected(p, {F, H}, map[], H, {}) && TotalDown(p, {F, H}, H, {})
      && !HandoffRaises(p, {F, H}, H, {}) && !LetsOrdinaryOut(p, H)
  {
    var args := [Ref("c")];
    var p, f := HandingProgram(args), Handing(args);
    assert args[1..] == [];
    HandingCollects(args);
    TakingOne(f, "c");
    forall a | a in Entries(ALL_GOOD, f) ensures !ArgsRaise(Bindings(Here(p, "m", f)), args, a) {
      QuietArguments(Bindings(Here(p, "m", f)), args, a);
    }
    HandingRaisesIff(args);
    HandingDecides(args);
  }

  /** `def h(c): return f(load(...))`: evaluating the argument is outside every guard. */
  lemma {:induction false} OpaqueHandoffEscapes()
    ensures var (p, args) := (HandingProgram([Opaque({})]), [Opaque({})]);
      && IsProtected(p, {F, H}, map[], H, {}) && TotalDown(p, {F, H}, H, {})
      && HandoffRaises(p, {F, H}, H, {}) && LetsOrdinaryOut(p, H)
  {
    var args := [Opaque({})];
    var p, f := HandingProgram(args), Handing(args);
    assert args[1..] == [];
    HandingCollects(args);
    var a := State({"c"}, {});
    EntryWithParameter(f);
    OpaqueArgumentRaises(Bindings(Here(p, "m", f)), args, 0, a);
    HandingRaisesIff(args);
    HandingDecides(args);
  }

  lemma {:induction false} EntryWithParameter(f: FuncDef)
    requires f.sig == Taking("c") && f.hidden == {}
    ensures State({"c"}, {}) in Entries(ALL_GOOD, f)
  {
    TakingOne(f, "c");
    var X, Y: set<Name> := {"c"}, {};
    assert State((NOTHING_BOUND.bound - {"c"}) + X, (NOTHING_BOUND.bad - {"c"}) + Y) == State({"c"}, {});
    assert Params(f) + f.hidden == {"c"};
  }

  lemma {:induction false} HandingDecides(args: seq<Expr>)
    requires Pure(args)
    ensures var p := HandingProgram(args);
      && IsProtected(p, {F, H}, map[], H, {}) && TotalDown(p, {F, H}, H, {})
      && (LetsOrdinaryOut(p, H) <==> HandoffRaises(p, {F, H}, H, {}))
  {
    HandingOk(args);
    HandingIsProtected(args);
    HandingIsTotal(args);
    EscapesIffHandoffRaises(HandingProgram(args), SCOPE, {F, H}, map[], H, {});
  }
}
