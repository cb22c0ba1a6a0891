/** `os._exit(f())` where f can fall off its end: measured as {0}, and a run ends with 1. */
module SiteWitness {
  import opened MiniPython
  import opened OwnNodes
  import opened PythonRuns
  import opened Endings
  import opened RunsEnd
  import opened ReachedEndings
  import opened Nones
  import opened ExitSets
  import opened ExitSoundness
  import opened Assess
  import opened VerdictSoundness
  import opened Witnesses

  /** `def f(): if ...: return 0`. */
  function Falling(): FuncDef
  {
    FuncDef("f", NO_PARAMS, [If(Opaque({}), [Return(1, Some(IntLit(0)))], [])], {}, true)
  }

  function FallingProgram(): Program { Alone([TopDef(Falling())]) }

  const EXITS: ExitSite := ExitSite(OsExit, [Call("f", [], [])], [], 2, {})

  lemma {:induction false} FallingCollects()
    ensures var f := Falling();
      && BlockEvents(f.body) == [Poison({})] && BlockReturns(f.body) == [Ret(1, Some(IntLit(0)))]
      && Poisoned(f) == {} && Sources(f) == []
  {
    var f := Falling();
    var inner := [Return(1, Some(IntLit(0)))];
    assert f.body[1..] == [] && inner[1..] == [];
    assert BlockEvents(inner) == StmtEvents(inner[0]) + BlockEvents(inner[1..]) == [];
    assert BlockReturns(inner) == StmtReturns(inner[0]) + BlockReturns(inner[1..]) == [Ret(1, Some(IntLit(0)))];
    var evs := [Poison({})];
    assert BlockEvents(f.body) == evs && evs[..0] == [];
  }

  lemma {:induction false} FallingSet()
    ensures SiteValues(FallingProgram(), "m", map[], EXITS.args) == Some({0})
  {
    var p, f := FallingProgram(), Falling();
    LoadOne(TopDef(f));
    FallingCollects();
    var w := Where(p, "m", 0, {}, map[]);
    var inside := w.(depth := 1);
    var inner := inside.(stack := inside.stack + {("m", "f")});
    var rets := [Ret(1, Some(IntLit(0)))];
    var zero: set<int> := {0};
    assert SiteOf(w, "f") == Follow(inside);
    assert rets[..0] == [] && {} + zero == zero;
    var init := rets[..|rets| - 1];
    assert init == [] && ReturnsSet(inner, init, LocalMap(inner, f)) == Some({});
    assert ReturnSet(inner, rets[|rets| - 1], LocalMap(inner, f)) == Some(zero);
    assert ReturnsSet(inner, rets, LocalMap(inner, f)) == Join(Some({}), Some(zero)) == Some(zero);
    assert FuncExitSet(inside, "f") == Some(zero);
  }

  /** From any state the test can go the other way, and the body is at its end. */
  lemma {:induction false} FallingFalls(c: Ctx, a: State)
    requires c.at.f == Falling()
    ensures Ending(Falls, a) in BlockEnds(c, Falling().body, a)
  {
    var s, fell := Falling().body[0], Ending(Falls, a);
    var none: set<Name> := {};
    assert a in Shuffles(c.judge, a, none) by { assert State((a.bound - none) + none, (a.bad - none) + none) == a; }
    var out := Fails(true);
    AnyOccurs(c.judge, OtherV);
    var v := Eval1(Yields(Bad(c.judge, OtherV)), a);
    assert none + c.at.f.hidden == none;
    assert v in ExprEnds(c, s.value, a);
    assert fell in BlockEnds(c, s.orelse, a);
    assert fell in AfterEnds(c, s, v.state);
    assert fell in StmtEnds(c, s, a);
    assert fell in PastFirst(c, Falling().body, fell);
  }

  lemma {:induction false} FallingYieldsNone(p: Program)
    ensures YieldsNone(p, "m", Falling())
  {
    var c, a := CtxOf(Here(p, "m", Falling()), NONE_IS_BAD), NOTHING_BOUND;
    NoParams(Falling());
    assert a in Entries(NONE_IS_BAD, Falling()) by {
      var none: set<Name> := {};
      assert State((a.bound - none) + none, (a.bad - none) + none) == a;
    }
    FallingFalls(c, a);
    NoneIff(p, "m", Falling());
  }

  /** The site is not safe, by its callee, and indeed ends with 1 in some run. */
  lemma {:induction false} FallingCallee()
    ensures SiteValues(FallingProgram(), "m", map[], EXITS.args) == Some({0})
    ensures CanExitWith(FallingProgram(), "m", EXITS, 1) && !SiteSafe(FallingProgram(), "m", EXITS)
  {
    var p := FallingProgram();
    FallingSet();
    FallingYieldsNone(p);
    FallingMayBeNone(p);
    NoneExits(p, "m", EXITS, EXITS.args[0]);
  }

  lemma {:induction false} FallingMayBeNone(p: Program)
    requires p == FallingProgram() && YieldsNone(p, "m", Falling())
    ensures MayBeNone(p, "m", EXITS, EXITS.args[0])
  {
    var f, e, at := Falling(), EXITS.args[0], SiteAt(p, "m", EXITS);
    LoadOne(TopDef(f));
    NoParams(at.f);
    OneArgument(e);
    var o :| RunFunction(p, "m", f, o).Result? && RunFunction(p, "m", f, o).v.NoneV?;
    assert IsCall(NONE_IS_BAD, RunFunction(p, "m", f, o), Yields(true));
    CallMayBeIff(at, NONE_IS_BAD, e, "m", f);
  }

  lemma {:induction false} OneArgument(e: Expr)
    requires e == Call("f", [], []) && EXITS.args == [e]
    ensures "f" !in LocalNames(Around(EXITS))
  {
    var f := Around(EXITS);
    var b := f.body;
    NoParams(f);
    assert b == [ExprStmt(e)] && b[1..] == [];
    assert BlockEvents(b) == StmtEvents(b[0]) + BlockEvents(b[1..]) == [];
  }
}
