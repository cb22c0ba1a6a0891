/** A call into another module that gets its set, and a local that is read as the constant it hides. */
module DerivationExamples {
  import opened MiniPython
  import opened OwnNodes
  import opened ExitSets
  import opened Derivation
  import opened Witnesses

  // ----- across modules -----

  /** loop: `def g(): return 5`. */
  function There(): FuncDef { Returner("g", NO_PARAMS, IntLit(5), true) }

  /** cli: `from loop import g` and `def f(): return g()`. */
  function Here(): FuncDef { Returner("f", NO_PARAMS, Call("g", [], []), true) }

  function Across(): Program
  {
    Program(map["cli" := Module([TopImport("loop", true, [Alias("g", "g")]), TopDef(Here())], []),
                "loop" := Module([TopDef(There())], [])],
            map["loop" := "loop"], {}, {})
  }

  lemma {:induction false} AcrossTables()
    ensures TablesOf(Across(), "cli") == Tables(map[], map["f" := Here()], {}, map["g" := "loop"])
    ensures TablesOf(Across(), "loop") == Tables(map[], map["g" := There()], {}, map[])
    ensures Locate(Across(), "loop") == Some("loop")
  {
    var imp := TopImport("loop", true, [Alias("g", "g")]);
    LoadTwo(imp, TopDef(Here()));
    LoadOne(TopDef(There()));
    assert imp.aliases[1..] == [];
    assert BoundNames(imp.aliases) == ["g"];
    AddImportsSpec(Load([]), "loop", imp.aliases);
    assert AddImports(Load([]), "loop", imp.aliases).imports == map["g" := "loop"];
  }

  /** The imported function is entered, with a hop of its own. */
  lemma {:induction false} EnteredAcross()
    ensures "f" in TablesOf(Across(), "cli").funcs
    ensures FuncExitSet(Where(Across(), "cli", 0, {}, map[]), "f") == Some({5})
  {
    var w := Where(Across(), "cli", 0, {}, map[]);
    AcrossTables();
    var inner := w.(stack := w.stack + {("cli", "f")});
    ReturnerSet(w, "f", NO_PARAMS, Call("g", [], []), true);
    assert SiteOf(inner, "g") == Follow(inner.(path := "loop", depth := 0));
    ReturnerSet(inner.(path := "loop", depth := 0), "g", NO_PARAMS, IntLit(5), true);
  }

  /** A declared function of another module has the set computed for it. */
  lemma {:induction false} DeclaredAcross(codes: set<int>)
    ensures "f" in TablesOf(Across(), "cli").funcs
    ensures FuncExitSet(Where(Across(), "cli", 0, {}, map[("loop", "g") := Some(codes)]), "f") == Some(codes)
  {
    var w := Where(Across(), "cli", 0, {}, map[("loop", "g") := Some(codes)]);
    AcrossTables();
    ReturnerSet(w, "f", NO_PARAMS, Call("g", [], []), true);
  }

  // ----- a local and a constant of one name -----

  /** `x = 0` in the module, and `def f(): y = x; x = 5; return y`. */
  function Hiding(): FuncDef
  {
    FuncDef("f", NO_PARAMS, [Assign([NameTarget("y")], Ref("x")), Assign([NameTarget("x")], IntLit(5)),
                             Return(1, Some(Ref("y")))], {}, true)
  }

  function HidingProgram(): Program { Alone([TopAssign(["x"], IntLit(0), []), TopDef(Hiding())]) }

  lemma {:induction false} HidingCollects()
    ensures var f := Hiding();
      && BlockEvents(f.body) == [Source("y", Ref("x")), Source("x", IntLit(5))]
      && BlockReturns(f.body) == [Ret(1, Some(Ref("y")))] && Poisoned(f) == {}
      && Sources(f) == [Local("y", [Ref("x")]), Local("x", [IntLit(5)])]
  {
    var f := Hiding();
    assert [NameTarget("x")][1..] == [] && [NameTarget("y")][1..] == [];
    ThreeCollect(f.body);
    var evs, one := [Source("y", Ref("x")), Source("x", IntLit(5))], [Source("y", Ref("x"))];
    assert BlockEvents(f.body) == evs;
    assert evs[..1] == one && one[..0] == [];
    assert PoisonedBy(one) == {} && SourcesOf(one) == [Local("y", [Ref("x")])];
    var l := [Local("y", [Ref("x")])];
    assert l[1..] == [] && "y" != "x";
    assert AddSource(l, "x", IntLit(5)) == [l[0]] + AddSource(l[1..], "x", IntLit(5));
  }

  lemma {:induction false} HidingTables()
    ensures TablesOf(HidingProgram(), "m") == Tables(map["x" := 0], map["f" := Hiding()], {}, map[])
  {
    LoadTwo(TopAssign(["x"], IntLit(0), []), TopDef(Hiding()));
    assert ["x"][1..] == [];
  }

  /** Two locals, the second of which is a literal. */
  lemma {:induction false} TwoLocals(w: Where, y: Local, x: Local, a: set<int>, b: set<int>)
    requires |y.exprs| == 1 && |x.exprs| == 1 && Resolve(w, y.exprs[0], Some(map[])) == Some(a)
    requires Resolve(w, x.exprs[0], Some(map[y.name := Some(a)])) == Some(b)
    ensures Solve(w, [y, x], map[]) == map[y.name := Some(a)][x.name := Some(b)]
  {
    var left, t := [y, x], map[y.name := Some(a)];
    assert left[..1] == [y] && [y][..0] == [];
    OneExpr(w, y.exprs, map[], a);
    OneExpr(w, x.exprs, t, b);
    assert OnePass(w, [y], map[]) == ([], t);
    assert OnePass(w, left, map[]) == ([], t[x.name := Some(b)]);
  }

  lemma {:induction false} OneExpr(w: Where, exprs: seq<Expr>, t: LocalTable, s: set<int>)
    requires |exprs| == 1 && Resolve(w, exprs[0], Some(t)) == Some(s)
    ensures AllSet(w, exprs, t) == Some(s)
  {
    assert exprs[..0] == [] && {} + s == s;
    assert AllSet(w, exprs[..0], t) == Some({});
  }

  lemma {:induction false} HidingSet(w: Where)
    requires w.p == HidingProgram() && w.path == "m"
    ensures ReturnsSet(w, BlockReturns(Hiding().body), LocalMap(w, Hiding())) == Some({0})
  {
    var zero: set<int> := {0};
    HidingCollects();
    HidingTables();
    TwoLocals(w, Local("y", [Ref("x")]), Local("x", [IntLit(5)]), zero, {5});
    assert LocalMap(w, Hiding())["y"] == Some(zero);
    OneReturn(w, "y", LocalMap(w, Hiding()), zero);
  }

  lemma {:induction false} OneReturn(w: Where, x: Name, t: LocalTable, s: set<int>)
    requires x in t && t[x] == Some(s)
    ensures ReturnsSet(w, [Ret(1, Some(Ref(x)))], t) == Some(s)
  {
    var rets := [Ret(1, Some(Ref(x)))];
    assert rets[..0] == [] && {} + s == s;
    assert ReturnSet(w, rets[0], t) == Some(s);
  }

  /**
   A name that is both: read before it is assigned it still counts as the constant, so the set is
   {0}, although the local is fed by 5 alone.
   */
  lemma {:induction false} HiddenConstant()
    ensures var w := Where(HidingProgram(), "m", 0, {}, map[]);
      && "f" in TablesOf(w.p, "m").funcs && FuncExitSet(w, "f") == Some({0})
      && FunctionGives(w, 3, "f", {5})
  {
    var w, f := Where(HidingProgram(), "m", 0, {}, map[]), Hiding();
    var inner := w.(stack := w.stack + {("m", "f")});
    HidingTables();
    HidingCollects();
    HidingSet(inner);
    HidingGives(inner);
    assert BodyGives(inner, f, 2, {5});
  }

  /** A local with one source. */
  lemma {:induction false} OneSource(w: Where, f: FuncDef, n: nat, x: Name, e: Expr, v: int)
    requires Gives(w, f, false, n, e, {v}) && forall d :: HasSource(f, x, d) <==> d == e
    ensures LocalGives(w, f, n + 1, x, {v})
  {
    WithinAt(w, f, n, e, {v}, {v});
    HasAt(w, f, n, x, e, {v}, v);
  }

  lemma {:induction false} HidingGives(w: Where)
    ensures BodyGives(w, Hiding(), 2, {5})
  {
    var f := Hiding();
    HidingSources(f);
    OneSource(w, f, 0, "x", IntLit(5), 5);
    OneSource(w, f, 1, "y", Ref("x"), 5);
    OneDerived(w, f, 2, Ret(1, Some(Ref("y"))), 5);
  }

  lemma {:induction false} HidingSources(f: FuncDef)
    requires f == Hiding()
    ensures BlockReturns(f.body) == [Ret(1, Some(Ref("y")))] && Poisoned(f) == {}
    ensures forall d :: HasSource(f, "x", d) <==> d == IntLit(5)
    ensures forall d :: HasSource(f, "y", d) <==> d == Ref("x")
  {
    HidingCollects();
    var evs := BlockEvents(f.body);
    assert evs[0] == Source("y", Ref("x")) && evs[1] == Source("x", IntLit(5));
  }

  lemma {:induction false} OneDerived(w: Where, f: FuncDef, n: nat, r: Ret, v: int)
    requires BlockReturns(f.body) == [r] && ReturnGives(w, f, n, r, {v})
    ensures BodyGives(w, f, n, {v})
  {
    assert r in BlockReturns(f.body);
    assert ReturnWithin(w, f, n, r, {v}) && v in {v} && ReturnHas(w, f, n, v);
  }
}
