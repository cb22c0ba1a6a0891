/**
 Spelling matters for a local that is both assigned and poisoned: returned directly it is
 unresolved, through a fresh name it keeps the set it had before it was poisoned.
 */
module SpellingWitness {
  import opened MiniPython
  import opened OwnNodes
  import opened PythonRuns
  import opened ExitSets
  import opened LocalSolution
  import opened ExitSoundness
  import opened Witnesses
  import opened Spelling

  /** `x = 0`, `x += 7`, `return x`; respelled with y it is `Bumping`. */
  function Bumped(): FuncDef
  {
    FuncDef("f", NO_PARAMS, [Assign([NameTarget("x")], IntLit(0)), Rebind({"x"}, IntLit(7)), Return(1, Some(Ref("x")))],
            {}, true)
  }

  lemma {:induction false} BumpedRespells()
    ensures RespellDef(Bumped(), "y", {1}) == Bumping()
    ensures RespellProgram(Alone([TopDef(Bumped())]), "m", "f", "y", {1}) == Alone([TopDef(Bumping())])
  {
    var b := Bumped().body;
    assert b[1..] == [b[1], b[2]] && b[1..][1..] == [b[2]] && b[1..][1..][1..] == [];
    assert RespellBlock([b[2]], "y", {1}) == [Assign([NameTarget("y")], Ref("x")), Return(1, Some(Ref("y")))];
    assert RespellBlock(b[1..], "y", {1}) == [b[1]] + RespellBlock([b[2]], "y", {1});
    assert RespellBlock(b, "y", {1}) == [b[0]] + RespellBlock(b[1..], "y", {1});
    assert RespellBlock(b, "y", {1}) == Bumping().body;
    var tops := [TopDef(Bumped())];
    assert tops[..0] == [] && RespellTops([], "f", "y", {1}) == [];
    assert RespellTops(tops, "f", "y", {1}) == [] + [TopDef(Bumping())] == [TopDef(Bumping())];
    var p := Alone(tops);
    assert p.mods["m" := Module([TopDef(Bumping())], [])] == map["m" := Module([TopDef(Bumping())], [])];
  }

  lemma {:induction false} BumpedCollects()
    ensures var f := Bumped();
      && BlockEvents(f.body) == [Source("x", IntLit(0)), Poison({"x"})]
      && BlockReturns(f.body) == [Ret(1, Some(Ref("x")))]
      && Poisoned(f) == {"x"} && Assigned(f) == {"x"}
  {
    var f := Bumped();
    assert [NameTarget("x")][1..] == [];
    ThreeCollect(f.body);
    var evs, one := [Source("x", IntLit(0)), Poison({"x"})], [Source("x", IntLit(0))];
    assert BlockEvents(f.body) == evs;
    assert evs[..1] == one && one[..0] == [] && PoisonedBy(one) == {};
    assert AssignedBy(evs) == {"x"} by { assert evs[0].name == "x"; }
  }

  lemma {:induction false} BumpedIsUnresolved(w: Where)
    requires w.p == Alone([TopDef(Bumped())]) && w == Where(w.p, "m", 0, {}, map[])
    ensures "f" in TablesOf(w.p, "m").funcs && FuncExitSet(w, "f") == None
  {
    var f := Bumped();
    LoadOne(TopDef(f));
    BumpedCollects();
    var inner := w.(stack := w.stack + {("m", "f")});
    var rets := [Ret(1, Some(Ref("x")))];
    assert "x" in LocalMap(inner, f) && LocalMap(inner, f)["x"] == None;
    assert rets[..0] == [] && ReturnSet(inner, rets[0], LocalMap(inner, f)) == None;
    assert ReturnsSet(inner, rets, LocalMap(inner, f)) == None;
  }

  /**
   The respelled function has the set {0}, which misses a run that returns 7; the original is
   unresolved.  Only the condition that no picked return reads a tainted local is broken.
   */
  lemma {:induction false} RespelledTaint()
    ensures var (p, f) := (Alone([TopDef(Bumped())]), Bumped());
      var p' := RespellProgram(p, "m", "f", "y", {1});
      && FuncExitSet(Where(p, "m", 0, {}, map[]), "f") == None
      && FuncExitSet(Where(p', "m", 0, {}, map[]), "f") == Some({0}) && Missed(p', "m", "f")
      && Respellable(Where(p, "m", 0, {}, map[]), f, "y") && !PickedApart(f, {1})
  {
    var p, f := Alone([TopDef(Bumped())]), Bumped();
    BumpedIsUnresolved(Where(p, "m", 0, {}, map[]));
    BumpedRespells();
    BumpingExitSet();
    BumpingMissed();
    BumpedIsRespellable(Where(p, "m", 0, {}, map[]));
  }

  lemma {:induction false} BumpedIsRespellable(w: Where)
    requires w == Where(Alone([TopDef(Bumped())]), "m", 0, {}, map[])
    ensures Respellable(w, Bumped(), "y") && !PickedApart(Bumped(), {1})
  {
    var f := Bumped();
    LoadOne(TopDef(f));
    BumpedCollects();
    NoParams(f);
    var r := Ret(1, Some(Ref("x")));
    assert r in BlockReturns(f.body) && Picked(r, {1}) && "x" in ValueReads(r.result.value) * Tainted(f);
    assert Fresh(w.p, "m", f, "y");
  }
}
