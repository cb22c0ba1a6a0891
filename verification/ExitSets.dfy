/**
 The analyser of axis RETURN: expressions resolve to a finite set of exit codes or to None
 (UNRESOLVED), locals are solved by a fixed-point pass, and functions are the union of
 their returns, cut at recursion and after one call hop.

 The recursive part is given as functions.  The loops of `_local_map` and `_func_exit_set`
 are the methods at the end, proved equal to them.
 */
module ExitSets {
  import opened MiniPython
  import opened OwnNodes

  type Codes = Option<set<int>>
  type LocalTable = map<Name, Codes>

  /** What `_resolve` carries besides the expression and the table of locals. */
  datatype Where = Where(p: Program, path: Path, depth: nat, stack: set<Key>, entries: map<Key, Codes>)

  ghost function Left(w: Where): nat
  {
    |Keys(w.p) - w.stack|
  }

  /** The module-level integer constant a name stands for, in this file or through an import. */
  function ConstOf(p: Program, path: Path, id: Name): Option<int>
  {
    var t := TablesOf(p, path);
    if id in t.consts then Some(t.consts[id])
    else if id in t.imports then
      match Locate(p, t.imports[id])
      case Some(q) => (var u := TablesOf(p, q); if id in u.consts then Some(u.consts[id]) else None)
      case None => None
    else None
  }

  function Join(a: Codes, b: Codes): Codes
  {
    if a.None? || b.None? then None else Some(a.value + b.value)
  }

  function Resolve(w: Where, e: Expr, locals: Option<LocalTable>): Codes
    decreases Left(w), 2, e
  {
    if ConstInt(e).Some? then Some({ConstInt(e).value})
    else
      match e
      case Cond(_, body, orelse) => Join(Resolve(w, body, locals), Resolve(w, orelse, locals))
      case Ref(id) =>
        if locals.Some? && id in locals.value then locals.value[id]
        else
          (match ConstOf(w.p, w.path, id)
           case Some(n) => Some({n})
           case None => None)
      case Call(callee, _, _) => CallSet(w, callee)
      case _ => None
  }

  /** A call either has its codes already, or is followed into a function's body. */
  datatype CallSite = Known(codes: Codes) | Follow(inside: Where)

  function SiteOf(w: Where, callee: Name): (s: CallSite)
    ensures s.Follow? ==>
      s.inside.p == w.p && s.inside.stack == w.stack && s.inside.entries == w.entries
      && callee in TablesOf(w.p, s.inside.path).funcs
  {
    if (w.path, callee) in w.entries then Known(w.entries[(w.path, callee)])
    else if w.depth >= 1 then Known(None)
    else
      var t := TablesOf(w.p, w.path);
      if callee in t.funcs then Follow(w.(depth := w.depth + 1))
      else if callee in t.imports then
        match Locate(w.p, t.imports[callee])
        case None => Known(None)
        case Some(q) =>
          if (q, callee) in w.entries then Known(w.entries[(q, callee)])
          else if callee in TablesOf(w.p, q).funcs then Follow(w.(path := q, depth := 0))
          else Known(None)
      else Known(None)
  }

  /** The codes a call to a module-level name may yield. */
  function CallSet(w: Where, callee: Name): Codes
    decreases Left(w), 1
  {
    match SiteOf(w, callee)
    case Known(codes) => codes
    case Follow(inside) => FuncExitSet(inside, callee)
  }

  function FuncExitSet(w: Where, name: Name): Codes
    requires name in TablesOf(w.p, w.path).funcs
    decreases Left(w), 0
  {
    var key := (w.path, name);
    if key in w.stack then None
    else
      var f := TablesOf(w.p, w.path).funcs[name];
      var inner := w.(stack := w.stack + {key});
      EntersLess(w, key);
      var rets := BlockReturns(f.body);
      if rets == [] then None else ReturnsSet(inner, rets, LocalMap(inner, f))
  }

  lemma {:induction false} EntersLess(w: Where, key: Key)
    requires key in Keys(w.p) && key !in w.stack
    ensures Left(w.(stack := w.stack + {key})) < Left(w)
  {
    var a, b := Keys(w.p) - w.stack, Keys(w.p) - (w.stack + {key});
    assert a == b + {key} && key !in b;
  }

  function ReturnSet(w: Where, r: Ret, locals: LocalTable): Codes
    decreases Left(w), 3
  {
    if r.result.None? then Some({0}) else Resolve(w, r.result.value, Some(locals))
  }

  function ReturnsSet(w: Where, rets: seq<Ret>, locals: LocalTable): Codes
    decreases Left(w), 7, |rets|
  {
    if rets == [] then Some({})
    else Join(ReturnsSet(w, rets[..|rets| - 1], locals), ReturnSet(w, rets[|rets| - 1], locals))
  }

  // ----- the fixed-point pass over a function's locals -----

  function AllSet(w: Where, exprs: seq<Expr>, resolved: LocalTable): Codes
    decreases Left(w), 3, |exprs|
  {
    if exprs == [] then Some({})
    else Join(AllSet(w, exprs[..|exprs| - 1], resolved), Resolve(w, exprs[|exprs| - 1], Some(resolved)))
  }

  /** One pass of the `for` loop: the names to retry, and the table after the pass. */
  function OnePass(w: Where, left: seq<Local>, resolved: LocalTable): (r: (seq<Local>, LocalTable))
    ensures |r.0| <= |left|
    decreases Left(w), 4, |left|
  {
    if left == [] then ([], resolved)
    else
      var (retry, table) := OnePass(w, left[..|left| - 1], resolved);
      var l := left[|left| - 1];
      match AllSet(w, l.exprs, table)
      case None => (retry + [l], table)
      case Some(values) => (retry, table[l.name := Some(values)])
  }

  /** Names that stay unresolved are recorded as such. */
  function GiveUp(resolved: LocalTable, names: seq<Local>): LocalTable
  {
    if names == [] then resolved else GiveUp(resolved, names[..|names| - 1])[names[|names| - 1].name := None]
  }

  function Solve(w: Where, left: seq<Local>, resolved: LocalTable): LocalTable
    decreases Left(w), 5, |left|
  {
    if left == [] then resolved
    else
      var (retry, table) := OnePass(w, left, resolved);
      if |retry| == |left| then GiveUp(table, retry) else Solve(w, retry, table)
  }

  function Poison(resolved: LocalTable, names: set<Name>): LocalTable
  {
    map x | x in resolved.Keys + names :: if x in names then None else resolved[x]
  }

  function LocalMap(w: Where, f: FuncDef): LocalTable
    decreases Left(w), 6
  {
    Poison(Solve(w, Sources(f), map[]), Poisoned(f))
  }

  // ----- the loops as the source writes them -----

  method SolveLocals(w: Where, f: FuncDef) returns (resolved: LocalTable)
    ensures resolved == LocalMap(w, f)
  {
    resolved := map[];
    var left := Sources(f);
    ghost var goal := Solve(w, left, resolved);
    var stuck := false;
    while left != [] && !stuck
      invariant goal == if stuck then resolved else Solve(w, left, resolved)
      decreases !stuck, |left|
    {
      var moved := false;
      var retry: seq<Local> := [];
      ghost var before := resolved;
      for i := 0 to |left|
        invariant (retry, resolved) == OnePass(w, left[..i], before)
        invariant moved <==> |retry| < i
      {
        var l := left[i];
        assert left[..i + 1][..i] == left[..i];
        var values: set<int> := {};
        var pending := false;
        for j := 0 to |l.exprs|
          invariant AllSet(w, l.exprs[..j], resolved) == if pending then None else Some(values)
        {
          assert l.exprs[..j + 1][..j] == l.exprs[..j];
          var s := Resolve(w, l.exprs[j], Some(resolved));
          if s.None? { pending := true; } else { values := values + s.value; }
        }
        assert l.exprs[..|l.exprs|] == l.exprs;
        if pending {
          retry := retry + [l];
        } else {
          resolved := resolved[l.name := Some(values)];
          moved := true;
        }
      }
      assert left[..|left|] == left;
      if !moved {
        ghost var table := resolved;
        for i := 0 to |retry|
          invariant resolved == GiveUp(table, retry[..i])
        {
          assert retry[..i + 1][..i] == retry[..i];
          resolved := resolved[retry[i].name := None];
        }
        assert retry[..|retry|] == retry;
        stuck := true;
      } else {
        left := retry;
      }
    }
    resolved := Poison(resolved, Poisoned(f));
  }

  method FunctionExitSet(w: Where, name: Name) returns (codes: Codes)
    requires name in TablesOf(w.p, w.path).funcs
    ensures codes == FuncExitSet(w, name)
  {
    if (w.path, name) in w.stack { return None; }
    var f := TablesOf(w.p, w.path).funcs[name];
    var rets := BlockReturns(f.body);
    if rets == [] { return None; }
    var inner := w.(stack := w.stack + {(w.path, name)});
    var locals := SolveLocals(inner, f);
    var out: set<int> := {};
    for i := 0 to |rets|
      invariant ReturnsSet(inner, rets[..i], locals) == Some(out)
    {
      assert rets[..i + 1][..i] == rets[..i];
      var s := ReturnSet(inner, rets[i], locals);
      if s.None? {
        UnresolvedReturn(inner, rets, locals, i);
        return None;
      }
      out := out + s.value;
    }
    assert rets[..|rets|] == rets;
    return Some(out);
  }

  /** A function's set is the union over its returns, and is None if one of them is. */
  lemma {:induction false} ReturnsSetMembers(w: Where, rets: seq<Ret>, locals: LocalTable)
    ensures var r := ReturnsSet(w, rets, locals);
      && (r.Some? <==> forall ret :: ret in rets ==> ReturnSet(w, ret, locals).Some?)
      && (r.Some? ==> forall n :: n in r.value <==> exists ret :: ret in rets && n in ReturnSet(w, ret, locals).value)
    decreases |rets|
  {
    if rets != [] {
      var init, last := rets[..|rets| - 1], rets[|rets| - 1];
      ReturnsSetMembers(w, init, locals);
      assert rets == init + [last];
      assert last in rets;
      assert forall ret :: ret in rets <==> ret in init || ret == last;
    }
  }

  lemma {:induction false} UnresolvedReturn(w: Where, rets: seq<Ret>, locals: LocalTable, i: nat)
    requires i < |rets| && ReturnSet(w, rets[i], locals).None?
    ensures ReturnsSet(w, rets, locals).None?
  {
    ReturnsSetMembers(w, rets, locals);
    assert rets[i] in rets;
  }

  lemma {:induction false} AllSetMembers(w: Where, exprs: seq<Expr>, table: LocalTable)
    ensures var r := AllSet(w, exprs, table);
      && (r.Some? <==> forall e :: e in exprs ==> Resolve(w, e, Some(table)).Some?)
      && (r.Some? ==> forall n :: n in r.value <==> exists e :: e in exprs && n in Resolve(w, e, Some(table)).value)
    decreases |exprs|
  {
    if exprs != [] {
      var init, last := exprs[..|exprs| - 1], exprs[|exprs| - 1];
      AllSetMembers(w, init, table);
      assert exprs == init + [last];
      assert last in exprs;
      assert forall e :: e in exprs <==> e in init || e == last;
    }
  }
}
