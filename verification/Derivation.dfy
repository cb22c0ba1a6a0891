/**
 When the resolver computes a set, and which: exactly when a derivation from the text gives it.
 A derivation rests on literals, on the union over both branches, over all assignments of a
 local and over all returns of a function, on integer constants here or imported, and on calls:
 of a declared function, of a function of this file at the first hop, or of an imported one,
 which has its own hop; never of a function that is being entered already.
 */
module Derivation {
  import opened MiniPython
  import opened OwnNodes
  import opened ExitSets
  import opened LocalSolution

  /** An integer constant of this module, or else of the module the name is imported from. */
  ghost predicate IsConstant(p: Program, path: Path, x: Name, n: int)
  {
    var t := TablesOf(p, path);
    || (x in t.consts && n == t.consts[x])
    || (x !in t.consts && x in t.imports && Locate(p, t.imports[x]).Some? &&
        var u := TablesOf(p, Locate(p, t.imports[x]).value); x in u.consts && n == u.consts[x])
  }

  ghost predicate HasSource(f: FuncDef, x: Name, e: Expr) { Source(x, e) in BlockEvents(f.body) }

  /**
   In `f`, entered as `w` says, the expression gives the set s by a derivation of height n.
   `final` is true behind the body, where a poisoned local gives nothing.
   */
  ghost predicate Gives(w: Where, f: FuncDef, final: bool, n: nat, e: Expr, s: set<int>)
    decreases n, 2, e
  {
    match e
    case IntLit(v) => s == {v as int}
    case NegLit(v) => s == {0 - v as int}
    case Cond(_, body, orelse) =>
      exists a, b :: Gives(w, f, final, n, body, a) && Gives(w, f, final, n, orelse, b) && s == a + b
    case Ref(x) =>
      if final && x in Poisoned(f) then false
      else if exists d :: HasSource(f, x, d) then LocalGives(w, f, n, x, s)
      else exists v :: IsConstant(w.p, w.path, x, v) && s == {v}
    case Call(callee, _, _) => CallGives(w, n, callee, s)
    case _ => false
  }

  /** The union over everything assigned to the local, each by a lower derivation. */
  ghost predicate LocalGives(w: Where, f: FuncDef, n: nat, x: Name, s: set<int>)
    decreases n, 0
  {
    && n > 0
    && (forall e :: HasSource(f, x, e) ==> GivesWithin(w, f, n - 1, e, s))
    && (forall v :: v in s ==> SourceHas(w, f, n - 1, x, v))
  }

  ghost predicate GivesWithin(w: Where, f: FuncDef, n: nat, e: Expr, s: set<int>)
    decreases n, 4
  {
    exists a :: a <= s && Gives(w, f, false, n, e, a)
  }

  ghost predicate SourceHas(w: Where, f: FuncDef, n: nat, x: Name, v: int)
    decreases n, 4
  {
    exists e, a :: HasSource(f, x, e) && v in a && Gives(w, f, false, n, e, a)
  }

  /** A declared function has the set computed for it. */
  ghost predicate Declared(w: Where, k: Key, s: set<int>) { k in w.entries && w.entries[k] == Some(s) }

  ghost predicate CallGives(w: Where, n: nat, callee: Name, s: set<int>)
    decreases n, 1
  {
    var here: Key, t := (w.path, callee), TablesOf(w.p, w.path);
    if here in w.entries then Declared(w, here, s)
    else
      && w.depth == 0
      && if callee in t.funcs then FunctionGives(w.(depth := 1), n, callee, s)
         else
           && callee in t.imports && Locate(w.p, t.imports[callee]).Some?
           && var q := Locate(w.p, t.imports[callee]).value;
              if (q, callee) in w.entries then Declared(w, (q, callee), s)
              else FunctionGives(w.(path := q), n, callee, s)
  }

  /** The union over the returns; a bare one gives 0. */
  ghost predicate BodyGives(w: Where, f: FuncDef, n: nat, s: set<int>)
    decreases n, 5
  {
    && (forall r :: r in BlockReturns(f.body) ==> ReturnWithin(w, f, n, r, s))
    && (forall v :: v in s ==> ReturnHas(w, f, n, v))
  }

  ghost predicate ReturnWithin(w: Where, f: FuncDef, n: nat, r: Ret, s: set<int>)
    decreases n, 4
  {
    exists a :: a <= s && ReturnGives(w, f, n, r, a)
  }

  ghost predicate ReturnHas(w: Where, f: FuncDef, n: nat, v: int)
    decreases n, 4
  {
    exists r, a :: r in BlockReturns(f.body) && v in a && ReturnGives(w, f, n, r, a)
  }

  ghost predicate ReturnGives(w: Where, f: FuncDef, n: nat, r: Ret, s: set<int>)
    decreases n, 3
  {
    if r.result.None? then s == {0} else Gives(w, f, true, n, r.result.value, s)
  }

  /** The function exists, is not being entered already, returns somewhere, and its returns give the set. */
  ghost predicate FunctionGives(w: Where, n: nat, name: Name, s: set<int>)
    decreases n, 0
  {
    && n > 0 && name in TablesOf(w.p, w.path).funcs && (w.path, name) !in w.stack
    && var f := TablesOf(w.p, w.path).funcs[name];
       BlockReturns(f.body) != [] && BodyGives(w.(stack := w.stack + {(w.path, name)}), f, n - 1, s)
  }

  // ----- the functions considered -----

  /** What a call of `callee` may be followed into, from this module, is in the scope. */
  ghost predicate TargetTidy(p: Program, scope: set<Key>, path: Path, callee: Name)
  {
    var t := TablesOf(p, path);
    if callee in t.funcs then (path, callee) in scope
    else callee in t.imports && Locate(p, t.imports[callee]).Some? ==>
      (Locate(p, t.imports[callee]).value, callee) in scope
  }

  ghost predicate CallsTidy(p: Program, scope: set<Key>, path: Path, e: Expr)
  {
    forall callee {:trigger TargetTidy(p, scope, path, callee)} ::
      callee in ValueCalls(e) ==> TargetTidy(p, scope, path, callee)
  }

  /** No assigned local is an integer constant as well, and the calls stay in the scope. */
  ghost predicate BodyTidy(p: Program, scope: set<Key>, path: Path, f: FuncDef)
  {
    && (forall x, e, v :: HasSource(f, x, e) ==> !IsConstant(p, path, x, v))
    && (forall x, e :: HasSource(f, x, e) ==> CallsTidy(p, scope, path, e))
    && (forall r :: r in BlockReturns(f.body) && r.result.Some? ==> CallsTidy(p, scope, path, r.result.value))
  }

  ghost predicate KeyTidy(p: Program, scope: set<Key>, k: Key)
  {
    k.1 in TablesOf(p, k.0).funcs ==> BodyTidy(p, scope, k.0, TablesOf(p, k.0).funcs[k.1])
  }

  ghost predicate Tidy(p: Program, scope: set<Key>)
  {
    forall k {:trigger KeyTidy(p, scope, k)} :: k in scope ==> KeyTidy(p, scope, k)
  }

  lemma {:induction false} ConstantIs(p: Program, path: Path, x: Name)
    ensures ConstOf(p, path, x).Some? ==> IsConstant(p, path, x, ConstOf(p, path, x).value)
    ensures forall v :: IsConstant(p, path, x, v) ==> ConstOf(p, path, x) == Some(v)
  {
  }

  lemma {:induction false} TidyNotConsts(w: Where, scope: set<Key>, f: FuncDef)
    requires BodyTidy(w.p, scope, w.path, f)
    ensures NotConsts(w, Assigned(f))
  {
    forall x | x in Assigned(f) ensures ConstOf(w.p, w.path, x).None? {
      var e := SomeSource(f, x);
      ConstantIs(w.p, w.path, x);
    }
  }

  lemma {:induction false} SomeSource(f: FuncDef, x: Name) returns (e: Expr)
    requires x in Assigned(f)
    ensures HasSource(f, x, e)
  {
    var evs := BlockEvents(f.body);
    var i :| 0 <= i < |evs| && evs[i].Source? && evs[i].name == x;
    e := evs[i].expr;
  }

  lemma {:induction false} SourceAssigns(f: FuncDef, x: Name, e: Expr)
    requires HasSource(f, x, e)
    ensures x in Assigned(f) && exists l :: l in Sources(f) && l.name == x && e in l.exprs
  {
    SourcesOfIff(BlockEvents(f.body));
    assert Feeds(Sources(f), x, e);
    var evs := BlockEvents(f.body);
    var i :| 0 <= i < |evs| && evs[i] == Source(x, e);
  }

  // ----- a derived set is the one computed -----

  function TableFor(w: Where, f: FuncDef, final: bool): LocalTable
  {
    if final then LocalMap(w, f) else Solve(w, Sources(f), map[])
  }

  /** What the tables hold of a name: nothing of its own, nothing for a poisoned one, or its union. */
  lemma {:induction false} TableAt(w: Where, f: FuncDef, final: bool, x: Name)
    requires NotConsts(w, Assigned(f))
    ensures var t := TableFor(w, f, final);
      && (final && x in Poisoned(f) ==> x in t && t[x] == None)
      && (!(final && x in Poisoned(f)) ==> (x in t <==> x in Assigned(f)))
      && (!(final && x in Poisoned(f)) && x in t ==> t[x] == Solve(w, Sources(f), map[])[x])
  {
    SourcesStart(w, f);
    SolveSolves(w, Sources(f), Sources(f), map[]);
  }

  /** Something that feeds the local resolves to a set with v. */
  ghost predicate Fed(w: Where, f: FuncDef, t: LocalTable, x: Name, v: int)
  {
    exists e :: HasSource(f, x, e) && Resolve(w, e, Some(t)).Some? && v in Resolve(w, e, Some(t)).value
  }

  /** The table has a set for the local if all its sources have one, and then it is their union. */
  ghost predicate IsUnion(w: Where, f: FuncDef, t: LocalTable, x: Name)
  {
    && x in t
    && (t[x].Some? <==> forall e :: HasSource(f, x, e) ==> Resolve(w, e, Some(t)).Some?)
    && (t[x].Some? ==> forall v :: v in t[x].value <==> Fed(w, f, t, x, v))
  }

  /** A local in the table is the union of what feeds it. */
  lemma {:induction false} LocalIs(w: Where, f: FuncDef, x: Name)
    requires NotConsts(w, Assigned(f)) && x in Assigned(f)
    ensures IsUnion(w, f, Solve(w, Sources(f), map[]), x)
  {
    var t, srcs := Solve(w, Sources(f), map[]), Sources(f);
    SourcesStart(w, f);
    SolveSolves(w, srcs, srcs, map[]);
    assert x in NamesOf(srcs);
    var l :| l in srcs && l.name == x;
    FedBy(f, l);
    AllSetMembers(w, l.exprs, t);
  }

  lemma {:induction false} FedBy(f: FuncDef, l: Local)
    requires l in Sources(f)
    ensures forall e :: e in l.exprs <==> HasSource(f, l.name, e)
  {
    SourcesOfIff(BlockEvents(f.body));
    forall e ensures e in l.exprs <==> HasSource(f, l.name, e) {
      if e in l.exprs { assert Feeds(Sources(f), l.name, e); }
      if HasSource(f, l.name, e) {
        assert Feeds(Sources(f), l.name, e);
        var m :| m in Sources(f) && m.name == l.name && e in m.exprs;
        DictUnique(Sources(f), m, l);
      }
    }
  }

  lemma {:induction false} GivesResolves(w: Where, scope: set<Key>, f: FuncDef, final: bool, n: nat, e: Expr,
                                         s: set<int>)
    requires Tidy(w.p, scope) && BodyTidy(w.p, scope, w.path, f) && CallsTidy(w.p, scope, w.path, e)
    requires Gives(w, f, final, n, e, s)
    ensures Resolve(w, e, Some(TableFor(w, f, final))) == Some(s)
    decreases n, 2, e
  {
    match e
    case Cond(_, body, orelse) =>
      var a, b :| Gives(w, f, final, n, body, a) && Gives(w, f, final, n, orelse, b) && s == a + b;
      GivesResolves(w, scope, f, final, n, body, a);
      GivesResolves(w, scope, f, final, n, orelse, b);
    case Ref(x) => NameResolves(w, scope, f, final, n, x, s);
    case Call(callee, _, _) =>
      assert TargetTidy(w.p, scope, w.path, callee);
      CallResolves(w, scope, n, callee, s);
    case _ =>
  }

  lemma {:induction false} NameResolves(w: Where, scope: set<Key>, f: FuncDef, final: bool, n: nat, x: Name,
                                        s: set<int>)
    requires Tidy(w.p, scope) && BodyTidy(w.p, scope, w.path, f) && Gives(w, f, final, n, Ref(x), s)
    ensures Resolve(w, Ref(x), Some(TableFor(w, f, final))) == Some(s)
    decreases n, 1
  {
    TidyNotConsts(w, scope, f);
    TableAt(w, f, final, x);
    if d :| HasSource(f, x, d) {
      SourceAssigns(f, x, d);
      LocalResolves(w, scope, f, n, x, s);
    } else {
      if x in Assigned(f) { var d := SomeSource(f, x); }
      ConstantIs(w.p, w.path, x);
    }
  }

  lemma {:induction false} LocalResolves(w: Where, scope: set<Key>, f: FuncDef, n: nat, x: Name, s: set<int>)
    requires Tidy(w.p, scope) && BodyTidy(w.p, scope, w.path, f) && x in Assigned(f) && LocalGives(w, f, n, x, s)
    ensures x in Solve(w, Sources(f), map[]) && Solve(w, Sources(f), map[])[x] == Some(s)
    decreases n, 0
  {
    var t := Solve(w, Sources(f), map[]);
    TidyNotConsts(w, scope, f);
    LocalIs(w, f, x);
    SourcesResolve(w, scope, f, n - 1, x, s);
    ValuesResolve(w, scope, f, n - 1, x, s);
    UnionIs(w, f, t, x, s);
  }

  lemma {:induction false} SourcesResolve(w: Where, scope: set<Key>, f: FuncDef, n: nat, x: Name, s: set<int>)
    requires Tidy(w.p, scope) && BodyTidy(w.p, scope, w.path, f)
    requires forall e :: HasSource(f, x, e) ==> GivesWithin(w, f, n, e, s)
    ensures AllWithin(w, f, Solve(w, Sources(f), map[]), x, s)
    decreases n, 4
  {
    forall e | HasSource(f, x, e) ensures Within(w, Solve(w, Sources(f), map[]), e, s) {
      SourceResolves(w, scope, f, n, e, s);
    }
  }

  lemma {:induction false} ValuesResolve(w: Where, scope: set<Key>, f: FuncDef, n: nat, x: Name, s: set<int>)
    requires Tidy(w.p, scope) && BodyTidy(w.p, scope, w.path, f)
    requires forall v :: v in s ==> SourceHas(w, f, n, x, v)
    ensures AllFed(w, f, Solve(w, Sources(f), map[]), x, s)
    decreases n, 4
  {
    forall v | v in s ensures Fed(w, f, Solve(w, Sources(f), map[]), x, v) { ValueResolves(w, scope, f, n, x, v); }
  }

  lemma {:induction false} SourceResolves(w: Where, scope: set<Key>, f: FuncDef, n: nat, e: Expr, s: set<int>)
    requires Tidy(w.p, scope) && BodyTidy(w.p, scope, w.path, f) && CallsTidy(w.p, scope, w.path, e)
    requires GivesWithin(w, f, n, e, s)
    ensures Within(w, Solve(w, Sources(f), map[]), e, s)
    decreases n, 3
  {
    var a :| a <= s && Gives(w, f, false, n, e, a);
    GivesResolves(w, scope, f, false, n, e, a);
  }

  lemma {:induction false} ValueResolves(w: Where, scope: set<Key>, f: FuncDef, n: nat, x: Name, v: int)
    requires Tidy(w.p, scope) && BodyTidy(w.p, scope, w.path, f) && SourceHas(w, f, n, x, v)
    ensures Fed(w, f, Solve(w, Sources(f), map[]), x, v)
    decreases n, 3
  {
    var e, a :| HasSource(f, x, e) && v in a && Gives(w, f, false, n, e, a);
    GivesResolves(w, scope, f, false, n, e, a);
  }

  ghost predicate Within(w: Where, t: LocalTable, e: Expr, s: set<int>)
  {
    Resolve(w, e, Some(t)).Some? && Resolve(w, e, Some(t)).value <= s
  }

  ghost predicate AllWithin(w: Where, f: FuncDef, t: LocalTable, x: Name, s: set<int>)
  {
    forall e :: HasSource(f, x, e) ==> Within(w, t, e, s)
  }

  ghost predicate AllFed(w: Where, f: FuncDef, t: LocalTable, x: Name, s: set<int>)
  {
    forall v :: v in s ==> Fed(w, f, t, x, v)
  }

  lemma {:induction false} UnionIs(w: Where, f: FuncDef, t: LocalTable, x: Name, s: set<int>)
    requires IsUnion(w, f, t, x) && AllWithin(w, f, t, x, s) && AllFed(w, f, t, x, s)
    ensures t[x] == Some(s)
  {
    forall e | HasSource(f, x, e) ensures Resolve(w, e, Some(t)).Some? { assert Within(w, t, e, s); }
    forall v | Fed(w, f, t, x, v) ensures v in s {
      var e :| HasSource(f, x, e) && Resolve(w, e, Some(t)).Some? && v in Resolve(w, e, Some(t)).value;
      assert Within(w, t, e, s);
    }
    SameMembers(t[x].value, s);
  }

  lemma {:induction false} SameMembers(a: set<int>, b: set<int>)
    requires forall v :: v in a <==> v in b
    ensures a == b
  {
    forall v | v in a ensures v in b {}
    forall v | v in b ensures v in a {}
    assert a <= b <= a;
  }

  lemma {:induction false} CallResolves(w: Where, scope: set<Key>, n: nat, callee: Name, s: set<int>)
    requires Tidy(w.p, scope) && TargetTidy(w.p, scope, w.path, callee) && CallGives(w, n, callee, s)
    ensures CallSet(w, callee) == Some(s)
    decreases n, 1
  {
    var t := TablesOf(w.p, w.path);
    if (w.path, callee) !in w.entries {
      if callee in t.funcs {
        FunctionResolves(w.(depth := 1), scope, n, callee, s);
      } else {
        var q := Locate(w.p, t.imports[callee]).value;
        if (q, callee) !in w.entries {
          FunctionResolves(w.(path := q), scope, n, callee, s);
          assert w.(path := q) == w.(path := q, depth := 0);
        }
      }
    }
  }

  lemma {:induction false} FunctionResolves(w: Where, scope: set<Key>, n: nat, name: Name, s: set<int>)
    requires Tidy(w.p, scope) && (w.path, name) in scope && FunctionGives(w, n, name, s)
    ensures FuncExitSet(w, name) == Some(s)
    decreases n, 0
  {
    var f := TablesOf(w.p, w.path).funcs[name];
    assert KeyTidy(w.p, scope, (w.path, name));
    BodyResolves(w.(stack := w.stack + {(w.path, name)}), scope, f, n - 1, s);
  }

  lemma {:induction false} BodyResolves(w: Where, scope: set<Key>, f: FuncDef, n: nat, s: set<int>)
    requires Tidy(w.p, scope) && BodyTidy(w.p, scope, w.path, f) && BodyGives(w, f, n, s)
    ensures ReturnsSet(w, BlockReturns(f.body), LocalMap(w, f)) == Some(s)
    decreases n, 4
  {
    var rets, t := BlockReturns(f.body), LocalMap(w, f);
    ReturnsSetMembers(w, rets, t);
    forall r | r in rets ensures ReturnSet(w, r, t).Some? && ReturnSet(w, r, t).value <= s {
      assert ReturnWithin(w, f, n, r, s);
      var a :| a <= s && ReturnGives(w, f, n, r, a);
      ReturnResolves(w, scope, f, n, r, a);
    }
    forall v | v in s ensures exists r :: r in rets && v in ReturnSet(w, r, t).value {
      assert ReturnHas(w, f, n, v);
      var r, a :| r in rets && v in a && ReturnGives(w, f, n, r, a);
      ReturnResolves(w, scope, f, n, r, a);
    }
    SameMembers(ReturnsSet(w, rets, t).value, s);
  }

  lemma {:induction false} ReturnResolves(w: Where, scope: set<Key>, f: FuncDef, n: nat, r: Ret, s: set<int>)
    requires Tidy(w.p, scope) && BodyTidy(w.p, scope, w.path, f) && r in BlockReturns(f.body)
    requires ReturnGives(w, f, n, r, s)
    ensures ReturnSet(w, r, LocalMap(w, f)) == Some(s)
    decreases n, 3
  {
    if r.result.Some? { GivesResolves(w, scope, f, true, n, r.result.value, s); }
  }

  // ----- higher derivations give the same -----

  lemma {:induction false} GivesMore(w: Where, f: FuncDef, final: bool, n: nat, m: nat, e: Expr, s: set<int>)
    requires n <= m && Gives(w, f, final, n, e, s)
    ensures Gives(w, f, final, m, e, s)
    decreases n, 2, e
  {
    match e
    case Cond(_, body, orelse) =>
      var a, b :| Gives(w, f, final, n, body, a) && Gives(w, f, final, n, orelse, b) && s == a + b;
      GivesMore(w, f, final, n, m, body, a);
      GivesMore(w, f, final, n, m, orelse, b);
    case Ref(x) => if d :| HasSource(f, x, d) { LocalMore(w, f, n, m, x, s); }
    case Call(callee, _, _) => CallMore(w, n, m, callee, s);
    case _ =>
  }

  lemma {:induction false} LocalMore(w: Where, f: FuncDef, n: nat, m: nat, x: Name, s: set<int>)
    requires n <= m && LocalGives(w, f, n, x, s)
    ensures LocalGives(w, f, m, x, s)
    decreases n, 0
  {
    forall e | HasSource(f, x, e) ensures GivesWithin(w, f, m - 1, e, s) {
      assert GivesWithin(w, f, n - 1, e, s);
      var a :| a <= s && Gives(w, f, false, n - 1, e, a);
      GivesMore(w, f, false, n - 1, m - 1, e, a);
    }
    forall v | v in s ensures SourceHas(w, f, m - 1, x, v) {
      assert SourceHas(w, f, n - 1, x, v);
      var e, a :| HasSource(f, x, e) && v in a && Gives(w, f, false, n - 1, e, a);
      GivesMore(w, f, false, n - 1, m - 1, e, a);
    }
  }

  lemma {:induction false} CallMore(w: Where, n: nat, m: nat, callee: Name, s: set<int>)
    requires n <= m && CallGives(w, n, callee, s)
    ensures CallGives(w, m, callee, s)
    decreases n, 1
  {
    var t := TablesOf(w.p, w.path);
    if (w.path, callee) !in w.entries {
      if callee in t.funcs {
        FunctionMore(w.(depth := 1), n, m, callee, s);
      } else {
        var q := Locate(w.p, t.imports[callee]).value;
        if (q, callee) !in w.entries { FunctionMore(w.(path := q), n, m, callee, s); }
      }
    }
  }

  lemma {:induction false} FunctionMore(w: Where, n: nat, m: nat, name: Name, s: set<int>)
    requires n <= m && FunctionGives(w, n, name, s)
    ensures FunctionGives(w, m, name, s)
    decreases n, 0
  {
    var f, inner := TablesOf(w.p, w.path).funcs[name], w.(stack := w.stack + {(w.path, name)});
    forall r | r in BlockReturns(f.body) ensures ReturnWithin(inner, f, m - 1, r, s) {
      assert ReturnWithin(inner, f, n - 1, r, s);
      var a :| a <= s && ReturnGives(inner, f, n - 1, r, a);
      ReturnMore(inner, f, n - 1, m - 1, r, a);
    }
    forall v | v in s ensures ReturnHas(inner, f, m - 1, v) {
      assert ReturnHas(inner, f, n - 1, v);
      var r, a :| r in BlockReturns(f.body) && v in a && ReturnGives(inner, f, n - 1, r, a);
      ReturnMore(inner, f, n - 1, m - 1, r, a);
    }
  }

  lemma {:induction false} ReturnMore(w: Where, f: FuncDef, n: nat, m: nat, r: Ret, s: set<int>)
    requires n <= m && ReturnGives(w, f, n, r, s)
    ensures ReturnGives(w, f, m, r, s)
    decreases n, 3
  {
    if r.result.Some? { GivesMore(w, f, true, n, m, r.result.value, s); }
  }

  // ----- a computed set is derived -----

  ghost predicate LocalGiven(w: Where, f: FuncDef, x: Name, s: set<int>)
  {
    exists n: nat :: LocalGives(w, f, n, x, s)
  }

  /** Each set in the table has a derivation, and the table says nothing of names that are no locals. */
  ghost predicate TableGiven(w: Where, f: FuncDef, final: bool, t: LocalTable)
  {
    && (forall x :: x in t && t[x].Some? ==> !(final && x in Poisoned(f)) && LocalGiven(w, f, x, t[x].value))
    && (forall x :: x in t ==> x in Assigned(f) || (final && x in Poisoned(f)))
    && (final ==> Poisoned(f) <= t.Keys)
  }

  lemma {:induction false} ExprGiven(w: Where, scope: set<Key>, f: FuncDef, final: bool, t: LocalTable, e: Expr)
    returns (n: nat)
    requires Tidy(w.p, scope) && CallsTidy(w.p, scope, w.path, e)
    requires NotConsts(w, Assigned(f)) && TableGiven(w, f, final, t) && Resolve(w, e, Some(t)).Some?
    ensures Gives(w, f, final, n, e, Resolve(w, e, Some(t)).value)
    decreases Left(w), 2, e
  {
    n := 0;
    match e
    case Cond(_, body, orelse) =>
      var a := ExprGiven(w, scope, f, final, t, body);
      var b := ExprGiven(w, scope, f, final, t, orelse);
      n := if a <= b then b else a;
      GivesMore(w, f, final, a, n, body, Resolve(w, body, Some(t)).value);
      GivesMore(w, f, final, b, n, orelse, Resolve(w, orelse, Some(t)).value);
    case Ref(x) => n := NameGiven(w, f, final, t, x);
    case Call(callee, _, _) =>
      assert TargetTidy(w.p, scope, w.path, callee);
      n := CallGiven(w, scope, callee);
    case _ =>
  }

  lemma {:induction false} NameGiven(w: Where, f: FuncDef, final: bool, t: LocalTable, x: Name) returns (n: nat)
    requires NotConsts(w, Assigned(f)) && TableGiven(w, f, final, t) && Resolve(w, Ref(x), Some(t)).Some?
    ensures Gives(w, f, final, n, Ref(x), Resolve(w, Ref(x), Some(t)).value)
  {
    n := 0;
    if x in t {
      var d := SomeSource(f, x);
      n :| LocalGives(w, f, n, x, t[x].value);
    } else {
      ConstantIs(w.p, w.path, x);
      if d :| HasSource(f, x, d) { SourceAssigns(f, x, d); }
    }
  }

  lemma {:induction false} CallGiven(w: Where, scope: set<Key>, callee: Name) returns (n: nat)
    requires Tidy(w.p, scope) && TargetTidy(w.p, scope, w.path, callee) && CallSet(w, callee).Some?
    ensures CallGives(w, n, callee, CallSet(w, callee).value)
    decreases Left(w), 1, 1
  {
    n := 0;
    if (w.path, callee) !in w.entries {
      var t := TablesOf(w.p, w.path);
      if callee in t.funcs {
        assert CallSet(w, callee) == FuncExitSet(w.(depth := 1), callee);
        n := FunctionGiven(w.(depth := 1), scope, callee);
      } else {
        n := ImportedGiven(w, scope, callee);
      }
    }
  }

  lemma {:induction false} ImportedGiven(w: Where, scope: set<Key>, callee: Name) returns (n: nat)
    requires Tidy(w.p, scope) && TargetTidy(w.p, scope, w.path, callee) && CallSet(w, callee).Some?
    requires (w.path, callee) !in w.entries && callee !in TablesOf(w.p, w.path).funcs
    ensures CallGives(w, n, callee, CallSet(w, callee).value)
    decreases Left(w), 1, 0
  {
    n := 0;
    var t := TablesOf(w.p, w.path);
    var q := Locate(w.p, t.imports[callee]).value;
    if (q, callee) !in w.entries {
      assert w.(path := q) == w.(path := q, depth := 0);
      assert CallSet(w, callee) == FuncExitSet(w.(path := q), callee);
      n := FunctionGiven(w.(path := q), scope, callee);
    }
  }

  /** One height for a list of expressions. */
  lemma {:induction false} ExprsGiven(w: Where, scope: set<Key>, f: FuncDef, t: LocalTable, exprs: seq<Expr>)
    returns (n: nat)
    requires Tidy(w.p, scope) && NotConsts(w, Assigned(f)) && TableGiven(w, f, false, t)
    requires forall e :: e in exprs ==> CallsTidy(w.p, scope, w.path, e) && Resolve(w, e, Some(t)).Some?
    ensures forall e :: e in exprs ==> Gives(w, f, false, n, e, Resolve(w, e, Some(t)).value)
    decreases Left(w), 3, |exprs|
  {
    n := 0;
    if exprs != [] {
      var init, last := exprs[..|exprs| - 1], exprs[|exprs| - 1];
      assert exprs == init + [last];
      var a := ExprsGiven(w, scope, f, t, init);
      var b := ExprGiven(w, scope, f, false, t, last);
      n := if a <= b then b else a;
      forall e | e in exprs ensures Gives(w, f, false, n, e, Resolve(w, e, Some(t)).value) {
        GivesMore(w, f, false, if e in init then a else b, n, e, Resolve(w, e, Some(t)).value);
      }
    }
  }

  lemma {:induction false} WithinAt(w: Where, f: FuncDef, n: nat, e: Expr, a: set<int>, s: set<int>)
    requires a <= s && Gives(w, f, false, n, e, a)
    ensures GivesWithin(w, f, n, e, s)
  {
  }

  lemma {:induction false} HasAt(w: Where, f: FuncDef, n: nat, x: Name, e: Expr, a: set<int>, v: int)
    requires HasSource(f, x, e) && v in a && Gives(w, f, false, n, e, a)
    ensures SourceHas(w, f, n, x, v)
  {
  }

  /** The union over a local's sources is derived when the sources are. */
  lemma {:induction false} UnionGiven(w: Where, scope: set<Key>, f: FuncDef, t: LocalTable, l: Local)
    requires Tidy(w.p, scope) && BodyTidy(w.p, scope, w.path, f) && TableGiven(w, f, false, t)
    requires l in Sources(f) && AllSet(w, l.exprs, t).Some?
    ensures LocalGiven(w, f, l.name, AllSet(w, l.exprs, t).value)
    decreases Left(w), 4
  {
    var s := AllSet(w, l.exprs, t).value;
    TidyNotConsts(w, scope, f);
    FedBy(f, l);
    AllSetMembers(w, l.exprs, t);
    var n := ExprsGiven(w, scope, f, t, l.exprs);
    forall e | HasSource(f, l.name, e) ensures GivesWithin(w, f, n, e, s) {
      OneOfAll(w, l.exprs, t, e);
      WithinAt(w, f, n, e, Resolve(w, e, Some(t)).value, s);
    }
    forall v | v in s ensures SourceHas(w, f, n, l.name, v) {
      var e :| e in l.exprs && v in Resolve(w, e, Some(t)).value;
      HasAt(w, f, n, l.name, e, Resolve(w, e, Some(t)).value, v);
    }
    assert LocalGives(w, f, n + 1, l.name, s);
  }

  lemma {:induction false} PassGiven(w: Where, scope: set<Key>, f: FuncDef, left: seq<Local>, t: LocalTable)
    requires Tidy(w.p, scope) && BodyTidy(w.p, scope, w.path, f) && TableGiven(w, f, false, t)
    requires forall l :: l in left ==> l in Sources(f)
    ensures TableGiven(w, f, false, OnePass(w, left, t).1)
    ensures forall l :: l in OnePass(w, left, t).0 ==> l in left
    decreases Left(w), 5, |left|
  {
    if left != [] {
      var init, l := left[..|left| - 1], left[|left| - 1];
      PassGiven(w, scope, f, init, t);
      var table := OnePass(w, init, t).1;
      assert l in left;
      if AllSet(w, l.exprs, table).Some? {
        UnionGiven(w, scope, f, table, l);
        FedName(f, l);
      }
    }
  }

  lemma {:induction false} FedName(f: FuncDef, l: Local)
    requires l in Sources(f)
    ensures l.name in Assigned(f)
  {
    SourceNames(f);
  }

  lemma {:induction false} SolveGiven(w: Where, scope: set<Key>, f: FuncDef, left: seq<Local>, t: LocalTable)
    requires Tidy(w.p, scope) && BodyTidy(w.p, scope, w.path, f) && TableGiven(w, f, false, t)
    requires forall l :: l in left ==> l in Sources(f)
    ensures TableGiven(w, f, false, Solve(w, left, t))
    decreases Left(w), 6, |left|
  {
    if left != [] {
      PassGiven(w, scope, f, left, t);
      var (retry, table) := OnePass(w, left, t);
      if |retry| == |left| {
        GiveUpGiven(w, f, table, retry);
      } else {
        SolveGiven(w, scope, f, retry, table);
      }
    }
  }

  lemma {:induction false} GiveUpGiven(w: Where, f: FuncDef, t: LocalTable, names: seq<Local>)
    requires TableGiven(w, f, false, t) && forall l :: l in names ==> l in Sources(f)
    ensures TableGiven(w, f, false, GiveUp(t, names))
    decreases |names|
  {
    if names != [] {
      GiveUpGiven(w, f, t, names[..|names| - 1]);
      FedName(f, names[|names| - 1]);
    }
  }

  lemma {:induction false} LocalMapGiven(w: Where, scope: set<Key>, f: FuncDef)
    requires Tidy(w.p, scope) && BodyTidy(w.p, scope, w.path, f)
    ensures TableGiven(w, f, true, LocalMap(w, f))
    decreases Left(w), 7
  {
    SolveGiven(w, scope, f, Sources(f), map[]);
  }

  /** One height for a list of returns. */
  lemma {:induction false} ReturnsGiven(w: Where, scope: set<Key>, f: FuncDef, rets: seq<Ret>) returns (n: nat)
    requires Tidy(w.p, scope) && BodyTidy(w.p, scope, w.path, f)
    requires forall r :: r in rets ==> r in BlockReturns(f.body) && ReturnSet(w, r, LocalMap(w, f)).Some?
    ensures forall r :: r in rets ==> ReturnGives(w, f, n, r, ReturnSet(w, r, LocalMap(w, f)).value)
    decreases Left(w), 8, |rets|
  {
    n := 0;
    if rets != [] {
      var init, last := rets[..|rets| - 1], rets[|rets| - 1];
      assert rets == init + [last] && last in rets;
      var a := ReturnsGiven(w, scope, f, init);
      var b: nat := 0;
      if last.result.Some? {
        LocalMapGiven(w, scope, f);
        TidyNotConsts(w, scope, f);
        b := ExprGiven(w, scope, f, true, LocalMap(w, f), last.result.value);
      }
      n := if a <= b then b else a;
      forall r | r in rets ensures ReturnGives(w, f, n, r, ReturnSet(w, r, LocalMap(w, f)).value) {
        ReturnMore(w, f, if r in init then a else b, n, r, ReturnSet(w, r, LocalMap(w, f)).value);
      }
    }
  }

  lemma {:induction false} BodyGiven(w: Where, scope: set<Key>, f: FuncDef) returns (n: nat)
    requires Tidy(w.p, scope) && BodyTidy(w.p, scope, w.path, f)
    requires ReturnsSet(w, BlockReturns(f.body), LocalMap(w, f)).Some?
    ensures BodyGives(w, f, n, ReturnsSet(w, BlockReturns(f.body), LocalMap(w, f)).value)
    decreases Left(w), 9
  {
    var rets, t := BlockReturns(f.body), LocalMap(w, f);
    var s := ReturnsSet(w, rets, t).value;
    ReturnsSetMembers(w, rets, t);
    n := ReturnsGiven(w, scope, f, rets);
    forall r | r in rets ensures ReturnWithin(w, f, n, r, s) {
      var a := ReturnSet(w, r, t).value;
      forall v | v in a ensures v in s {}
      assert a <= s && ReturnGives(w, f, n, r, a);
    }
    forall v | v in s ensures ReturnHas(w, f, n, v) {
      var r :| r in rets && v in ReturnSet(w, r, t).value;
      assert ReturnGives(w, f, n, r, ReturnSet(w, r, t).value);
    }
  }

  lemma {:induction false} FunctionGiven(w: Where, scope: set<Key>, name: Name) returns (n: nat)
    requires Tidy(w.p, scope) && (w.path, name) in scope
    requires name in TablesOf(w.p, w.path).funcs && FuncExitSet(w, name).Some?
    ensures FunctionGives(w, n, name, FuncExitSet(w, name).value)
    decreases Left(w), 0
  {
    var f, key := TablesOf(w.p, w.path).funcs[name], (w.path, name);
    assert KeyTidy(w.p, scope, key);
    EntersLess(w, key);
    var m := BodyGiven(w.(stack := w.stack + {key}), scope, f);
    n := m + 1;
  }

  // ----- the main results -----

  ghost predicate FunctionDerived(w: Where, name: Name, s: set<int>) { exists n: nat :: FunctionGives(w, n, name, s) }

  ghost predicate CallDerived(w: Where, callee: Name, s: set<int>) { exists n: nat :: CallGives(w, n, callee, s) }

  ghost predicate ReturnDerived(w: Where, f: FuncDef, r: Ret,
                                s: set<int>) { exists n: nat :: ReturnGives(w, f, n, r, s) }

  /**
   The resolver computes a set for a function exactly when a derivation gives it that set, at any
   hop depth, through other modules and with any functions being entered.
   */
  lemma {:induction false} ExitSetIffDerived(w: Where, scope: set<Key>, name: Name, s: set<int>)
    requires Tidy(w.p, scope) && (w.path, name) in scope && name in TablesOf(w.p, w.path).funcs
    ensures FuncExitSet(w, name) == Some(s) <==> FunctionDerived(w, name, s)
  {
    if FuncExitSet(w, name) == Some(s) {
      var n := FunctionGiven(w, scope, name);
      assert FunctionGives(w, n, name, s);
    }
    if FunctionDerived(w, name, s) {
      var n: nat :| FunctionGives(w, n, name, s);
      FunctionResolves(w, scope, n, name, s);
    }
  }

  /** The same of a call, declared names first. */
  lemma {:induction false} CallIffDerived(w: Where, scope: set<Key>, callee: Name, s: set<int>)
    requires Tidy(w.p, scope) && TargetTidy(w.p, scope, w.path, callee)
    ensures CallSet(w, callee) == Some(s) <==> CallDerived(w, callee, s)
  {
    if CallSet(w, callee) == Some(s) {
      var n := CallGiven(w, scope, callee);
      assert CallGives(w, n, callee, s);
    }
    if CallDerived(w, callee, s) {
      var n: nat :| CallGives(w, n, callee, s);
      CallResolves(w, scope, n, callee, s);
    }
  }

  /** And of one return of a function that is measured itself. */
  lemma {:induction false} ReturnIffDerived(w: Where, scope: set<Key>, f: FuncDef, r: Ret, s: set<int>)
    requires Tidy(w.p, scope) && BodyTidy(w.p, scope, w.path, f) && r in BlockReturns(f.body)
    ensures ReturnSet(w, r, LocalMap(w, f)) == Some(s) <==> ReturnDerived(w, f, r, s)
  {
    if ReturnSet(w, r, LocalMap(w, f)) == Some(s) {
      var one := [r];
      var n := ReturnsGiven(w, scope, f, one);
      assert r in one && ReturnGives(w, f, n, r, s);
    }
    if ReturnDerived(w, f, r, s) {
      var n: nat :| ReturnGives(w, f, n, r, s);
      ReturnResolves(w, scope, f, n, r, s);
    }
  }
}
