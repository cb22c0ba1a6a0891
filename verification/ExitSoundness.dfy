/**
 Soundness of axis RETURN: in a well-formed program, a set computed for a function covers
 the value of every run of that function that returns.
 */
module ExitSoundness {
  import opened MiniPython
  import opened OwnNodes
  import opened PythonRuns
  import opened ExitSets
  import opened LocalSolution

  /**
   The value's exit code lies in the set.  A body that ends without a return statement
   contributes nothing to the set, so its None (status 0) is allowed for beside it.
   */
  predicate Covered(v: Value, codes: set<int>)
  {
    match v
    case IntV(n) => n in codes
    case NoneV(fell) => fell || 0 in codes
    case _ => false
  }

  // ----- well-formed programs -----

  predicate ModuleName(p: Program, path: Path, x: Name)
  {
    var t := TablesOf(p, path);
    x in t.consts || x in t.funcs || x in t.imports
  }

  /** An expression without a resolved set, whatever the locals hold. */
  predicate NeverResolves(f: FuncDef, e: Expr)
  {
    match e
    case Lit(_) => true
    case Opaque(_) => true
    case Cond(_, body, orelse) => NeverResolves(f, body) || NeverResolves(f, orelse)
    case Ref(id) => id in LocalNames(f) && id !in Assigned(f)
    case _ => false
  }

  /** The analyser has no set for the local `x`: it is poisoned, or fed by an expression without one. */
  ghost predicate NoSetFor(f: FuncDef, x: Name)
  {
    x in Poisoned(f) || exists e :: Source(x, e) in BlockEvents(f.body) && NeverResolves(f, e)
  }

  /** The names that hold what the analyser does not see assigned. */
  function Unseen(f: FuncDef): set<Name> { Params(f) + f.hidden }

  /**
   The function is called directly, its locals keep clear of module names, a parameter that is
   also assigned has no set, and the poison of a local does not reach the others.
   */
  ghost predicate FunctionOk(p: Program, path: Path, f: FuncDef)
  {
    && f.direct
    && SourcesApart(f)
    && (forall x :: x in Assigned(f) * Unseen(f) ==> NoSetFor(f, x))
    && forall x :: x in LocalNames(f) ==> !ModuleName(p, path, x)
  }

  ghost predicate ModuleFine(p: Program, q: Path)
  {
    q in p.mods ==> ModuleOk(p.mods[q])
  }

  ghost predicate ModulesOk(p: Program)
  {
    forall q :: ModuleFine(p, q)
  }

  /** A function entered by the analyser; once the hop is spent no further call is followed. */
  datatype Visit = Visit(path: Path, name: Name, spent: bool)

  /** If a call of `callee` can be followed from here, what it leads to is in the scope. */
  ghost predicate TargetIn(p: Program, scope: set<Visit>, path: Path, spent: bool, callee: Name)
  {
    !spent ==>
      var t := TablesOf(p, path);
      if callee in t.funcs then Visit(path, callee, true) in scope
      else callee in t.imports && Locate(p, t.imports[callee]).Some? ==>
        var q := Locate(p, t.imports[callee]).value;
        callee in TablesOf(p, q).funcs ==> Visit(q, callee, false) in scope
  }

  ghost predicate CallsIn(p: Program, scope: set<Visit>, path: Path, spent: bool, e: Expr)
  {
    forall callee :: callee in ValueCalls(e) ==> TargetIn(p, scope, path, spent, callee)
  }

  ghost predicate VisitOk(p: Program, scope: set<Visit>, v: Visit)
  {
    v.name in TablesOf(p, v.path).funcs ==>
      var f := TablesOf(p, v.path).funcs[v.name];
      FunctionOk(p, v.path, f) && forall e :: Trusted(f, e) ==> CallsIn(p, scope, v.path, v.spent, e)
  }

  /** The scope is closed under the calls the analyser follows, and its functions are well formed. */
  ghost predicate ScopeOk(p: Program, scope: set<Visit>)
  {
    forall v :: v in scope ==> VisitOk(p, scope, v)
  }

  /** What the soundness of the sets of the functions in the scope rests on. */
  ghost predicate ProgramOk(p: Program, scope: set<Visit>)
  {
    ModulesOk(p) && ScopeOk(p, scope)
  }

  lemma {:induction false} TablesMatchOf(p: Program, q: Path)
    requires ModulesOk(p) && q in p.mods
    ensures TablesMatch(TablesOf(p, q), p.mods[q].body)
  {
    assert ModuleFine(p, q);
    TablesAreSound(p.mods[q]);
  }

  lemma {:induction false} ConstIsModuleName(p: Program, path: Path, id: Name)
    requires ConstOf(p, path, id).Some?
    ensures ModuleName(p, path, id)
  {
  }

  lemma {:induction false} ConstIsGlobal(p: Program, path: Path, id: Name)
    requires ModulesOk(p) && ConstOf(p, path, id).Some?
    ensures ModuleName(p, path, id) && GlobalOf(p, path, id) == IntGlobal(ConstOf(p, path, id).value)
  {
    TablesMatchOf(p, path);
    var t := TablesOf(p, path);
    assert MatchesAt(t, p.mods[path].body, id);
    if id !in t.consts {
      var q := Locate(p, t.imports[id]).value;
      TablesMatchOf(p, q);
      assert MatchesAt(TablesOf(p, q), p.mods[q].body, id);
    }
  }

  lemma {:induction false} FuncIsGlobal(p: Program, path: Path, id: Name)
    requires ModulesOk(p) && id in TablesOf(p, path).funcs
    ensures GlobalOf(p, path, id) == DefGlobal(path, TablesOf(p, path).funcs[id])
  {
    TablesMatchOf(p, path);
    assert MatchesAt(TablesOf(p, path), p.mods[path].body, id);
  }

  lemma {:induction false} ImportIsGlobal(p: Program, path: Path, id: Name, q: Path)
    requires ModulesOk(p) && id in TablesOf(p, path).imports && Locate(p, TablesOf(p, path).imports[id]) == Some(q)
    requires id in TablesOf(p, q).funcs
    ensures GlobalOf(p, path, id) == DefGlobal(q, TablesOf(p, q).funcs[id])
  {
    TablesMatchOf(p, path);
    TablesMatchOf(p, q);
    assert MatchesAt(TablesOf(p, path), p.mods[path].body, id) && MatchesAt(TablesOf(p, q), p.mods[q].body, id);
  }

  // ----- what soundness says -----

  ghost predicate FunctionCovered(p: Program, path: Path, f: FuncDef, codes: set<int>)
  {
    forall o :: RunFunction(p, path, f, o).Result? ==> Covered(RunFunction(p, path, f, o).v, codes)
  }

  ghost predicate EntrySound(p: Program, entries: map<Key, Codes>, k: Key)
  {
    k in entries && entries[k].Some? ==>
      && k.1 in TablesOf(p, k.0).funcs && TablesOf(p, k.0).funcs[k.1].direct
      && FunctionCovered(p, k.0, TablesOf(p, k.0).funcs[k.1], entries[k].value)
  }

  /** The sets already computed for declared functions are sound. */
  ghost predicate EntriesSound(p: Program, entries: map<Key, Codes>)
  {
    forall k: Key :: EntrySound(p, entries, k)
  }

  ghost predicate CallCovered(w: Where, callee: Name)
  {
    CallSet(w, callee).Some? ==>
      && ModuleName(w.p, w.path, callee)
      && forall o :: Invoke(w.p, w.path, callee, o).Result? ==>
           Covered(Invoke(w.p, w.path, callee, o).v, CallSet(w, callee).value)
  }

  /** The calls that the value of `e` may come from are covered. */
  ghost predicate CallsCovered(w: Where, e: Expr)
  {
    forall callee :: callee in ValueCalls(e) ==> CallCovered(w, callee)
  }

  ghost predicate TrustedCovered(w: Where, f: FuncDef)
  {
    forall e :: Trusted(f, e) ==> CallsCovered(w, e)
  }

  // ----- the invariant of a run -----

  ghost predicate EnvOk(locals: Option<LocalTable>, env: Env)
  {
    locals.Some? ==>
      forall x :: x in env && x in locals.value && locals.value[x].Some? ==> Covered(env[x], locals.value[x].value)
  }

  ghost predicate MayVary(locals: Option<LocalTable>, names: set<Name>)
  {
    locals.Some? ==> forall x :: x in names && x in locals.value ==> locals.value[x].None?
  }

  ghost predicate Allowed(w: Where, locals: Option<LocalTable>, ev: Event)
  {
    match ev
    case Source(n, e) =>
      locals.Some? && n in locals.value && locals.value[n].Some? ==>
        Resolve(w, e, locals).Some? && Resolve(w, e, locals).value <= locals.value[n].value && CallsCovered(w, e)
    case Poison(names) => MayVary(locals, names)
  }

  ghost predicate AllAllowed(w: Where, locals: Option<LocalTable>, evs: seq<Event>)
  {
    forall ev :: ev in evs ==> Allowed(w, locals, ev)
  }

  /** Where the runs are judged: module tables are sound and locals apart from module names. */
  ghost predicate Judged(w: Where, at: At, locals: Option<LocalTable>)
  {
    && ModulesOk(w.p)
    && at.p == w.p && at.path == w.path
    && (forall x :: x in LocalNames(at.f) ==> !ModuleName(w.p, w.path, x))
    && MayVary(locals, at.f.hidden)
    && (locals.Some? ==> locals.value.Keys <= LocalNames(at.f))
  }

  lemma {:induction false} HavocOk(locals: Option<LocalTable>, env: Env, names: set<Name>, upd: Env)
    requires EnvOk(locals, env) && MayVary(locals, names)
    ensures EnvOk(locals, Havoc(env, names, upd))
  {
  }

  lemma {:induction false} NameSound(w: Where, at: At, locals: Option<LocalTable>, id: Name, env: Env, o: Oracle)
    requires Judged(w, at, locals) && EnvOk(locals, env)
    ensures var r := EvalExpr(at, Ref(id), env, o);
      && (!r.EvalCut? ==> r.env == env)
      && (r.Val? && Resolve(w, Ref(id), locals).Some? ==> Covered(r.v, Resolve(w, Ref(id), locals).value))
  {
    if ConstOf(w.p, w.path, id).Some? { ConstIsGlobal(w.p, w.path, id); }
  }

  lemma {:induction false} CallSound(w: Where, at: At, locals: Option<LocalTable>, e: Expr, env: Env, o: Oracle)
    requires e.Call? && Judged(w, at, locals) && EnvOk(locals, env) && AllAllowed(w, locals, ArgEvents(e.args))
    ensures var r := EvalExpr(at, e, env, o);
      && (!r.EvalCut? ==> EnvOk(locals, r.env))
      && (r.Val? && CallSet(w, e.callee).Some? && CallCovered(w, e.callee) ==>
            Covered(r.v, CallSet(w, e.callee).value))
    decreases e, 0
  {
    ArgsSound(w, at, locals, e.args, env, o);
    var r := EvalArgs(at, e.args, env, o);
    if r.ArgsDone? { RunCallSound(w, at, locals, e, r.env, r.rest); }
  }

  lemma {:induction false} RunCallSound(w: Where, at: At, locals: Option<LocalTable>, e: Expr, env: Env, o: Oracle)
    requires e.Call? && Judged(w, at, locals) && EnvOk(locals, env)
    ensures var r := RunCall(at, e, env, o);
      && (!r.EvalCut? ==> EnvOk(locals, r.env))
      && (r.Val? && CallSet(w, e.callee).Some? && CallCovered(w, e.callee) ==>
            Covered(r.v, CallSet(w, e.callee).value))
  {
    if o != [] { HavocOk(locals, env, at.f.hidden, o[0].upd); }
  }

  lemma {:induction false} ArgsSound(w: Where, at: At, locals: Option<LocalTable>, args: seq<Expr>, env: Env, o: Oracle)
    requires Judged(w, at, locals) && EnvOk(locals, env) && AllAllowed(w, locals, ArgEvents(args))
    ensures var r := EvalArgs(at, args, env, o); !r.ArgsCut? ==> EnvOk(locals, r.env)
    decreases args, 0
  {
    if args != [] {
      assert AllAllowed(w, locals, ExprEvents(args[0])) && AllAllowed(w, locals, ArgEvents(args[1..]));
      EvalSound(w, at, locals, args[0], env, o);
      var r := EvalExpr(at, args[0], env, o);
      if r.Val? { ArgsSound(w, at, locals, args[1..], r.env, r.rest); }
    }
  }

  lemma {:induction false} EvalSound(w: Where, at: At, locals: Option<LocalTable>, e: Expr, env: Env, o: Oracle)
    requires Judged(w, at, locals) && EnvOk(locals, env) && AllAllowed(w, locals, ExprEvents(e))
    ensures var r := EvalExpr(at, e, env, o);
      && (!r.EvalCut? ==> EnvOk(locals, r.env))
      && (r.Val? && Resolve(w, e, locals).Some? && CallsCovered(w, e) ==> Covered(r.v, Resolve(w, e, locals).value))
    decreases e, 1
  {
    match e
    case Ref(id) =>
      NameSound(w, at, locals, id, env, o);
    case Cond(test, body, orelse) =>
      assert AllAllowed(w, locals, ExprEvents(test)) && AllAllowed(w, locals, ExprEvents(body))
        && AllAllowed(w, locals, ExprEvents(orelse));
      EvalSound(w, at, locals, test, env, o);
      var r := EvalExpr(at, test, env, o);
      assert CallsCovered(w, e) ==> CallsCovered(w, body) && CallsCovered(w, orelse);
      if r.Val? && r.rest != [] {
        EvalSound(w, at, locals, if Branch(test, r.rest[0].go) then body else orelse, r.env, r.rest[1..]);
      }
    case Opaque(binds) =>
      assert Poison(binds) in ExprEvents(e);
      if o != [] { HavocOk(locals, env, binds + at.f.hidden, o[0].upd); }
    case Call(_, _, _) =>
      CallSound(w, at, locals, e, env, o);
    case _ =>
  }

  // ----- statements -----

  /** Every one of these returns resolves inside `goal`, if a goal is claimed. */
  ghost predicate ReturnsIn(w: Where, locals: Option<LocalTable>, rets: seq<Ret>, goal: Codes)
  {
    goal.Some? ==>
      locals.Some? && forall r :: r in rets ==>
        && ReturnSet(w, r, locals.value).Some? && ReturnSet(w, r, locals.value).value <= goal.value
        && (r.result.Some? ==> CallsCovered(w, r.result.value))
  }

  ghost predicate RunOk(locals: Option<LocalTable>, goal: Codes, r: Run)
  {
    r.Done? ==>
      EnvOk(locals, r.env) && (r.out.Returned? && goal.Some? ==> Covered(r.out.v, goal.value))
  }

  lemma {:induction false} TargetsSound(w: Where, locals: Option<LocalTable>, goal: Codes, targets: seq<Target>,
                                        value: Expr, v: Value, env: Env, o: Oracle, plain: bool)
    requires plain ==> AllPlain(targets)
    requires EnvOk(locals, env) && AllAllowed(w, locals, TargetEvents(targets, value, plain))
    requires plain && Resolve(w, value, locals).Some? && CallsCovered(w, value) ==>
      Covered(v, Resolve(w, value, locals).value)
    ensures RunOk(locals, goal, RunTargets(targets, v, env, o))
    decreases |targets|
  {
    if targets != [] {
      var evs := TargetEvents(targets, value, plain);
      assert evs[0] in evs && Allowed(w, locals, evs[0]);
      assert forall ev :: ev in TargetEvents(targets[1..], value, plain) ==> ev in evs;
      match targets[0]
      case NameTarget(id) =>
        TargetsSound(w, locals, goal, targets[1..], value, v, env[id := v], o, plain);
      case OtherTarget(names) =>
        assert targets[0] in targets;
        if o != [] && !o[0].fail {
          HavocOk(locals, env, names, o[0].upd);
          TargetsSound(w, locals, goal, targets[1..], value, v, Havoc(env, names, o[0].upd), o[1..], plain);
        }
    }
  }

  lemma {:induction false} AssignSound(w: Where, at: At, locals: Option<LocalTable>, goal: Codes,
                                       targets: seq<Target>, value: Expr, env: Env, o: Oracle)
    requires Judged(w, at, locals) && EnvOk(locals, env)
    requires AllAllowed(w, locals, TargetEvents(targets, value, AllPlain(targets)))
    requires AllAllowed(w, locals, ExprEvents(value))
    ensures RunOk(locals, goal, RunStore(at, targets, value, env, o))
  {
    EvalSound(w, at, locals, value, env, o);
    var r := EvalExpr(at, value, env, o);
    if r.Val? { TargetsSound(w, locals, goal, targets, value, r.v, r.env, r.rest, AllPlain(targets)); }
  }

  lemma {:induction false} OneTarget(target: Target, value: Expr)
    ensures TargetEvents([target], value, AllPlain([target]))
      == [if target.NameTarget? then Source(target.id, value) else Poison(TargetNames(target))]
  {
    assert [target][1..] == [] && target in [target];
    assert TargetEvents([], value, AllPlain([target])) == [];
  }

  lemma {:induction false} SimpleSound(w: Where, at: At, locals: Option<LocalTable>, goal: Codes, s: Stmt,
                                       env: Env, o: Oracle)
    requires s.Return? || s.Raise?
    requires Judged(w, at, locals) && EnvOk(locals, env)
    requires AllAllowed(w, locals, StmtEvents(s)) && ReturnsIn(w, locals, StmtReturns(s), goal)
    ensures RunOk(locals, goal, RunStmt(at, s, env, o))
  {
    match s
    case Return(line, result) =>
      assert Ret(line, result) in StmtReturns(s);
      if result.Some? { EvalSound(w, at, locals, result.value, env, o); }
    case Raise(exception) => if exception.Some? { EvalSound(w, at, locals, exception.value, env, o); }
    case _ =>
  }

  lemma {:induction false} StmtSound(w: Where, at: At, locals: Option<LocalTable>, goal: Codes, s: Stmt, env: Env,
                                     o: Oracle)
    requires Judged(w, at, locals) && EnvOk(locals, env)
    requires AllAllowed(w, locals, StmtEvents(s)) && ReturnsIn(w, locals, StmtReturns(s), goal)
    ensures RunOk(locals, goal, RunStmt(at, s, env, o))
    decreases |o|, s, 5
  {
    match s
    case Assign(targets, value) =>
      assert AllAllowed(w, locals, ExprEvents(value));
      assert AllAllowed(w, locals, TargetEvents(targets, value, AllPlain(targets)));
      AssignSound(w, at, locals, goal, targets, value, env, o);
    case AnnAssign(target, init) =>
      if init.Some? {
        OneTarget(target, init.value);
        assert AllAllowed(w, locals, ExprEvents(init.value));
        assert StmtEvents(s)[0] in StmtEvents(s);
        AssignSound(w, at, locals, goal, [target], init.value, env, o);
      }
    case While(_, _, _) => LoopSound(w, at, locals, goal, s, env, o);
    case Try(_, _, _, _) => FinallySound(w, at, locals, goal, s, env, o);
    case Return(_, _) => SimpleSound(w, at, locals, goal, s, env, o);
    case Raise(_) => SimpleSound(w, at, locals, goal, s, env, o);
    case Pass =>
    case Break =>
    case Continue =>
    case _ => ValueSound(w, at, locals, goal, s, env, o);
  }

  lemma {:induction false} ValueSound(w: Where, at: At, locals: Option<LocalTable>, goal: Codes, s: Stmt, env: Env,
                                      o: Oracle)
    requires HasValue(s) && Judged(w, at, locals) && EnvOk(locals, env)
    requires AllAllowed(w, locals, StmtEvents(s)) && ReturnsIn(w, locals, StmtReturns(s), goal)
    ensures RunOk(locals, goal, RunStmt(at, s, env, o))
    decreases |o|, s, 4
  {
    assert AllAllowed(w, locals, ExprEvents(s.value));
    EvalSound(w, at, locals, s.value, env, o);
    var r := EvalExpr(at, s.value, env, o);
    if r.Val? { AfterSound(w, at, locals, goal, s, r.env, r.rest); }
  }

  /** A statement whose expression has its value. */
  lemma {:induction false} AfterSound(w: Where, at: At, locals: Option<LocalTable>, goal: Codes, s: Stmt, env: Env,
                                      o: Oracle)
    requires HasValue(s) && Judged(w, at, locals) && EnvOk(locals, env)
    requires AllAllowed(w, locals, StmtEvents(s)) && ReturnsIn(w, locals, StmtReturns(s), goal)
    ensures RunOk(locals, goal, RunAfter(at, s, env, o))
    decreases |o|, s, 3
  {
    match s
    case For(_, _, _, _) => LoopSound(w, at, locals, goal, s, env, o);
    case ExprStmt(_) =>
    case If(value, body, orelse) =>
      if o != [] {
        if Branch(value, o[0].go) {
          BlockSound(w, at, locals, goal, body, env, o[1..]);
        } else {
          BlockSound(w, at, locals, goal, orelse, env, o[1..]);
        }
      }
    case Rebind(names, _) =>
      assert Poison(names) in StmtEvents(s);
      if o != [] { HavocOk(locals, env, names, o[0].upd); }
    case With(_, names, body) =>
      assert Poison(names) in StmtEvents(s);
      if o != [] && !o[0].fail {
        HavocOk(locals, env, names, o[0].upd);
        BlockSound(w, at, locals, goal, body, Havoc(env, names, o[0].upd), o[1..]);
      }
  }

  lemma {:induction false} LoopSound(w: Where, at: At, locals: Option<LocalTable>, goal: Codes, s: Stmt, env: Env,
                                     o: Oracle)
    requires s.For? || s.While?
    requires Judged(w, at, locals) && EnvOk(locals, env)
    requires AllAllowed(w, locals, StmtEvents(s)) && ReturnsIn(w, locals, StmtReturns(s), goal)
    ensures RunOk(locals, goal, RunLoop(at, s, env, o))
    decreases |o|, s, 2
  {
    if s.For? {
      TurnSound(w, at, locals, goal, s, env, o);
    } else {
      EvalSound(w, at, locals, s.value, env, o);
      var r := EvalExpr(at, s.value, env, o);
      if r.Val? { TurnSound(w, at, locals, goal, s, r.env, r.rest); }
    }
  }

  lemma {:induction false} TurnSound(w: Where, at: At, locals: Option<LocalTable>, goal: Codes, s: Stmt, env: Env,
                                     o: Oracle)
    requires s.For? || s.While?
    requires Judged(w, at, locals) && EnvOk(locals, env)
    requires AllAllowed(w, locals, StmtEvents(s)) && ReturnsIn(w, locals, StmtReturns(s), goal)
    ensures RunOk(locals, goal, RunTurn(at, s, env, o))
    decreases |o|, s, 1
  {
    assert s.For? ==> Poison(s.names) in StmtEvents(s);
    if o != [] && !(s.For? && o[0].fail) {
      if !(if s.For? then o[0].go else Branch(s.value, o[0].go)) {
        BlockSound(w, at, locals, goal, s.orelse, env, o[1..]);
      } else {
        var env2 := if s.For? then Havoc(env, s.names, o[0].upd) else env;
        if s.For? { HavocOk(locals, env, s.names, o[0].upd); }
        BlockSound(w, at, locals, goal, s.body, env2, o[1..]);
        var r := RunBlock(at, s.body, env2, o[1..]);
        if r.Done? { LoopSound(w, at, locals, goal, s, r.env, r.rest); }
      }
    }
  }

  lemma {:induction false} FinallySound(w: Where, at: At, locals: Option<LocalTable>, goal: Codes, s: Stmt, env: Env,
                                        o: Oracle)
    requires s.Try? && Judged(w, at, locals) && EnvOk(locals, env)
    requires AllAllowed(w, locals, StmtEvents(s)) && ReturnsIn(w, locals, StmtReturns(s), goal)
    ensures RunOk(locals, goal, RunStmt(at, s, env, o))
    decreases |o|, s, 3
  {
    TrySound(w, at, locals, goal, s, env, o);
    var r := RunGuarded(at, s, env, o);
    if r.Done? {
      var inner := if r.out.Raised? then Handling(at, r.out.ordinary) else at;
      BlockSound(w, inner, locals, goal, s.finalbody, r.env, r.rest);
    }
  }

  lemma {:induction false} TrySound(w: Where, at: At, locals: Option<LocalTable>, goal: Codes, s: Stmt, env: Env,
                                    o: Oracle)
    requires s.Try?
    requires Judged(w, at, locals) && EnvOk(locals, env)
    requires AllAllowed(w, locals, StmtEvents(s)) && ReturnsIn(w, locals, StmtReturns(s), goal)
    ensures RunOk(locals, goal, RunGuarded(at, s, env, o))
    decreases |o|, s, 2
  {
    BlockSound(w, at, locals, goal, s.body, env, o);
    var r := RunBlock(at, s.body, env, o);
    if r.Done? && r.out.Normal? { BlockSound(w, at, locals, goal, s.orelse, r.env, r.rest); }
    if r.Done? && r.out.Raised? {
      HandlersSound(w, at, locals, goal, s.handlers, r.out.ordinary, r.out.origin, r.env, r.rest);
    }
  }

  lemma {:induction false} HandlersSound(w: Where, at: At, locals: Option<LocalTable>, goal: Codes,
                                         hs: seq<Handler>, ordinary: bool, origin: Origin, env: Env, o: Oracle)
    requires Judged(w, at, locals) && EnvOk(locals, env)
    requires AllAllowed(w, locals, HandlerEvents(hs)) && ReturnsIn(w, locals, HandlerReturns(hs), goal)
    ensures RunOk(locals, goal, RunHandlers(at, hs, ordinary, origin, env, o))
    decreases |o|, hs, 0
  {
    if hs != [] && o != [] {
      var h := hs[0];
      if h.bound.Some? {
        assert Poison({h.bound.value}) == HandlerEvents(hs)[0] && Allowed(w, locals, HandlerEvents(hs)[0]);
      }
      assert HandlerJudged(w, locals, h);
      HandlerSound(w, at, locals, goal, hs[0], ordinary, env, o[1..]);
      HandlersSound(w, at, locals, goal, hs[1..], ordinary, origin, env, o[1..]);
    }
  }

  ghost predicate HandlerJudged(w: Where, locals: Option<LocalTable>, h: Handler)
  {
    AllAllowed(w, locals, BlockEvents(h.body)) && (h.bound.Some? ==> MayVary(locals, {h.bound.value}))
  }

  lemma {:induction false} HandlerSound(w: Where, at: At, locals: Option<LocalTable>, goal: Codes, h: Handler,
                                        ordinary: bool, env: Env, o: Oracle)
    requires Judged(w, at, locals) && EnvOk(locals, env)
    requires HandlerJudged(w, locals, h) && ReturnsIn(w, locals, BlockReturns(h.body), goal)
    ensures RunOk(locals, goal, RunHandler(at, h, ordinary, env, o))
    decreases |o|, h, 0
  {
    EnteredOk(locals, h, env);
    BlockSound(w, Handling(at, ordinary), locals, goal, h.body, EnterHandler(h, env), o);
    LeftHandler(locals, goal, at, h, RunBlock(Handling(at, ordinary), h.body, EnterHandler(h, env), o));
  }

  lemma {:induction false} EnteredOk(locals: Option<LocalTable>, h: Handler, env: Env)
    requires EnvOk(locals, env) && (h.bound.Some? ==> MayVary(locals, {h.bound.value}))
    ensures EnvOk(locals, EnterHandler(h, env))
  {
    if h.bound.Some? { assert h.bound.value in {h.bound.value}; }
  }

  lemma {:induction false} LeftHandler(locals: Option<LocalTable>, goal: Codes, at: At, h: Handler, r: Run)
    requires RunOk(locals, goal, r)
    ensures RunOk(locals, goal, LeaveHandler(at, h, r))
  {
  }

  lemma {:induction false} BlockSound(w: Where, at: At, locals: Option<LocalTable>, goal: Codes, b: seq<Stmt>,
                                      env: Env, o: Oracle)
    requires Judged(w, at, locals) && EnvOk(locals, env)
    requires AllAllowed(w, locals, BlockEvents(b)) && ReturnsIn(w, locals, BlockReturns(b), goal)
    ensures RunOk(locals, goal, RunBlock(at, b, env, o))
    decreases |o|, b, 0
  {
    if b != [] {
      StmtSound(w, at, locals, goal, b[0], env, o);
      var r := RunStmt(at, b[0], env, o);
      if r.Done? && r.out.Normal? { BlockSound(w, at, locals, goal, b[1..], r.env, r.rest); }
    }
  }

  // ----- functions -----

  lemma {:induction false} NotConstsOf(p: Program, w: Where, names: set<Name>)
    requires w.p == p && forall x :: x in names ==> !ModuleName(p, w.path, x)
    ensures NotConsts(w, names)
  {
    forall x | x in names ensures ConstOf(w.p, w.path, x).None? {
      if ConstOf(w.p, w.path, x).Some? { ConstIsModuleName(p, w.path, x); }
    }
  }

  lemma {:induction false} NeverResolved(w: Where, f: FuncDef, e: Expr, t: LocalTable)
    requires NeverResolves(f, e) && NotConsts(w, LocalNames(f))
    requires forall x :: x in t && x !in Assigned(f) ==> t[x].None?
    ensures Resolve(w, e, Some(t)).None?
  {
    match e
    case Cond(_, body, orelse) =>
      if NeverResolves(f, body) { NeverResolved(w, f, body, t); } else { NeverResolved(w, f, orelse, t); }
    case _ =>
  }

  /** A name fed by such an expression has no set. */
  lemma {:induction false} FedUnresolved(w: Where, f: FuncDef, x: Name, e: Expr)
    requires Separated(w, f) && NotConsts(w, LocalNames(f)) && x in LocalMap(w, f)
    requires Source(x, e) in BlockEvents(f.body) && NeverResolves(f, e)
    ensures LocalMap(w, f)[x].None?
  {
    var t := LocalMap(w, f);
    LocalMapIsLeastSolution(w, f);
    SourceNames(f);
    if x !in Poisoned(f) {
      SourcesOfIff(BlockEvents(f.body));
      assert Feeds(Sources(f), x, e);
      var l :| l in Sources(f) && l.name == x && e in l.exprs;
      NeverResolved(w, f, e, t);
      if t[x].Some? { OneOfAll(w, l.exprs, t, e); }
    }
  }

  /** A parameter or hidden name in the table of locals has no set there. */
  lemma {:induction false} UnseenUnresolved(w: Where, f: FuncDef, x: Name)
    requires FunctionOk(w.p, w.path, f) && NotConsts(w, LocalNames(f))
    requires x in Unseen(f) && x in LocalMap(w, f)
    ensures LocalMap(w, f)[x].None?
  {
    LocalMapIsLeastSolution(w, f);
    SourceNames(f);
    if x !in Poisoned(f) {
      assert x in Assigned(f) * Unseen(f) && NoSetFor(f, x);
      var e :| Source(x, e) in BlockEvents(f.body) && NeverResolves(f, e);
      FedUnresolved(w, f, x, e);
    }
  }

  lemma {:induction false} TableIsSound(w: Where, f: FuncDef)
    requires FunctionOk(w.p, w.path, f) && TrustedCovered(w, f)
    ensures AllAllowed(w, Some(LocalMap(w, f)), BlockEvents(f.body))
    ensures MayVary(Some(LocalMap(w, f)), Unseen(f))
    ensures LocalMap(w, f).Keys <= LocalNames(f)
  {
    var t, evs := LocalMap(w, f), BlockEvents(f.body);
    NotConstsOf(w.p, w, LocalNames(f));
    LocalMapIsLeastSolution(w, f);
    SourcesReadApart(f);
    SourcesOfIff(evs);
    forall x | x in Unseen(f) && x in t ensures t[x].None? { UnseenUnresolved(w, f, x); }
    forall ev | ev in evs ensures Allowed(w, Some(t), ev) {
      match ev
      case Poison(names) =>
        forall x | x in names ensures x in Poisoned(f) { PoisonedByIff(evs, x); }
      case Source(n, e) =>
        assert Feeds(Sources(f), n, e);
        var l :| l in Sources(f) && l.name == n && e in l.exprs;
        assert n in NamesOf(Sources(f));
        if t[n].Some? {
          OneOfAll(w, l.exprs, t, e);
          assert Trusted(f, e);
        }
    }
  }

  lemma {:induction false} ReturnsSetIn(w: Where, rets: seq<Ret>, locals: LocalTable)
    requires ReturnsSet(w, rets, locals).Some?
    requires forall r :: r in rets && r.result.Some? ==> CallsCovered(w, r.result.value)
    ensures ReturnsIn(w, Some(locals), rets, ReturnsSet(w, rets, locals))
    decreases |rets|
  {
    if rets != [] {
      ReturnsSetIn(w, rets[..|rets| - 1], locals);
      assert forall r :: r in rets ==> r in rets[..|rets| - 1] || r == rets[|rets| - 1];
    }
  }

  lemma {:induction false} ReturnsTrusted(w: Where, f: FuncDef)
    requires TrustedCovered(w, f)
    ensures forall r :: r in BlockReturns(f.body) && r.result.Some? ==> CallsCovered(w, r.result.value)
  {
    forall r | r in BlockReturns(f.body) && r.result.Some? ensures CallsCovered(w, r.result.value) {
      assert Ret(r.line, Some(r.result.value)) in BlockReturns(f.body);
      assert Trusted(f, r.result.value);
    }
  }

  /** The runs of a function stay inside the union of its returns. */
  lemma {:induction false} BodyCovered(w: Where, f: FuncDef, codes: set<int>)
    requires ModulesOk(w.p) && FunctionOk(w.p, w.path, f) && TrustedCovered(w, f)
    requires ReturnsSet(w, BlockReturns(f.body), LocalMap(w, f)) == Some(codes)
    ensures FunctionCovered(w.p, w.path, f, codes)
  {
    TableIsSound(w, f);
    ReturnsTrusted(w, f);
    var t := LocalMap(w, f);
    ReturnsSetIn(w, BlockReturns(f.body), t);
    forall o: Oracle | RunFunction(w.p, w.path, f, o).Result?
      ensures Covered(RunFunction(w.p, w.path, f, o).v, codes)
    {
      var env := Enter(f, o[0].upd);
      BlockSound(w, Here(w.p, w.path, f), Some(t), Some(codes), f.body, env, o[1..]);
    }
  }

  lemma {:induction false} EntryCovered(w: Where, k: Key)
    requires EntriesSound(w.p, w.entries) && k in w.entries && w.entries[k].Some?
    ensures k.1 in TablesOf(w.p, k.0).funcs && TablesOf(w.p, k.0).funcs[k.1].direct
    ensures FunctionCovered(w.p, k.0, TablesOf(w.p, k.0).funcs[k.1], w.entries[k].value)
  {
    assert EntrySound(w.p, w.entries, k);
  }

  /** The file in which the analyser finds the function a call denotes. */
  function FileOf(w: Where, callee: Name): Path
  {
    if (w.path, callee) in w.entries || callee in TablesOf(w.p, w.path).funcs then w.path
    else if callee !in TablesOf(w.p, w.path).imports then w.path
    else match Locate(w.p, TablesOf(w.p, w.path).imports[callee]) case Some(q) => q case None => w.path
  }

  /** A call whose codes are known, or followed, denotes the function the analyser found. */
  lemma {:induction false} SiteDenotes(w: Where, callee: Name)
    requires ModulesOk(w.p) && EntriesSound(w.p, w.entries)
    requires SiteOf(w, callee).Follow? || SiteOf(w, callee).codes.Some?
    ensures var (q, s) := (FileOf(w, callee), SiteOf(w, callee));
      && callee in TablesOf(w.p, q).funcs && ModuleName(w.p, w.path, callee)
      && GlobalOf(w.p, w.path, callee) == DefGlobal(q, TablesOf(w.p, q).funcs[callee])
      && (s.Known? ==> (q, callee) in w.entries && w.entries[(q, callee)] == s.codes)
      && (s.Follow? ==> s.inside.path == q)
  {
    var q := FileOf(w, callee);
    if (w.path, callee) in w.entries { EntryCovered(w, (w.path, callee)); }
    if (q, callee) in w.entries && w.entries[(q, callee)].Some? { EntryCovered(w, (q, callee)); }
    if callee in TablesOf(w.p, w.path).funcs {
      FuncIsGlobal(w.p, w.path, callee);
    } else {
      ImportIsGlobal(w.p, w.path, callee, q);
    }
  }

  lemma {:induction false} CallIsCovered(w: Where, scope: set<Visit>, callee: Name)
    requires ProgramOk(w.p, scope) && EntriesSound(w.p, w.entries)
    requires TargetIn(w.p, scope, w.path, w.depth >= 1, callee)
    ensures CallCovered(w, callee)
    decreases Left(w), 1
  {
    var s := SiteOf(w, callee);
    if CallSet(w, callee).Some? {
      SiteDenotes(w, callee);
      if s.Known? {
        EntryCovered(w, (FileOf(w, callee), callee));
      } else {
        var v := Visit(s.inside.path, callee, s.inside.depth >= 1);
        assert v in scope && VisitOk(w.p, scope, v);
        ExitSetCovers(s.inside, scope, callee);
      }
    }
  }

  lemma {:induction false} TrustedIsCovered(w: Where, scope: set<Visit>, name: Name)
    requires ProgramOk(w.p, scope) && EntriesSound(w.p, w.entries)
    requires name in TablesOf(w.p, w.path).funcs && Visit(w.path, name, w.depth >= 1) in scope
    ensures TrustedCovered(w, TablesOf(w.p, w.path).funcs[name])
    decreases Left(w), 2
  {
    var f := TablesOf(w.p, w.path).funcs[name];
    assert VisitOk(w.p, scope, Visit(w.path, name, w.depth >= 1));
    forall e | Trusted(f, e) ensures CallsCovered(w, e) {
      assert CallsIn(w.p, scope, w.path, w.depth >= 1, e);
      forall callee | callee in ValueCalls(e) ensures CallCovered(w, callee) { CallIsCovered(w, scope, callee); }
    }
  }

  /** Resolver soundness: a computed exit set covers every run of the function that returns. */
  lemma {:induction false} ExitSetCovers(w: Where, scope: set<Visit>, name: Name)
    requires ProgramOk(w.p, scope) && EntriesSound(w.p, w.entries)
    requires name in TablesOf(w.p, w.path).funcs && Visit(w.path, name, w.depth >= 1) in scope
    requires FuncExitSet(w, name).Some?
    ensures FunctionCovered(w.p, w.path, TablesOf(w.p, w.path).funcs[name], FuncExitSet(w, name).value)
    decreases Left(w), 0
  {
    var key := (w.path, name);
    var inner := w.(stack := w.stack + {key});
    EntersLess(w, key);
    assert VisitOk(w.p, scope, Visit(w.path, name, w.depth >= 1));
    TrustedIsCovered(inner, scope, name);
    BodyCovered(inner, TablesOf(w.p, w.path).funcs[name], FuncExitSet(w, name).value);
  }
}
