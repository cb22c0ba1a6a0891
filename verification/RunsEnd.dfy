/** Every run ends as `Endings` computes. */
module RunsEnd {
  import opened MiniPython
  import opened OwnNodes
  import opened PythonRuns
  import opened Endings

  // ----- the names in play -----

  function EventNames(ev: Event): set<Name>
  {
    match ev case Source(n, _) => {n} case Poison(names) => names
  }

  ghost predicate EventsIn(c: Ctx, evs: seq<Event>)
  {
    forall ev :: ev in evs ==> EventNames(ev) <= Frame(c)
  }

  ghost predicate InFrame(c: Ctx, env: Env) { env.Keys <= Frame(c) }

  ghost predicate Knows(c: Ctx) { Closed(c.at.p, c.judge, c.facts) }

  lemma {:induction false} BodyEventsIn(c: Ctx)
    ensures EventsIn(c, BlockEvents(c.at.f.body))
  {
    var f, evs := c.at.f, BlockEvents(c.at.f.body);
    forall ev | ev in evs ensures EventNames(ev) <= Frame(c) {
      forall n | n in EventNames(ev) ensures n in Frame(c) {
        var i :| 0 <= i < |evs| && evs[i] == ev;
        PoisonedByIff(evs, n);
      }
    }
  }

  // ----- states of environments -----

  lemma {:induction false} SomeOccurs(j: Judge, v: Value)
    ensures Occurs(j, Bad(j, v))
  {
  }

  lemma {:induction false} HavocState(j: Judge, env: Env, names: set<Name>, upd: Env)
    ensures StateOf(j, Havoc(env, names, upd)) in Shuffles(j, StateOf(j, env), names)
  {
    var X := names * upd.Keys;
    var Y := set x | x in X && Bad(j, upd[x]);
    if x :| x in Y { SomeOccurs(j, upd[x]); }
    if x :| x in X && x !in Y { SomeOccurs(j, upd[x]); }
    if Y != X { assert exists x :: x in X && x !in Y; }
    var a, b := StateOf(j, env), StateOf(j, Havoc(env, names, upd));
    assert b == State((a.bound - names) + X, (a.bad - names) + Y);
  }

  lemma {:induction false} StateIn(c: Ctx, env: Env)
    requires InFrame(c, env)
    ensures StateOf(c.judge, env) in States(c.judge, Frame(c))
  {
    var none: Env := map[];
    HavocState(c.judge, none, Frame(c), env);
    assert Havoc(none, Frame(c), env) == env;
    assert StateOf(c.judge, none) == NOTHING_BOUND;
  }

  lemma {:induction false} EntryState(j: Judge, f: FuncDef, upd: Env)
    ensures StateOf(j, Enter(f, upd)) in Entries(j, f)
    ensures Enter(f, upd).Keys <= LocalNames(f)
  {
    var none: Env := map[];
    HavocState(j, none, Params(f) + f.hidden, Enter(f, upd));
    assert Havoc(none, Params(f) + f.hidden, Enter(f, upd)) == Enter(f, upd);
    assert StateOf(j, none) == NOTHING_BOUND;
  }

  lemma {:induction false} PutState(j: Judge, env: Env, x: Name, v: Value)
    ensures StateOf(j, env[x := v]) == Put(StateOf(j, env), x, Bad(j, v))
  {
  }

  lemma {:induction false} DropState(j: Judge, env: Env, x: Name)
    ensures StateOf(j, env - {x}) == Drop(StateOf(j, env), x)
  {
  }

  // ----- expressions -----

  function OutOfEval(j: Judge, r: Eval): Out
    requires !r.EvalCut?
  {
    match r case Val(v, _, _) => Yields(Bad(j, v)) case Exn(ordinary, _, _, _) => Fails(ordinary)
  }

  ghost predicate EvalFits(c: Ctx, e: Expr, env: Env, r: Eval)
  {
    !r.EvalCut? ==>
      && InFrame(c, r.env)
      && Eval1(OutOfEval(c.judge, r), StateOf(c.judge, r.env)) in ExprEnds(c, e, StateOf(c.judge, env))
  }

  lemma {:induction false} AnyOccurs(j: Judge, v: Value)
    ensures Yields(Bad(j, v)) in Anything(j)
  {
    SomeOccurs(j, v);
  }

  lemma {:induction false} EvalEnds(c: Ctx, e: Expr, env: Env, o: Oracle)
    requires Knows(c) && InFrame(c, env) && EventsIn(c, ExprEvents(e))
    ensures EvalFits(c, e, env, EvalExpr(c.at, e, env, o))
    decreases |o|, e, 2
  {
    match e
    case Ref(_) => RefEnds(c, e, env, o);
    case Cond(_, _, _) => CondEnds(c, e, env, o);
    case Opaque(_) => OpaqueEnds(c, e, env, o);
    case Call(_, _, _) => CallEnds(c, e, env, o);
    case _ =>
  }

  lemma {:induction false} RefEnds(c: Ctx, e: Expr, env: Env, o: Oracle)
    requires e.Ref? && InFrame(c, env)
    ensures EvalFits(c, e, env, EvalExpr(c.at, e, env, o))
  {
    if o != [] { AnyOccurs(c.judge, o[0].v); }
  }

  lemma {:induction false} OpaqueEnds(c: Ctx, e: Expr, env: Env, o: Oracle)
    requires e.Opaque? && InFrame(c, env) && EventsIn(c, ExprEvents(e))
    ensures EvalFits(c, e, env, EvalExpr(c.at, e, env, o))
  {
    if o != [] {
      assert Poison(e.binds) in ExprEvents(e);
      HavocState(c.judge, env, e.binds + c.at.f.hidden, o[0].upd);
      AnyOccurs(c.judge, o[0].v);
    }
  }

  lemma {:induction false} CondEnds(c: Ctx, e: Expr, env: Env, o: Oracle)
    requires e.Cond? && Knows(c) && InFrame(c, env) && EventsIn(c, ExprEvents(e))
    ensures EvalFits(c, e, env, EvalExpr(c.at, e, env, o))
    decreases |o|, e, 0
  {
    assert EventsIn(c, ExprEvents(e.test)) && EventsIn(c, ExprEvents(e.body)) && EventsIn(c, ExprEvents(e.orelse));
    EvalEnds(c, e.test, env, o);
    var r := EvalExpr(c.at, e.test, env, o);
    if r.Val? && r.rest != [] {
      var go := Branch(e.test, r.rest[0].go);
      assert go in Ways(e.test);
      EvalEnds(c, if go then e.body else e.orelse, r.env, r.rest[1..]);
    }
  }

  ghost predicate ArgsFit(c: Ctx, args: seq<Expr>, env: Env, r: ArgRun)
  {
    !r.ArgsCut? ==>
      && InFrame(c, r.env)
      && ArgsEnd(if r.ArgsExn? then Some(r.ordinary) else None, StateOf(c.judge, r.env))
           in ArgsEnds(c, args, StateOf(c.judge, env))
  }

  lemma {:induction false} EvalArgsEnds(c: Ctx, args: seq<Expr>, env: Env, o: Oracle)
    requires Knows(c) && InFrame(c, env) && EventsIn(c, ArgEvents(args))
    ensures ArgsFit(c, args, env, EvalArgs(c.at, args, env, o))
    decreases |o|, args, 0
  {
    if args != [] {
      assert EventsIn(c, ExprEvents(args[0])) && EventsIn(c, ArgEvents(args[1..]));
      EvalEnds(c, args[0], env, o);
      var r := EvalExpr(c.at, args[0], env, o);
      if r.Val? { EvalArgsEnds(c, args[1..], r.env, r.rest); }
    }
  }

  lemma {:induction false} CallEnds(c: Ctx, e: Expr, env: Env, o: Oracle)
    requires e.Call? && Knows(c) && InFrame(c, env) && EventsIn(c, ExprEvents(e))
    ensures EvalFits(c, e, env, EvalExpr(c.at, e, env, o))
    decreases |o|, e, 1
  {
    EvalArgsEnds(c, e.args, env, o);
    var r := EvalArgs(c.at, e.args, env, o);
    if r.ArgsDone? { RunCallEnds(c, e, r.env, r.rest); }
  }

  lemma {:induction false} RunCallEnds(c: Ctx, e: Expr, env: Env, o: Oracle)
    requires e.Call? && Knows(c) && InFrame(c, env)
    ensures var r := RunCall(c.at, e, env, o); !r.EvalCut? ==>
      && InFrame(c, r.env) && OutOfEval(c.judge, r) in CallOuts(c, e.callee, |e.args|, e.keywords)
      && StateOf(c.judge, r.env) in Shuffles(c.judge, StateOf(c.judge, env), c.at.f.hidden)
    decreases |o|, e, 0
  {
    if o != [] {
      HavocState(c.judge, env, c.at.f.hidden, o[0].upd);
      if e.callee in Frame(c) {
        AnyOccurs(c.judge, o[0].v);
      } else if Fits(GlobalOf(c.at.p, c.at.path, e.callee), |e.args|, e.keywords) {
        InvokeEnds(c, e.callee, |e.args|, e.keywords, o[1..]);
      }
    }
  }

  lemma {:induction false} GlobalIsDef(p: Program, path: Path, id: Name)
    ensures var g := GlobalOf(p, path, id); g.DefGlobal? ==> (g.path, g.f) in Defs(p)
  {
    if path in p.mods {
      BindingIsDef(p.mods[path].body, id);
      var b := OwnBinding(p.mods[path].body, id);
      if b.ImportBinding? && Locate(p, b.dotted).Some? {
        BindingIsDef(p.mods[Locate(p, b.dotted).value].body, b.name);
      }
    }
  }

  lemma {:induction false} BindingIsDef(body: seq<TopStmt>, id: Name)
    ensures OwnBinding(body, id).DefBinding? ==>
      exists i :: 0 <= i < |body| && body[i].TopDef? && body[i].def == OwnBinding(body, id).f
    decreases |body|
  {
    if body != [] && id !in TopBinds(body[|body| - 1]) { BindingIsDef(body[..|body| - 1], id); }
  }

  lemma {:induction false} InvokeEnds(c: Ctx, callee: Name, args: nat, keywords: seq<Name>, o: Oracle)
    requires Knows(c) && callee !in Frame(c) && Fits(GlobalOf(c.at.p, c.at.path, callee), args, keywords)
    ensures var r := Invoke(c.at.p, c.at.path, callee, o);
      && (r.Result? ==> Yields(Bad(c.judge, r.v)) in CallOuts(c, callee, args, keywords))
      && (r.Escaped? ==> Fails(r.ordinary) in CallOuts(c, callee, args, keywords))
    decreases |o|, 2
  {
    var g := GlobalOf(c.at.p, c.at.path, callee);
    if o != [] && g.DefGlobal? && g.f.direct {
      GlobalIsDef(c.at.p, c.at.path, callee);
      FunctionEnds(c.at.p, c.judge, c.facts, g.path, g.f, o);
    } else if o != [] {
      AnyOccurs(c.judge, o[0].v);
    }
  }

  ghost predicate CallRunFits(j: Judge, outs: set<Out>, r: CallRun)
  {
    && (r.Result? ==> Yields(Bad(j, r.v)) in outs)
    && (r.Escaped? ==> Fails(r.ordinary) in outs)
  }

  lemma {:induction false} FunctionEnds(p: Program, j: Judge, facts: set<Fact>, path: Path, f: FuncDef, o: Oracle)
    requires Closed(p, j, facts)
    ensures CallRunFits(j, FunctionOuts(p, j, facts, path, f), RunFunction(p, path, f, o))
    ensures (path, f) in Defs(p) ==> CallRunFits(j, OutsOf(facts, path, f), RunFunction(p, path, f, o))
    decreases |o|, 1
  {
    var c := Ctx(Here(p, path, f), j, facts);
    if o != [] {
      var env := Enter(f, o[0].upd);
      EntryState(j, f, o[0].upd);
      BodyEventsIn(c);
      BlockRunEnds(c, f.body, env, o[1..]);
      BodyOuts(c, StateOf(j, env), RunBlock(c.at, f.body, env, o[1..]));
      DerivedFits(p, j, facts, path, f, RunFunction(p, path, f, o));
    }
  }

  lemma {:induction false} BodyOuts(c: Ctx, a: State, r: Run)
    requires a in Entries(c.judge, c.at.f) && RunFits(c, BlockEnds(c, c.at.f.body, a), r)
    requires c.at.handling.None?
    ensures CallRunFits(c.judge, FunctionOuts(c.at.p, c.judge, c.facts, c.at.path, c.at.f), CallOf(r))
  {
    assert c == Ctx(Here(c.at.p, c.at.path, c.at.f), c.judge, c.facts);
    if r.Done? && !r.out.Jumped? {
      var x := EndingOf(c.judge, r);
      assert x in BlockEnds(c, c.at.f.body, a) && !x.end.Jumps?;
      assert OutOf(c.judge, x.end) in FunctionOuts(c.at.p, c.judge, c.facts, c.at.path, c.at.f);
    }
  }

  lemma {:induction false} DerivedFits(p: Program, j: Judge, facts: set<Fact>, path: Path, f: FuncDef, r: CallRun)
    requires Closed(p, j, facts) && CallRunFits(j, FunctionOuts(p, j, facts, path, f), r)
    ensures (path, f) in Defs(p) ==> CallRunFits(j, OutsOf(facts, path, f), r)
  {
    if (path, f) in Defs(p) {
      forall out | out in FunctionOuts(p, j, facts, path, f) ensures out in OutsOf(facts, path, f) {
        assert (path, f) in Defs(p) && Fact((path, f).0, (path, f).1, out) in Derived(p, j, facts);
        assert Fact(path, f, out) in facts;
      }
    }
  }

  // ----- statements -----

  function EndOf(j: Judge, out: Outcome): End
  {
    match out
    case Normal => Falls
    case Returned(v, _) => Leaves(Bad(j, v))
    case Raised(ordinary, _) => Throws(ordinary)
    case Jumped(brk) => Jumps(brk)
  }

  function EndingOf(j: Judge, r: Run): Ending
    requires r.Done?
  {
    Ending(EndOf(j, r.out), StateOf(j, r.env))
  }

  /** The run `r` ends as one of these. */
  ghost predicate RunFits(c: Ctx, ends: set<Ending>, r: Run)
  {
    r.Done? ==> InFrame(c, r.env) && EndingOf(c.judge, r) in ends
  }

  lemma {:induction false} BlockRunEnds(c: Ctx, body: seq<Stmt>, env: Env, o: Oracle)
    requires Knows(c) && InFrame(c, env) && EventsIn(c, BlockEvents(body))
    ensures RunFits(c, BlockEnds(c, body, StateOf(c.judge, env)), RunBlock(c.at, body, env, o))
    decreases |o|, body, 0
  {
    if body != [] {
      assert EventsIn(c, StmtEvents(body[0])) && EventsIn(c, BlockEvents(body[1..]));
      StmtRunEnds(c, body[0], env, o);
      var r := RunStmt(c.at, body[0], env, o);
      if r.Done? {
        if r.out.Normal? { BlockRunEnds(c, body[1..], r.env, r.rest); }
        var r2 := RunBlock(c.at, body, env, o);
        assert r2.Done? ==> EndingOf(c.judge, r2) in PastFirst(c, body, EndingOf(c.judge, r));
      }
    }
  }

  lemma {:induction false} TargetsRunEnd(c: Ctx, targets: seq<Target>, v: Value, env: Env, o: Oracle)
    requires InFrame(c, env) && forall t :: t in targets ==> TargetNames(t) <= Frame(c)
    ensures RunFits(c, TargetsEnds(c.judge, targets, Bad(c.judge, v), StateOf(c.judge, env)),
                    RunTargets(targets, v, env, o))
    decreases |targets|
  {
    if targets != [] {
      assert targets[0] in targets;
      match targets[0]
      case NameTarget(id) =>
        PutState(c.judge, env, id, v);
        TargetsRunEnd(c, targets[1..], v, env[id := v], o);
      case OtherTarget(names) =>
        if o != [] && !o[0].fail {
          HavocState(c.judge, env, names, o[0].upd);
          TargetsRunEnd(c, targets[1..], v, Havoc(env, names, o[0].upd), o[1..]);
        }
    }
  }

  lemma {:induction false} StoreRunEnds(c: Ctx, targets: seq<Target>, value: Expr, env: Env, o: Oracle)
    requires Knows(c) && InFrame(c, env) && EventsIn(c, ExprEvents(value))
    requires forall t :: t in targets ==> TargetNames(t) <= Frame(c)
    ensures RunFits(c, StoreEnds(c, targets, value, StateOf(c.judge, env)), RunStore(c.at, targets, value, env, o))
    decreases |o|, value, 3
  {
    EvalEnds(c, value, env, o);
    var r := EvalExpr(c.at, value, env, o);
    if r.Val? {
      TargetsRunEnd(c, targets, r.v, r.env, r.rest);
      var x := Eval1(Yields(Bad(c.judge, r.v)), StateOf(c.judge, r.env));
      assert x in ExprEnds(c, value, StateOf(c.judge, env));
      var r2 := RunTargets(targets, r.v, r.env, r.rest);
      assert r2.Done? ==> EndingOf(c.judge, r2) in TargetsEnds(c.judge, targets, x.out.bad, x.state);
    }
  }

  lemma {:induction false} TargetsIn(c: Ctx, targets: seq<Target>, value: Expr, plain: bool)
    requires (plain ==> AllPlain(targets)) && EventsIn(c, TargetEvents(targets, value, plain))
    ensures forall t :: t in targets ==> TargetNames(t) <= Frame(c)
    decreases |targets|
  {
    if targets != [] {
      assert targets[0] in targets;
      assert TargetEvents(targets, value, plain)[0] in TargetEvents(targets, value, plain);
      TargetsIn(c, targets[1..], value, plain);
    }
  }

  lemma {:induction false} AssignRunEnds(c: Ctx, s: Stmt, env: Env, o: Oracle)
    requires s.Assign? || s.AnnAssign?
    requires Knows(c) && InFrame(c, env) && EventsIn(c, StmtEvents(s))
    ensures RunFits(c, StmtEnds(c, s, StateOf(c.judge, env)), RunStmt(c.at, s, env, o))
    decreases |o|, s, 6
  {
    if s.Assign? {
      TargetsIn(c, s.targets, s.value, AllPlain(s.targets));
      StoreRunEnds(c, s.targets, s.value, env, o);
    } else if s.init.Some? {
      assert StmtEvents(s)[0] in StmtEvents(s);
      assert TargetNames(s.target) <= Frame(c);
      StoreRunEnds(c, [s.target], s.init.value, env, o);
    }
  }

  lemma {:induction false} StmtRunEnds(c: Ctx, s: Stmt, env: Env, o: Oracle)
    requires Knows(c) && InFrame(c, env) && EventsIn(c, StmtEvents(s))
    ensures RunFits(c, StmtEnds(c, s, StateOf(c.judge, env)), RunStmt(c.at, s, env, o))
    decreases |o|, s, 7
  {
    match s
    case Assign(_, _) => AssignRunEnds(c, s, env, o);
    case AnnAssign(_, _) => AssignRunEnds(c, s, env, o);
    case While(_, _, _) => LoopRunEnds(c, s, env, o);
    case Try(_, _, _, _) => TryRunEnds(c, s, env, o);
    case Return(_, result) => if result.Some? { EvalEnds(c, result.value, env, o); }
    case Raise(_) => RaiseRunEnds(c, s, env, o);
    case Pass =>
    case Break =>
    case Continue =>
    case _ => ValueRunEnds(c, s, env, o);
  }

  lemma {:induction false} RaiseRunEnds(c: Ctx, s: Stmt, env: Env, o: Oracle)
    requires s.Raise? && Knows(c) && InFrame(c, env) && EventsIn(c, StmtEvents(s))
    ensures RunFits(c, StmtEnds(c, s, StateOf(c.judge, env)), RunStmt(c.at, s, env, o))
    decreases |o|, s, 6
  {
    if s.exception.Some? {
      EvalEnds(c, s.exception.value, env, o);
      var r := EvalExpr(c.at, s.exception.value, env, o);
      if r.Val? {
        var x := Eval1(Yields(Bad(c.judge, r.v)), StateOf(c.judge, r.env));
        assert x in ExprEnds(c, s.exception.value, StateOf(c.judge, env));
        assert r.rest != [] ==> Ending(Throws(r.rest[0].ordinary), x.state) in AnyThrow(x.state);
      }
    }
  }

  lemma {:induction false} ValueRunEnds(c: Ctx, s: Stmt, env: Env, o: Oracle)
    requires HasValue(s) && Knows(c) && InFrame(c, env) && EventsIn(c, StmtEvents(s))
    ensures RunFits(c, StmtEnds(c, s, StateOf(c.judge, env)), RunStmt(c.at, s, env, o))
    decreases |o|, s, 6
  {
    assert EventsIn(c, ExprEvents(s.value));
    EvalEnds(c, s.value, env, o);
    var r := EvalExpr(c.at, s.value, env, o);
    if r.Val? {
      AfterRunEnds(c, s, r.env, r.rest);
      var a := StateOf(c.judge, env);
      assert Eval1(Yields(Bad(c.judge, r.v)), StateOf(c.judge, r.env)) in ExprEnds(c, s.value, a);
    }
  }

  lemma {:induction false} AfterRunEnds(c: Ctx, s: Stmt, env: Env, o: Oracle)
    requires HasValue(s) && Knows(c) && InFrame(c, env) && EventsIn(c, StmtEvents(s))
    ensures RunFits(c, AfterEnds(c, s, StateOf(c.judge, env)), RunAfter(c.at, s, env, o))
    decreases |o|, s, 5
  {
    match s
    case For(_, _, _, _) => LoopRunEnds(c, s, env, o);
    case ExprStmt(_) =>
    case If(value, body, orelse) =>
      if o != [] {
        assert EventsIn(c, BlockEvents(body)) && EventsIn(c, BlockEvents(orelse));
        assert Branch(value, o[0].go) in Ways(value);
        BlockRunEnds(c, if Branch(value, o[0].go) then body else orelse, env, o[1..]);
      }
    case Rebind(names, _) =>
      assert Poison(names) in StmtEvents(s);
      if o != [] { HavocState(c.judge, env, names, o[0].upd); }
    case With(_, _, _) => WithRunEnds(c, s, env, o);
  }

  lemma {:induction false} LeaveRunEnds(c: Ctx, r: Run)
    requires r.Done? && InFrame(c, r.env)
    ensures RunFits(c, LeaveEnds(EndingOf(c.judge, r)), LeaveWith(r))
  {
  }

  lemma {:induction false} WithRunEnds(c: Ctx, s: Stmt, env: Env, o: Oracle)
    requires s.With? && Knows(c) && InFrame(c, env) && EventsIn(c, StmtEvents(s))
    ensures RunFits(c, AfterEnds(c, s, StateOf(c.judge, env)), RunAfter(c.at, s, env, o))
    decreases |o|, s, 4
  {
    assert Poison(s.names) in StmtEvents(s);
    if o != [] && !o[0].fail {
      var env2 := Havoc(env, s.names, o[0].upd);
      var b := StateOf(c.judge, env2);
      HavocState(c.judge, env, s.names, o[0].upd);
      assert EventsIn(c, BlockEvents(s.body));
      BlockRunEnds(c, s.body, env2, o[1..]);
      var r := RunBlock(c.at, s.body, env2, o[1..]);
      if r.Done? {
        LeaveRunEnds(c, r);
        assert EndingOf(c.judge, r) in BlockEnds(c, s.body, b);
      }
    }
  }

  // ----- loops -----

  /** The endings of a loop that may stand at its head in any of these states. */
  ghost predicate LoopFits(c: Ctx, s: Stmt, heads: set<State>, r: Run)
    requires IsLoop(s)
  {
    r.Done? ==> InFrame(c, r.env) && exists h :: h in heads && EndingOf(c.judge, r) in ExitEnds(c, s, h)
  }

  ghost predicate HeadsClosed(c: Ctx, s: Stmt, heads: set<State>)
    requires IsLoop(s)
  {
    NextHeads(c, s, heads) * States(c.judge, Frame(c)) <= heads
  }

  lemma {:induction false} LoopRunEnds(c: Ctx, s: Stmt, env: Env, o: Oracle)
    requires IsLoop(s) && Knows(c) && InFrame(c, env) && EventsIn(c, StmtEvents(s))
    ensures RunFits(c, LoopEnds(c, s, StateOf(c.judge, env)), RunLoop(c.at, s, env, o))
    decreases |o|, s, 4
  {
    HeadRunEnds(c, s, Heads(c, s, {StateOf(c.judge, env)}), env, o);
  }

  lemma {:induction false} HeadRunEnds(c: Ctx, s: Stmt, heads: set<State>, env: Env, o: Oracle)
    requires IsLoop(s) && Knows(c) && InFrame(c, env) && EventsIn(c, StmtEvents(s))
    requires HeadsClosed(c, s, heads) && StateOf(c.judge, env) in heads
    ensures LoopFits(c, s, heads, RunLoop(c.at, s, env, o))
    decreases |o|, s, 3
  {
    if s.For? {
      TurnRunEnds(c, s, heads, StateOf(c.judge, env), env, o);
    } else {
      assert EventsIn(c, ExprEvents(s.value));
      EvalEnds(c, s.value, env, o);
      var r := EvalExpr(c.at, s.value, env, o);
      if r.Val? { TurnRunEnds(c, s, heads, StateOf(c.judge, env), r.env, r.rest); }
    }
  }

  lemma {:induction false} TurnRunEnds(c: Ctx, s: Stmt, heads: set<State>, h: State, env: Env, o: Oracle)
    requires IsLoop(s) && Knows(c) && InFrame(c, env) && EventsIn(c, StmtEvents(s))
    requires HeadsClosed(c, s, heads) && h in heads && StateOf(c.judge, env) in Decisions(c, s, h)
    ensures LoopFits(c, s, heads, RunTurn(c.at, s, env, o))
    decreases |o|, s, 2
  {
    if o != [] && !(s.For? && o[0].fail) {
      var go := if s.For? then o[0].go else Branch(s.value, o[0].go);
      assert go in Turns(s);
      assert EventsIn(c, BlockEvents(s.body)) && EventsIn(c, BlockEvents(s.orelse));
      if go {
        BodyRunEnds(c, s, heads, h, env, o);
      } else {
        BlockRunEnds(c, s.orelse, env, o[1..]);
      }
    }
  }

  /** The values a turn of the body begins with. */
  ghost function TurnEnv(s: Stmt, env: Env, x: Choice): Env
    requires IsLoop(s)
  {
    if s.For? then Havoc(env, s.names, x.upd) else env
  }

  lemma {:induction false} OneTurnEnds(c: Ctx, s: Stmt, h: State, env: Env, o: Oracle)
    requires IsLoop(s) && Knows(c) && InFrame(c, env) && EventsIn(c, StmtEvents(s))
    requires StateOf(c.judge, env) in Decisions(c, s, h) && o != [] && true in Turns(s)
    ensures RunFits(c, BodyEnds(c, s, h), RunBlock(c.at, s.body, TurnEnv(s, env, o[0]), o[1..]))
    decreases |o|, s, 0
  {
    var env2 := TurnEnv(s, env, o[0]);
    if s.For? {
      assert Poison(s.names) in StmtEvents(s);
      HavocState(c.judge, env, s.names, o[0].upd);
    }
    assert EventsIn(c, BlockEvents(s.body));
    BlockRunEnds(c, s.body, env2, o[1..]);
    var d, b := StateOf(c.judge, env), StateOf(c.judge, env2);
    var r := RunBlock(c.at, s.body, env2, o[1..]);
    assert b in (if s.For? then Shuffles(c.judge, d, s.names) else {d});
    assert r.Done? ==> EndingOf(c.judge, r) in BlockEnds(c, s.body, b);
  }

  /** How a loop goes on after the run `r` of its body. */
  ghost function AfterTurn(at: At, s: Stmt, r: Run): Run
    requires IsLoop(s)
  {
    if r.Cut? then Cut
    else if r.out.Normal? || r.out == Jumped(false) then RunLoop(at, s, r.env, r.rest)
    else Done(if r.out == Jumped(true) then Normal else r.out, r.env, r.rest)
  }

  lemma {:induction false} TakeTurn(at: At, s: Stmt, env: Env, o: Oracle)
    requires IsLoop(s) && o != [] && !(s.For? && o[0].fail) && (if s.For? then o[0].go else Branch(s.value, o[0].go))
    ensures RunTurn(at, s, env, o) == AfterTurn(at, s, RunBlock(at, s.body, TurnEnv(s, env, o[0]), o[1..]))
  {
  }

  lemma {:induction false} BodyRunEnds(c: Ctx, s: Stmt, heads: set<State>, h: State, env: Env, o: Oracle)
    requires IsLoop(s) && Knows(c) && InFrame(c, env) && EventsIn(c, StmtEvents(s))
    requires HeadsClosed(c, s, heads) && h in heads && StateOf(c.judge, env) in Decisions(c, s, h)
    requires o != [] && !(s.For? && o[0].fail) && (if s.For? then o[0].go else Branch(s.value, o[0].go))
    ensures LoopFits(c, s, heads, RunTurn(c.at, s, env, o))
    decreases |o|, s, 1
  {
    OneTurnEnds(c, s, h, env, o);
    TakeTurn(c.at, s, env, o);
    var r := RunBlock(c.at, s.body, TurnEnv(s, env, o[0]), o[1..]);
    if r.Done? {
      var x := EndingOf(c.judge, r);
      if GoesOn(x.end) {
        BackAtHead(c, s, heads, h, r);
        HeadRunEnds(c, s, heads, r.env, r.rest);
      } else {
        TurnedOut(c, s, heads, h, r);
      }
    }
  }

  lemma {:induction false} TurnedOut(c: Ctx, s: Stmt, heads: set<State>, h: State, r: Run)
    requires IsLoop(s) && h in heads && r.Done? && InFrame(c, r.env)
    requires EndingOf(c.judge, r) in BodyEnds(c, s, h) && !GoesOn(EndOf(c.judge, r.out))
    ensures LoopFits(c, s, heads, AfterTurn(c.at, s, r))
  {
    var x := EndingOf(c.judge, r);
    assert LoopExit(x) in ExitEnds(c, s, h);
  }

  lemma {:induction false} BackAtHead(c: Ctx, s: Stmt, heads: set<State>, h: State, r: Run)
    requires IsLoop(s) && HeadsClosed(c, s, heads) && h in heads && r.Done? && InFrame(c, r.env)
    requires EndingOf(c.judge, r) in BodyEnds(c, s, h) && GoesOn(EndOf(c.judge, r.out))
    ensures StateOf(c.judge, r.env) in heads
  {
    StateIn(c, r.env);
    var x := EndingOf(c.judge, r);
    assert x.state in NextHeads(c, s, heads);
  }

  // ----- try -----

  lemma {:induction false} TryRunEnds(c: Ctx, s: Stmt, env: Env, o: Oracle)
    requires s.Try? && Knows(c) && InFrame(c, env) && EventsIn(c, StmtEvents(s))
    ensures RunFits(c, StmtEnds(c, s, StateOf(c.judge, env)), RunStmt(c.at, s, env, o))
    decreases |o|, s, 6
  {
    GuardedRunEnds(c, s, env, o);
    var r := RunGuarded(c.at, s, env, o);
    if r.Done? {
      var x := EndingOf(c.judge, r);
      var inner := if r.out.Raised? then c.(at := Handling(c.at, r.out.ordinary)) else c;
      assert EventsIn(inner, BlockEvents(s.finalbody));
      BlockRunEnds(inner, s.finalbody, r.env, r.rest);
      var r2 := RunTry(c.at, s, env, o);
      assert r2.Done? ==> EndingOf(c.judge, r2) in FinallyEnds(c, s.finalbody, x);
    }
  }

  lemma {:induction false} GuardedRunEnds(c: Ctx, s: Stmt, env: Env, o: Oracle)
    requires s.Try? && Knows(c) && InFrame(c, env) && EventsIn(c, StmtEvents(s))
    ensures RunFits(c, GuardedEnds(c, s, StateOf(c.judge, env)), RunGuarded(c.at, s, env, o))
    decreases |o|, s, 5
  {
    assert EventsIn(c, BlockEvents(s.body)) && EventsIn(c, HandlerEvents(s.handlers));
    assert EventsIn(c, BlockEvents(s.orelse));
    BlockRunEnds(c, s.body, env, o);
    var r := RunBlock(c.at, s.body, env, o);
    if r.Done? {
      if r.out.Normal? { BlockRunEnds(c, s.orelse, r.env, r.rest); }
      if r.out.Raised? { HandlersRunEnd(c, s.handlers, r.out.ordinary, r.out.origin, r.env, r.rest); }
      var r2 := RunGuarded(c.at, s, env, o);
      assert r2.Done? ==> EndingOf(c.judge, r2) in PastBody(c, s, EndingOf(c.judge, r));
    }
  }

  lemma {:induction false} HandlersRunEnd(c: Ctx, hs: seq<Handler>, ordinary: bool, origin: Origin, env: Env, o: Oracle)
    requires Knows(c) && InFrame(c, env) && EventsIn(c, HandlerEvents(hs))
    ensures RunFits(c, HandlersEnds(c, hs, ordinary, StateOf(c.judge, env)),
                    RunHandlers(c.at, hs, ordinary, origin, env, o))
    decreases |o|, hs, 0
  {
    if hs != [] && o != [] {
      assert EventsIn(c, HandlerEvents(hs[1..]));
      if Takes(c.at, hs[0], ordinary, o[0].go) {
        HandlerNames(c, hs);
        HandlerRunEnds(c, hs[0], ordinary, env, o[1..]);
      } else {
        HandlersRunEnd(c, hs[1..], ordinary, origin, env, o[1..]);
      }
    }
  }

  lemma {:induction false} HandlerNames(c: Ctx, hs: seq<Handler>)
    requires hs != [] && EventsIn(c, HandlerEvents(hs))
    ensures EventsIn(c, BlockEvents(hs[0].body)) && OptionSet(hs[0].bound) <= Frame(c)
  {
    if hs[0].bound.Some? { assert Poison({hs[0].bound.value}) in HandlerEvents(hs); }
  }

  lemma {:induction false} HandlerRunEnds(c: Ctx, h: Handler, ordinary: bool, env: Env, o: Oracle)
    requires Knows(c) && InFrame(c, env)
    requires EventsIn(c, BlockEvents(h.body)) && OptionSet(h.bound) <= Frame(c)
    ensures RunFits(c, HandlerEnds(c, h, ordinary, StateOf(c.judge, env)), RunHandler(c.at, h, ordinary, env, o))
    decreases |o|, h, 0
  {
    var inner, env1 := c.(at := Handling(c.at, ordinary)), EnterHandler(h, env);
    if h.bound.Some? { PutState(c.judge, env, h.bound.value, OtherV); }
    assert EventsIn(inner, BlockEvents(h.body));
    BlockRunEnds(inner, h.body, env1, o);
    var r := RunBlock(inner.at, h.body, env1, o);
    if r.Done? && h.bound.Some? { DropState(c.judge, r.env, h.bound.value); }
  }
}
