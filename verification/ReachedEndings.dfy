/** Every ending that `Endings` computes is reached by a run, under an oracle built here. */
module ReachedEndings {
  import opened MiniPython
  import opened OwnNodes
  import opened PythonRuns
  import opened Endings
  import opened RunsEnd

  // ----- values and choices -----

  /** A number above all of these. */
  lemma {:induction false} Above(s: set<int>) returns (n: int)
    ensures forall x :: x in s ==> x < n
    decreases |s|
  {
    if x :| x in s {
      n := Above(s - {x});
      n := if n <= x then x + 1 else n;
      assert forall y :: y in s ==> y == x || y in s - {x};
    } else {
      n := 0;
    }
  }

  lemma {:induction false} Member<T>(s: set<T>) returns (x: T)
    requires s != {}
    ensures x in s
  {
    x :| x in s;
  }

  lemma {:induction false} Sample(j: Judge, bad: bool) returns (v: Value)
    requires Occurs(j, bad)
    ensures Bad(j, v) == bad
  {
    if j.none == !bad {
      v := NoneV(false);
    } else if j.other == !bad {
      v := OtherV;
    } else if bad {
      var n := Above(j.numbers.value);
      v := IntV(n);
    } else if j.numbers.Some? {
      var n := Member(j.numbers.value);
      v := IntV(n);
    } else {
      v := IntV(0);
    }
  }

  /** Values for these names, of which `bad` are to be bad ones. */
  lemma {:induction false} Values(j: Judge, names: set<Name>, bad: set<Name>) returns (upd: Env)
    requires bad <= names && (bad != {} ==> Occurs(j, true)) && (bad != names ==> Occurs(j, false))
    ensures upd.Keys == names && forall x :: x in names ==> (Bad(j, upd[x]) <==> x in bad)
  {
    var worse, better := OtherV, OtherV;
    if bad != {} { worse := Sample(j, true); }
    if bad != names { better := Sample(j, false); }
    upd := map x | x in names :: if x in bad then worse else better;
    if x :| x in names && x !in bad { assert bad != names; }
  }

  lemma {:induction false} ShufflePick(j: Judge, env: Env, names: set<Name>, b: State) returns (upd: Env)
    requires b in Shuffles(j, StateOf(j, env), names)
    ensures StateOf(j, Havoc(env, names, upd)) == b
  {
    var a := StateOf(j, env);
    var X, Y :| X <= names && Y <= X && (Y != {} ==> Occurs(j, true)) && (Y != X ==> Occurs(j, false))
      && b == State((a.bound - names) + X, (a.bad - names) + Y);
    upd := Values(j, X, Y);
  }

  lemma {:induction false} EntryPick(j: Judge, f: FuncDef, a: State) returns (upd: Env)
    requires a in Entries(j, f)
    ensures StateOf(j, Enter(f, upd)) == a
  {
    var none: Env := map[];
    assert StateOf(j, none) == NOTHING_BOUND;
    upd := ShufflePick(j, none, Params(f) + f.hidden, a);
    assert Havoc(none, Params(f) + f.hidden, upd) == Enter(f, upd);
  }

  /** A choice that fails or not, with this value and these values for unmodelled names. */
  function Pick(go: bool, v: Value, upd: Env): Choice { Choice(false, false, go, v, upd) }

  function Failing1(ordinary: bool, upd: Env): Choice { Choice(true, ordinary, false, OtherV, upd) }

  lemma {:induction false} OneAhead(c: Choice, pre: Oracle, rest: Oracle)
    ensures ([c] + pre) + rest != [] && (([c] + pre) + rest)[0] == c && (([c] + pre) + rest)[1..] == pre + rest
  {
  }

  // ----- what an oracle leads to, whatever follows it -----

  function Later(r: Eval, rest: Oracle): Eval
  {
    match r
    case Val(v, env, _) => Val(v, env, rest)
    case Exn(ordinary, origin, env, _) => Exn(ordinary, origin, env, rest)
    case EvalCut => EvalCut
  }

  ghost predicate ExprLeads(at: At, e: Expr, env: Env, pre: Oracle, r: Eval)
  {
    forall rest: Oracle :: EvalExpr(at, e, env, pre + rest) == Later(r, rest)
  }

  ghost predicate IsEval(j: Judge, r: Eval, x: Eval1)
  {
    !r.EvalCut? && OutOfEval(j, r) == x.out && StateOf(j, r.env) == x.state
  }

  function ArgsLater(r: ArgRun, rest: Oracle): ArgRun
  {
    match r
    case ArgsDone(env, _) => ArgsDone(env, rest)
    case ArgsExn(ordinary, env, _) => ArgsExn(ordinary, env, rest)
    case ArgsCut => ArgsCut
  }

  ghost predicate ArgsLead(at: At, args: seq<Expr>, env: Env, pre: Oracle, r: ArgRun)
  {
    forall rest: Oracle :: EvalArgs(at, args, env, pre + rest) == ArgsLater(r, rest)
  }

  ghost predicate IsArgs(j: Judge, r: ArgRun, x: ArgsEnd)
  {
    !r.ArgsCut? && x.failed == (if r.ArgsExn? then Some(r.ordinary) else None) && StateOf(j, r.env) == x.state
  }

  function CallLater(r: CallRun, rest: Oracle): CallRun
  {
    match r
    case Result(v, _) => Result(v, rest)
    case Escaped(ordinary, origin, _) => Escaped(ordinary, origin, rest)
    case CallCut => CallCut
  }

  ghost predicate IsCall(j: Judge, r: CallRun, out: Out)
  {
    match r
    case Result(v, _) => out == Yields(Bad(j, v))
    case Escaped(ordinary, _, _) => out == Fails(ordinary)
    case CallCut => false
  }

  ghost predicate FunctionLeads(p: Program, path: Path, f: FuncDef, pre: Oracle, r: CallRun)
  {
    forall rest: Oracle :: RunFunction(p, path, f, pre + rest) == CallLater(r, rest)
  }

  ghost predicate InvokeLeads(p: Program, path: Path, callee: Name, pre: Oracle, r: CallRun)
  {
    forall rest: Oracle :: Invoke(p, path, callee, pre + rest) == CallLater(r, rest)
  }

  /** The function has a run that ends so. */
  ghost predicate Realised(p: Program, j: Judge, path: Path, f: FuncDef, out: Out)
  {
    exists pre, r :: FunctionLeads(p, path, f, pre, r) && IsCall(j, r, out)
  }

  ghost predicate AllRealised(p: Program, j: Judge, facts: set<Fact>)
  {
    forall x :: x in facts ==> Realised(p, j, x.path, x.f, x.out)
  }

  ghost predicate Grounded(c: Ctx) { AllRealised(c.at.p, c.judge, c.facts) }

  function Onward(r: Run, rest: Oracle): Run
  {
    match r case Done(out, env, _) => Done(out, env, rest) case Cut => Cut
  }

  ghost predicate IsEnding(j: Judge, r: Run, x: Ending) { r.Done? && EndingOf(j, r) == x }

  ghost predicate StmtLeads(at: At, s: Stmt, env: Env, pre: Oracle, r: Run)
  {
    forall rest: Oracle :: RunStmt(at, s, env, pre + rest) == Onward(r, rest)
  }

  ghost predicate BlockLeads(at: At, body: seq<Stmt>, env: Env, pre: Oracle, r: Run)
  {
    forall rest: Oracle :: RunBlock(at, body, env, pre + rest) == Onward(r, rest)
  }

  ghost predicate StoreLeads(at: At, targets: seq<Target>, value: Expr, env: Env, pre: Oracle, r: Run)
  {
    forall rest: Oracle :: RunStore(at, targets, value, env, pre + rest) == Onward(r, rest)
  }

  ghost predicate TargetsLead(targets: seq<Target>, v: Value, env: Env, pre: Oracle, r: Run)
  {
    forall rest: Oracle :: RunTargets(targets, v, env, pre + rest) == Onward(r, rest)
  }

  ghost predicate AfterLeads(at: At, s: Stmt, env: Env, pre: Oracle, r: Run)
    requires HasValue(s)
  {
    forall rest: Oracle :: RunAfter(at, s, env, pre + rest) == Onward(r, rest)
  }

  ghost predicate LoopLeads(at: At, s: Stmt, env: Env, pre: Oracle, r: Run)
    requires IsLoop(s)
  {
    forall rest: Oracle :: RunLoop(at, s, env, pre + rest) == Onward(r, rest)
  }

  ghost predicate GuardedLeads(at: At, s: Stmt, env: Env, pre: Oracle, r: Run)
    requires s.Try?
  {
    forall rest: Oracle :: RunGuarded(at, s, env, pre + rest) == Onward(r, rest)
  }

  ghost predicate HandlersLead(at: At, hs: seq<Handler>, ordinary: bool, origin: Origin, env: Env, pre: Oracle, r: Run)
  {
    forall rest: Oracle :: RunHandlers(at, hs, ordinary, origin, env, pre + rest) == Onward(r, rest)
  }

  ghost predicate HandlerLeads(at: At, h: Handler, ordinary: bool, env: Env, pre: Oracle, r: Run)
  {
    forall rest: Oracle :: RunHandler(at, h, ordinary, env, pre + rest) == Onward(r, rest)
  }

  // ----- expressions -----

  /** An expression evaluated ahead of what `pre2` decides. */
  lemma {:induction false} EvalFirst(at: At, e: Expr, env: Env, pre1: Oracle, v: Eval, pre2: Oracle, rest: Oracle)
    requires ExprLeads(at, e, env, pre1, v)
    ensures EvalExpr(at, e, env, (pre1 + pre2) + rest) == Later(v, pre2 + rest)
  {
    assert (pre1 + pre2) + rest == pre1 + (pre2 + rest);
  }

  lemma {:induction false} ExprRun(c: Ctx, e: Expr, env: Env, x: Eval1) returns (pre: Oracle, r: Eval)
    requires Grounded(c) && x in ExprEnds(c, e, StateOf(c.judge, env))
    ensures ExprLeads(c.at, e, env, pre, r) && IsEval(c.judge, r, x)
    decreases e, 3
  {
    match e
    case Ref(id) => pre, r := RefRun(c, id, env, x);
    case Cond(_, _, _) => pre, r := CondRun(c, e, env, x);
    case Opaque(_) => pre, r := OpaqueRun(c, e, env, x);
    case Call(_, _, _) => pre, r := CallExprRun(c, e, env, x);
    case _ => pre, r := [], EvalExpr(c.at, e, env, []);
  }

  lemma {:induction false} AnythingPick(j: Judge, out: Out) returns (v: Value)
    requires out in Anything(j)
    ensures out == Yields(Bad(j, v))
  {
    v := Sample(j, out.bad);
  }

  lemma {:induction false} RefRun(c: Ctx, id: Name, env: Env, x: Eval1) returns (pre: Oracle, r: Eval)
    requires x in ExprEnds(c, Ref(id), StateOf(c.judge, env))
    ensures ExprLeads(c.at, Ref(id), env, pre, r) && IsEval(c.judge, r, x)
  {
    var g := GlobalOf(c.at.p, c.at.path, id);
    if id in Frame(c) || g.IntGlobal? || g.DefGlobal? {
      pre, r := [], EvalExpr(c.at, Ref(id), env, []);
    } else {
      var v := OtherV;
      if x.out.Yields? { v := AnythingPick(c.judge, x.out); }
      var y := if x.out.Fails? then Failing1(true, map[]) else Pick(false, v, map[]);
      pre, r := [y], EvalExpr(c.at, Ref(id), env, [y]);
      forall rest: Oracle ensures EvalExpr(c.at, Ref(id), env, pre + rest) == Later(r, rest) { OneAhead(y, [], rest); }
    }
  }

  lemma {:induction false} OpaqueRun(c: Ctx, e: Expr, env: Env, x: Eval1) returns (pre: Oracle, r: Eval)
    requires e.Opaque? && x in ExprEnds(c, e, StateOf(c.judge, env))
    ensures ExprLeads(c.at, e, env, pre, r) && IsEval(c.judge, r, x)
  {
    var upd := ShufflePick(c.judge, env, e.binds + c.at.f.hidden, x.state);
    var v := OtherV;
    if x.out.Yields? { v := AnythingPick(c.judge, x.out); }
    var y := if x.out.Fails? then Failing1(x.out.ordinary, upd) else Pick(false, v, upd);
    pre, r := [y], EvalExpr(c.at, e, env, [y]);
    forall rest: Oracle ensures EvalExpr(c.at, e, env, pre + rest) == Later(r, rest) { OneAhead(y, [], rest); }
  }

  lemma {:induction false} CondRun(c: Ctx, e: Expr, env: Env, x: Eval1) returns (pre: Oracle, r: Eval)
    requires e.Cond? && Grounded(c) && x in ExprEnds(c, e, StateOf(c.judge, env))
    ensures ExprLeads(c.at, e, env, pre, r) && IsEval(c.judge, r, x)
    decreases e, 0
  {
    var first := ExprEnds(c, e.test, StateOf(c.judge, env));
    if x in Failing(first) {
      pre, r := ExprRun(c, e.test, env, x);
    } else {
      var t, go :| t in first && t.out.Yields? && go in Ways(e.test)
        && x in ExprEnds(c, if go then e.body else e.orelse, t.state);
      var pre1, r1 := ExprRun(c, e.test, env, t);
      var pre2, r2 := ExprRun(c, if go then e.body else e.orelse, r1.env, x);
      var y := Pick(go, OtherV, map[]);
      assert Branch(e.test, y.go) == go;
      pre, r := pre1 + ([y] + pre2), r2;
      forall rest: Oracle ensures EvalExpr(c.at, e, env, pre + rest) == Later(r, rest) {
        EvalFirst(c.at, e.test, env, pre1, r1, [y] + pre2, rest);
        OneAhead(y, pre2, rest);
      }
    }
  }

  lemma {:induction false} ArgsRun(c: Ctx, args: seq<Expr>, env: Env, x: ArgsEnd) returns (pre: Oracle, r: ArgRun)
    requires Grounded(c) && x in ArgsEnds(c, args, StateOf(c.judge, env))
    ensures ArgsLead(c.at, args, env, pre, r) && IsArgs(c.judge, r, x)
    decreases args, 0
  {
    if args == [] {
      pre, r := [], ArgsDone(env, []);
    } else {
      var first := ExprEnds(c, args[0], StateOf(c.judge, env));
      if x.failed.Some? && Eval1(Fails(x.failed.value), x.state) in first {
        var pre1, v := ExprRun(c, args[0], env, Eval1(Fails(x.failed.value), x.state));
        pre, r := pre1, ArgsExn(v.ordinary, v.env, []);
      } else {
        var t :| t in first && t.out.Yields? && x in ArgsEnds(c, args[1..], t.state);
        var pre1, v := ExprRun(c, args[0], env, t);
        var pre2, r2 := ArgsRun(c, args[1..], v.env, x);
        pre, r := pre1 + pre2, r2;
        forall rest: Oracle ensures EvalArgs(c.at, args, env, pre + rest) == ArgsLater(r, rest) {
          EvalFirst(c.at, args[0], env, pre1, v, pre2, rest);
        }
      }
    }
  }

  lemma {:induction false} InvokeRun(c: Ctx, callee: Name, args: nat, keywords: seq<Name>, out: Out)
    returns (pre: Oracle, r: CallRun)
    requires Grounded(c) && callee !in Frame(c) && Fits(GlobalOf(c.at.p, c.at.path, callee), args, keywords)
    requires out in CallOuts(c, callee, args, keywords)
    ensures InvokeLeads(c.at.p, c.at.path, callee, pre, r) && IsCall(c.judge, r, out)
  {
    var g := GlobalOf(c.at.p, c.at.path, callee);
    if g.DefGlobal? && g.f.direct {
      assert Fact(g.path, g.f, out) in c.facts;
      pre, r :| FunctionLeads(c.at.p, g.path, g.f, pre, r) && IsCall(c.judge, r, out);
      forall rest: Oracle ensures Invoke(c.at.p, c.at.path, callee, pre + rest) == CallLater(r, rest) {
        assert RunFunction(c.at.p, g.path, g.f, pre + rest) == CallLater(r, rest);
      }
    } else {
      var v := OtherV;
      if out.Yields? { v := AnythingPick(c.judge, out); }
      var y := if out.Fails? then Failing1(out.ordinary, map[]) else Pick(false, v, map[]);
      pre, r := [y], if out.Fails? then Escaped(out.ordinary, Unguarded, []) else Result(v, []);
      forall rest: Oracle ensures Invoke(c.at.p, c.at.path, callee, pre + rest) == CallLater(r, rest) {
        OneAhead(y, [], rest);
      }
    }
  }

  lemma {:induction false} CallExprRun(c: Ctx, e: Expr, env: Env, x: Eval1) returns (pre: Oracle, r: Eval)
    requires e.Call? && Grounded(c) && x in ExprEnds(c, e, StateOf(c.judge, env))
    ensures ExprLeads(c.at, e, env, pre, r) && IsEval(c.judge, r, x)
    decreases e, 2
  {
    if e.callee in Frame(c) && e.callee !in env {
      pre, r := [], EvalExpr(c.at, e, env, []);
    } else {
      var ended := ArgsEnds(c, e.args, StateOf(c.judge, env));
      if x.out.Fails? && ArgsEnd(Some(x.out.ordinary), x.state) in ended {
        var pre1, a := ArgsRun(c, e.args, env, ArgsEnd(Some(x.out.ordinary), x.state));
        pre, r := pre1, Exn(a.ordinary, InArguments(c.at.path, c.at.f, e), a.env, []);
        forall rest: Oracle ensures EvalExpr(c.at, e, env, pre + rest) == Later(r, rest) {
          assert EvalArgs(c.at, e.args, env, pre1 + rest) == ArgsLater(a, rest);
        }
      } else {
        var a := StateOf(c.judge, env);
        var t :| t in ended && t.failed.None? && x.state in Shuffles(c.judge, t.state, c.at.f.hidden)
          && x.out in CallOuts(c, e.callee, |e.args|, e.keywords);
        pre, r := BoundCallRun(c, e, env, t, x);
      }
    }
  }

  /** The call comes to `x` once its arguments have ended with `t`. */
  predicate ComesTo(c: Ctx, e: Expr, a: State, t: ArgsEnd, x: Eval1)
    requires e.Call?
  {
    t in ArgsEnds(c, e.args, a) && t.failed.None?
    && x.state in Shuffles(c.judge, t.state, c.at.f.hidden) && x.out in CallOuts(c, e.callee, |e.args|, e.keywords)
  }

  /** A call whose arguments are all evaluated. */
  lemma {:induction false} BoundCallRun(c: Ctx, e: Expr, env: Env, t: ArgsEnd, x: Eval1) returns (pre: Oracle, r: Eval)
    requires e.Call? && Grounded(c) && (e.callee in Frame(c) ==> e.callee in env)
    requires ComesTo(c, e, StateOf(c.judge, env), t, x)
    ensures ExprLeads(c.at, e, env, pre, r) && IsEval(c.judge, r, x)
    decreases e, 1
  {
    var pre1, a := ArgsRun(c, e.args, env, t);
    var pre2, r2 := CalledRun(c, e, a.env, x);
    pre, r := pre1 + pre2, r2;
    forall rest: Oracle ensures EvalExpr(c.at, e, env, pre + rest) == Later(r, rest) {
      ArgsFirst(c.at, e, env, pre1, a, pre2, rest);
      assert RunCall(c.at, e, a.env, pre2 + rest) == Later(r2, rest);
    }
  }

  /** Arguments evaluated ahead of what `pre2` decides. */
  lemma {:induction false} ArgsFirst(at: At, e: Expr, env: Env, pre1: Oracle, a: ArgRun, pre2: Oracle, rest: Oracle)
    requires e.Call? && (e.callee in LocalNames(at.f) ==> e.callee in env)
    requires ArgsLead(at, e.args, env, pre1, a) && a.ArgsDone?
    ensures EvalExpr(at, e, env, (pre1 + pre2) + rest) == RunCall(at, e, a.env, pre2 + rest)
  {
    assert (pre1 + pre2) + rest == pre1 + (pre2 + rest);
    assert EvalArgs(at, e.args, env, pre1 + (pre2 + rest)) == ArgsLater(a, pre2 + rest);
  }

  lemma {:induction false} CalledRun(c: Ctx, e: Expr, env: Env, x: Eval1) returns (pre: Oracle, r: Eval)
    requires e.Call? && Grounded(c) && x.state in Shuffles(c.judge, StateOf(c.judge, env), c.at.f.hidden)
    requires x.out in CallOuts(c, e.callee, |e.args|, e.keywords)
    ensures IsEval(c.judge, r, x)
    ensures forall rest: Oracle :: RunCall(c.at, e, env, pre + rest) == Later(r, rest)
  {
    var upd := ShufflePick(c.judge, env, c.at.f.hidden, x.state);
    var env2 := Havoc(env, c.at.f.hidden, upd);
    if e.callee in Frame(c) {
      var v := OtherV;
      if x.out.Yields? { v := AnythingPick(c.judge, x.out); }
      var y := if x.out.Fails? then Failing1(x.out.ordinary, upd) else Pick(false, v, upd);
      pre, r := [y], if x.out.Fails? then Exn(x.out.ordinary, Unguarded, env2, []) else Val(v, env2, []);
      forall rest: Oracle ensures RunCall(c.at, e, env, pre + rest) == Later(r, rest) { OneAhead(y, [], rest); }
    } else {
      var y := Pick(false, OtherV, upd);
      if !Fits(GlobalOf(c.at.p, c.at.path, e.callee), |e.args|, e.keywords) {
        pre, r := [y], Exn(true, InArguments(c.at.path, c.at.f, e), env2, []);
        forall rest: Oracle ensures RunCall(c.at, e, env, pre + rest) == Later(r, rest) { OneAhead(y, [], rest); }
      } else {
        var pre2, k := InvokeRun(c, e.callee, |e.args|, e.keywords, x.out);
        pre := [y] + pre2;
        r := if k.Result? then Val(k.v, env2, []) else Exn(k.ordinary, k.origin, env2, []);
        forall rest: Oracle ensures RunCall(c.at, e, env, pre + rest) == Later(r, rest) {
          OneAhead(y, pre2, rest);
          assert Invoke(c.at.p, c.at.path, e.callee, pre2 + rest) == CallLater(k, rest);
        }
      }
    }
  }

  // ----- statements -----

  lemma {:induction false} BlockRun(c: Ctx, body: seq<Stmt>, env: Env, x: Ending) returns (pre: Oracle, r: Run)
    requires Grounded(c) && x in BlockEnds(c, body, StateOf(c.judge, env))
    ensures BlockLeads(c.at, body, env, pre, r) && IsEnding(c.judge, r, x)
    decreases body, 2
  {
    if body == [] {
      pre, r := [], Done(Normal, env, []);
    } else {
      var t :| t in StmtEnds(c, body[0], StateOf(c.judge, env)) && x in PastFirst(c, body, t);
      var pre1, r1 := StmtRun(c, body[0], env, t);
      if t.end.Falls? {
        var pre2, r2 := BlockRun(c, body[1..], r1.env, x);
        pre, r := pre1 + pre2, r2;
        forall rest: Oracle ensures RunBlock(c.at, body, env, pre + rest) == Onward(r, rest) {
          FirstThenRest(c.at, body, env, pre1, r1, pre2, r2, rest);
        }
      } else {
        pre, r := pre1, r1;
      }
    }
  }

  lemma {:induction false} FirstThenRest(at: At, body: seq<Stmt>, env: Env, pre1: Oracle, r1: Run, pre2: Oracle,
                                         r2: Run, rest: Oracle)
    requires body != [] && StmtLeads(at, body[0], env, pre1, r1) && r1.Done? && r1.out.Normal?
    requires BlockLeads(at, body[1..], r1.env, pre2, r2)
    ensures RunBlock(at, body, env, (pre1 + pre2) + rest) == Onward(r2, rest)
  {
    assert (pre1 + pre2) + rest == pre1 + (pre2 + rest);
  }

  lemma {:induction false} TargetsRun(j: Judge, targets: seq<Target>, v: Value, env: Env, x: Ending)
    returns (pre: Oracle, r: Run)
    requires x in TargetsEnds(j, targets, Bad(j, v), StateOf(j, env))
    ensures TargetsLead(targets, v, env, pre, r) && IsEnding(j, r, x)
    decreases |targets|
  {
    if targets == [] {
      pre, r := [], Done(Normal, env, []);
    } else if targets[0].NameTarget? {
      PutState(j, env, targets[0].id, v);
      pre, r := TargetsRun(j, targets[1..], v, env[targets[0].id := v], x);
    } else if x in AnyThrow(StateOf(j, env)) {
      var y := Failing1(x.end.ordinary, map[]);
      pre, r := [y], Done(Raised(x.end.ordinary, Unguarded), env, []);
      forall rest: Oracle ensures RunTargets(targets, v, env, pre + rest) == Onward(r, rest) { OneAhead(y, [], rest); }
    } else {
      var b :| b in Shuffles(j, StateOf(j, env), targets[0].names)
        && x in TargetsEnds(j, targets[1..], Bad(j, v), b);
      var upd := ShufflePick(j, env, targets[0].names, b);
      var y := Pick(false, OtherV, upd);
      var pre2, r2 := TargetsRun(j, targets[1..], v, Havoc(env, targets[0].names, upd), x);
      pre, r := [y] + pre2, r2;
      forall rest: Oracle ensures RunTargets(targets, v, env, pre + rest) == Onward(r, rest) {
        OneAhead(y, pre2, rest);
      }
    }
  }

  lemma {:induction false} StoreRun(c: Ctx, targets: seq<Target>, value: Expr, env: Env, x: Ending)
    returns (pre: Oracle, r: Run)
    requires Grounded(c) && x in StoreEnds(c, targets, value, StateOf(c.judge, env))
    ensures StoreLeads(c.at, targets, value, env, pre, r) && IsEnding(c.judge, r, x)
    decreases value, 2
  {
    var evals := ExprEnds(c, value, StateOf(c.judge, env));
    if x in Thrown(evals) {
      var pre1, v := ExprRun(c, value, env, Eval1(Fails(x.end.ordinary), x.state));
      pre, r := pre1, Done(Raised(v.ordinary, v.origin), v.env, []);
      forall rest: Oracle ensures RunStore(c.at, targets, value, env, pre + rest) == Onward(r, rest) {
        assert EvalExpr(c.at, value, env, pre1 + rest) == Later(v, rest);
      }
    } else {
      var t :| t in evals && t.out.Yields? && x in TargetsEnds(c.judge, targets, t.out.bad, t.state);
      var pre1, v := ExprRun(c, value, env, t);
      var pre2, r2 := TargetsRun(c.judge, targets, v.v, v.env, x);
      pre, r := pre1 + pre2, r2;
      forall rest: Oracle ensures RunStore(c.at, targets, value, env, pre + rest) == Onward(r, rest) {
        EvalFirst(c.at, value, env, pre1, v, pre2, rest);
        assert RunTargets(targets, v.v, v.env, pre2 + rest) == Onward(r2, rest);
      }
    }
  }

  lemma {:induction false} StmtRun(c: Ctx, s: Stmt, env: Env, x: Ending) returns (pre: Oracle, r: Run)
    requires Grounded(c) && x in StmtEnds(c, s, StateOf(c.judge, env))
    ensures StmtLeads(c.at, s, env, pre, r) && IsEnding(c.judge, r, x)
    decreases s, 10
  {
    match s
    case Assign(targets, value) =>
      pre, r := StoreRun(c, targets, value, env, x);
      assert StmtLeads(c.at, s, env, pre, r);
    case AnnAssign(target, init) => pre, r := AnnotatedRun(c, s, env, x);
    case While(_, _, _) =>
      pre, r := LoopRun(c, s, env, x);
      assert StmtLeads(c.at, s, env, pre, r);
    case Try(_, _, _, _) => pre, r := TryRun(c, s, env, x);
    case Return(_, _) => pre, r := ReturnRun(c, s, env, x);
    case Raise(_) => pre, r := RaiseRun(c, s, env, x);
    case Pass => pre, r := [], Done(Normal, env, []);
    case Break => pre, r := [], Done(Jumped(true), env, []);
    case Continue => pre, r := [], Done(Jumped(false), env, []);
    case _ => pre, r := ValueRun(c, s, env, x);
  }

  lemma {:induction false} AnnotatedRun(c: Ctx, s: Stmt, env: Env, x: Ending) returns (pre: Oracle, r: Run)
    requires s.AnnAssign? && Grounded(c) && x in StmtEnds(c, s, StateOf(c.judge, env))
    ensures StmtLeads(c.at, s, env, pre, r) && IsEnding(c.judge, r, x)
    decreases s, 9
  {
    if s.init.None? {
      pre, r := [], Done(Normal, env, []);
    } else {
      pre, r := StoreRun(c, [s.target], s.init.value, env, x);
      assert StmtLeads(c.at, s, env, pre, r);
    }
  }

  lemma {:induction false} ReturnRun(c: Ctx, s: Stmt, env: Env, x: Ending) returns (pre: Oracle, r: Run)
    requires s.Return? && Grounded(c) && x in StmtEnds(c, s, StateOf(c.judge, env))
    ensures StmtLeads(c.at, s, env, pre, r) && IsEnding(c.judge, r, x)
    decreases s, 9
  {
    if s.result.None? {
      pre, r := [], Done(Returned(NoneV(false), Unguarded), env, []);
    } else {
      var out := if x.end.Throws? then Fails(x.end.ordinary) else Yields(x.end.bad);
      var pre1, v := ExprRun(c, s.result.value, env, Eval1(out, x.state));
      pre := pre1;
      r := Done(if v.Exn? then Raised(v.ordinary, v.origin) else Returned(v.v, Unguarded), v.env, []);
      forall rest: Oracle ensures RunStmt(c.at, s, env, pre + rest) == Onward(r, rest) {
        assert EvalExpr(c.at, s.result.value, env, pre1 + rest) == Later(v, rest);
      }
    }
  }

  lemma {:induction false} RaiseRun(c: Ctx, s: Stmt, env: Env, x: Ending) returns (pre: Oracle, r: Run)
    requires s.Raise? && Grounded(c) && x in StmtEnds(c, s, StateOf(c.judge, env))
    ensures StmtLeads(c.at, s, env, pre, r) && IsEnding(c.judge, r, x)
    decreases s, 9
  {
    if s.exception.Some? {
      pre, r := RaiseNewRun(c, s, env, x);
    } else if c.at.handling.Some? {
      pre, r := [], Done(Raised(c.at.handling.value, Unguarded), env, []);
    } else {
      var y := Failing1(x.end.ordinary, map[]);
      pre, r := [y], Done(Raised(x.end.ordinary, Unguarded), env, []);
      forall rest: Oracle ensures RunStmt(c.at, s, env, pre + rest) == Onward(r, rest) { OneAhead(y, [], rest); }
    }
  }

  lemma {:induction false} RaiseNewRun(c: Ctx, s: Stmt, env: Env, x: Ending) returns (pre: Oracle, r: Run)
    requires s.Raise? && s.exception.Some? && Grounded(c) && x in StmtEnds(c, s, StateOf(c.judge, env))
    ensures StmtLeads(c.at, s, env, pre, r) && IsEnding(c.judge, r, x)
    decreases s, 8
  {
    var e := s.exception.value;
    var evals := ExprEnds(c, e, StateOf(c.judge, env));
    if x in Thrown(evals) {
      var pre1, v := ExprRun(c, e, env, Eval1(Fails(x.end.ordinary), x.state));
      pre, r := pre1, Done(Raised(v.ordinary, v.origin), v.env, []);
      forall rest: Oracle ensures RunStmt(c.at, s, env, pre + rest) == Onward(r, rest) {
        assert EvalExpr(c.at, e, env, pre1 + rest) == Later(v, rest);
      }
    } else {
      var t :| t in evals && t.out.Yields? && x in AnyThrow(t.state);
      var pre1, v := ExprRun(c, e, env, t);
      var y := Failing1(x.end.ordinary, map[]);
      pre, r := pre1 + [y], Done(Raised(x.end.ordinary, Unguarded), v.env, []);
      forall rest: Oracle ensures RunStmt(c.at, s, env, pre + rest) == Onward(r, rest) {
        EvalFirst(c.at, e, env, pre1, v, [y], rest);
        assert ([y] + rest)[0] == y && ([y] + rest)[1..] == rest;
      }
    }
  }

  lemma {:induction false} ValueFirst(at: At, s: Stmt, env: Env, o: Oracle)
    requires HasValue(s)
    ensures RunStmt(at, s, env, o) ==
      match EvalExpr(at, s.value, env, o)
      case EvalCut => Cut
      case Exn(ordinary, origin, env1, o1) => Done(Raised(ordinary, origin), env1, o1)
      case Val(_, env1, o1) => RunAfter(at, s, env1, o1)
  {
  }

  /** A statement that begins by evaluating an expression. */
  lemma {:induction false} ValueRun(c: Ctx, s: Stmt, env: Env, x: Ending) returns (pre: Oracle, r: Run)
    requires HasValue(s) && Grounded(c) && x in StmtEnds(c, s, StateOf(c.judge, env))
    ensures StmtLeads(c.at, s, env, pre, r) && IsEnding(c.judge, r, x)
    decreases s, 9
  {
    var evals := ExprEnds(c, s.value, StateOf(c.judge, env));
    if x in Thrown(evals) {
      var pre1, v := ExprRun(c, s.value, env, Eval1(Fails(x.end.ordinary), x.state));
      pre, r := pre1, Done(Raised(v.ordinary, v.origin), v.env, []);
      forall rest: Oracle ensures RunStmt(c.at, s, env, pre + rest) == Onward(r, rest) {
        assert EvalExpr(c.at, s.value, env, pre1 + rest) == Later(v, rest);
        ValueFirst(c.at, s, env, pre + rest);
      }
    } else {
      var t :| t in evals && t.out.Yields? && x in AfterEnds(c, s, t.state);
      var pre1, v := ExprRun(c, s.value, env, t);
      var pre2, r2 := AfterRun(c, s, v.env, x);
      pre, r := pre1 + pre2, r2;
      forall rest: Oracle ensures RunStmt(c.at, s, env, pre + rest) == Onward(r, rest) {
        EvalFirst(c.at, s.value, env, pre1, v, pre2, rest);
        ValueFirst(c.at, s, env, pre + rest);
        assert RunAfter(c.at, s, v.env, pre2 + rest) == Onward(r, rest);
      }
    }
  }

  lemma {:induction false} AfterRun(c: Ctx, s: Stmt, env: Env, x: Ending) returns (pre: Oracle, r: Run)
    requires HasValue(s) && Grounded(c) && x in AfterEnds(c, s, StateOf(c.judge, env))
    ensures AfterLeads(c.at, s, env, pre, r) && IsEnding(c.judge, r, x)
    decreases s, 8
  {
    match s
    case For(_, _, _, _) =>
      pre, r := LoopRun(c, s, env, x);
      assert AfterLeads(c.at, s, env, pre, r);
    case ExprStmt(_) => pre, r := [], Done(Normal, env, []);
    case If(_, _, _) => pre, r := IfRun(c, s, env, x);
    case Rebind(_, _) => pre, r := RebindRun(c, s, env, x);
    case With(_, _, _) => pre, r := WithRun(c, s, env, x);
  }

  lemma {:induction false} IfRun(c: Ctx, s: Stmt, env: Env, x: Ending) returns (pre: Oracle, r: Run)
    requires s.If? && Grounded(c) && x in AfterEnds(c, s, StateOf(c.judge, env))
    ensures AfterLeads(c.at, s, env, pre, r) && IsEnding(c.judge, r, x)
    decreases s, 7
  {
    var go :| go in Ways(s.value) && x in BlockEnds(c, if go then s.body else s.orelse, StateOf(c.judge, env));
    var y := Pick(go, OtherV, map[]);
    assert Branch(s.value, y.go) == go;
    var pre1, r1 := BlockRun(c, if go then s.body else s.orelse, env, x);
    pre, r := [y] + pre1, r1;
    forall rest: Oracle ensures RunAfter(c.at, s, env, pre + rest) == Onward(r, rest) { OneAhead(y, pre1, rest); }
  }

  lemma {:induction false} RebindRun(c: Ctx, s: Stmt, env: Env, x: Ending) returns (pre: Oracle, r: Run)
    requires s.Rebind? && x in AfterEnds(c, s, StateOf(c.judge, env))
    ensures AfterLeads(c.at, s, env, pre, r) && IsEnding(c.judge, r, x)
  {
    var y;
    if x.end.Throws? {
      y, r := Failing1(x.end.ordinary, map[]), Done(Raised(x.end.ordinary, Unguarded), env, []);
    } else {
      var upd := ShufflePick(c.judge, env, s.names, x.state);
      y, r := Pick(false, OtherV, upd), Done(Normal, Havoc(env, s.names, upd), []);
    }
    pre := [y];
    forall rest: Oracle ensures RunAfter(c.at, s, env, pre + rest) == Onward(r, rest) { OneAhead(y, [], rest); }
  }

  lemma {:induction false} LeaveRun(j: Judge, r1: Run, t: Ending, x: Ending) returns (y: Choice, r: Run)
    requires IsEnding(j, r1, t) && x in LeaveEnds(t)
    ensures IsEnding(j, r, x) && forall rest: Oracle :: LeaveWith(Onward(r1, [y] + rest)) == Onward(r, rest)
  {
    y := if x == t then Pick(false, OtherV, map[]) else if x.end.Throws? then Failing1(x.end.ordinary, map[])
         else Pick(true, OtherV, map[]);
    r := LeaveWith(Onward(r1, [y]));
    forall rest: Oracle ensures LeaveWith(Onward(r1, [y] + rest)) == Onward(r, rest) {
      assert ([y] + rest)[0] == y && ([y] + rest)[1..] == rest && [y][1..] == [];
    }
  }

  lemma {:induction false} WithRun(c: Ctx, s: Stmt, env: Env, x: Ending) returns (pre: Oracle, r: Run)
    requires s.With? && Grounded(c) && x in AfterEnds(c, s, StateOf(c.judge, env))
    ensures AfterLeads(c.at, s, env, pre, r) && IsEnding(c.judge, r, x)
    decreases s, 7
  {
    if x in AnyThrow(StateOf(c.judge, env)) {
      var y := Failing1(x.end.ordinary, map[]);
      pre, r := [y], Done(Raised(x.end.ordinary, Unguarded), env, []);
      forall rest: Oracle ensures RunAfter(c.at, s, env, pre + rest) == Onward(r, rest) { OneAhead(y, [], rest); }
    } else {
      var b, t :| b in Shuffles(c.judge, StateOf(c.judge, env), s.names) && t in BlockEnds(c, s.body, b)
        && x in LeaveEnds(t);
      var upd := ShufflePick(c.judge, env, s.names, b);
      var y := Pick(false, OtherV, upd);
      var pre1, r1 := BlockRun(c, s.body, Havoc(env, s.names, upd), t);
      var z, r2 := LeaveRun(c.judge, r1, t, x);
      pre, r := [y] + (pre1 + [z]), r2;
      forall rest: Oracle ensures RunAfter(c.at, s, env, pre + rest) == Onward(r, rest) {
        WithTaken(c.at, s, env, y, pre1, r1, z, rest);
      }
    }
  }

  lemma {:induction false} WithTaken(at: At, s: Stmt, env: Env, y: Choice, pre1: Oracle, r1: Run, z: Choice,
                                     rest: Oracle)
    requires s.With? && !y.fail && BlockLeads(at, s.body, Havoc(env, s.names, y.upd), pre1, r1)
    ensures RunAfter(at, s, env, ([y] + (pre1 + [z])) + rest) == LeaveWith(Onward(r1, [z] + rest))
  {
    OneAhead(y, pre1 + [z], rest);
    assert (pre1 + [z]) + rest == pre1 + ([z] + rest);
  }

  // ----- loops -----

  /** The loop, begun with `env`, can come to its head with `env1`. */
  ghost predicate Arrives(at: At, s: Stmt, env: Env, pre: Oracle, env1: Env)
    requires IsLoop(s)
  {
    forall rest: Oracle {:trigger RunLoop(at, s, env, pre + rest)} ::
      RunLoop(at, s, env, pre + rest) == RunLoop(at, s, env1, rest)
  }

  ghost predicate HeadReached(c: Ctx, s: Stmt, env: Env, h: State)
    requires IsLoop(s)
  {
    exists pre, env1 :: Arrives(c.at, s, env, pre, env1) && StateOf(c.judge, env1) == h
  }

  ghost predicate HeadsReached(c: Ctx, s: Stmt, env: Env, heads: set<State>)
    requires IsLoop(s)
  {
    forall h :: h in heads ==> HeadReached(c, s, env, h)
  }

  lemma {:induction false} DecideRun(c: Ctx, s: Stmt, env: Env, d: State) returns (pre: Oracle, env1: Env)
    requires IsLoop(s) && Grounded(c) && d in Decisions(c, s, StateOf(c.judge, env))
    ensures StateOf(c.judge, env1) == d
    ensures forall rest: Oracle :: RunLoop(c.at, s, env, pre + rest) == RunTurn(c.at, s, env1, rest)
    decreases s, 0
  {
    if s.For? {
      pre, env1 := [], env;
      forall rest: Oracle ensures RunLoop(c.at, s, env, pre + rest) == RunTurn(c.at, s, env1, rest) {
        assert pre + rest == rest;
      }
    } else {
      var t :| t in ExprEnds(c, s.value, StateOf(c.judge, env)) && t.out.Yields? && t.state == d;
      var pre1, v := ExprRun(c, s.value, env, t);
      pre, env1 := pre1, v.env;
      forall rest: Oracle ensures RunLoop(c.at, s, env, pre + rest) == RunTurn(c.at, s, env1, rest) {
        assert EvalExpr(c.at, s.value, env, pre + rest) == Later(v, rest);
      }
    }
  }

  ghost predicate TurnLeads(at: At, s: Stmt, env: Env, pre: Oracle, r: Run)
    requires IsLoop(s)
  {
    forall rest: Oracle {:trigger RunLoop(at, s, env, pre + rest)} ::
      RunLoop(at, s, env, pre + rest) == AfterTurn(at, s, Onward(r, rest))
  }

  lemma {:induction false} BodyRun(c: Ctx, s: Stmt, env: Env, x: Ending) returns (pre: Oracle, r: Run)
    requires IsLoop(s) && Grounded(c) && x in BodyEnds(c, s, StateOf(c.judge, env))
    ensures IsEnding(c.judge, r, x) && TurnLeads(c.at, s, env, pre, r)
    decreases s, 1
  {
    var d, b :| d in Decisions(c, s, StateOf(c.judge, env)) && true in Turns(s)
      && b in (if s.For? then Shuffles(c.judge, d, s.names) else {d}) && x in BlockEnds(c, s.body, b);
    var pre1, env1 := DecideRun(c, s, env, d);
    var upd: Env := map[];
    if s.For? { upd := ShufflePick(c.judge, env1, s.names, b); }
    var y := Pick(true, OtherV, upd);
    var env2 := TurnEnv(s, env1, y);
    var pre2, r2 := BlockRun(c, s.body, env2, x);
    pre, r := pre1 + ([y] + pre2), r2;
    forall rest: Oracle ensures RunLoop(c.at, s, env, pre + rest) == AfterTurn(c.at, s, Onward(r, rest)) {
      assert (pre1 + ([y] + pre2)) + rest == pre1 + ([y] + (pre2 + rest));
      TakeTurn(c.at, s, env1, [y] + (pre2 + rest));
      assert ([y] + (pre2 + rest))[1..] == pre2 + rest;
    }
  }

  lemma {:induction false} NextReached(c: Ctx, s: Stmt, env: Env, heads: set<State>, d: State)
    requires IsLoop(s) && Grounded(c) && HeadsReached(c, s, env, heads) && d in NextHeads(c, s, heads)
    ensures HeadReached(c, s, env, d)
    decreases s, 2
  {
    var h, x :| h in heads && x in BodyEnds(c, s, h) && GoesOn(x.end) && x.state == d;
    assert HeadReached(c, s, env, h);
    var pre1, env1 :| Arrives(c.at, s, env, pre1, env1) && StateOf(c.judge, env1) == h;
    var pre2, r := BodyRun(c, s, env1, x);
    TurnFirst(c.at, s, env, pre1, env1, pre2, r);
  }

  lemma {:induction false} TurnFirst(at: At, s: Stmt, env: Env, pre1: Oracle, env1: Env, pre2: Oracle, r: Run)
    requires IsLoop(s) && Arrives(at, s, env, pre1, env1) && TurnLeads(at, s, env1, pre2, r)
    requires r.Done? && (r.out.Normal? || r.out == Jumped(false))
    ensures Arrives(at, s, env, pre1 + pre2, r.env)
  {
    forall rest: Oracle ensures RunLoop(at, s, env, (pre1 + pre2) + rest) == RunLoop(at, s, r.env, rest) {
      assert (pre1 + pre2) + rest == pre1 + (pre2 + rest);
    }
  }

  lemma {:induction false} AllHeadsReached(c: Ctx, s: Stmt, env: Env, heads: set<State>)
    requires IsLoop(s) && Grounded(c) && HeadsReached(c, s, env, heads)
    ensures HeadsReached(c, s, env, Heads(c, s, heads))
    decreases s, 3, |States(c.judge, Frame(c)) - heads|
  {
    var more := NextHeads(c, s, heads) * States(c.judge, Frame(c)) - heads;
    if more != {} {
      forall d | d in more ensures HeadReached(c, s, env, d) { NextReached(c, s, env, heads, d); }
      FewerLeft(States(c.judge, Frame(c)), heads, more);
      AllHeadsReached(c, s, env, heads + more);
    }
  }

  lemma {:induction false} LoopRun(c: Ctx, s: Stmt, env: Env, x: Ending) returns (pre: Oracle, r: Run)
    requires IsLoop(s) && Grounded(c) && x in LoopEnds(c, s, StateOf(c.judge, env))
    ensures LoopLeads(c.at, s, env, pre, r) && IsEnding(c.judge, r, x)
    decreases s, 5
  {
    StartReached(c, s, env);
    AllHeadsReached(c, s, env, {StateOf(c.judge, env)});
    var h :| h in Heads(c, s, {StateOf(c.judge, env)}) && x in ExitEnds(c, s, h);
    pre, r := LoopRunFrom(c, s, env, h, x);
  }

  lemma {:induction false} StartReached(c: Ctx, s: Stmt, env: Env)
    requires IsLoop(s)
    ensures HeadsReached(c, s, env, {StateOf(c.judge, env)})
  {
    forall rest: Oracle ensures RunLoop(c.at, s, env, [] + rest) == RunLoop(c.at, s, env, rest) {
      assert [] + rest == rest;
    }
    assert Arrives(c.at, s, env, [], env);
  }

  lemma {:induction false} LoopRunFrom(c: Ctx, s: Stmt, env: Env, h: State, x: Ending) returns (pre: Oracle, r: Run)
    requires IsLoop(s) && Grounded(c) && HeadReached(c, s, env, h) && x in ExitEnds(c, s, h)
    ensures LoopLeads(c.at, s, env, pre, r) && IsEnding(c.judge, r, x)
    decreases s, 4
  {
    var pre1, env1 :| Arrives(c.at, s, env, pre1, env1) && StateOf(c.judge, env1) == h;
    var pre2, r2 := ExitRun(c, s, env1, x);
    pre, r := pre1 + pre2, r2;
    ArriveFirst(c.at, s, env, pre1, env1, pre2, r2);
  }

  lemma {:induction false} ArriveFirst(at: At, s: Stmt, env: Env, pre1: Oracle, env1: Env, pre2: Oracle, r: Run)
    requires IsLoop(s) && Arrives(at, s, env, pre1, env1) && LoopLeads(at, s, env1, pre2, r)
    ensures LoopLeads(at, s, env, pre1 + pre2, r)
  {
    forall rest: Oracle ensures RunLoop(at, s, env, (pre1 + pre2) + rest) == Onward(r, rest) {
      assert (pre1 + pre2) + rest == pre1 + (pre2 + rest);
      assert RunLoop(at, s, env1, pre2 + rest) == Onward(r, rest);
    }
  }

  lemma {:induction false} ExitRun(c: Ctx, s: Stmt, env: Env, x: Ending) returns (pre: Oracle, r: Run)
    requires IsLoop(s) && Grounded(c) && x in ExitEnds(c, s, StateOf(c.judge, env))
    ensures LoopLeads(c.at, s, env, pre, r) && IsEnding(c.judge, r, x)
    decreases s, 3
  {
    var a := StateOf(c.judge, env);
    if exists b :: b in BodyEnds(c, s, a) && !GoesOn(b.end) && x == LoopExit(b) {
      var b :| b in BodyEnds(c, s, a) && !GoesOn(b.end) && x == LoopExit(b);
      pre, r := BrokenRun(c, s, env, b);
    } else if exists d :: d in Decisions(c, s, a) && false in Turns(s) && x in BlockEnds(c, s.orelse, d) {
      pre, r := ElseRun(c, s, env, x);
    } else {
      pre, r := NoTurnRun(c, s, env, x);
    }
  }

  /** A turn that ends the loop. */
  lemma {:induction false} BrokenRun(c: Ctx, s: Stmt, env: Env, b: Ending) returns (pre: Oracle, r: Run)
    requires IsLoop(s) && Grounded(c) && b in BodyEnds(c, s, StateOf(c.judge, env)) && !GoesOn(b.end)
    ensures LoopLeads(c.at, s, env, pre, r) && IsEnding(c.judge, r, LoopExit(b))
    decreases s, 2
  {
    var pre1, r1 := BodyRun(c, s, env, b);
    pre, r := pre1, Done(if r1.out == Jumped(true) then Normal else r1.out, r1.env, []);
  }

  lemma {:induction false} ElseRun(c: Ctx, s: Stmt, env: Env, x: Ending) returns (pre: Oracle, r: Run)
    requires IsLoop(s) && Grounded(c)
    requires exists d ::
      d in Decisions(c, s, StateOf(c.judge, env)) && false in Turns(s) && x in BlockEnds(c, s.orelse, d)
    ensures LoopLeads(c.at, s, env, pre, r) && IsEnding(c.judge, r, x)
    decreases s, 2
  {
    var d :| d in Decisions(c, s, StateOf(c.judge, env)) && false in Turns(s) && x in BlockEnds(c, s.orelse, d);
    var pre1, env1 := DecideRun(c, s, env, d);
    var y := Pick(false, OtherV, map[]);
    var pre2, r2 := BlockRun(c, s.orelse, env1, x);
    pre, r := pre1 + ([y] + pre2), r2;
    forall rest: Oracle ensures RunLoop(c.at, s, env, pre + rest) == Onward(r, rest) {
      assert (pre1 + ([y] + pre2)) + rest == pre1 + (([y] + pre2) + rest);
      OneAhead(y, pre2, rest);
    }
  }

  lemma {:induction false} NoTurnRun(c: Ctx, s: Stmt, env: Env, x: Ending) returns (pre: Oracle, r: Run)
    requires IsLoop(s) && Grounded(c)
    requires x in if s.For? then AnyThrow(StateOf(c.judge, env))
                  else Thrown(ExprEnds(c, s.value, StateOf(c.judge, env)))
    ensures LoopLeads(c.at, s, env, pre, r) && IsEnding(c.judge, r, x)
    decreases s, 2
  {
    if s.For? {
      var y := Failing1(x.end.ordinary, map[]);
      pre, r := [y], Done(Raised(x.end.ordinary, Unguarded), env, []);
      forall rest: Oracle ensures RunLoop(c.at, s, env, pre + rest) == Onward(r, rest) { OneAhead(y, [], rest); }
    } else {
      var pre1, v := ExprRun(c, s.value, env, Eval1(Fails(x.end.ordinary), x.state));
      pre, r := pre1, Done(Raised(v.ordinary, v.origin), v.env, []);
      forall rest: Oracle ensures RunLoop(c.at, s, env, pre + rest) == Onward(r, rest) {
        assert EvalExpr(c.at, s.value, env, pre1 + rest) == Later(v, rest);
      }
    }
  }

  // ----- try -----

  /** The `finally` clause behind the rest of a `try`. */
  ghost function AfterGuarded(at: At, finalbody: seq<Stmt>, r1: Run): Run
  {
    if r1.Cut? || finalbody == [] then r1
    else
      match RunBlock(if r1.out.Raised? then Handling(at, r1.out.ordinary) else at, finalbody, r1.env, r1.rest)
      case Cut => Cut
      case Done(out2, env2, o2) => Done(if out2.Normal? then r1.out else out2, env2, o2)
  }

  lemma {:induction false} FinallyRun(c: Ctx, finalbody: seq<Stmt>, r1: Run, t: Ending, x: Ending)
    returns (pre: Oracle, r: Run)
    requires Grounded(c) && IsEnding(c.judge, r1, t) && x in FinallyEnds(c, finalbody, t)
    ensures IsEnding(c.judge, r, x)
    ensures forall rest: Oracle :: AfterGuarded(c.at, finalbody, Onward(r1, pre + rest)) == Onward(r, rest)
    decreases finalbody, 3
  {
    var inner := if t.end.Throws? then c.(at := Handling(c.at, t.end.ordinary)) else c;
    var b :| b in BlockEnds(inner, finalbody, t.state) && x == if b.end.Falls? then Ending(t.end, b.state) else b;
    if finalbody == [] {
      pre, r := [], r1;
      forall rest: Oracle ensures AfterGuarded(c.at, finalbody, Onward(r1, pre + rest)) == Onward(r, rest) {
        assert pre + rest == rest;
      }
    } else {
      var pre2, r2 := BlockRun(inner, finalbody, r1.env, b);
      pre, r := pre2, Done(if r2.out.Normal? then r1.out else r2.out, r2.env, []);
      forall rest: Oracle ensures AfterGuarded(c.at, finalbody, Onward(r1, pre + rest)) == Onward(r, rest) {
        assert RunBlock(inner.at, finalbody, r1.env, pre2 + rest) == Onward(r2, rest);
      }
    }
  }

  lemma {:induction false} TryRun(c: Ctx, s: Stmt, env: Env, x: Ending) returns (pre: Oracle, r: Run)
    requires s.Try? && Grounded(c) && x in StmtEnds(c, s, StateOf(c.judge, env))
    ensures StmtLeads(c.at, s, env, pre, r) && IsEnding(c.judge, r, x)
    decreases s, 9
  {
    var t :| t in GuardedEnds(c, s, StateOf(c.judge, env)) && x in FinallyEnds(c, s.finalbody, t);
    var pre1, r1 := GuardedRun(c, s, env, t);
    var pre2, r2 := FinallyRun(c, s.finalbody, r1, t, x);
    pre, r := pre1 + pre2, r2;
    forall rest: Oracle ensures RunStmt(c.at, s, env, pre + rest) == Onward(r, rest) {
      assert (pre1 + pre2) + rest == pre1 + (pre2 + rest);
      assert RunGuarded(c.at, s, env, pre1 + (pre2 + rest)) == Onward(r1, pre2 + rest);
      assert AfterGuarded(c.at, s.finalbody, Onward(r1, pre2 + rest)) == Onward(r, rest);
    }
  }

  /** How a `try` goes on after the run `r1` of its body. */
  ghost function RunPast(at: At, s: Stmt, r1: Run): Run
    requires s.Try?
  {
    if r1.Cut? then Cut
    else
      match r1.out
      case Normal => RunBlock(at, s.orelse, r1.env, r1.rest)
      case Returned(v, _) => Done(Returned(v, Unguarded), r1.env, r1.rest)
      case Jumped(_) => r1
      case Raised(ordinary, origin) => RunHandlers(at, s.handlers, ordinary, origin, r1.env, r1.rest)
  }

  lemma {:induction false} PastRun(c: Ctx, s: Stmt, r1: Run, t: Ending, x: Ending) returns (pre: Oracle, r: Run)
    requires s.Try? && Grounded(c) && IsEnding(c.judge, r1, t) && x in PastBody(c, s, t)
    ensures IsEnding(c.judge, r, x)
    ensures forall rest: Oracle :: RunPast(c.at, s, Onward(r1, pre + rest)) == Onward(r, rest)
    decreases s, 5
  {
    if t.end.Falls? {
      pre, r := BlockRun(c, s.orelse, r1.env, x);
    } else if t.end.Throws? {
      pre, r := HandlersRun(c, s.handlers, t.end.ordinary, r1.out.origin, r1.env, x);
    } else {
      pre, r := [], if t.end.Leaves? then Done(Returned(r1.out.v, Unguarded), r1.env, []) else r1;
      forall rest: Oracle ensures RunPast(c.at, s, Onward(r1, pre + rest)) == Onward(r, rest) {
        assert pre + rest == rest;
      }
    }
  }

  lemma {:induction false} GuardedRun(c: Ctx, s: Stmt, env: Env, x: Ending) returns (pre: Oracle, r: Run)
    requires s.Try? && Grounded(c) && x in GuardedEnds(c, s, StateOf(c.judge, env))
    ensures GuardedLeads(c.at, s, env, pre, r) && IsEnding(c.judge, r, x)
    decreases s, 6
  {
    var t :| t in BlockEnds(c, s.body, StateOf(c.judge, env)) && x in PastBody(c, s, t);
    var pre1, r1 := BlockRun(c, s.body, env, t);
    var pre2, r2 := PastRun(c, s, r1, t, x);
    pre, r := pre1 + pre2, r2;
    forall rest: Oracle ensures RunGuarded(c.at, s, env, pre + rest) == Onward(r, rest) {
      BodyFirst(c.at, s, env, pre1, r1, pre2, rest);
      assert RunPast(c.at, s, Onward(r1, pre2 + rest)) == Onward(r, rest);
    }
  }

  lemma {:induction false} BodyFirst(at: At, s: Stmt, env: Env, pre1: Oracle, r1: Run, pre2: Oracle, rest: Oracle)
    requires s.Try? && BlockLeads(at, s.body, env, pre1, r1)
    ensures RunGuarded(at, s, env, (pre1 + pre2) + rest) == RunPast(at, s, Onward(r1, pre2 + rest))
  {
    assert (pre1 + pre2) + rest == pre1 + (pre2 + rest);
  }

  lemma {:induction false} HandlersRun(c: Ctx, hs: seq<Handler>, ordinary: bool, origin: Origin, env: Env, x: Ending)
    returns (pre: Oracle, r: Run)
    requires Grounded(c) && x in HandlersEnds(c, hs, ordinary, StateOf(c.judge, env))
    ensures HandlersLead(c.at, hs, ordinary, origin, env, pre, r) && IsEnding(c.judge, r, x)
    decreases hs, 1
  {
    if hs == [] {
      pre, r := [], Done(Raised(ordinary, origin), env, []);
    } else {
      var taken := Takes(c.at, hs[0], ordinary, true) && x in HandlerEnds(c, hs[0], ordinary, StateOf(c.judge, env));
      var y, pre1 := Pick(taken, OtherV, map[]), [];
      if taken {
        pre1, r := HandlerRun(c, hs[0], ordinary, env, x);
      } else {
        pre1, r := HandlersRun(c, hs[1..], ordinary, origin, env, x);
      }
      pre := [y] + pre1;
      forall rest: Oracle ensures RunHandlers(c.at, hs, ordinary, origin, env, pre + rest) == Onward(r, rest) {
        OneAhead(y, pre1, rest);
      }
    }
  }

  lemma {:induction false} HandlerRun(c: Ctx, h: Handler, ordinary: bool, env: Env, x: Ending)
    returns (pre: Oracle, r: Run)
    requires Grounded(c) && x in HandlerEnds(c, h, ordinary, StateOf(c.judge, env))
    ensures HandlerLeads(c.at, h, ordinary, env, pre, r) && IsEnding(c.judge, r, x)
    decreases h, 1
  {
    var inner, env1 := c.(at := Handling(c.at, ordinary)), EnterHandler(h, env);
    if h.bound.Some? { PutState(c.judge, env, h.bound.value, OtherV); }
    var b :| b in BlockEnds(inner, h.body, StateOf(c.judge, env1)) && x == Ending(b.end, Cleared(h, b.state));
    var pre1, r1 := BlockRun(inner, h.body, env1, b);
    if h.bound.Some? { DropState(c.judge, r1.env, h.bound.value); }
    pre := pre1;
    var env3 := if h.bound.Some? then r1.env - {h.bound.value} else r1.env;
    r := match r1.out
      case Returned(v, _) => Done(Returned(v, InHandler(c.at.path, c.at.f, h)), env3, [])
      case Raised(ord, _) => Done(Raised(ord, InHandler(c.at.path, c.at.f, h)), env3, [])
      case _ => Done(r1.out, env3, []);
    forall rest: Oracle ensures RunHandler(c.at, h, ordinary, env, pre + rest) == Onward(r, rest) {
      assert RunBlock(inner.at, h.body, env1, pre1 + rest) == Onward(r1, rest);
    }
  }

  // ----- functions -----

  lemma {:induction false} FunctionRun(p: Program, j: Judge, facts: set<Fact>, path: Path, f: FuncDef, out: Out)
    requires AllRealised(p, j, facts) && out in FunctionOuts(p, j, facts, path, f)
    ensures Realised(p, j, path, f, out)
  {
    var c := Ctx(Here(p, path, f), j, facts);
    var a, x :| a in Entries(j, f) && x in BlockEnds(c, f.body, a) && !x.end.Jumps? && out == OutOf(j, x.end);
    var upd := EntryPick(j, f, a);
    var y := Pick(false, OtherV, upd);
    var pre1, r1 := BlockRun(c, f.body, Enter(f, upd), x);
    EnterFirst(c.at, y, pre1, r1);
    assert FunctionLeads(p, path, f, [y] + pre1, CallOf(r1)) && IsCall(j, CallOf(r1), out);
  }

  lemma {:induction false} EnterFirst(at: At, y: Choice, pre: Oracle, r: Run)
    requires at.handling.None? && BlockLeads(at, at.f.body, Enter(at.f, y.upd), pre, r)
    ensures FunctionLeads(at.p, at.path, at.f, [y] + pre, CallOf(r))
  {
    forall rest: Oracle ensures RunFunction(at.p, at.path, at.f, ([y] + pre) + rest) == CallLater(CallOf(r), rest) {
      OneAhead(y, pre, rest);
      assert RunBlock(at, at.f.body, Enter(at.f, y.upd), pre + rest) == Onward(r, rest);
    }
  }

  lemma {:induction false} FixpointRealised(p: Program, j: Judge, facts: set<Fact>)
    requires AllRealised(p, j, facts)
    ensures AllRealised(p, j, Fixpoint(p, j, facts))
    decreases |AllFacts(p) - facts|
  {
    var all, more := AllFacts(p), Derived(p, j, facts) - facts;
    if more != {} {
      forall x | x in more ensures Realised(p, j, x.path, x.f, x.out) {
        FunctionRun(p, j, facts, x.path, x.f, x.out);
      }
      FewerLeft(all, facts, more);
      FixpointRealised(p, j, facts + more);
    }
  }

  /** What is known of calls in `CtxOf` is closed, and each piece of it is reached by a run. */
  lemma {:induction false} FactsAreExact(at: At, j: Judge)
    ensures Knows(CtxOf(at, j)) && Grounded(CtxOf(at, j))
  {
    FixpointRealised(at.p, j, {});
  }

  // ----- exactness -----

  /** Some run of the expression comes to this. */
  ghost predicate ExprCan(at: At, j: Judge, e: Expr, env: Env, x: Eval1)
  {
    exists o :: IsEval(j, EvalExpr(at, e, env, o), x)
  }

  ghost predicate BlockCan(at: At, j: Judge, body: seq<Stmt>, env: Env, x: Ending)
  {
    exists o :: IsEnding(j, RunBlock(at, body, env, o), x)
  }

  ghost predicate HandlerCan(at: At, j: Judge, h: Handler, ordinary: bool, env: Env, x: Ending)
  {
    exists o :: IsEnding(j, RunHandler(at, h, ordinary, env, o), x)
  }

  ghost predicate FunctionCan(p: Program, j: Judge, path: Path, f: FuncDef, out: Out)
  {
    exists o :: IsCall(j, RunFunction(p, path, f, o), out)
  }

  lemma {:induction false} ExprEndsExactly(at: At, j: Judge, e: Expr, env: Env, x: Eval1)
    requires InFrame(CtxOf(at, j), env) && EventsIn(CtxOf(at, j), ExprEvents(e))
    ensures ExprCan(at, j, e, env, x) <==> x in ExprEnds(CtxOf(at, j), e, StateOf(j, env))
  {
    var c := CtxOf(at, j);
    FactsAreExact(at, j);
    if o :| IsEval(j, EvalExpr(at, e, env, o), x) { EvalEnds(c, e, env, o); }
    if x in ExprEnds(c, e, StateOf(j, env)) {
      var pre, r := ExprRun(c, e, env, x);
      assert EvalExpr(at, e, env, pre + []) == Later(r, []);
    }
  }

  lemma {:induction false} BlockEndsExactly(at: At, j: Judge, body: seq<Stmt>, env: Env, x: Ending)
    requires InFrame(CtxOf(at, j), env) && EventsIn(CtxOf(at, j), BlockEvents(body))
    ensures BlockCan(at, j, body, env, x) <==> x in BlockEnds(CtxOf(at, j), body, StateOf(j, env))
  {
    var c := CtxOf(at, j);
    FactsAreExact(at, j);
    if o :| IsEnding(j, RunBlock(at, body, env, o), x) { BlockRunEnds(c, body, env, o); }
    if x in BlockEnds(c, body, StateOf(j, env)) {
      var pre, r := BlockRun(c, body, env, x);
      assert RunBlock(at, body, env, pre + []) == Onward(r, []);
    }
  }

  /** What a function can do is computed exactly. */
  lemma {:induction false} FunctionOutsExactly(p: Program, j: Judge, path: Path, f: FuncDef, out: Out)
    ensures FunctionCan(p, j, path, f, out) <==> out in FunctionOuts(p, j, FactsOf(p, j), path, f)
  {
    var facts := FactsOf(p, j);
    FactsAreExact(Here(p, path, f), j);
    if o :| IsCall(j, RunFunction(p, path, f, o), out) { FunctionEnds(p, j, facts, path, f, o); }
    if out in FunctionOuts(p, j, facts, path, f) {
      FunctionRun(p, j, facts, path, f, out);
      var pre, r :| FunctionLeads(p, path, f, pre, r) && IsCall(j, r, out);
      assert RunFunction(p, path, f, pre + []) == CallLater(r, []);
    }
  }

  /** What is known of a function is what its runs can do. */
  lemma {:induction false} KnownIsExact(p: Program, j: Judge, path: Path, f: FuncDef, out: Out)
    requires (path, f) in Defs(p)
    ensures out in OutsOf(FactsOf(p, j), path, f) <==> FunctionCan(p, j, path, f, out)
  {
    var facts := FactsOf(p, j);
    FunctionOutsExactly(p, j, path, f, out);
    if out in OutsOf(facts, path, f) { KnownIsRun(p, j, path, f, out); }
    if out in FunctionOuts(p, j, facts, path, f) {
      assert Fact((path, f).0, (path, f).1, out) in Derived(p, j, facts);
    }
  }

  lemma {:induction false} KnownIsRun(p: Program, j: Judge, path: Path, f: FuncDef, out: Out)
    requires out in OutsOf(FactsOf(p, j), path, f)
    ensures FunctionCan(p, j, path, f, out)
  {
    FactsAreExact(Here(p, path, f), j);
    assert Fact(path, f, out) in FactsOf(p, j);
    assert Realised(p, j, path, f, out);
    var pre, r :| FunctionLeads(p, path, f, pre, r) && IsCall(j, r, out);
    assert RunFunction(p, path, f, pre + []) == CallLater(r, []);
  }
}
