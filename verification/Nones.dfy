/**
 Which values an expression and a function can come to: whether one of them is bad is read off
 the literals and callees of the text, and decided exactly.  With None as the bad value this
 says where a None can come from.
 */
module Nones {
  import opened MiniPython
  import opened OwnNodes
  import opened PythonRuns
  import opened Endings
  import opened RunsEnd
  import opened ReachedEndings
  import opened Containment

  // ----- the values of an expression -----

  predicate SomeValue(outs: set<Out>) { exists out :: out in outs && out.Yields? }

  /** The expression can come to a value: none of the calls it needs is one that never returns. */
  predicate MayYield(c: Ctx, e: Expr)
    decreases e, 1
  {
    match e
    case Cond(test, body, orelse) =>
      MayYield(c, test) && ((true in Ways(test) && MayYield(c, body)) || (false in Ways(test) && MayYield(c, orelse)))
    case Call(callee, args, keywords) => MayBind(c, args) && SomeValue(CallOuts(c, callee, |args|, keywords))
    case _ => true
  }

  predicate MayBind(c: Ctx, args: seq<Expr>)
    decreases args, 0
  {
    args == [] || (MayYield(c, args[0]) && MayBind(c, args[1..]))
  }

  /** The expression can come to a bad value: a literal, a name or a call in it may be one. */
  predicate MayBeBad(c: Ctx, e: Expr)
  {
    match e
    case IntLit(n) => Bad(c.judge, IntV(n))
    case NegLit(n) => Bad(c.judge, IntV(0 - n as int))
    case Lit(k) => Bad(c.judge, ConstValue(k))
    case Ref(id) =>
      if id in Frame(c) then Occurs(c.judge, true)
      else Yields(true) in GlobalOuts(c.judge, GlobalOf(c.at.p, c.at.path, id))
    case Opaque(_) => Occurs(c.judge, true)
    case Cond(test, body, orelse) =>
      MayYield(c, test) && ((true in Ways(test) && MayBeBad(c, body)) || (false in Ways(test) && MayBeBad(c, orelse)))
    case Call(callee, args, keywords) => MayBind(c, args) && Yields(true) in CallOuts(c, callee, |args|, keywords)
  }

  /** Every local is bound, and to a bad value if there are any. */
  function Top(c: Ctx): State { State(Frame(c), if Occurs(c.judge, true) then Frame(c) else {}) }

  lemma {:induction false} TopShuffled(c: Ctx, names: set<Name>)
    requires names <= Frame(c)
    ensures Top(c) in Shuffles(c.judge, Top(c), names)
  {
    var X, Y := names, if Occurs(c.judge, true) then names else {};
    assert State((Top(c).bound - names) + X, (Top(c).bad - names) + Y) == Top(c);
  }

  lemma {:induction false} TopIsState(c: Ctx)
    ensures Top(c) in States(c.judge, Frame(c))
  {
    var X, Y := Frame(c), Top(c).bad;
    assert State((NOTHING_BOUND.bound - Frame(c)) + X, (NOTHING_BOUND.bad - Frame(c)) + Y) == Top(c);
  }

  ghost predicate Stays(c: Ctx, e: Expr, bad: bool) { Eval1(Yields(bad), Top(c)) in ExprEnds(c, e, Top(c)) }

  lemma {:induction false} TopYields(c: Ctx, e: Expr)
    requires EventsIn(c, ExprEvents(e))
    ensures MayYield(c, e) ==> Stays(c, e, true) || Stays(c, e, false)
    ensures MayBeBad(c, e) ==> Stays(c, e, true)
    decreases e, 1
  {
    match e
    case Ref(id) => TopName(c, id);
    case Opaque(binds) =>
      assert Poison(binds) in ExprEvents(e);
      TopShuffled(c, binds + c.at.f.hidden);
      AnyOccurs(c.judge, OtherV);
    case Cond(_, _, _) => TopCond(c, e);
    case Call(_, _, _) => TopCall(c, e);
    case _ =>
  }

  lemma {:induction false} TopName(c: Ctx, id: Name)
    ensures Stays(c, Ref(id), true) || Stays(c, Ref(id), false)
    ensures MayBeBad(c, Ref(id)) ==> Stays(c, Ref(id), true)
  {
    AnyOccurs(c.judge, OtherV);
    if id !in Frame(c) {
      var g := GlobalOf(c.at.p, c.at.path, id);
      var out := if g.IntGlobal? then Yields(Bad(c.judge, IntV(g.n))) else Yields(Bad(c.judge, OtherV));
      assert out in GlobalOuts(c.judge, g);
    }
  }

  lemma {:induction false} TopCond(c: Ctx, e: Expr)
    requires e.Cond? && EventsIn(c, ExprEvents(e))
    ensures MayYield(c, e) ==> Stays(c, e, true) || Stays(c, e, false)
    ensures MayBeBad(c, e) ==> Stays(c, e, true)
    decreases e, 0
  {
    assert EventsIn(c, ExprEvents(e.test)) && EventsIn(c, ExprEvents(e.body)) && EventsIn(c, ExprEvents(e.orelse));
    TopYields(c, e.test);
    TopYields(c, e.body);
    TopYields(c, e.orelse);
    if MayYield(c, e.test) {
      var r := Eval1(Yields(Stays(c, e.test, true)), Top(c));
      assert r in ExprEnds(c, e.test, Top(c));
    }
  }

  lemma {:induction false} TopCall(c: Ctx, e: Expr)
    requires e.Call? && EventsIn(c, ExprEvents(e))
    ensures MayYield(c, e) ==> Stays(c, e, true) || Stays(c, e, false)
    ensures MayBeBad(c, e) ==> Stays(c, e, true)
    decreases e, 0
  {
    TopBinds(c, e.args);
    TopShuffled(c, c.at.f.hidden);
  }

  lemma {:induction false} TopBinds(c: Ctx, args: seq<Expr>)
    requires EventsIn(c, ArgEvents(args))
    ensures MayBind(c, args) ==> ArgsEnd(None, Top(c)) in ArgsEnds(c, args, Top(c))
    decreases args, 0
  {
    if args != [] && MayBind(c, args) {
      assert EventsIn(c, ExprEvents(args[0])) && EventsIn(c, ArgEvents(args[1..]));
      TopYields(c, args[0]);
      TopBinds(c, args[1..]);
      var r := Eval1(Yields(Stays(c, args[0], true)), Top(c));
      assert r in ExprEnds(c, args[0], Top(c));
    }
  }

  /** Locals hold bad values only if there are any. */
  ghost predicate Sound(j: Judge, a: State) { a.bad != {} ==> Occurs(j, true) }

  /** No value is computed but those the text may come to. */
  lemma {:induction false} YieldsAsText(c: Ctx, e: Expr, a: State, x: Eval1)
    requires Sound(c.judge, a) && x in ExprEnds(c, e, a) && x.out.Yields?
    ensures Sound(c.judge, x.state) && MayYield(c, e) && (x.out.bad ==> MayBeBad(c, e))
    decreases e, 1
  {
    match e
    case Cond(test, body, orelse) =>
      var t, go :| t in ExprEnds(c, test, a) && t.out.Yields? && go in Ways(test)
        && x in ExprEnds(c, if go then body else orelse, t.state);
      YieldsAsText(c, test, a, t);
      YieldsAsText(c, if go then body else orelse, t.state, x);
    case Call(callee, args, keywords) =>
      var y :| y in ArgsEnds(c, args, a) && y.failed.None? && x.state in Shuffles(c.judge, y.state, c.at.f.hidden)
        && x.out in CallOuts(c, callee, |args|, keywords);
      BindsAsText(c, args, a, y);
    case _ =>
  }

  lemma {:induction false} BindsAsText(c: Ctx, args: seq<Expr>, a: State, y: ArgsEnd)
    requires Sound(c.judge, a) && y in ArgsEnds(c, args, a) && y.failed.None?
    ensures Sound(c.judge, y.state) && MayBind(c, args)
    decreases args, 0
  {
    if args != [] {
      var r :| r in ExprEnds(c, args[0], a) && r.out.Yields? && y in ArgsEnds(c, args[1..], r.state);
      YieldsAsText(c, args[0], a, r);
      BindsAsText(c, args[1..], r.state, y);
    }
  }

  /** Some run of the expression, from some values of the locals, has a bad value. */
  ghost predicate RunsBad(at: At, j: Judge, e: Expr)
  {
    exists env: Env, o: Oracle ::
      env.Keys <= LocalNames(at.f) && EvalExpr(at, e, env, o).Val? && Bad(j, EvalExpr(at, e, env, o).v)
  }

  /** The text may come to a bad value exactly when some run does. */
  lemma {:induction false} BadValueIff(at: At, j: Judge, e: Expr)
    requires EventsIn(CtxOf(at, j), ExprEvents(e))
    ensures MayBeBad(CtxOf(at, j), e) <==> RunsBad(at, j, e)
  {
    if MayBeBad(CtxOf(at, j), e) { TextRunsBad(at, j, e); }
    if RunsBad(at, j, e) { RunIsText(at, j, e); }
  }

  lemma {:induction false} TextRunsBad(at: At, j: Judge, e: Expr)
    requires EventsIn(CtxOf(at, j), ExprEvents(e)) && MayBeBad(CtxOf(at, j), e)
    ensures RunsBad(at, j, e)
  {
    var c := CtxOf(at, j);
    FactsAreExact(at, j);
    TopYields(c, e);
    TopIsState(c);
    var none: Env := map[];
    assert StateOf(j, none) == NOTHING_BOUND;
    var upd := ShufflePick(j, none, Frame(c), Top(c));
    var env := Havoc(none, Frame(c), upd);
    var pre, r := ExprRun(c, e, env, Eval1(Yields(true), Top(c)));
    assert EvalExpr(at, e, env, pre + []) == Later(r, []);
  }

  lemma {:induction false} RunIsText(at: At, j: Judge, e: Expr)
    requires EventsIn(CtxOf(at, j), ExprEvents(e)) && RunsBad(at, j, e)
    ensures MayBeBad(CtxOf(at, j), e)
  {
    var c := CtxOf(at, j);
    FactsAreExact(at, j);
    var env: Env, o: Oracle :|
      env.Keys <= LocalNames(at.f) && EvalExpr(at, e, env, o).Val? && Bad(j, EvalExpr(at, e, env, o).v);
    var r := EvalExpr(at, e, env, o);
    EvalEnds(c, e, env, o);
    if x :| x in StateOf(j, env).bad { SomeOccurs(j, env[x]); }
    YieldsAsText(c, e, StateOf(j, env), Eval1(OutOfEval(j, r), StateOf(j, r.env)));
  }

  // ----- calls -----

  /** The call denotes a function of the program that is called directly. */
  predicate CallsDirectly(at: At, callee: Name, q: Path, g: FuncDef)
  {
    callee !in LocalNames(at.f) && GlobalOf(at.p, at.path, callee) == DefGlobal(q, g) && g.direct
  }

  /** A call may come to a bad value exactly when its arguments can bind and some run of the function returns one. */
  lemma {:induction false} CallMayBeIff(at: At, j: Judge, e: Expr, q: Path, g: FuncDef)
    requires e.Call? && CallsDirectly(at, e.callee, q, g)
    ensures MayBeBad(CtxOf(at, j), e) <==>
      && MayBind(CtxOf(at, j), e.args) && Fits(DefGlobal(q, g), |e.args|, e.keywords)
      && FunctionCan(at.p, j, q, g, Yields(true))
  {
    GlobalIsDef(at.p, at.path, e.callee);
    KnownIsExact(at.p, j, q, g, Yields(true));
  }

  // ----- what leaves a body was returned by one of its returns -----

  /** One of these returns may return a bad value. */
  predicate SomeBad(c: Ctx, rets: seq<Ret>)
  {
    exists r :: r in rets && if r.result.None? then Bad(c.judge, NoneV(false)) else MayBeBad(c, r.result.value)
  }

  lemma {:induction false} SomeOf(c: Ctx, some: seq<Ret>, all: seq<Ret>)
    requires SomeBad(c, some) && forall r :: r in some ==> r in all
    ensures SomeBad(c, all)
  {
  }

  function Inside(c: Ctx, ordinary: bool): Ctx { c.(at := Handling(c.at, ordinary)) }

  /** Which exception is being handled has no part in the values of expressions. */
  lemma {:induction false} SameText(c: Ctx, ordinary: bool, e: Expr)
    ensures MayYield(Inside(c, ordinary), e) == MayYield(c, e) && MayBeBad(Inside(c, ordinary), e) == MayBeBad(c, e)
    decreases e, 1
  {
    match e
    case Cond(test, body, orelse) =>
      SameText(c, ordinary, test);
      SameText(c, ordinary, body);
      SameText(c, ordinary, orelse);
    case Call(_, args, _) => SameBind(c, ordinary, args);
    case _ =>
  }

  lemma {:induction false} SameBind(c: Ctx, ordinary: bool, args: seq<Expr>)
    ensures MayBind(Inside(c, ordinary), args) == MayBind(c, args)
    decreases args, 0
  {
    if args != [] {
      SameText(c, ordinary, args[0]);
      SameBind(c, ordinary, args[1..]);
    }
  }

  lemma {:induction false} SameReturns(c: Ctx, ordinary: bool, rets: seq<Ret>)
    requires SomeBad(Inside(c, ordinary), rets)
    ensures SomeBad(c, rets)
  {
    var r :| r in rets
      && if r.result.None? then Bad(c.judge, NoneV(false)) else MayBeBad(Inside(c, ordinary), r.result.value);
    if r.result.Some? { SameText(c, ordinary, r.result.value); }
  }

  lemma {:induction false} StmtLeaves(c: Ctx, s: Stmt, a: State, x: Ending)
    requires Occurs(c.judge, true) && x in StmtEnds(c, s, a) && x.end == Leaves(true)
    ensures SomeBad(c, StmtReturns(s))
    decreases s, 7
  {
    match s
    case Return(line, result) => ReturnLeaves(c, s, a, x);
    case While(_, _, _) => LoopLeaves(c, s, a, x);
    case Try(_, _, _, _) => TryLeaves(c, s, a, x);
    case For(_, _, _, _) =>
      var r :| r in ExprEnds(c, s.value, a) && r.out.Yields? && x in AfterEnds(c, s, r.state);
      LoopLeaves(c, s, r.state, x);
    case With(_, _, _) =>
      var r :| r in ExprEnds(c, s.value, a) && r.out.Yields? && x in AfterEnds(c, s, r.state);
      WithLeaves(c, s, r.state, x);
    case If(_, _, _) =>
      var r :| r in ExprEnds(c, s.value, a) && r.out.Yields? && x in AfterEnds(c, s, r.state);
      IfLeaves(c, s, r.state, x);
    case Assign(targets, value) => StoresOnly(c, targets, value, a, x);
    case AnnAssign(target, init) => if init.Some? { StoresOnly(c, [target], init.value, a, x); }
    case _ =>
  }

  lemma {:induction false} StoresOnly(c: Ctx, targets: seq<Target>, value: Expr, a: State, x: Ending)
    requires x in StoreEnds(c, targets, value, a)
    ensures !x.end.Leaves?
  {
    if r :| r in ExprEnds(c, value, a) && r.out.Yields? && x in TargetsEnds(c.judge, targets, r.out.bad, r.state) {
      BindsOnly(c.judge, targets, r.out.bad, r.state, x);
    }
  }

  lemma {:induction false} BindsOnly(j: Judge, targets: seq<Target>, bad: bool, a: State, x: Ending)
    requires x in TargetsEnds(j, targets, bad, a)
    ensures !x.end.Leaves?
    decreases |targets|
  {
    if targets != [] {
      match targets[0]
      case NameTarget(id) => BindsOnly(j, targets[1..], bad, Put(a, id, bad), x);
      case OtherTarget(names) =>
        if b :| b in Shuffles(j, a, names) && x in TargetsEnds(j, targets[1..], bad, b) {
          BindsOnly(j, targets[1..], bad, b, x);
        }
    }
  }

  lemma {:induction false} ReturnLeaves(c: Ctx, s: Stmt, a: State, x: Ending)
    requires s.Return? && Occurs(c.judge, true) && x in StmtEnds(c, s, a) && x.end == Leaves(true)
    ensures SomeBad(c, StmtReturns(s))
  {
    var ret := Ret(s.line, s.result);
    assert ret in StmtReturns(s);
    if s.result.Some? { YieldsAsText(c, s.result.value, a, Eval1(Yields(true), x.state)); }
  }

  lemma {:induction false} WithLeaves(c: Ctx, s: Stmt, a: State, x: Ending)
    requires s.With? && Occurs(c.judge, true) && x in AfterEnds(c, s, a) && x.end == Leaves(true)
    ensures SomeBad(c, StmtReturns(s))
    decreases s, 5
  {
    var b, r :| b in Shuffles(c.judge, a, s.names) && r in BlockEnds(c, s.body, b) && x in LeaveEnds(r);
    BlockLeaves(c, s.body, b, r);
    SomeOf(c, BlockReturns(s.body), StmtReturns(s));
  }

  lemma {:induction false} IfLeaves(c: Ctx, s: Stmt, a: State, x: Ending)
    requires s.If? && Occurs(c.judge, true) && x in AfterEnds(c, s, a) && x.end == Leaves(true)
    ensures SomeBad(c, StmtReturns(s))
    decreases s, 5
  {
    if x in BlockEnds(c, s.body, a) {
      BlockLeaves(c, s.body, a, x);
      SomeOf(c, BlockReturns(s.body), StmtReturns(s));
    } else {
      BlockLeaves(c, s.orelse, a, x);
      SomeOf(c, BlockReturns(s.orelse), StmtReturns(s));
    }
  }

  lemma {:induction false} LoopLeaves(c: Ctx, s: Stmt, a: State, x: Ending)
    requires IsLoop(s) && Occurs(c.judge, true) && x in LoopEnds(c, s, a) && x.end == Leaves(true)
    ensures SomeBad(c, StmtReturns(s))
    decreases s, 5
  {
    var h :| h in Heads(c, s, {a}) && x in ExitEnds(c, s, h);
    if b :| b in BodyEnds(c, s, h) && !GoesOn(b.end) && x == LoopExit(b) {
      assert b == x;
      TurnLeaves(c, s, h, x);
    } else {
      ElseLeaves(c, s, h, x);
    }
  }

  lemma {:induction false} TurnLeaves(c: Ctx, s: Stmt, h: State, x: Ending)
    requires IsLoop(s) && Occurs(c.judge, true) && x in BodyEnds(c, s, h) && x.end == Leaves(true)
    ensures SomeBad(c, StmtReturns(s))
    decreases s, 4
  {
    var d, b :| d in Decisions(c, s, h) && true in Turns(s)
      && b in (if s.For? then Shuffles(c.judge, d, s.names) else {d}) && x in BlockEnds(c, s.body, b);
    BlockLeaves(c, s.body, b, x);
    SomeOf(c, BlockReturns(s.body), StmtReturns(s));
  }

  lemma {:induction false} ElseLeaves(c: Ctx, s: Stmt, h: State, x: Ending)
    requires IsLoop(s) && Occurs(c.judge, true) && x in ExitEnds(c, s, h) && x.end == Leaves(true)
    requires !exists b :: b in BodyEnds(c, s, h) && !GoesOn(b.end) && x == LoopExit(b)
    ensures SomeBad(c, StmtReturns(s))
    decreases s, 4
  {
    var d :| d in Decisions(c, s, h) && false in Turns(s) && x in BlockEnds(c, s.orelse, d);
    BlockLeaves(c, s.orelse, d, x);
    SomeOf(c, BlockReturns(s.orelse), StmtReturns(s));
  }

  lemma {:induction false} TryLeaves(c: Ctx, s: Stmt, a: State, x: Ending)
    requires s.Try? && Occurs(c.judge, true) && x in StmtEnds(c, s, a) && x.end == Leaves(true)
    ensures SomeBad(c, StmtReturns(s))
    decreases s, 6
  {
    var r :| r in GuardedEnds(c, s, a) && x in FinallyEnds(c, s.finalbody, r);
    if r.end == Leaves(true) {
      GuardedLeaves(c, s, a, r);
    } else {
      FinallyLeaves(c, s.finalbody, r, x);
      SomeOf(c, BlockReturns(s.finalbody), StmtReturns(s));
    }
  }

  lemma {:induction false} GuardedLeaves(c: Ctx, s: Stmt, a: State, r: Ending)
    requires s.Try? && Occurs(c.judge, true) && r in GuardedEnds(c, s, a) && r.end == Leaves(true)
    ensures SomeBad(c, StmtReturns(s))
    decreases s, 5
  {
    var t :| t in BlockEnds(c, s.body, a) && r in PastBody(c, s, t);
    PastLeaves(c, s, a, t, r);
  }

  lemma {:induction false} FinallyLeaves(c: Ctx, finalbody: seq<Stmt>, r: Ending, x: Ending)
    requires Occurs(c.judge, true) && x in FinallyEnds(c, finalbody, r)
    requires x.end == Leaves(true) && r.end != Leaves(true)
    ensures SomeBad(c, BlockReturns(finalbody))
    decreases finalbody, 3
  {
    if r.end.Throws? {
      BlockLeaves(Inside(c, r.end.ordinary), finalbody, r.state, x);
      SameReturns(c, r.end.ordinary, BlockReturns(finalbody));
    } else {
      BlockLeaves(c, finalbody, r.state, x);
    }
  }

  lemma {:induction false} PastLeaves(c: Ctx, s: Stmt, a: State, t: Ending, x: Ending)
    requires s.Try? && Occurs(c.judge, true) && t in BlockEnds(c, s.body, a) && x in PastBody(c, s, t)
    requires x.end == Leaves(true)
    ensures SomeBad(c, StmtReturns(s))
    decreases s, 4
  {
    if t.end.Falls? {
      BlockLeaves(c, s.orelse, t.state, x);
      SomeOf(c, BlockReturns(s.orelse), StmtReturns(s));
    } else if t.end.Throws? {
      HandlersLeave(c, s.handlers, t.end.ordinary, t.state, x);
      SomeOf(c, HandlerReturns(s.handlers), StmtReturns(s));
    } else {
      BlockLeaves(c, s.body, a, t);
      SomeOf(c, BlockReturns(s.body), StmtReturns(s));
    }
  }

  lemma {:induction false} HandlersLeave(c: Ctx, hs: seq<Handler>, ordinary: bool, a: State, x: Ending)
    requires Occurs(c.judge, true) && x in HandlersEnds(c, hs, ordinary, a) && x.end == Leaves(true)
    ensures SomeBad(c, HandlerReturns(hs))
    decreases hs, 3
  {
    if x in HandlerEnds(c, hs[0], ordinary, a) {
      var b :| b in BlockEnds(Inside(c, ordinary), hs[0].body, Entered(c.judge, hs[0], a)) && b.end == x.end;
      BlockLeaves(Inside(c, ordinary), hs[0].body, Entered(c.judge, hs[0], a), b);
      SameReturns(c, ordinary, BlockReturns(hs[0].body));
      SomeOf(c, BlockReturns(hs[0].body), HandlerReturns(hs));
    } else {
      HandlersLeave(c, hs[1..], ordinary, a, x);
      SomeOf(c, HandlerReturns(hs[1..]), HandlerReturns(hs));
    }
  }

  lemma {:induction false} BlockLeaves(c: Ctx, body: seq<Stmt>, a: State, x: Ending)
    requires Occurs(c.judge, true) && x in BlockEnds(c, body, a) && x.end == Leaves(true)
    ensures SomeBad(c, BlockReturns(body))
    decreases body, 2
  {
    var r :| r in StmtEnds(c, body[0], a) && x in PastFirst(c, body, r);
    if r.end.Falls? {
      BlockLeaves(c, body[1..], r.state, x);
      SomeOf(c, BlockReturns(body[1..]), BlockReturns(body));
    } else {
      StmtLeaves(c, body[0], a, x);
      SomeOf(c, StmtReturns(body[0]), BlockReturns(body));
    }
  }

  // ----- None -----

  const NONE_IS_BAD: Judge := Judge(None, false, true)

  ghost predicate YieldsNone(p: Program, path: Path, f: FuncDef)
  {
    exists o :: RunFunction(p, path, f, o).Result? && RunFunction(p, path, f, o).v.NoneV?
  }

  /** The body can be left in this way, from some values of the parameters. */
  predicate LeftBy(c: Ctx, end: End)
  {
    exists a, x :: a in Entries(c.judge, c.at.f) && x in BlockEnds(c, c.at.f.body, a) && x.end == end
  }

  /**
   A function yields None in some run exactly when its text can fall off its end, or can be left
   by a return that is bare or whose value may be None.
   */
  lemma {:induction false} NoneIff(p: Program, path: Path, f: FuncDef)
    ensures var c := CtxOf(Here(p, path, f), NONE_IS_BAD);
      YieldsNone(p, path, f) <==> LeftBy(c, Falls) || LeftBy(c, Leaves(true))
  {
    var c, j := CtxOf(Here(p, path, f), NONE_IS_BAD), NONE_IS_BAD;
    FunctionOutsExactly(p, j, path, f, Yields(true));
    if YieldsNone(p, path, f) {
      var o :| RunFunction(p, path, f, o).Result? && RunFunction(p, path, f, o).v.NoneV?;
      assert IsCall(j, RunFunction(p, path, f, o), Yields(true));
    }
    if FunctionCan(p, j, path, f, Yields(true)) {
      var o :| IsCall(j, RunFunction(p, path, f, o), Yields(true));
      assert RunFunction(p, path, f, o).v.NoneV?;
    }
    if a, x :| a in Entries(j, f) && x in BlockEnds(c, f.body, a) && (x.end == Falls || x.end == Leaves(true)) {
      assert OutOf(j, x.end) == Yields(true);
    }
  }

  /**
   Read off the returns alone: a function whose branches all end in a return or a raise, and
   that returns nothing bare and nothing that may be None, never yields None.
   */
  lemma {:induction false} NeverNone(p: Program, path: Path, f: FuncDef)
    requires EndsInReturnOrRaise(f.body)
    requires forall r :: r in BlockReturns(f.body) ==>
      r.result.Some? && !MayBeBad(CtxOf(Here(p, path, f), NONE_IS_BAD), r.result.value)
    ensures !YieldsNone(p, path, f)
  {
    var c := CtxOf(Here(p, path, f), NONE_IS_BAD);
    NoneIff(p, path, f);
    if a, x :| a in Entries(c.judge, f) && x in BlockEnds(c, f.body, a) && x.end == Leaves(true) {
      BlockLeaves(c, f.body, a, x);
    }
    if LeftBy(c, Falls) { NeverFallsOff(p, path, f); }
  }

  lemma {:induction false} NeverFallsOff(p: Program, path: Path, f: FuncDef)
    requires EndsInReturnOrRaise(f.body)
    ensures !LeftBy(CtxOf(Here(p, path, f), NONE_IS_BAD), Falls)
  {
    var at, j := Here(p, path, f), NONE_IS_BAD;
    if a, x :| a in Entries(j, f) && x in BlockEnds(CtxOf(at, j), f.body, a) && x.end == Falls {
      var upd := EntryPick(j, f, a);
      EndsNotFalling(at, j, Enter(f, upd), x);
    }
  }

  lemma {:induction false} EndsNotFalling(at: At, j: Judge, env: Env, x: Ending)
    requires EndsInReturnOrRaise(at.f.body) && x in BlockEnds(CtxOf(at, j), at.f.body, StateOf(j, env))
    ensures x.end != Falls
  {
    FactsAreExact(at, j);
    var pre, r := BlockRun(CtxOf(at, j), at.f.body, env, x);
    assert RunBlock(at, at.f.body, env, pre + []) == Onward(r, []);
    NeverFallsThrough(at, at.f.body, env, pre + []);
  }
}
