/**
 When a PROTECTED entry point lets an ordinary exception out although its guards are total:
 the arguments of a hand-off are evaluated outside every guard.  The condition is computed by
 recursion down the chain of hand-offs.
 */
module Handoffs {
  import opened MiniPython
  import opened OwnNodes
  import opened PythonRuns
  import opened Endings
  import opened RunsEnd
  import opened ReachedEndings
  import opened ExitSets
  import opened ExitSoundness
  import opened Containment
  import opened TotalGuards

  ghost predicate LetsOrdinaryOut(p: Program, ep: Key)
  {
    ep.1 in TablesOf(p, ep.0).funcs && FunctionCan(p, ALL_GOOD, ep.0, TablesOf(p, ep.0).funcs[ep.1], Fails(true))
  }

  // ----- the condition -----

  /** The bound locals with which a run of the function can arrive at the i-th of these statements. */
  function Arriving(c: Ctx, rest: seq<Stmt>, i: nat): set<State>
    requires i <= |rest|
  {
    set a, x | a in Entries(c.judge, c.at.f) && x in BlockEnds(c, rest[..i], a) && x.end.Falls? :: x.state
  }

  predicate ArgsRaise(c: Ctx, args: seq<Expr>, a: State)
  {
    exists y :: y in ArgsEnds(c, args, a) && y.failed == Some(true)
  }

  predicate ArgsComplete(c: Ctx, args: seq<Expr>, a: State)
  {
    exists y :: y in ArgsEnds(c, args, a) && y.failed.None?
  }

  /**
   Some run arrives at a hand-off and raises there: in an argument, because the arguments do
   not bind, or in the same way in the entry point it hands over to.
   */
  predicate HandoffRaises(p: Program, eps: set<Key>, ep: Key, seen: set<Key>)
    requires ep in eps && ep !in seen
    decreases |eps - seen|, 1
  {
    ep.1 in TablesOf(p, ep.0).funcs &&
    var c := Bindings(Here(p, ep.0, TablesOf(p, ep.0).funcs[ep.1]));
    var rest := AfterDocstring(c.at.f.body);
    exists i, a :: 0 <= i < |rest| && a in Arriving(c, rest, i) && RaisesAt(p, eps, ep, seen, c, rest[i], a)
  }

  predicate RaisesAt(p: Program, eps: set<Key>, ep: Key, seen: set<Key>, c: Ctx, s: Stmt, a: State)
    requires ep in eps && ep !in seen
    decreases |eps - seen|, 0
  {
    !s.Try? && DelegationTarget(p, ep.0, eps, s).Some? &&
    var e, t := s.result.value, DelegationTarget(p, ep.0, eps, s).value;
    || ArgsRaise(c, e.args, a)
    || (ArgsComplete(c, e.args, a) &&
        (|| !Fits(GlobalOf(p, ep.0, e.callee), |e.args|, e.keywords)
         || (t !in seen + {ep} && (SeenGrows(eps, seen, ep); HandoffRaises(p, eps, t, seen + {ep})))))
  }

  /** An expression that has no calls and reads only what is bound. */
  predicate Quiet(c: Ctx, e: Expr, a: State)
  {
    match e
    case Ref(id) => if id in Frame(c) then id in a.bound else !GlobalOf(c.at.p, c.at.path, id).UnknownGlobal?
    case Cond(test, body, orelse) => Quiet(c, test, a) && Quiet(c, body, a) && Quiet(c, orelse, a)
    case Opaque(_) => false
    case Call(_, _, _) => false
    case _ => true
  }

  lemma {:induction false} QuietYields(c: Ctx, e: Expr, a: State)
    requires Quiet(c, e, a)
    ensures ExprEnds(c, e, a) != {} && forall x :: x in ExprEnds(c, e, a) ==> x.out.Yields? && x.state == a
    decreases e, 1
  {
    match e
    case Ref(id) => QuietName(c, id, a);
    case Cond(_, _, _) => QuietCond(c, e, a);
    case IntLit(n) => assert Eval1(Yields(Bad(c.judge, IntV(n))), a) in ExprEnds(c, e, a);
    case NegLit(n) => assert Eval1(Yields(Bad(c.judge, IntV(0 - n as int))), a) in ExprEnds(c, e, a);
    case Lit(k) => assert Eval1(Yields(Bad(c.judge, ConstValue(k))), a) in ExprEnds(c, e, a);
  }

  lemma {:induction false} QuietCond(c: Ctx, e: Expr, a: State)
    requires e.Cond? && Quiet(c, e, a)
    ensures ExprEnds(c, e, a) != {} && forall x :: x in ExprEnds(c, e, a) ==> x.out.Yields? && x.state == a
    decreases e, 0
  {
    QuietYields(c, e.test, a);
    QuietYields(c, e.body, a);
    QuietYields(c, e.orelse, a);
    var r :| r in ExprEnds(c, e.test, a);
    var go := Branch(e.test, true);
    var x :| x in ExprEnds(c, if go then e.body else e.orelse, a);
    assert go in Ways(e.test) && r.state == a && x in ExprEnds(c, e, a);
  }

  lemma {:induction false} QuietName(c: Ctx, id: Name, a: State)
    requires Quiet(c, Ref(id), a)
    ensures ExprEnds(c, Ref(id), a) != {}
    ensures forall x :: x in ExprEnds(c, Ref(id), a) ==> x.out.Yields? && x.state == a
  {
    if id in Frame(c) {
      assert Eval1(Yields(id in a.bad), a) in ExprEnds(c, Ref(id), a);
    } else {
      var g := GlobalOf(c.at.p, c.at.path, id);
      AnyOccurs(c.judge, OtherV);
      var out := if g.IntGlobal? then Yields(Bad(c.judge, IntV(g.n))) else Yields(Bad(c.judge, OtherV));
      assert out in GlobalOuts(c.judge, g);
      assert Eval1(out, a) in ExprEnds(c, Ref(id), a);
    }
  }

  /** Such arguments never raise: `run(config)` with `config` bound is one call with nothing else. */
  lemma {:induction false} QuietArguments(c: Ctx, args: seq<Expr>, a: State)
    requires forall e :: e in args ==> Quiet(c, e, a)
    ensures !ArgsRaise(c, args, a) && ArgsComplete(c, args, a)
    ensures forall y :: y in ArgsEnds(c, args, a) ==> y.failed.None? && y.state == a
    decreases |args|
  {
    if args == [] {
      assert ArgsEnd(None, a) in ArgsEnds(c, args, a);
    } else {
      QuietYields(c, args[0], a);
      QuietArguments(c, args[1..], a);
      var r :| r in ExprEnds(c, args[0], a);
      var y :| y in ArgsEnds(c, args[1..], a) && y.failed.None?;
      assert r.out.Yields? && r.state == a && y in ArgsEnds(c, args, a);
    }
  }

  /** An argument that no name or literal explains may raise, if the ones before it are quiet. */
  lemma {:induction false} OpaqueArgumentRaises(c: Ctx, args: seq<Expr>, i: nat, a: State)
    requires i < |args| && (args[i].Opaque? || (args[i].Ref? && args[i].id in Frame(c) && args[i].id !in a.bound))
    requires forall k :: 0 <= k < i ==> Quiet(c, args[k], a)
    ensures ArgsRaise(c, args, a)
    decreases |args|
  {
    if i == 0 {
      var e := args[0];
      if e.Opaque? {
        var b := State(a.bound - (e.binds + c.at.f.hidden), a.bad - (e.binds + c.at.f.hidden));
        NoneOfThem(c.judge, a, e.binds + c.at.f.hidden);
        assert Eval1(Fails(true), b) in ExprEnds(c, e, a);
        assert ArgsEnd(Some(true), b) in ArgsEnds(c, args, a);
      } else {
        assert Eval1(Fails(true), a) in ExprEnds(c, e, a);
        assert ArgsEnd(Some(true), a) in ArgsEnds(c, args, a);
      }
    } else {
      QuietYields(c, args[0], a);
      OpaqueArgumentRaises(c, args[1..], i - 1, a);
      var r :| r in ExprEnds(c, args[0], a);
      var y :| y in ArgsEnds(c, args[1..], a) && y.failed == Some(true);
      assert r.out.Yields? && r.state == a && y in ArgsEnds(c, args, a);
    }
  }

  // ----- blocks, computed -----

  lemma {:induction false} IdleDocstring(c: Ctx, b: seq<Stmt>, a: State)
    ensures BlockEnds(c, b, a) == BlockEnds(c, AfterDocstring(b), a)
    decreases |b|
  {
    if b != [] && IsDocstring(b[0]) {
      IdleDocstring(c, b[1..], a);
      DocstringFalls(c, b[0], a);
      var ends := BlockEnds(c, b[1..], a);
      forall x ensures x in BlockEnds(c, b, a) <==> x in ends {
        if x in ends { assert Ending(Falls, a) in StmtEnds(c, b[0], a) && x in PastFirst(c, b, Ending(Falls, a)); }
      }
    }
  }

  lemma {:induction false} DocstringFalls(c: Ctx, s: Stmt, a: State)
    requires IsDocstring(s)
    ensures StmtEnds(c, s, a) == {Ending(Falls, a)}
  {
    var evals := ExprEnds(c, s.value, a);
    assert exists r :: evals == {r} && r.out.Yields? && r.state == a;
    var r :| evals == {r} && r.out.Yields? && r.state == a;
    assert r in evals && Ending(Falls, a) in AfterEnds(c, s, r.state);
  }

  /** A block that does not complete ends in one of its statements, and the ones before it complete. */
  lemma {:induction false} LastStatement(c: Ctx, b: seq<Stmt>, a: State, x: Ending) returns (i: nat, y: Ending)
    requires x in BlockEnds(c, b, a) && !x.end.Falls?
    ensures i < |b| && y in BlockEnds(c, b[..i], a) && y.end.Falls? && x in StmtEnds(c, b[i], y.state)
    decreases |b|
  {
    var r :| r in StmtEnds(c, b[0], a) && x in PastFirst(c, b, r);
    if r.end.Falls? {
      var j, z := LastStatement(c, b[1..], r.state, x);
      i, y := j + 1, z;
      assert b[..i][0] == b[0] && b[..i][1..] == b[1..][..j];
      assert y in PastFirst(c, b[..i], r);
    } else {
      i, y := 0, Ending(Falls, a);
      assert b[..0] == [];
    }
  }

  lemma {:induction false} EndsThere(c: Ctx, b: seq<Stmt>, a: State, i: nat, y: Ending, x: Ending)
    requires i < |b| && y in BlockEnds(c, b[..i], a) && y.end.Falls?
    requires x in StmtEnds(c, b[i], y.state) && !x.end.Falls?
    ensures x in BlockEnds(c, b, a)
    decreases |b|
  {
    if i == 0 {
      assert b[..0] == [];
      assert x in PastFirst(c, b, x);
    } else {
      assert b[..i][0] == b[0] && b[..i][1..] == b[1..][..i - 1];
      var r :| r in StmtEnds(c, b[0], a) && y in PastFirst(c, b[..i], r);
      EndsThere(c, b[1..], r.state, i - 1, y, x);
      assert x in PastFirst(c, b, r);
    }
  }

  // ----- statements, computed -----

  /** Where the block arrives, the bound names are locals. */
  lemma {:induction false} ArrivesLocal(at: At, b: seq<Stmt>, env: Env, y: Ending) returns (env1: Env)
    requires env.Keys <= LocalNames(at.f) && OverLocals(at.f, b)
    requires y in BlockEnds(Bindings(at), b, StateOf(ALL_GOOD, env))
    ensures StateOf(ALL_GOOD, env1) == y.state && env1.Keys <= LocalNames(at.f)
  {
    FactsAreExact(at, ALL_GOOD);
    var pre, r := BlockRun(Bindings(at), b, env, y);
    BlockRunEnds(Bindings(at), b, env, pre + []);
    assert RunBlock(at, b, env, pre + []) == Onward(r, []);
    env1 := r.env;
  }

  /** A certified `try` with a total guard computes to no ordinary exception. */
  lemma {:induction false} TryKeeps(p: Program, eps: set<Key>, entries: map<Key, Codes>, ep: Key, seen: set<Key>,
                                    s: Stmt, env: Env, x: Ending)
    requires IsProtected(p, eps, entries, ep, seen) && TotalEntry(p, ep)
    requires var f := TablesOf(p, ep.0).funcs[ep.1];
      && s in AfterDocstring(f.body) && s.Try? && env.Keys <= LocalNames(f)
      && x in StmtEnds(Bindings(Here(p, ep.0, f)), s, StateOf(ALL_GOOD, env))
    ensures x.end != Throws(true)
  {
    var at := Here(p, ep.0, TablesOf(p, ep.0).funcs[ep.1]);
    FactsAreExact(at, ALL_GOOD);
    var pre, r := StmtRun(Bindings(at), s, env, x);
    assert RunStmt(at, s, env, pre + []) == Onward(r, []);
    TotalTry(p, eps, entries, ep, seen, s, env, pre + []);
  }

  /** A hand-off raises in its arguments, in binding them, or in the function it calls. */
  lemma {:induction false} HandoffThrows(c: Ctx, s: Stmt, a: State)
    requires s.Return? && s.result.Some? && s.result.value.Call? && s.result.value.callee !in Frame(c)
    ensures var e := s.result.value;
      (exists x :: x in StmtEnds(c, s, a) && x.end == Throws(true)) <==>
        || ArgsRaise(c, e.args, a)
        || (ArgsComplete(c, e.args, a) && Fails(true) in CallOuts(c, e.callee, |e.args|, e.keywords))
  {
    var e := s.result.value;
    var evals, ended := ExprEnds(c, e, a), ArgsEnds(c, e.args, a);
    if x :| x in StmtEnds(c, s, a) && x.end == Throws(true) {
      assert x in Thrown(evals);
      assert Eval1(Fails(true), x.state) in evals;
    }
    if y :| y in ended && y.failed == Some(true) {
      assert Eval1(Fails(y.failed.value), y.state) in evals;
      assert Ending(Throws(true), y.state) in Thrown(evals);
    }
    if Fails(true) in CallOuts(c, e.callee, |e.args|, e.keywords) {
      if y :| y in ended && y.failed.None? {
        var b := State(y.state.bound - c.at.f.hidden, y.state.bad - c.at.f.hidden);
        NoneOfThem(c.judge, y.state, c.at.f.hidden);
        assert Eval1(Fails(true), b) in evals;
        assert Ending(Throws(true), b) in Thrown(evals);
      }
    }
  }

  lemma {:induction false} NoneOfThem(j: Judge, a: State, names: set<Name>)
    ensures State(a.bound - names, a.bad - names) in Shuffles(j, a, names)
  {
    var X: set<Name>, Y: set<Name> := {}, {};
    assert State((a.bound - names) + X, (a.bad - names) + Y) == State(a.bound - names, a.bad - names);
  }

  // ----- the two directions -----

  /** The computed endings of a hand-off of `ep`, given those of the entry point it calls. */
  lemma {:induction false} HandoffThrowsIff(p: Program, scope: set<Visit>, eps: set<Key>, entries: map<Key, Codes>,
                                            ep: Key, seen: set<Key>, s: Stmt, a: State)
    requires EntriesOk(p, scope, eps) && IsProtected(p, eps, entries, ep, seen) && TotalDown(p, eps, ep, seen)
    requires s in AfterDocstring(TablesOf(p, ep.0).funcs[ep.1].body) && !s.Try?
    ensures var c := Bindings(Here(p, ep.0, TablesOf(p, ep.0).funcs[ep.1]));
      (exists x :: x in StmtEnds(c, s, a) && x.end == Throws(true)) <==> RaisesAt(p, eps, ep, seen, c, s, a)
    decreases |eps - seen|, 0
  {
    var c := Bindings(Here(p, ep.0, TablesOf(p, ep.0).funcs[ep.1]));
    StmtProtected(p, eps, entries, ep, seen, s);
    var t := DelegationTarget(p, ep.0, eps, s).value;
    SeenGrows(eps, seen, ep);
    assert t in Targets(p, eps, ep);
    EscapesIffHandoffRaises(p, scope, eps, entries, t, seen + {ep});
    CalleeIsGlobal(p, scope, eps, ep, s);
    HandoffThrows(c, s, a);
    CalleeFails(p, scope, eps, c, s.result.value, t);
  }

  lemma {:induction false} CalleeIsGlobal(p: Program, scope: set<Visit>, eps: set<Key>, ep: Key, s: Stmt)
    requires EntriesOk(p, scope, eps) && ep in eps && ep.1 in TablesOf(p, ep.0).funcs
    requires DelegationTarget(p, ep.0, eps, s).Some?
    requires var t := DelegationTarget(p, ep.0, eps, s).value; t.1 in TablesOf(p, t.0).funcs
    ensures var t := DelegationTarget(p, ep.0, eps, s).value;
      && s.Return? && s.result.Some? && s.result.value.Call?
      && GlobalOf(p, ep.0, s.result.value.callee) == DefGlobal(t.0, TablesOf(p, t.0).funcs[t.1])
      && s.result.value.callee !in LocalNames(TablesOf(p, ep.0).funcs[ep.1])
  {
    TargetIsCallee(p, ep.0, eps, s);
    assert VisitOk(p, scope, Visit(ep.0, ep.1, false));
  }

  /** The callee of a hand-off can be computed to raise exactly when some run of it raises. */
  lemma {:induction false} CalleeFails(p: Program, scope: set<Visit>, eps: set<Key>, c: Ctx, e: Expr, t: Key)
    requires EntriesOk(p, scope, eps) && t in eps && t.1 in TablesOf(p, t.0).funcs
    requires e.Call? && c == Bindings(c.at) && c.at.p == p && e.callee !in Frame(c)
    requires GlobalOf(p, c.at.path, e.callee) == DefGlobal(t.0, TablesOf(p, t.0).funcs[t.1])
    ensures Fails(true) in CallOuts(c, e.callee, |e.args|, e.keywords) <==>
      !Fits(GlobalOf(p, c.at.path, e.callee), |e.args|, e.keywords) || LetsOrdinaryOut(p, t)
  {
    var g := TablesOf(p, t.0).funcs[t.1];
    assert VisitOk(p, scope, Visit(t.0, t.1, false)) && g.direct;
    GlobalIsDef(p, c.at.path, e.callee);
    KnownIsExact(p, ALL_GOOD, t.0, g, Fails(true));
  }

  /**
   A PROTECTED entry point whose guards, and those down its chain, are total lets an ordinary
   exception out in some run exactly when a hand-off that it can reach may raise in its
   arguments, in binding them, or in the same way further down the chain.
   */
  lemma {:induction false} EscapesIffHandoffRaises(p: Program, scope: set<Visit>, eps: set<Key>,
                                                   entries: map<Key, Codes>, ep: Key, seen: set<Key>)
    requires EntriesOk(p, scope, eps) && IsProtected(p, eps, entries, ep, seen) && TotalDown(p, eps, ep, seen)
    ensures LetsOrdinaryOut(p, ep) <==> HandoffRaises(p, eps, ep, seen)
    decreases |eps - seen|, 2
  {
    FunctionOutsExactly(p, ALL_GOOD, ep.0, TablesOf(p, ep.0).funcs[ep.1], Fails(true));
    if LetsOrdinaryOut(p, ep) { EscapeIsHandoff(p, scope, eps, entries, ep, seen); }
    if HandoffRaises(p, eps, ep, seen) { HandoffEscapes(p, scope, eps, entries, ep, seen); }
  }

  lemma {:induction false} EscapeIsHandoff(p: Program, scope: set<Visit>, eps: set<Key>, entries: map<Key, Codes>,
                                           ep: Key, seen: set<Key>)
    requires EntriesOk(p, scope, eps) && IsProtected(p, eps, entries, ep, seen) && TotalDown(p, eps, ep, seen)
    requires Fails(true) in FunctionOuts(p, ALL_GOOD, FactsOf(p, ALL_GOOD), ep.0, TablesOf(p, ep.0).funcs[ep.1])
    ensures HandoffRaises(p, eps, ep, seen)
    decreases |eps - seen|, 1
  {
    var f := TablesOf(p, ep.0).funcs[ep.1];
    var c, rest := Bindings(Here(p, ep.0, f)), AfterDocstring(f.body);
    var a, x :| a in Entries(ALL_GOOD, f) && x in BlockEnds(c, f.body, a) && !x.end.Jumps?
      && Fails(true) == OutOf(ALL_GOOD, x.end);
    IdleDocstring(c, f.body, a);
    var i, y := LastStatement(c, rest, a, x);
    if rest[i].Try? {
      NotThroughTry(p, eps, entries, ep, seen, a, i, y, x);
    } else {
      HandoffThrowsIff(p, scope, eps, entries, ep, seen, rest[i], y.state);
      assert y.state in Arriving(c, rest, i);
    }
  }

  lemma {:induction false} NotThroughTry(p: Program, eps: set<Key>, entries: map<Key, Codes>, ep: Key, seen: set<Key>,
                                         a: State, i: nat, y: Ending, x: Ending)
    requires IsProtected(p, eps, entries, ep, seen) && TotalEntry(p, ep)
    requires var f := TablesOf(p, ep.0).funcs[ep.1];
      var (c, rest) := (Bindings(Here(p, ep.0, f)), AfterDocstring(f.body));
      && a in Entries(ALL_GOOD, f) && i < |rest| && rest[i].Try?
      && y in BlockEnds(c, rest[..i], a) && x in StmtEnds(c, rest[i], y.state)
    ensures x.end != Throws(true)
  {
    var f := TablesOf(p, ep.0).funcs[ep.1];
    var at, rest := Here(p, ep.0, f), AfterDocstring(f.body);
    var upd := EntryPick(ALL_GOOD, f, a);
    EntryState(ALL_GOOD, f, upd);
    PrefixLocal(f, rest, i);
    var env := ArrivesLocal(at, rest[..i], Enter(f, upd), y);
    TryKeeps(p, eps, entries, ep, seen, rest[i], env, x);
  }

  lemma {:induction false} PrefixLocal(f: FuncDef, rest: seq<Stmt>, i: nat)
    requires rest == AfterDocstring(f.body) && i <= |rest|
    ensures OverLocals(f, rest[..i])
  {
    SkippedDocstring(f.body);
    BlockEventsLocal(f);
    PrefixEvents(rest, i);
  }

  lemma {:induction false} PrefixEvents(b: seq<Stmt>, i: nat)
    requires i <= |b|
    ensures forall ev :: ev in BlockEvents(b[..i]) ==> ev in BlockEvents(b)
    decreases |b|
  {
    if i > 0 {
      assert b[..i][0] == b[0] && b[..i][1..] == b[1..][..i - 1];
      PrefixEvents(b[1..], i - 1);
    }
  }

  lemma {:induction false} HandoffEscapes(p: Program, scope: set<Visit>, eps: set<Key>, entries: map<Key, Codes>,
                                          ep: Key, seen: set<Key>)
    requires EntriesOk(p, scope, eps) && IsProtected(p, eps, entries, ep, seen) && TotalDown(p, eps, ep, seen)
    requires HandoffRaises(p, eps, ep, seen)
    ensures Fails(true) in FunctionOuts(p, ALL_GOOD, FactsOf(p, ALL_GOOD), ep.0, TablesOf(p, ep.0).funcs[ep.1])
    decreases |eps - seen|, 1
  {
    var f := TablesOf(p, ep.0).funcs[ep.1];
    var c, rest := Bindings(Here(p, ep.0, f)), AfterDocstring(f.body);
    var i, b :| 0 <= i < |rest| && b in Arriving(c, rest, i) && RaisesAt(p, eps, ep, seen, c, rest[i], b);
    HandoffThrowsIff(p, scope, eps, entries, ep, seen, rest[i], b);
    var x :| x in StmtEnds(c, rest[i], b) && x.end == Throws(true);
    var a, y :| a in Entries(ALL_GOOD, f) && y in BlockEnds(c, rest[..i], a) && y.end.Falls? && y.state == b;
    EndsThere(c, rest, a, i, y, x);
    IdleDocstring(c, f.body, a);
    assert x in BlockEnds(c, f.body, a) && OutOf(ALL_GOOD, x.end) == Fails(true);
  }
}
