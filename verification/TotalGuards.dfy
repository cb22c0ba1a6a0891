/**
 When a guard converts every ordinary exception, and when a PROTECTED entry point lets one out
 all the same.  Both conditions are computed from the text by the functions of `Endings`.
 */
module TotalGuards {
  import opened MiniPython
  import opened OwnNodes
  import opened PythonRuns
  import opened Endings
  import opened RunsEnd
  import opened ReachedEndings
  import opened ExitSets
  import opened ExitSoundness
  import opened Containment

  /** Follows which locals are bound, and nothing else. */
  function Bindings(at: At): Ctx { CtxOf(at, ALL_GOOD) }

  /** From some set of bound locals the handler can end in an ordinary exception. */
  predicate MayRaise(at: At, h: Handler, ordinary: bool)
  {
    exists a, x ::
      a in States(ALL_GOOD, LocalNames(at.f)) && x in HandlerEnds(Bindings(at), h, ordinary, a) && x.end == Throws(true)
  }

  /** An exception of this kind passes them all, or reaches a handler that takes it and may raise. */
  predicate LetsOutFor(at: At, hs: seq<Handler>, ordinary: bool)
  {
    if hs == [] then ordinary
    else
      || (Takes(at, hs[0], ordinary, true) && MayRaise(at, hs[0], ordinary))
      || (!Takes(at, hs[0], ordinary, false) && LetsOutFor(at, hs[1..], ordinary))
  }

  predicate LetsOut(at: At, hs: seq<Handler>)
  {
    LetsOutFor(at, hs, true) || LetsOutFor(at, hs, false)
  }

  ghost predicate OrdinaryOut(r: Run)
  {
    r.Done? && r.out.Raised? && r.out.ordinary
  }

  lemma {:induction false} HandlerKeeps(at: At, h: Handler, ordinary: bool, env: Env, o: Oracle)
    requires !MayRaise(at, h, ordinary) && InFrame(Bindings(at), env)
    requires EventsIn(Bindings(at), BlockEvents(h.body)) && OptionSet(h.bound) <= LocalNames(at.f)
    ensures !OrdinaryOut(RunHandler(at, h, ordinary, env, o))
  {
    FactsAreExact(at, ALL_GOOD);
    HandlerRunEnds(Bindings(at), h, ordinary, env, o);
    StateIn(Bindings(at), env);
  }

  lemma {:induction false} HandlersKeep(at: At, hs: seq<Handler>, ordinary: bool, origin: Origin, env: Env, o: Oracle)
    requires !LetsOutFor(at, hs, ordinary) && InFrame(Bindings(at), env)
    requires EventsIn(Bindings(at), HandlerEvents(hs))
    ensures !OrdinaryOut(RunHandlers(at, hs, ordinary, origin, env, o))
    decreases |hs|
  {
    if hs != [] && o != [] {
      if Takes(at, hs[0], ordinary, o[0].go) {
        HandlerNames(Bindings(at), hs);
        HandlerKeeps(at, hs[0], ordinary, env, o[1..]);
      } else {
        assert EventsIn(Bindings(at), HandlerEvents(hs[1..]));
        HandlersKeep(at, hs[1..], ordinary, origin, env, o[1..]);
      }
    }
  }

  /** Values for exactly these locals. */
  lemma {:induction false} Bind(names: set<Name>, a: State) returns (env: Env)
    requires a in States(ALL_GOOD, names)
    ensures StateOf(ALL_GOOD, env) == a && env.Keys <= names
  {
    var none: Env := map[];
    assert StateOf(ALL_GOOD, none) == NOTHING_BOUND;
    var upd := ShufflePick(ALL_GOOD, none, names, a);
    env := Havoc(none, names, upd);
  }

  /** Values of the locals and an oracle under which an ordinary exception leaves. */
  lemma {:induction false} HandlersLeak(at: At, hs: seq<Handler>, ordinary: bool) returns (env: Env, o: Oracle)
    requires LetsOutFor(at, hs, ordinary)
    ensures env.Keys <= LocalNames(at.f) && OrdinaryOut(RunHandlers(at, hs, ordinary, Unguarded, env, o))
    decreases |hs|
  {
    if hs == [] {
      env, o := map[], [];
    } else {
      var pre, taken := [], Takes(at, hs[0], ordinary, true) && MayRaise(at, hs[0], ordinary);
      if taken {
        env, pre := HandlerLeaks(at, hs[0], ordinary);
      } else {
        env, pre := HandlersLeak(at, hs[1..], ordinary);
      }
      o := [Pick(taken, OtherV, map[])] + pre;
      assert o[1..] == pre;
    }
  }

  lemma {:induction false} HandlerLeaks(at: At, h: Handler, ordinary: bool) returns (env: Env, pre: Oracle)
    requires MayRaise(at, h, ordinary)
    ensures env.Keys <= LocalNames(at.f) && OrdinaryOut(RunHandler(at, h, ordinary, env, pre))
  {
    var a, x :| a in States(ALL_GOOD, LocalNames(at.f)) && x in HandlerEnds(Bindings(at), h, ordinary, a)
      && x.end == Throws(true);
    env := Bind(LocalNames(at.f), a);
    FactsAreExact(at, ALL_GOOD);
    var pre1, r := HandlerRun(Bindings(at), h, ordinary, env, x);
    assert RunHandler(at, h, ordinary, env, pre1 + []) == Onward(r, []);
    pre := pre1 + [];
  }

  // ----- guards -----

  /** The code binds no names but locals of the function. */
  ghost predicate OverLocals(f: FuncDef, body: seq<Stmt>)
  {
    forall ev :: ev in BlockEvents(body) ==> EventNames(ev) <= LocalNames(f)
  }

  /** A `try` with these handlers keeps ordinary exceptions in, whatever stands under it and in every run. */
  ghost predicate IsTotal(at: At, s: Stmt)
    requires s.Try?
  {
    forall body, env: Env, o :: OverLocals(at.f, body) && env.Keys <= LocalNames(at.f) ==>
      !OrdinaryOut(RunStmt(at, Try(body, s.handlers, s.orelse, s.finalbody), env, o))
  }

  lemma {:induction false} GuardKeeps(at: At, s: Stmt, env: Env, o: Oracle)
    requires s.Try? && s.orelse == [] && s.finalbody == [] && !LetsOut(at, s.handlers)
    requires InFrame(Bindings(at), env) && EventsIn(Bindings(at), BlockEvents(s.body))
    requires EventsIn(Bindings(at), HandlerEvents(s.handlers))
    ensures !OrdinaryOut(RunStmt(at, s, env, o))
  {
    PlainTry(at, s, env, o);
    FactsAreExact(at, ALL_GOOD);
    BlockRunEnds(Bindings(at), s.body, env, o);
    var r := RunBlock(at, s.body, env, o);
    if r.Done? && r.out.Raised? {
      HandlersKeep(at, s.handlers, r.out.ordinary, r.out.origin, r.env, r.rest);
    }
  }

  const RAISES: seq<Stmt> := [Raise(Some(IntLit(0)))]

  lemma {:induction false} RaisingBody(at: At, hs: seq<Handler>, ordinary: bool, env: Env, o: Oracle)
    ensures OverLocals(at.f, RAISES)
    ensures RunStmt(at, Try(RAISES, hs, [], []), env, [Failing1(ordinary, map[])] + o)
      == RunHandlers(at, hs, ordinary, Unguarded, env, o)
  {
    var all: Oracle := [Failing1(ordinary, map[])] + o;
    assert all[1..] == o;
    assert RunRaise(at, RAISES[0], env, all) == Done(Raised(ordinary, Unguarded), env, o);
    assert RunStmt(at, RAISES[0], env, all) == Done(Raised(ordinary, Unguarded), env, o);
    assert RunBlock(at, RAISES, env, all) == Done(Raised(ordinary, Unguarded), env, o);
    PlainTry(at, Try(RAISES, hs, [], []), env, all);
    assert StmtEvents(RAISES[0]) == [] && BlockEvents(RAISES[1..]) == [];
  }

  lemma {:induction false} LocalsOnly(f: FuncDef, s: Stmt)
    requires s in f.body && s.Try?
    ensures OverLocals(f, s.body)
    ensures forall ev :: ev in HandlerEvents(s.handlers) ==> EventNames(ev) <= LocalNames(f)
  {
    EventsOf(f.body, s);
    BlockEventsLocal(f);
    assert forall ev :: ev in BlockEvents(s.body) || ev in HandlerEvents(s.handlers) ==> ev in StmtEvents(s);
  }

  lemma {:induction false} BlockEventsLocal(f: FuncDef)
    ensures OverLocals(f, f.body)
  {
    BodyEventsIn(Ctx(Here(Program(map[], map[], {}, {}), [], f), ALL_GOOD, {}));
  }

  /**
   A PROTECTED guard lets no ordinary exception out, whatever it guards and in every run,
   exactly when each exception is caught by some handler if it is ordinary, and no handler that
   it can reach may raise.
   */
  lemma {:induction false} GuardTotalIff(w: Where, f: FuncDef, s: Stmt)
    requires s in f.body && s.Try? && GuardStatus(w, f, s) == Protected
    ensures IsTotal(Here(w.p, w.path, f), s) <==> !LetsOut(Here(w.p, w.path, f), s.handlers)
  {
    var at := Here(w.p, w.path, f);
    LocalsOnly(f, s);
    if LetsOut(at, s.handlers) {
      var ordinary := LetsOutFor(at, s.handlers, true);
      var env, o := HandlersLeak(at, s.handlers, ordinary);
      RaisingBody(at, s.handlers, ordinary, env, o);
      assert OrdinaryOut(RunStmt(at, Try(RAISES, s.handlers, s.orelse, s.finalbody), env,
                                 [Failing1(ordinary, map[])] + o));
    } else {
      forall body, env: Env, o | OverLocals(at.f, body) && env.Keys <= LocalNames(at.f)
        ensures !OrdinaryOut(RunStmt(at, Try(body, s.handlers, s.orelse, s.finalbody), env, o))
      {
        GuardKeeps(at, Try(body, s.handlers, s.orelse, s.finalbody), env, o);
      }
    }
  }

  // ----- the chain -----

  predicate TotalEntry(p: Program, k: Key)
  {
    k.1 in TablesOf(p, k.0).funcs ==>
      var f := TablesOf(p, k.0).funcs[k.1];
      forall s :: s in AfterDocstring(f.body) && s.Try? ==> !LetsOut(Here(p, k.0, f), s.handlers)
  }

  /** The entry points that `ep` hands control to. */
  function Targets(p: Program, eps: set<Key>, ep: Key): set<Key>
    requires ep.1 in TablesOf(p, ep.0).funcs
  {
    var rest := AfterDocstring(TablesOf(p, ep.0).funcs[ep.1].body);
    set s | s in rest && !s.Try? && DelegationTarget(p, ep.0, eps, s).Some? :: DelegationTarget(p, ep.0, eps, s).value
  }

  /** The guards of the entry point and of those down its chain are total. */
  predicate TotalDown(p: Program, eps: set<Key>, ep: Key, seen: set<Key>)
    requires ep in eps && ep !in seen
    decreases |eps - seen|
  {
    TotalEntry(p, ep) &&
    (ep.1 in TablesOf(p, ep.0).funcs ==>
      forall t :: t in Targets(p, eps, ep) && t in eps && t !in seen + {ep} ==>
        (SeenGrows(eps, seen, ep); TotalDown(p, eps, t, seen + {ep})))
  }

  /** The arguments of a hand-off in the text of `k`. */
  ghost predicate FromHandoff(p: Program, eps: set<Key>, k: Key, origin: Origin)
  {
    k.1 in TablesOf(p, k.0).funcs &&
    var f := TablesOf(p, k.0).funcs[k.1];
    exists s :: s in AfterDocstring(f.body) && IsHandoff(p, eps, k, f, s, origin)
  }

  ghost predicate IsHandoff(p: Program, eps: set<Key>, k: Key, f: FuncDef, s: Stmt, origin: Origin)
  {
    !s.Try? && DelegationTarget(p, k.0, eps, s).Some? && origin == InArguments(k.0, f, s.result.value)
  }

  /** An ordinary exception leaves only out of the arguments of a hand-off on the chain. */
  ghost predicate OnlyHandoffs(p: Program, eps: set<Key>, ep: Key, out: Outcome)
  {
    out.Raised? && out.ordinary ==> exists k :: OnChain(p, eps, ep, k) && FromHandoff(p, eps, k, out.origin)
  }

  ghost predicate OnlyHandoffsRaise(p: Program, eps: set<Key>, ep: Key)
  {
    ep.1 in TablesOf(p, ep.0).funcs &&
    forall o: Oracle :: var r := RunFunction(p, ep.0, TablesOf(p, ep.0).funcs[ep.1], o);
      r.Escaped? ==> OnlyHandoffs(p, eps, ep, Raised(r.ordinary, r.origin))
  }

  ghost predicate EntriesOk(p: Program, scope: set<Visit>, eps: set<Key>)
  {
    ProgramOk(p, scope) && forall k :: k in eps ==> Visit(k.0, k.1, false) in scope
  }

  lemma {:induction false} TotalHandoff(p: Program, scope: set<Visit>, eps: set<Key>, ep: Key, s: Stmt, t: Key,
                                        env: Env, o: Oracle)
    requires EntriesOk(p, scope, eps) && ep in eps && t in eps && ep.1 in TablesOf(p, ep.0).funcs
    requires !s.Try? && s in AfterDocstring(TablesOf(p, ep.0).funcs[ep.1].body)
    requires DelegationTarget(p, ep.0, eps, s) == Some(t) && OnlyHandoffsRaise(p, eps, t)
    ensures var r := RunStmt(Here(p, ep.0, TablesOf(p, ep.0).funcs[ep.1]), s, env, o);
      r.Done? ==> OnlyHandoffs(p, eps, ep, r.out)
  {
    var f, g := TablesOf(p, ep.0).funcs[ep.1], TablesOf(p, t.0).funcs[t.1];
    TargetIsCallee(p, ep.0, eps, s);
    assert VisitOk(p, scope, Visit(t.0, t.1, false)) && VisitOk(p, scope, Visit(ep.0, ep.1, false));
    HandoffEnds(Here(p, ep.0, f), s, t.0, g, env, o);
    var r := RunStmt(Here(p, ep.0, f), s, env, o);
    if r.Done? && r.out.Raised? && r.out.ordinary {
      if r.out.origin == InArguments(ep.0, f, s.result.value) {
        SelfOnChain(p, eps, ep);
        assert IsHandoff(p, eps, ep, f, s, r.out.origin);
        assert FromHandoff(p, eps, ep, r.out.origin);
      } else {
        var o1 :| EscapesWith(p, t.0, g, o1, r.out);
        var k :| OnChain(p, eps, t, k) && FromHandoff(p, eps, k, r.out.origin);
        HandedOn(p, eps, ep, s, t);
        ChainGrows(p, eps, ep, t, k);
      }
    }
  }

  /** A certified `try` with a total guard. */
  lemma {:induction false} TotalTry(p: Program, eps: set<Key>, entries: map<Key, Codes>, ep: Key, seen: set<Key>,
                                    s: Stmt, env: Env, o: Oracle)
    requires IsProtected(p, eps, entries, ep, seen) && TotalEntry(p, ep)
    requires var f := TablesOf(p, ep.0).funcs[ep.1];
      s in AfterDocstring(f.body) && s.Try? && env.Keys <= LocalNames(f)
    ensures !OrdinaryOut(RunStmt(Here(p, ep.0, TablesOf(p, ep.0).funcs[ep.1]), s, env, o))
  {
    var f := TablesOf(p, ep.0).funcs[ep.1];
    StmtProtected(p, eps, entries, ep, seen, s);
    SkippedDocstring(f.body);
    LocalsOnly(f, s);
    GuardKeeps(Here(p, ep.0, f), s, env, o);
  }

  lemma {:induction false} StmtLocals(at: At, s: Stmt, env: Env, o: Oracle)
    requires s in at.f.body && env.Keys <= LocalNames(at.f)
    ensures RunStmt(at, s, env, o).Done? ==> RunStmt(at, s, env, o).env.Keys <= LocalNames(at.f)
  {
    EventsOf(at.f.body, s);
    BlockEventsLocal(at.f);
    FactsAreExact(at, ALL_GOOD);
    StmtRunEnds(Bindings(at), s, env, o);
  }

  lemma {:induction false} TotalStmt(p: Program, scope: set<Visit>, eps: set<Key>, entries: map<Key, Codes>, ep: Key,
                                     seen: set<Key>, s: Stmt, env: Env, o: Oracle)
    requires EntriesOk(p, scope, eps) && IsProtected(p, eps, entries, ep, seen) && TotalDown(p, eps, ep, seen)
    requires var f := TablesOf(p, ep.0).funcs[ep.1]; s in AfterDocstring(f.body) && env.Keys <= LocalNames(f)
    ensures var r := RunStmt(Here(p, ep.0, TablesOf(p, ep.0).funcs[ep.1]), s, env, o);
      r.Done? ==> OnlyHandoffs(p, eps, ep, r.out)
    decreases |eps - seen|, 0, 0
  {
    StmtProtected(p, eps, entries, ep, seen, s);
    if s.Try? {
      TotalTry(p, eps, entries, ep, seen, s, env, o);
    } else {
      var t := DelegationTarget(p, ep.0, eps, s).value;
      SeenGrows(eps, seen, ep);
      assert t in Targets(p, eps, ep);
      TotalChain(p, scope, eps, entries, t, seen + {ep});
      TotalHandoff(p, scope, eps, ep, s, t, env, o);
    }
  }

  lemma {:induction false} TotalRest(p: Program, scope: set<Visit>, eps: set<Key>, entries: map<Key, Codes>, ep: Key,
                                     seen: set<Key>, rest: seq<Stmt>, env: Env, o: Oracle)
    requires EntriesOk(p, scope, eps) && IsProtected(p, eps, entries, ep, seen) && TotalDown(p, eps, ep, seen)
    requires var f := TablesOf(p, ep.0).funcs[ep.1];
      (forall s :: s in rest ==> s in AfterDocstring(f.body)) && env.Keys <= LocalNames(f)
    ensures var r := RunBlock(Here(p, ep.0, TablesOf(p, ep.0).funcs[ep.1]), rest, env, o);
      r.Done? ==> OnlyHandoffs(p, eps, ep, r.out)
    decreases |eps - seen|, 0, |rest|
  {
    if rest != [] {
      var f := TablesOf(p, ep.0).funcs[ep.1];
      TotalStmt(p, scope, eps, entries, ep, seen, rest[0], env, o);
      SkippedDocstring(f.body);
      StmtLocals(Here(p, ep.0, f), rest[0], env, o);
      var r := RunStmt(Here(p, ep.0, f), rest[0], env, o);
      if r.Done? && r.out.Normal? { TotalRest(p, scope, eps, entries, ep, seen, rest[1..], r.env, r.rest); }
    }
  }

  /**
   When the guards down the chain are total, an ordinary exception leaves a PROTECTED entry
   point only out of the arguments of a hand-off on its chain.
   */
  lemma {:induction false} TotalChain(p: Program, scope: set<Visit>, eps: set<Key>, entries: map<Key, Codes>, ep: Key,
                                      seen: set<Key>)
    requires EntriesOk(p, scope, eps) && IsProtected(p, eps, entries, ep, seen) && TotalDown(p, eps, ep, seen)
    ensures OnlyHandoffsRaise(p, eps, ep)
    decreases |eps - seen|, 1, 0
  {
    var f := TablesOf(p, ep.0).funcs[ep.1];
    forall o: Oracle | RunFunction(p, ep.0, f, o).Escaped?
      ensures var r := RunFunction(p, ep.0, f, o); OnlyHandoffs(p, eps, ep, Raised(r.ordinary, r.origin))
    {
      var env := Enter(f, o[0].upd);
      EntryState(ALL_GOOD, f, o[0].upd);
      DocstringIsIdle(Here(p, ep.0, f), f.body, env, o[1..]);
      TotalRest(p, scope, eps, entries, ep, seen, AfterDocstring(f.body), env, o[1..]);
    }
  }
}
