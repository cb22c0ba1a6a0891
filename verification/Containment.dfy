/**
 Axis ESCAPE: which entry points are PROTECTED, and what that verdict is worth.

 `ENTRY_POINTS` is the parameter `eps`; the sets computed on axis RETURN are `entries`.
 */
module Containment {
  import opened MiniPython
  import opened OwnNodes
  import opened PythonRuns
  import opened ExitSets
  import opened ExitSoundness

  const CONTRACT: set<int> := {0, 5, 95, 96}

  datatype Protection = Protected | Unprotected | Unmeasured

  /** What a block ends in, branch by branch; None when some branch has nothing to end in. */
  function BlockTerminals(b: seq<Stmt>): Option<seq<Stmt>>
    decreases b, 0
  {
    if b == [] then None
    else
      var last := b[|b| - 1];
      if last.If? then
        var bodyT := BlockTerminals(last.body);
        var elseT := if last.orelse != [] then BlockTerminals(last.orelse) else None;
        if bodyT.None? || elseT.None? then None else Some(bodyT.value + elseT.value)
      else Some([last])
  }

  predicate EndsInReturnOrRaise(b: seq<Stmt>)
  {
    BlockTerminals(b).Some? && forall t :: t in BlockTerminals(b).value ==> t.Return? || t.Raise?
  }

  /** What the analyser takes for a catch-all type: anything spelled `Exception`, whatever it denotes. */
  predicate CatchesException(t: TypeExpr)
  {
    match t
    case Plain(id) => id == "Exception"
    case Dotted(_, attr) => attr == "Exception"
    case TupleOf(elts) => exists e :: e in elts && CatchesException(e)
    case OtherType => false
  }

  predicate Blanket(h: Handler)
  {
    h.caught.None? || CatchesException(h.caught.value)
  }

  /** The first handler with such a type, or none; the ones before it are not inspected. */
  function GuardOf(hs: seq<Handler>): (g: Option<Handler>)
    ensures g.Some? <==> exists h :: h in hs && Blanket(h)
    ensures g.Some? ==> g.value in hs && Blanket(g.value)
  {
    if hs == [] then None else if Blanket(hs[0]) then Some(hs[0]) else GuardOf(hs[1..])
  }

  /** Where an entry point's own returns and handlers are resolved. */
  function EntryWhere(p: Program, entries: map<Key, Codes>, ep: Key): Where
  {
    Where(p, ep.0, 0, {ep}, entries)
  }

  function GuardReturns(w: Where, rets: seq<Ret>, locals: LocalTable): Protection
  {
    if rets == [] then Protected
    else
      match ReturnSet(w, rets[0], locals)
      case None => Unmeasured
      case Some(s) => if s <= CONTRACT then GuardReturns(w, rets[1..], locals) else Unprotected
  }

  function GuardStatus(w: Where, f: FuncDef, s: Stmt): Protection
    requires s.Try?
  {
    if s.orelse != [] || s.finalbody != [] then Unprotected
    else
      match GuardOf(s.handlers)
      case None => Unprotected
      case Some(guard) =>
        var status := GuardReturns(w, BlockReturns(guard.body), LocalMap(w, f));
        if status != Protected then status
        else if EndsInReturnOrRaise(guard.body) then Protected
        else Unprotected
  }

  /** The declared entry point a `return NAME(...)` hands control to. */
  function DelegationTarget(p: Program, path: Path, eps: set<Key>, s: Stmt): (t: Option<Key>)
    ensures t.Some? ==> t.value in eps
  {
    if !(s.Return? && s.result.Some? && s.result.value.Call?) then None
    else
      var callee, t := s.result.value.callee, TablesOf(p, path);
      var file := if callee in t.funcs then Some(path)
                  else if callee in t.imports then Locate(p, t.imports[callee]) else None;
      if file.Some? && (file.value, callee) in eps then Some((file.value, callee)) else None
  }

  predicate IsDocstring(s: Stmt)
  {
    s.ExprStmt? && (s.value.IntLit? || s.value.Lit?)
  }

  function AfterDocstring(b: seq<Stmt>): seq<Stmt>
  {
    if b != [] && IsDocstring(b[0]) then AfterDocstring(b[1..]) else b
  }

  function EscapeStatus(p: Program, eps: set<Key>, entries: map<Key, Codes>, ep: Key, seen: set<Key>): Protection
    requires ep in eps && ep !in seen
    decreases |eps - seen|, 1, 0
  {
    if ep.1 !in TablesOf(p, ep.0).funcs then Unmeasured
    else
      var rest := AfterDocstring(TablesOf(p, ep.0).funcs[ep.1].body);
      if rest == [] then Unprotected else EscapeRest(p, eps, entries, ep, seen, rest)
  }

  function EscapeRest(p: Program, eps: set<Key>, entries: map<Key, Codes>, ep: Key, seen: set<Key>, rest: seq<Stmt>):
    Protection
    requires ep in eps && ep !in seen && ep.1 in TablesOf(p, ep.0).funcs
    decreases |eps - seen|, 0, |rest|
  {
    if rest == [] then Protected
    else
      var status := StmtStatus(p, eps, entries, ep, seen, rest[0]);
      if status != Protected then status else EscapeRest(p, eps, entries, ep, seen, rest[1..])
  }

  function StmtStatus(p: Program, eps: set<Key>, entries: map<Key, Codes>, ep: Key, seen: set<Key>, s: Stmt):
    Protection
    requires ep in eps && ep !in seen && ep.1 in TablesOf(p, ep.0).funcs
    decreases |eps - seen|, 0, 0
  {
    if s.Try? then GuardStatus(EntryWhere(p, entries, ep), TablesOf(p, ep.0).funcs[ep.1], s)
    else
      match DelegationTarget(p, ep.0, eps, s)
      case None => Unprotected
      case Some(t) =>
        if t == ep || t in seen || t.0 !in p.mods then Unmeasured
        else
          SeenGrows(eps, seen, ep);
          EscapeStatus(p, eps, entries, t, seen + {ep})
  }

  lemma {:induction false} SeenGrows(eps: set<Key>, seen: set<Key>, ep: Key)
    requires ep in eps && ep !in seen
    ensures |eps - (seen + {ep})| < |eps - seen|
  {
    assert eps - seen == eps - (seen + {ep}) + {ep};
  }

  /** `_escape_status` with its loops. */
  method CheckEntry(p: Program, eps: set<Key>, entries: map<Key, Codes>, ep: Key, seen: set<Key>)
    returns (status: Protection)
    requires ep in eps && ep !in seen
    ensures status == EscapeStatus(p, eps, entries, ep, seen)
  {
    if ep.1 !in TablesOf(p, ep.0).funcs { return Unmeasured; }
    var rest := SkipDocstring(TablesOf(p, ep.0).funcs[ep.1].body);
    if rest == [] { return Unprotected; }
    status := CheckStatements(p, eps, entries, ep, seen, rest);
  }

  method SkipDocstring(body: seq<Stmt>) returns (rest: seq<Stmt>)
    ensures rest == AfterDocstring(body)
  {
    var i := 0;
    while i < |body| && IsDocstring(body[i])
      invariant 0 <= i <= |body| && AfterDocstring(body) == AfterDocstring(body[i..])
    {
      assert body[i..][1..] == body[i + 1..];
      i := i + 1;
    }
    return body[i..];
  }

  method CheckStatements(p: Program, eps: set<Key>, entries: map<Key, Codes>, ep: Key, seen: set<Key>, rest: seq<Stmt>)
    returns (status: Protection)
    requires ep in eps && ep !in seen && ep.1 in TablesOf(p, ep.0).funcs
    ensures status == EscapeRest(p, eps, entries, ep, seen, rest)
  {
    assert rest[0..] == rest;
    for j := 0 to |rest|
      invariant EscapeRest(p, eps, entries, ep, seen, rest) == EscapeRest(p, eps, entries, ep, seen, rest[j..])
    {
      assert rest[j..][1..] == rest[j + 1..] && rest[j..][0] == rest[j];
      var s := StmtStatus(p, eps, entries, ep, seen, rest[j]);
      if s != Protected { return s; }
    }
    return Protected;
  }

  // ----- the guard -----

  /** A block whose terminals are all `return` or `raise` never completes normally. */
  lemma {:induction false} NeverFallsThrough(at: At, b: seq<Stmt>, env: Env, o: Oracle)
    requires EndsInReturnOrRaise(b)
    ensures var r := RunBlock(at, b, env, o); r.Done? ==> !r.out.Normal?
    decreases b, |b|
  {
    if |b| == 1 {
      var s := b[0];
      assert s in BlockTerminals(b).value || s.If?;
      if s.If? {
        IfTerminals(b);
        var r := EvalExpr(at, s.value, env, o);
        if r.Val? {
          assert RunStmt(at, s, env, o) == RunAfter(at, s, r.env, r.rest);
          if r.rest != [] {
            NeverFallsThrough(at, if Branch(s.value, r.rest[0].go) then s.body else s.orelse, r.env, r.rest[1..]);
          }
        }
      } else {
        EndsItself(at, s, env, o);
      }
    } else {
      assert b[1..][|b| - 2] == b[|b| - 1];
      var r := RunStmt(at, b[0], env, o);
      if r.Done? && r.out.Normal? { NeverFallsThrough(at, b[1..], r.env, r.rest); }
    }
  }

  lemma {:induction false} EndsItself(at: At, s: Stmt, env: Env, o: Oracle)
    requires s.Return? || s.Raise?
    ensures var r := RunStmt(at, s, env, o); r.Done? ==> !r.out.Normal?
  {
    if s.Raise? { assert RunStmt(at, s, env, o) == RunRaise(at, s, env, o); }
  }

  lemma {:induction false} IfTerminals(b: seq<Stmt>)
    requires EndsInReturnOrRaise(b) && b != [] && b[|b| - 1].If?
    ensures EndsInReturnOrRaise(b[|b| - 1].body) && EndsInReturnOrRaise(b[|b| - 1].orelse)
  {
    var last := b[|b| - 1];
    assert forall t :: t in BlockTerminals(last.body).value ==> t in BlockTerminals(b).value;
    assert forall t :: t in BlockTerminals(last.orelse).value ==> t in BlockTerminals(b).value;
  }

  lemma {:induction false} GuardReturnsIn(w: Where, rets: seq<Ret>, locals: LocalTable)
    requires GuardReturns(w, rets, locals) == Protected
    requires forall r :: r in rets && r.result.Some? ==> CallsCovered(w, r.result.value)
    ensures ReturnsIn(w, Some(locals), rets, Some(CONTRACT))
    decreases |rets|
  {
    if rets != [] {
      GuardReturnsIn(w, rets[1..], locals);
      assert forall r :: r in rets ==> r == rets[0] || r in rets[1..];
    }
  }

  /** Where the runs of an entry point are judged, with the table of its own locals. */
  ghost predicate EntryJudged(w: Where, f: FuncDef)
  {
    && Judged(w, Here(w.p, w.path, f), Some(LocalMap(w, f))) && TrustedCovered(w, f)
    && AllAllowed(w, Some(LocalMap(w, f)), BlockEvents(f.body))
  }

  ghost predicate EntryEnv(w: Where, f: FuncDef, env: Env)
  {
    EnvOk(Some(LocalMap(w, f)), env)
  }

  lemma {:induction false} EventsOf(b: seq<Stmt>, s: Stmt)
    requires s in b
    ensures forall ev :: ev in StmtEvents(s) ==> ev in BlockEvents(b)
    ensures forall r :: r in StmtReturns(s) ==> r in BlockReturns(b)
    decreases |b|
  {
    if s != b[0] { EventsOf(b[1..], s); }
  }

  lemma {:induction false} HandlerEventsOf(hs: seq<Handler>, h: Handler)
    requires h in hs
    ensures forall ev :: ev in BlockEvents(h.body) ==> ev in HandlerEvents(hs)
    ensures h.bound.Some? ==> Poison({h.bound.value}) in HandlerEvents(hs)
    ensures forall r :: r in BlockReturns(h.body) ==> r in HandlerReturns(hs)
    decreases |hs|
  {
    if h != hs[0] { HandlerEventsOf(hs[1..], h); }
  }

  /** A run of a handler never completes, and what it returns is in contract. */
  ghost predicate Converts(w: Where, f: FuncDef, h: Handler, ordinary: bool, env: Env, o: Oracle)
  {
    var r := RunHandler(Here(w.p, w.path, f), h, ordinary, env, o);
    r.Done? ==> !r.out.Normal? && (r.out.Returned? ==> Status(r.out.v) in CONTRACT)
  }

  /** What a handler of the body binds and runs is allowed for in the function's table. */
  lemma {:induction false} HandlerIsJudged(w: Where, f: FuncDef, s: Stmt, h: Handler)
    requires EntryJudged(w, f) && s in f.body && s.Try? && h in s.handlers
    ensures HandlerJudged(w, Some(LocalMap(w, f)), h)
    ensures forall r :: r in BlockReturns(h.body) && r.result.Some? ==> CallsCovered(w, r.result.value)
  {
    EventsOf(f.body, s);
    HandlerEventsOf(s.handlers, h);
    if h.bound.Some? {
      var ev := Poison({h.bound.value});
      assert ev in HandlerEvents(s.handlers) && ev in StmtEvents(s) && Allowed(w, Some(LocalMap(w, f)), ev);
    }
    ReturnsTrusted(w, f);
    assert forall r :: r in BlockReturns(h.body) ==> r in StmtReturns(s);
  }

  /** The guard of a PROTECTED `try` never falls out of its end, and what it returns is in contract. */
  lemma {:induction false} GuardConverts(w: Where, f: FuncDef, s: Stmt, ordinary: bool, env: Env, o: Oracle)
    requires EntryJudged(w, f) && EntryEnv(w, f, env) && s in f.body
    requires s.Try? && GuardStatus(w, f, s) == Protected
    ensures Converts(w, f, GuardOf(s.handlers).value, ordinary, env, o)
  {
    var h, locals := GuardOf(s.handlers).value, LocalMap(w, f);
    HandlerIsJudged(w, f, s, h);
    GuardReturnsIn(w, BlockReturns(h.body), locals);
    var at := Here(w.p, w.path, f);
    HandlerSound(w, at, Some(locals), Some(CONTRACT), h, ordinary, env, o);
    NeverFallsThrough(Handling(at, ordinary), h.body, EnterHandler(h, env), o);
  }

  // ----- what the handlers of a `try` catch -----

  predicate SomeSure(at: At, hs: seq<Handler>)
  {
    exists h :: h in hs && Sure(at, h)
  }

  /** An exception leaves out of one of the handlers, or is the one that came and was surely caught by none. */
  ghost predicate LeavesHandlers(at: At, hs: seq<Handler>, came: Outcome, out: Outcome)
  {
    out.Raised? ==>
      || (exists h :: h in hs && out.origin == InHandler(at.path, at.f, h))
      || (out == came && (came.ordinary ==> !SomeSure(at, hs)))
  }

  lemma {:induction false} HandlersCatch(at: At, hs: seq<Handler>, ordinary: bool, origin: Origin, env: Env, o: Oracle)
    ensures var r := RunHandlers(at, hs, ordinary, origin, env, o);
      r.Done? ==> LeavesHandlers(at, hs, Raised(ordinary, origin), r.out)
    decreases |hs|
  {
    if hs != [] && o != [] {
      if Takes(at, hs[0], ordinary, o[0].go) {
        assert hs[0] in hs;
      } else {
        var tail := hs[1..];
        HandlersCatch(at, tail, ordinary, origin, env, o[1..]);
        assert forall h :: h in hs <==> h == hs[0] || h in tail;
      }
    }
  }

  const MISS: Choice := Choice(false, false, false, OtherV, map[])

  /** When no handler surely catches, a run passes them all. */
  lemma {:induction false} PassedBy(at: At, hs: seq<Handler>, env: Env) returns (o: Oracle)
    requires !SomeSure(at, hs)
    ensures RunHandlers(at, hs, true, Unguarded, env, o) == Done(Raised(true, Unguarded), env, [])
    decreases |hs|
  {
    if hs == [] {
      o := [];
    } else {
      var tail := hs[1..];
      assert hs[0] in hs && forall h :: h in tail ==> h in hs;
      var rest := PassedBy(at, tail, env);
      o := [MISS] + rest;
      assert o[1..] == rest && !Takes(at, hs[0], true, o[0].go);
    }
  }

  /**
   Nothing ordinary passes the handlers untouched exactly when one is bare or names the builtin
   `Exception` or `BaseException`.
   */
  lemma {:induction false} HandlersCatchIff(at: At, hs: seq<Handler>)
    ensures SomeSure(at, hs) <==>
      forall env, o :: RunHandlers(at, hs, true, Unguarded, env, o).Done? ==>
        RunHandlers(at, hs, true, Unguarded, env, o).out != Raised(true, Unguarded)
  {
    if SomeSure(at, hs) {
      forall env, o | RunHandlers(at, hs, true, Unguarded, env, o).Done?
        ensures RunHandlers(at, hs, true, Unguarded, env, o).out != Raised(true, Unguarded)
      {
        HandlersCatch(at, hs, true, Unguarded, env, o);
      }
    } else {
      var o := PassedBy(at, hs, map[]);
    }
  }

  // ----- delegation chains -----

  /** Some statement of `a` hands control to the declared entry point `b`. */
  ghost predicate DelegatesTo(p: Program, eps: set<Key>, a: Key, b: Key)
  {
    && a.1 in TablesOf(p, a.0).funcs
    && exists s :: s in AfterDocstring(TablesOf(p, a.0).funcs[a.1].body) && !s.Try?
         && DelegationTarget(p, a.0, eps, s) == Some(b)
  }

  ghost predicate IsChain(p: Program, eps: set<Key>, chain: seq<Key>)
  {
    chain != [] && forall i :: 0 <= i < |chain| - 1 ==> DelegatesTo(p, eps, chain[i], chain[i + 1])
  }

  ghost predicate OnChain(p: Program, eps: set<Key>, ep: Key, k: Key)
  {
    exists chain :: IsChain(p, eps, chain) && chain[0] == ep && chain[|chain| - 1] == k
  }

  lemma {:induction false} SelfOnChain(p: Program, eps: set<Key>, ep: Key)
    ensures OnChain(p, eps, ep, ep)
  {
    var chain := [ep];
    assert IsChain(p, eps, chain) && chain[0] == ep && chain[|chain| - 1] == ep;
  }

  lemma {:induction false} ChainGrows(p: Program, eps: set<Key>, ep: Key, t: Key, k: Key)
    requires DelegatesTo(p, eps, ep, t) && OnChain(p, eps, t, k)
    ensures OnChain(p, eps, ep, k)
  {
    var chain :| IsChain(p, eps, chain) && chain[0] == t && chain[|chain| - 1] == k;
    var longer := [ep] + chain;
    forall i | 0 <= i < |longer| - 1 ensures DelegatesTo(p, eps, longer[i], longer[i + 1]) {
      if i > 0 { assert DelegatesTo(p, eps, chain[i - 1], chain[i - 1 + 1]); }
    }
    assert IsChain(p, eps, longer) && longer[|longer| - 1] == k;
  }

  /** The code of one entry point that its checks leave open: handlers of its guards, arguments of its hand-offs. */
  ghost predicate FromOwn(p: Program, eps: set<Key>, k: Key, origin: Origin)
  {
    k.1 in TablesOf(p, k.0).funcs &&
    var f := TablesOf(p, k.0).funcs[k.1];
    exists s :: s in AfterDocstring(f.body) && FromStmt(p, eps, k, f, s, origin)
  }

  ghost predicate FromStmt(p: Program, eps: set<Key>, k: Key, f: FuncDef, s: Stmt, origin: Origin)
  {
    if s.Try? then exists h :: h in s.handlers && origin == InHandler(k.0, f, h)
    else DelegationTarget(p, k.0, eps, s).Some? && origin == InArguments(k.0, f, s.result.value)
  }

  ghost predicate FromChain(p: Program, eps: set<Key>, ep: Key, origin: Origin)
  {
    exists k :: OnChain(p, eps, ep, k) && FromOwn(p, eps, k, origin)
  }

  ghost predicate IsGuard(f: FuncDef, h: Handler)
  {
    exists s :: s in AfterDocstring(f.body) && s.Try? && GuardOf(s.handlers) == Some(h)
  }

  // ----- containment over whole runs -----

  /** How a run of an entry point's body may end. */
  ghost predicate Contained(p: Program, eps: set<Key>, ep: Key, f: FuncDef, out: Outcome)
  {
    match out
    case Raised(ordinary, origin) => ordinary ==> FromChain(p, eps, ep, origin)
    case Returned(v, InHandler(_, _, h)) => IsGuard(f, h) ==> Status(v) in CONTRACT
    case _ => true
  }

  /** No ordinary exception leaves a run of this entry point but from the code its chain leaves open. */
  ghost predicate KeepsItsExceptions(p: Program, eps: set<Key>, ep: Key)
  {
    ep.1 in TablesOf(p, ep.0).funcs &&
    forall o: Oracle :: var r := RunFunction(p, ep.0, TablesOf(p, ep.0).funcs[ep.1], o);
      r.Escaped? && r.ordinary ==> FromChain(p, eps, ep, r.origin)
  }

  ghost predicate GuardsConvert(p: Program, entries: map<Key, Codes>, ep: Key)
  {
    ep.1 in TablesOf(p, ep.0).funcs &&
    var (w, f) := (EntryWhere(p, entries, ep), TablesOf(p, ep.0).funcs[ep.1]);
    forall h, ordinary, env, o :: IsGuard(f, h) && EntryEnv(w, f, env) ==> Converts(w, f, h, ordinary, env, o)
  }

  /** From the values a call may begin with, every run of the body is contained. */
  ghost predicate BodyHolds(p: Program, eps: set<Key>, entries: map<Key, Codes>, ep: Key)
  {
    ep.1 in TablesOf(p, ep.0).funcs &&
    var (w, f) := (EntryWhere(p, entries, ep), TablesOf(p, ep.0).funcs[ep.1]);
    forall env, o :: EntryEnv(w, f, env) && RunBlock(Here(p, ep.0, f), f.body, env, o).Done? ==>
      Contained(p, eps, ep, f, RunBlock(Here(p, ep.0, f), f.body, env, o).out)
  }

  // ----- one statement -----

  /** The text `Exception` of every guard really is a bare clause or the builtin. */
  ghost predicate GuardsSure(p: Program, ep: Key)
  {
    ep.1 in TablesOf(p, ep.0).funcs ==>
      var f := TablesOf(p, ep.0).funcs[ep.1];
      forall s :: s in f.body && s.Try? ==> SomeSure(Here(p, ep.0, f), s.handlers)
  }

  ghost predicate ChainSure(p: Program, eps: set<Key>, ep: Key)
  {
    forall k :: OnChain(p, eps, ep, k) ==> GuardsSure(p, k)
  }

  /** The program, the scope and the sets under which entry points are judged. */
  ghost predicate Proper(p: Program, scope: set<Visit>, eps: set<Key>, entries: map<Key, Codes>)
  {
    ProgramOk(p, scope) && EntriesSound(p, entries) && forall k :: k in eps ==> Visit(k.0, k.1, false) in scope
  }

  lemma {:induction false} EnterOk(w: Where, f: FuncDef, upd: Env)
    requires MayVary(Some(LocalMap(w, f)), Unseen(f))
    ensures EntryEnv(w, f, Enter(f, upd))
  {
  }

  lemma {:induction false} EntryIsJudged(p: Program, scope: set<Visit>, entries: map<Key, Codes>, ep: Key)
    requires ProgramOk(p, scope) && EntriesSound(p, entries) && Visit(ep.0, ep.1, false) in scope
    requires ep.1 in TablesOf(p, ep.0).funcs
    ensures var (w, f) := (EntryWhere(p, entries, ep), TablesOf(p, ep.0).funcs[ep.1]);
      FunctionOk(p, ep.0, f) && EntryJudged(w, f) && MayVary(Some(LocalMap(w, f)), Unseen(f))
  {
    var w, f := EntryWhere(p, entries, ep), TablesOf(p, ep.0).funcs[ep.1];
    assert VisitOk(p, scope, Visit(ep.0, ep.1, false));
    TrustedIsCovered(w, scope, ep.1);
    TableIsSound(w, f);
  }

  ghost predicate ReturnedBy(w: Where, f: FuncDef, h: Handler, ordinary: bool, env: Env, o: Oracle, r: Run)
  {
    && r.Done? && r.out.Returned? && r == RunHandler(Here(w.p, w.path, f), h, ordinary, env, o)
    && r.out.origin == InHandler(w.path, f, h)
  }

  ghost predicate ReturnedBySome(w: Where, f: FuncDef, hs: seq<Handler>, ordinary: bool, env: Env, r: Run)
  {
    r.Done? && r.out.Returned? ==> exists h, o :: h in hs && ReturnedBy(w, f, h, ordinary, env, o, r)
  }

  /** What comes back from the handlers of a `try` was returned by one of them. */
  lemma {:induction false} ReturnedByHandler(w: Where, f: FuncDef, hs: seq<Handler>, ordinary: bool, origin: Origin,
                                             env: Env, o: Oracle)
    ensures ReturnedBySome(w, f, hs, ordinary, env, RunHandlers(Here(w.p, w.path, f), hs, ordinary, origin, env, o))
    decreases |hs|
  {
    if hs != [] && o != [] {
      if Takes(Here(w.p, w.path, f), hs[0], ordinary, o[0].go) {
        FirstReturns(w, f, hs, ordinary, env, o[1..]);
      } else {
        ReturnedByHandler(w, f, hs[1..], ordinary, origin, env, o[1..]);
        assert forall h :: h in hs[1..] ==> h in hs;
      }
    }
  }

  lemma {:induction false} FirstReturns(w: Where, f: FuncDef, hs: seq<Handler>, ordinary: bool, env: Env, o: Oracle)
    requires hs != []
    ensures ReturnedBySome(w, f, hs, ordinary, env, RunHandler(Here(w.p, w.path, f), hs[0], ordinary, env, o))
  {
    var r := RunHandler(Here(w.p, w.path, f), hs[0], ordinary, env, o);
    assert hs[0] in hs;
    if r.Done? && r.out.Returned? { assert ReturnedBy(w, f, hs[0], ordinary, env, o, r); }
  }

  lemma {:induction false} SkippedDocstring(b: seq<Stmt>)
    ensures forall s :: s in AfterDocstring(b) ==> s in b
    ensures forall ev :: ev in BlockEvents(AfterDocstring(b)) ==> ev in BlockEvents(b)
    decreases |b|
  {
    if b != [] && IsDocstring(b[0]) { SkippedDocstring(b[1..]); }
  }

  /** Running the docstring does nothing. */
  lemma {:induction false} DocstringIsIdle(at: At, b: seq<Stmt>, env: Env, o: Oracle)
    ensures RunBlock(at, b, env, o) == RunBlock(at, AfterDocstring(b), env, o)
    decreases |b|
  {
    if b != [] && IsDocstring(b[0]) {
      DocstringIsIdle(at, b[1..], env, o);
      assert EvalExpr(at, b[0].value, env, o).Val?;
      assert RunStmt(at, b[0], env, o) == Done(Normal, env, o);
    }
  }

  /** `EscapeStatus` came to PROTECTED for a declared entry point that is not yet on the chain. */
  ghost predicate IsProtected(p: Program, eps: set<Key>, entries: map<Key, Codes>, ep: Key, seen: set<Key>)
  {
    ep in eps && ep !in seen && EscapeStatus(p, eps, entries, ep, seen) == Protected
  }

  lemma {:induction false} RestProtected(p: Program, eps: set<Key>, entries: map<Key, Codes>, ep: Key, seen: set<Key>,
                                         rest: seq<Stmt>, s: Stmt)
    requires ep in eps && ep !in seen && ep.1 in TablesOf(p, ep.0).funcs
    requires EscapeRest(p, eps, entries, ep, seen, rest) == Protected && s in rest
    ensures StmtStatus(p, eps, entries, ep, seen, s) == Protected
    decreases |rest|
  {
    if s != rest[0] { RestProtected(p, eps, entries, ep, seen, rest[1..], s); }
  }

  /** Each statement behind the docstring of a PROTECTED entry point is certified. */
  lemma {:induction false} StmtProtected(p: Program, eps: set<Key>, entries: map<Key, Codes>, ep: Key, seen: set<Key>,
                                         s: Stmt)
    requires IsProtected(p, eps, entries, ep, seen)
    requires s in AfterDocstring(TablesOf(p, ep.0).funcs[ep.1].body)
    ensures StmtStatus(p, eps, entries, ep, seen, s) == Protected
  {
    RestProtected(p, eps, entries, ep, seen, AfterDocstring(TablesOf(p, ep.0).funcs[ep.1].body), s);
  }

  lemma {:induction false} AllGuardsConvert(p: Program, scope: set<Visit>, eps: set<Key>, entries: map<Key, Codes>,
                                            ep: Key, seen: set<Key>)
    requires Proper(p, scope, eps, entries) && IsProtected(p, eps, entries, ep, seen)
    ensures GuardsConvert(p, entries, ep)
  {
    var w, f := EntryWhere(p, entries, ep), TablesOf(p, ep.0).funcs[ep.1];
    EntryIsJudged(p, scope, entries, ep);
    SkippedDocstring(f.body);
    forall h, ordinary, env, o | IsGuard(f, h) && EntryEnv(w, f, env) ensures Converts(w, f, h, ordinary, env, o) {
      var s :| s in AfterDocstring(f.body) && s.Try? && GuardOf(s.handlers) == Some(h);
      StmtProtected(p, eps, entries, ep, seen, s);
      GuardConverts(w, f, s, ordinary, env, o);
    }
  }

  /** A `try` without `else` and `finally`. */
  lemma {:induction false} PlainTry(at: At, s: Stmt, env: Env, o: Oracle)
    requires s.Try? && s.orelse == [] && s.finalbody == []
    ensures RunStmt(at, s, env, o) ==
      match RunBlock(at, s.body, env, o)
      case Cut => Cut
      case Done(out, env1, o1) =>
        match out
        case Returned(v, _) => Done(Returned(v, Unguarded), env1, o1)
        case Raised(ordinary, origin) => RunHandlers(at, s.handlers, ordinary, origin, env1, o1)
        case _ => Done(out, env1, o1)
  {
    assert RunStmt(at, s, env, o) == RunTry(at, s, env, o);
    assert RunTry(at, s, env, o) == RunGuarded(at, s, env, o);
    var r := RunBlock(at, s.body, env, o);
    if r.Done? && r.out.Normal? {
      assert RunBlock(at, s.orelse, r.env, r.rest) == Done(Normal, r.env, r.rest);
    }
  }

  lemma {:induction false} TryContained(p: Program, eps: set<Key>, entries: map<Key, Codes>, ep: Key, s: Stmt, env: Env,
                                        o: Oracle)
    requires GuardsConvert(p, entries, ep) && GuardsSure(p, ep)
    requires var (w, f) := (EntryWhere(p, entries, ep), TablesOf(p, ep.0).funcs[ep.1]);
      && EntryJudged(w, f) && EntryEnv(w, f, env) && s in AfterDocstring(f.body)
      && s.Try? && GuardStatus(w, f, s) == Protected
    ensures var f := TablesOf(p, ep.0).funcs[ep.1];
      var r := RunStmt(Here(p, ep.0, f), s, env, o); r.Done? ==> Contained(p, eps, ep, f, r.out)
  {
    var w, f := EntryWhere(p, entries, ep), TablesOf(p, ep.0).funcs[ep.1];
    var r := RunBlock(Here(p, ep.0, f), s.body, env, o);
    BehindDocstring(f.body, s);
    HandlersAllowed(w, f, s);
    PlainTry(Here(p, ep.0, f), s, env, o);
    if r.Done? && r.out.Raised? {
      GuardedEnv(w, f, s, env, o);
      CaughtContained(p, eps, entries, ep, s, r.out.ordinary, r.out.origin, r.env, r.rest);
    }
  }

  lemma {:induction false} BehindDocstring(b: seq<Stmt>, s: Stmt)
    requires s in AfterDocstring(b)
    ensures s in b
  {
    SkippedDocstring(b);
  }

  lemma {:induction false} HandlersAllowed(w: Where, f: FuncDef, s: Stmt)
    requires EntryJudged(w, f) && s in f.body && s.Try?
    ensures AllAllowed(w, Some(LocalMap(w, f)), HandlerEvents(s.handlers))
  {
    EventsOf(f.body, s);
  }

  /** The locals stay in their sets under a `try` of the body. */
  lemma {:induction false} GuardedEnv(w: Where, f: FuncDef, s: Stmt, env: Env, o: Oracle)
    requires EntryJudged(w, f) && EntryEnv(w, f, env) && s in f.body && s.Try?
    ensures var r := RunBlock(Here(w.p, w.path, f), s.body, env, o); r.Done? ==> EntryEnv(w, f, r.env)
  {
    EventsOf(f.body, s);
    BlockSound(w, Here(w.p, w.path, f), Some(LocalMap(w, f)), None, s.body, env, o);
  }

  /** An exception that reaches the handlers of a certified `try`. */
  lemma {:induction false} CaughtContained(p: Program, eps: set<Key>, entries: map<Key, Codes>, ep: Key, s: Stmt,
                                           ordinary: bool, origin: Origin, env: Env, o: Oracle)
    requires GuardsConvert(p, entries, ep) && GuardsSure(p, ep)
    requires var (w, f) := (EntryWhere(p, entries, ep), TablesOf(p, ep.0).funcs[ep.1]);
      && EntryJudged(w, f) && EntryEnv(w, f, env) && s in AfterDocstring(f.body) && s in f.body && s.Try?
      && AllAllowed(w, Some(LocalMap(w, f)), HandlerEvents(s.handlers))
    ensures var f := TablesOf(p, ep.0).funcs[ep.1];
      var r := RunHandlers(Here(p, ep.0, f), s.handlers, ordinary, origin, env, o);
      r.Done? ==> Contained(p, eps, ep, f, r.out)
  {
    var w, f := EntryWhere(p, entries, ep), TablesOf(p, ep.0).funcs[ep.1];
    var r := RunHandlers(Here(p, ep.0, f), s.handlers, ordinary, origin, env, o);
    HandlersCatch(Here(p, ep.0, f), s.handlers, ordinary, origin, env, o);
    ReturnedByHandler(w, f, s.handlers, ordinary, origin, env, o);
    if r.Done? && r.out.Raised? && r.out.ordinary {
      SelfOnChain(p, eps, ep);
      assert FromStmt(p, eps, ep, f, s, r.out.origin);
      assert FromOwn(p, eps, ep, r.out.origin);
    }
    if r.Done? && r.out.Returned? {
      var h, o1 :| h in s.handlers && ReturnedBy(w, f, h, ordinary, env, o1, r);
      assert IsGuard(f, h) ==> Converts(w, f, h, ordinary, env, o1);
    }
  }

  // ----- entry points and their delegation chain -----

  lemma {:induction false} TargetIsCallee(p: Program, path: Path, eps: set<Key>, s: Stmt)
    requires ModulesOk(p) && DelegationTarget(p, path, eps, s).Some?
    requires var t := DelegationTarget(p, path, eps, s).value; t.1 in TablesOf(p, t.0).funcs
    ensures s.Return? && s.result.Some? && s.result.value.Call? && ModuleName(p, path, s.result.value.callee)
    ensures var t := DelegationTarget(p, path, eps, s).value;
      GlobalOf(p, path, s.result.value.callee) == DefGlobal(t.0, TablesOf(p, t.0).funcs[t.1])
  {
    var callee, t := s.result.value.callee, DelegationTarget(p, path, eps, s).value;
    if callee in TablesOf(p, path).funcs {
      FuncIsGlobal(p, path, callee);
    } else {
      ImportIsGlobal(p, path, callee, t.0);
    }
  }

  ghost predicate EscapesWith(p: Program, q: Path, g: FuncDef, o: Oracle, out: Outcome)
  {
    out.Raised? &&
    var r := RunFunction(p, q, g, o);
    r.Escaped? && r.ordinary == out.ordinary && r.origin == out.origin
  }

  /** What comes out of a hand-off came out of its arguments, or out of the function it calls. */
  lemma {:induction false} HandoffEnds(at: At, s: Stmt, q: Path, g: FuncDef, env: Env, o: Oracle)
    requires s.Return? && s.result.Some? && s.result.value.Call?
    requires s.result.value.callee !in LocalNames(at.f) && g.direct
    requires GlobalOf(at.p, at.path, s.result.value.callee) == DefGlobal(q, g)
    ensures var r := RunStmt(at, s, env, o);
      && (r.Done? ==> r.out.Raised? || (r.out.Returned? && r.out.origin == Unguarded))
      && (r.Done? && r.out.Raised? && r.out.origin != InArguments(at.path, at.f, s.result.value) ==>
            exists o1 :: EscapesWith(at.p, q, g, o1, r.out))
  {
    var e := s.result.value;
    var a, v := EvalArgs(at, e.args, env, o), EvalExpr(at, e, env, o);
    if a.ArgsDone? {
      assert v == RunCall(at, e, a.env, a.rest);
      CalleeEnds(at, e, q, g, a.env, a.rest);
      if v.Exn? && v.origin != InArguments(at.path, at.f, e) {
        var o1 :| EscapesWith(at.p, q, g, o1, Raised(v.ordinary, v.origin));
        assert EscapesWith(at.p, q, g, o1, RunStmt(at, s, env, o).out);
      }
    }
  }

  /** The same for a call whose arguments have their values. */
  lemma {:induction false} CalleeEnds(at: At, e: Expr, q: Path, g: FuncDef, env: Env, o: Oracle)
    requires e.Call? && e.callee !in LocalNames(at.f) && g.direct
    requires GlobalOf(at.p, at.path, e.callee) == DefGlobal(q, g)
    ensures var v := RunCall(at, e, env, o); v.Exn? && v.origin != InArguments(at.path, at.f, e) ==>
      exists o1 :: EscapesWith(at.p, q, g, o1, Raised(v.ordinary, v.origin))
  {
    var v := RunCall(at, e, env, o);
    if v.Exn? && v.origin != InArguments(at.path, at.f, e) {
      InvokeIsRun(at, e.callee, q, g, o[1..]);
      assert EscapesWith(at.p, q, g, o[1..], Raised(v.ordinary, v.origin));
    }
  }

  lemma {:induction false} InvokeIsRun(at: At, callee: Name, q: Path, g: FuncDef, o: Oracle)
    requires GlobalOf(at.p, at.path, callee) == DefGlobal(q, g) && g.direct
    ensures Invoke(at.p, at.path, callee, o) == RunFunction(at.p, q, g, o)
  {
  }

  lemma {:induction false} HandoffContained(p: Program, scope: set<Visit>, eps: set<Key>, entries: map<Key, Codes>,
                                            ep: Key, s: Stmt, t: Key, env: Env, o: Oracle)
    requires Proper(p, scope, eps, entries) && ep in eps && t in eps && ep.1 in TablesOf(p, ep.0).funcs
    requires !s.Try? && s in AfterDocstring(TablesOf(p, ep.0).funcs[ep.1].body)
    requires DelegationTarget(p, ep.0, eps, s) == Some(t) && KeepsItsExceptions(p, eps, t)
    ensures var f := TablesOf(p, ep.0).funcs[ep.1];
      var r := RunStmt(Here(p, ep.0, f), s, env, o); r.Done? ==> Contained(p, eps, ep, f, r.out)
  {
    var f, g := TablesOf(p, ep.0).funcs[ep.1], TablesOf(p, t.0).funcs[t.1];
    var w := EntryWhere(p, entries, ep);
    TargetIsCallee(p, ep.0, eps, s);
    assert VisitOk(p, scope, Visit(t.0, t.1, false)) && VisitOk(p, scope, Visit(ep.0, ep.1, false));
    HandoffEnds(Here(p, ep.0, f), s, t.0, g, env, o);
    var r := RunStmt(Here(p, ep.0, f), s, env, o);
    if r.Done? && r.out.Raised? && r.out.ordinary {
      if r.out.origin == InArguments(ep.0, f, s.result.value) {
        SelfOnChain(p, eps, ep);
        assert FromStmt(p, eps, ep, f, s, r.out.origin);
        assert FromOwn(p, eps, ep, r.out.origin);
      } else {
        var o1 :| EscapesWith(p, t.0, g, o1, r.out);
        var k :| OnChain(p, eps, t, k) && FromOwn(p, eps, k, r.out.origin);
        assert DelegatesTo(p, eps, ep, t);
        ChainGrows(p, eps, ep, t, k);
      }
    }
  }

  lemma {:induction false} StmtContained(p: Program, scope: set<Visit>, eps: set<Key>, entries: map<Key, Codes>,
                                         ep: Key, seen: set<Key>, s: Stmt, env: Env, o: Oracle)
    requires Proper(p, scope, eps, entries) && IsProtected(p, eps, entries, ep, seen) && ChainSure(p, eps, ep)
    requires var (w, f) := (EntryWhere(p, entries, ep), TablesOf(p, ep.0).funcs[ep.1]);
      s in AfterDocstring(f.body) && EntryEnv(w, f, env)
    ensures var f := TablesOf(p, ep.0).funcs[ep.1];
      var r := RunStmt(Here(p, ep.0, f), s, env, o); r.Done? ==> Contained(p, eps, ep, f, r.out)
    decreases |eps - seen|, 0, 0
  {
    StmtProtected(p, eps, entries, ep, seen, s);
    if s.Try? {
      AllGuardsConvert(p, scope, eps, entries, ep, seen);
      EntryIsJudged(p, scope, entries, ep);
      SelfOnChain(p, eps, ep);
      TryContained(p, eps, entries, ep, s, env, o);
    } else {
      var t := DelegationTarget(p, ep.0, eps, s).value;
      SeenGrows(eps, seen, ep);
      HandedOn(p, eps, ep, s, t);
      EntryContained(p, scope, eps, entries, t, seen + {ep});
      HandoffContained(p, scope, eps, entries, ep, s, t, env, o);
    }
  }

  lemma {:induction false} HandedOn(p: Program, eps: set<Key>, ep: Key, s: Stmt, t: Key)
    requires ep.1 in TablesOf(p, ep.0).funcs && s in AfterDocstring(TablesOf(p, ep.0).funcs[ep.1].body) && !s.Try?
    requires DelegationTarget(p, ep.0, eps, s) == Some(t)
    ensures DelegatesTo(p, eps, ep, t)
    ensures ChainSure(p, eps, ep) ==> ChainSure(p, eps, t)
  {
    assert DelegatesTo(p, eps, ep, t);
    forall k | OnChain(p, eps, t, k) ensures OnChain(p, eps, ep, k) { ChainGrows(p, eps, ep, t, k); }
  }

  lemma {:induction false} RestContained(p: Program, scope: set<Visit>, eps: set<Key>, entries: map<Key, Codes>,
                                         ep: Key, seen: set<Key>, rest: seq<Stmt>, env: Env, o: Oracle)
    requires Proper(p, scope, eps, entries) && IsProtected(p, eps, entries, ep, seen) && ChainSure(p, eps, ep)
    requires var (w, f) := (EntryWhere(p, entries, ep), TablesOf(p, ep.0).funcs[ep.1]);
      EntryEnv(w, f, env) && forall s :: s in rest ==> s in AfterDocstring(f.body)
    ensures var f := TablesOf(p, ep.0).funcs[ep.1];
      var r := RunBlock(Here(p, ep.0, f), rest, env, o); r.Done? ==> Contained(p, eps, ep, f, r.out)
    decreases |eps - seen|, 0, |rest|
  {
    if rest != [] {
      var w, f := EntryWhere(p, entries, ep), TablesOf(p, ep.0).funcs[ep.1];
      StmtContained(p, scope, eps, entries, ep, seen, rest[0], env, o);
      EntryIsJudged(p, scope, entries, ep);
      SkippedDocstring(f.body);
      EventsOf(f.body, rest[0]);
      StmtSound(w, Here(p, ep.0, f), Some(LocalMap(w, f)), None, rest[0], env, o);
      var r := RunStmt(Here(p, ep.0, f), rest[0], env, o);
      if r.Done? && r.out.Normal? { RestContained(p, scope, eps, entries, ep, seen, rest[1..], r.env, r.rest); }
    }
  }

  /** Every run of the body of a PROTECTED entry point is contained. */
  lemma {:induction false} BodyContained(p: Program, scope: set<Visit>, eps: set<Key>, entries: map<Key, Codes>,
                                         ep: Key, seen: set<Key>)
    requires Proper(p, scope, eps, entries) && IsProtected(p, eps, entries, ep, seen) && ChainSure(p, eps, ep)
    ensures BodyHolds(p, eps, entries, ep)
    decreases |eps - seen|, 1, 0
  {
    var w, f := EntryWhere(p, entries, ep), TablesOf(p, ep.0).funcs[ep.1];
    forall env, o | EntryEnv(w, f, env) && RunBlock(Here(p, ep.0, f), f.body, env, o).Done?
      ensures Contained(p, eps, ep, f, RunBlock(Here(p, ep.0, f), f.body, env, o).out)
    {
      DocstringIsIdle(Here(p, ep.0, f), f.body, env, o);
      RestContained(p, scope, eps, entries, ep, seen, AfterDocstring(f.body), env, o);
    }
  }

  /**
   Containment: in every run of a PROTECTED entry point an ordinary exception leaves only out
   of a handler of a top-level guard, or out of the arguments of a hand-off, of an entry point
   on its delegation chain.
   */
  lemma {:induction false} EntryContained(p: Program, scope: set<Visit>, eps: set<Key>, entries: map<Key, Codes>,
                                          ep: Key, seen: set<Key>)
    requires Proper(p, scope, eps, entries) && IsProtected(p, eps, entries, ep, seen) && ChainSure(p, eps, ep)
    ensures KeepsItsExceptions(p, eps, ep)
    decreases |eps - seen|, 2, 0
  {
    var w, f := EntryWhere(p, entries, ep), TablesOf(p, ep.0).funcs[ep.1];
    EntryIsJudged(p, scope, entries, ep);
    BodyContained(p, scope, eps, entries, ep, seen);
    forall o: Oracle | RunFunction(p, ep.0, f, o).Escaped?
      ensures var r := RunFunction(p, ep.0, f, o); r.ordinary ==> FromChain(p, eps, ep, r.origin)
    {
      EnterOk(w, f, o[0].upd);
      assert EntryEnv(w, f, Enter(f, o[0].upd));
    }
  }
}
