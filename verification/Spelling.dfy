/**
 Spelling independence (#467): rewriting any choice of `return e` into `x = e; return x`, with
 a fresh x, changes no exit set anywhere in the program, as long as no rewritten e reads a
 local that is both assigned and poisoned.  Where one does, `RespelledIff` says what happens.
 */
module Spelling {
  import opened MiniPython
  import opened OwnNodes
  import opened ExitSets
  import opened LocalSolution
  import opened ExitSoundness

  // ----- the rewriting -----

  /** `pick` holds the lines of the returns to respell. */
  function RespellBlock(b: seq<Stmt>, x: Name, pick: set<nat>): seq<Stmt>
    decreases b, 0
  {
    if b == [] then []
    else
      (if b[0].Return? && b[0].result.Some? && b[0].line in pick
       then [Assign([NameTarget(x)], b[0].result.value), Return(b[0].line, Some(Ref(x)))]
       else [RespellStmt(b[0], x, pick)])
      + RespellBlock(b[1..], x, pick)
  }

  function RespellStmt(s: Stmt, x: Name, pick: set<nat>): Stmt
    decreases s, 1
  {
    match s
    case For(names, value, body, orelse) =>
      For(names, value, RespellBlock(body, x, pick), RespellBlock(orelse, x, pick))
    case While(value, body, orelse) => While(value, RespellBlock(body, x, pick), RespellBlock(orelse, x, pick))
    case With(value, names, body) => With(value, names, RespellBlock(body, x, pick))
    case If(value, body, orelse) => If(value, RespellBlock(body, x, pick), RespellBlock(orelse, x, pick))
    case Try(body, handlers, orelse, finalbody) =>
      Try(RespellBlock(body, x, pick), RespellHandlers(handlers, x, pick),
          RespellBlock(orelse, x, pick), RespellBlock(finalbody, x, pick))
    case _ => s
  }

  function RespellHandlers(hs: seq<Handler>, x: Name, pick: set<nat>): seq<Handler>
    decreases hs, 0
  {
    if hs == [] then []
    else [Handler(hs[0].caught, hs[0].bound, RespellBlock(hs[0].body, x, pick))] + RespellHandlers(hs[1..], x, pick)
  }

  function RespellDef(f: FuncDef, x: Name, pick: set<nat>): FuncDef
  {
    f.(body := RespellBlock(f.body, x, pick))
  }

  function RespellTop(s: TopStmt, name: Name, x: Name, pick: set<nat>): TopStmt
  {
    if s.TopDef? && s.def.name == name then TopDef(RespellDef(s.def, x, pick)) else s
  }

  function RespellTops(body: seq<TopStmt>, name: Name, x: Name, pick: set<nat>): seq<TopStmt>
  {
    if body == [] then []
    else
      var last := body[|body| - 1];
      RespellTops(body[..|body| - 1], name, x, pick)
      + [RespellTop(last, name, x, pick)]
  }

  function RespellProgram(p: Program, path: Path, name: Name, x: Name, pick: set<nat>): Program
  {
    if path !in p.mods then p
    else p.(mods := p.mods[path := p.mods[path].(body := RespellTops(p.mods[path].body, name, x, pick))])
  }

  // ----- what the walk collects from the respelled body -----

  predicate Picked(r: Ret, pick: set<nat>)
  {
    r.result.Some? && r.line in pick
  }

  function RespellRet(r: Ret, x: Name, pick: set<nat>): Ret
  {
    if Picked(r, pick) then Ret(r.line, Some(Ref(x))) else r
  }

  function RespellRets(rs: seq<Ret>, x: Name, pick: set<nat>): seq<Ret>
  {
    if rs == [] then [] else [RespellRet(rs[0], x, pick)] + RespellRets(rs[1..], x, pick)
  }

  lemma {:induction false} RespellRetsJoin(a: seq<Ret>, b: seq<Ret>, x: Name, pick: set<nat>)
    ensures RespellRets(a + b, x, pick) == RespellRets(a, x, pick) + RespellRets(b, x, pick)
    decreases |a|
  {
    if a == [] {
      assert a + b == b;
    } else {
      var all, head := a + b, [RespellRet(a[0], x, pick)];
      RespellRetsJoin(a[1..], b, x, pick);
      assert all[0] == a[0] && all[1..] == a[1..] + b;
      assert RespellRets(all, x, pick) == head + RespellRets(all[1..], x, pick);
      assert RespellRets(a, x, pick) == head + RespellRets(a[1..], x, pick);
    }
  }

  ghost predicate AddsPicked(before: seq<Event>, after: seq<Event>, rets: seq<Ret>, x: Name, pick: set<nat>)
  {
    forall ev :: ev in after <==>
      ev in before || exists r :: r in rets && Picked(r, pick) && ev == Source(x, r.result.value)
  }

  lemma {:induction false} AddsJoin(b1: seq<Event>, a1: seq<Event>, r1: seq<Ret>, b2: seq<Event>, a2: seq<Event>,
                                    r2: seq<Ret>, x: Name, pick: set<nat>)
    requires AddsPicked(b1, a1, r1, x, pick) && AddsPicked(b2, a2, r2, x, pick)
    ensures AddsPicked(b1 + b2, a1 + a2, r1 + r2, x, pick)
  {
  }

  /** The respelled statements collect the same events, plus one assignment to x a picked return. */
  ghost predicate Collects(before: seq<Event>, after: seq<Event>, rets: seq<Ret>, rets': seq<Ret>, x: Name,
                           pick: set<nat>)
  {
    AddsPicked(before, after, rets, x, pick) && rets' == RespellRets(rets, x, pick)
  }

  lemma {:induction false} CollectsJoin(b1: seq<Event>, a1: seq<Event>, r1: seq<Ret>, s1: seq<Ret>, b2: seq<Event>,
                                        a2: seq<Event>, r2: seq<Ret>, s2: seq<Ret>, x: Name, pick: set<nat>)
    requires Collects(b1, a1, r1, s1, x, pick) && Collects(b2, a2, r2, s2, x, pick)
    ensures Collects(b1 + b2, a1 + a2, r1 + r2, s1 + s2, x, pick)
  {
    AddsJoin(b1, a1, r1, b2, a2, r2, x, pick);
    RespellRetsJoin(r1, r2, x, pick);
  }

  lemma {:induction false} CollectsSame(evs: seq<Event>, x: Name, pick: set<nat>)
    ensures Collects(evs, evs, [], [], x, pick)
  {
  }

  lemma {:induction false} BlockCollects(b: seq<Stmt>, x: Name, pick: set<nat>)
    ensures var b' := RespellBlock(b, x, pick);
      Collects(BlockEvents(b), BlockEvents(b'), BlockReturns(b), BlockReturns(b'), x, pick)
    decreases b, 0
  {
    if b != [] {
      var s, tail := b[0], RespellBlock(b[1..], x, pick);
      BlockCollects(b[1..], x, pick);
      if s.Return? && s.result.Some? && s.line in pick {
        var e := s.result.value;
        var one, two := Assign([NameTarget(x)], e), Return(s.line, Some(Ref(x)));
        var b' := RespellBlock(b, x, pick);
        assert b' == [one] + ([two] + tail);
        assert b'[0] == one && b'[1..] == [two] + tail && ([two] + tail)[0] == two && ([two] + tail)[1..] == tail;
        assert [NameTarget(x)][1..] == [];
        assert TargetEvents([NameTarget(x)], e, true) == [Source(x, e)];
        assert StmtEvents(one) == [Source(x, e)] + ExprEvents(e);
        assert StmtEvents(two) == [];
        assert BlockEvents([two] + tail) == BlockEvents(tail);
        assert BlockEvents(b') == ([Source(x, e)] + ExprEvents(e)) + BlockEvents(tail);
        assert BlockReturns([two] + tail) == [Ret(s.line, Some(Ref(x)))] + BlockReturns(tail);
        assert BlockReturns(b') == [Ret(s.line, Some(Ref(x)))] + BlockReturns(tail);
        var r := Ret(s.line, s.result);
        assert AddsPicked(ExprEvents(e), [Source(x, e)] + ExprEvents(e), [r], x, pick) by {
          assert r in [r] && Picked(r, pick);
        }
        assert RespellRets([r], x, pick) == [Ret(s.line, Some(Ref(x)))];
        CollectsJoin(StmtEvents(s), [Source(x, e)] + ExprEvents(e), [r], [Ret(s.line, Some(Ref(x)))],
                     BlockEvents(b[1..]), BlockEvents(tail), BlockReturns(b[1..]), BlockReturns(tail), x, pick);
      } else {
        StmtCollects(s, x, pick);
        var s' := RespellStmt(s, x, pick);
        assert RespellBlock(b, x, pick)[0] == s' && RespellBlock(b, x, pick)[1..] == tail;
        CollectsJoin(StmtEvents(s), StmtEvents(s'), StmtReturns(s), StmtReturns(s'),
                     BlockEvents(b[1..]), BlockEvents(tail), BlockReturns(b[1..]), BlockReturns(tail), x, pick);
      }
    }
  }

  ghost predicate BlockRespells(b: seq<Stmt>, x: Name, pick: set<nat>)
  {
    var b' := RespellBlock(b, x, pick);
    Collects(BlockEvents(b), BlockEvents(b'), BlockReturns(b), BlockReturns(b'), x, pick)
  }

  /** Two blocks after a head that holds no return. */
  lemma {:induction false} PairCollects(head: seq<Event>, a: seq<Stmt>, b: seq<Stmt>, x: Name, pick: set<nat>)
    requires BlockRespells(a, x, pick) && BlockRespells(b, x, pick)
    ensures var (a', b') := (RespellBlock(a, x, pick), RespellBlock(b, x, pick));
      Collects(head + BlockEvents(a) + BlockEvents(b), head + BlockEvents(a') + BlockEvents(b'),
               BlockReturns(a) + BlockReturns(b), BlockReturns(a') + BlockReturns(b'), x, pick)
  {
    var a', b' := RespellBlock(a, x, pick), RespellBlock(b, x, pick);
    CollectsSame(head, x, pick);
    CollectsJoin(head, head, [], [], BlockEvents(a), BlockEvents(a'), BlockReturns(a), BlockReturns(a'), x, pick);
    assert [] + BlockReturns(a) == BlockReturns(a) && [] + BlockReturns(a') == BlockReturns(a');
    CollectsJoin(head + BlockEvents(a), head + BlockEvents(a'), BlockReturns(a), BlockReturns(a'),
                 BlockEvents(b), BlockEvents(b'), BlockReturns(b), BlockReturns(b'), x, pick);
  }

  lemma {:induction false} StmtCollects(s: Stmt, x: Name, pick: set<nat>)
    requires !(s.Return? && s.result.Some? && s.line in pick)
    ensures var s' := RespellStmt(s, x, pick);
      Collects(StmtEvents(s), StmtEvents(s'), StmtReturns(s), StmtReturns(s'), x, pick)
    decreases s, 2
  {
    match s
    case For(names, value, body, orelse) =>
      BlockCollects(body, x, pick);
      BlockCollects(orelse, x, pick);
      PairCollects([Poison(names)] + ExprEvents(value), body, orelse, x, pick);
    case While(value, body, orelse) =>
      BlockCollects(body, x, pick);
      BlockCollects(orelse, x, pick);
      PairCollects(ExprEvents(value), body, orelse, x, pick);
    case If(value, body, orelse) =>
      BlockCollects(body, x, pick);
      BlockCollects(orelse, x, pick);
      PairCollects(ExprEvents(value), body, orelse, x, pick);
    case With(value, names, body) =>
      BlockCollects(body, x, pick);
      var head, body' := [Poison(names)] + ExprEvents(value), RespellBlock(body, x, pick);
      CollectsSame(head, x, pick);
      CollectsJoin(head, head, [], [],
                   BlockEvents(body), BlockEvents(body'), BlockReturns(body), BlockReturns(body'), x, pick);
      assert [] + BlockReturns(body) == BlockReturns(body) && [] + BlockReturns(body') == BlockReturns(body');
    case Try(_, _, _, _) => TryCollects(s, x, pick);
    case Return(line, result) =>
      assert RespellRets([Ret(line, result)], x, pick) == [Ret(line, result)];
    case _ =>
      CollectsSame(StmtEvents(s), x, pick);
  }

  lemma {:induction false} TryCollects(s: Stmt, x: Name, pick: set<nat>)
    requires s.Try?
    ensures var s' := RespellStmt(s, x, pick);
      Collects(StmtEvents(s), StmtEvents(s'), StmtReturns(s), StmtReturns(s'), x, pick)
    decreases s, 1
  {
    var Try(body, handlers, orelse, finalbody) := s;
    BlockCollects(orelse, x, pick);
    BlockCollects(finalbody, x, pick);
    var b, h := RespellBlock(body, x, pick), RespellHandlers(handlers, x, pick);
    BodyAndHandlers(s, body, handlers, x, pick);
    TwoMore(BlockEvents(body) + HandlerEvents(handlers), BlockEvents(b) + HandlerEvents(h),
            BlockReturns(body) + HandlerReturns(handlers), BlockReturns(b) + HandlerReturns(h),
            orelse, finalbody, x, pick);
  }

  lemma {:induction false} BodyAndHandlers(s: Stmt, body: seq<Stmt>, handlers: seq<Handler>, x: Name, pick: set<nat>)
    requires s.Try? && body == s.body && handlers == s.handlers
    ensures var (b, h) := (RespellBlock(body, x, pick), RespellHandlers(handlers, x, pick));
      Collects(BlockEvents(body) + HandlerEvents(handlers), BlockEvents(b) + HandlerEvents(h),
               BlockReturns(body) + HandlerReturns(handlers), BlockReturns(b) + HandlerReturns(h), x, pick)
    decreases s, 0
  {
    BlockCollects(body, x, pick);
    HandlersCollect(handlers, x, pick);
    var b, h := RespellBlock(body, x, pick), RespellHandlers(handlers, x, pick);
    CollectsJoin(BlockEvents(body), BlockEvents(b), BlockReturns(body), BlockReturns(b),
                 HandlerEvents(handlers), HandlerEvents(h), HandlerReturns(handlers), HandlerReturns(h), x, pick);
  }

  /** Two more blocks behind. */
  lemma {:induction false} TwoMore(before: seq<Event>, after: seq<Event>, rets: seq<Ret>, rets': seq<Ret>,
                                   a: seq<Stmt>, b: seq<Stmt>, x: Name, pick: set<nat>)
    requires Collects(before, after, rets, rets', x, pick) && BlockRespells(a, x, pick) && BlockRespells(b, x, pick)
    ensures var (a', b') := (RespellBlock(a, x, pick), RespellBlock(b, x, pick));
      Collects(before + BlockEvents(a) + BlockEvents(b), after + BlockEvents(a') + BlockEvents(b'),
               rets + BlockReturns(a) + BlockReturns(b), rets' + BlockReturns(a') + BlockReturns(b'), x, pick)
  {
    var a', b' := RespellBlock(a, x, pick), RespellBlock(b, x, pick);
    CollectsJoin(before, after, rets, rets',
                 BlockEvents(a), BlockEvents(a'), BlockReturns(a), BlockReturns(a'), x, pick);
    CollectsJoin(before + BlockEvents(a), after + BlockEvents(a'), rets + BlockReturns(a), rets' + BlockReturns(a'),
                 BlockEvents(b), BlockEvents(b'), BlockReturns(b), BlockReturns(b'), x, pick);
  }

  lemma {:induction false} HandlersCollect(hs: seq<Handler>, x: Name, pick: set<nat>)
    ensures var hs' := RespellHandlers(hs, x, pick);
      Collects(HandlerEvents(hs), HandlerEvents(hs'), HandlerReturns(hs), HandlerReturns(hs'), x, pick)
    decreases hs, 0
  {
    if hs != [] {
      var h, tail := hs[0], RespellHandlers(hs[1..], x, pick);
      var body', head := RespellBlock(h.body, x, pick), if h.bound.Some? then [Poison({h.bound.value})] else [];
      assert RespellHandlers(hs, x, pick)[1..] == tail;
      BlockCollects(h.body, x, pick);
      HandlersCollect(hs[1..], x, pick);
      CollectsSame(head, x, pick);
      CollectsJoin(head, head, [], [],
                   BlockEvents(h.body), BlockEvents(body'), BlockReturns(h.body), BlockReturns(body'), x, pick);
      assert [] + BlockReturns(h.body) == BlockReturns(h.body) && [] + BlockReturns(body') == BlockReturns(body');
      CollectsJoin(head + BlockEvents(h.body), head + BlockEvents(body'), BlockReturns(h.body), BlockReturns(body'),
                   HandlerEvents(hs[1..]), HandlerEvents(tail), HandlerReturns(hs[1..]), HandlerReturns(tail), x, pick);
    }
  }

  // ----- one function -----

  /** The names an expression mentions. */
  function Refs(e: Expr): set<Name>
    decreases e, 1
  {
    match e
    case Cond(test, body, orelse) => Refs(test) + Refs(body) + Refs(orelse)
    case Ref(id) => {id}
    case Call(callee, args, _) => {callee} + ArgRefs(args)
    case Opaque(binds) => binds
    case _ => {}
  }

  function ArgRefs(args: seq<Expr>): set<Name>
    decreases args, 0
  {
    if args == [] then {} else Refs(args[0]) + ArgRefs(args[1..])
  }

  /** x occurs nowhere the analyser looks in the function, nor as a module name. */
  ghost predicate Fresh(p: Program, path: Path, f: FuncDef, x: Name)
  {
    && x !in LocalNames(f) && !ModuleName(p, path, x)
    && (forall ev :: ev in BlockEvents(f.body) && ev.Source? ==> x !in Refs(ev.expr))
    && (forall r :: r in BlockReturns(f.body) && r.result.Some? ==> x !in Refs(r.result.value))
  }

  ghost predicate SameBut(a: LocalTable, b: LocalTable, x: Name)
  {
    forall y :: y != x ==> (y in a <==> y in b) && (y in a ==> a[y] == b[y])
  }

  lemma {:induction false} ResolveIgnores(w: Where, e: Expr, a: LocalTable, b: LocalTable, x: Name)
    requires x !in Refs(e) && SameBut(a, b, x)
    ensures Resolve(w, e, Some(a)) == Resolve(w, e, Some(b))
  {
    match e
    case Cond(_, body, orelse) =>
      ResolveIgnores(w, body, a, b, x);
      ResolveIgnores(w, orelse, a, b, x);
    case _ =>
  }

  lemma {:induction false} AllSetIgnores(w: Where, exprs: seq<Expr>, a: LocalTable, b: LocalTable, x: Name)
    requires SameBut(a, b, x) && forall e :: e in exprs ==> x !in Refs(e)
    ensures AllSet(w, exprs, a) == AllSet(w, exprs, b)
    decreases |exprs|
  {
    if exprs != [] {
      AllSetIgnores(w, exprs[..|exprs| - 1], a, b, x);
      ResolveIgnores(w, exprs[|exprs| - 1], a, b, x);
    }
  }

  lemma {:induction false} RespelledPoison(f: FuncDef, x: Name, pick: set<nat>)
    ensures Poisoned(RespellDef(f, x, pick)) == Poisoned(f)
  {
    var g := RespellDef(f, x, pick);
    var before, after := BlockEvents(f.body), BlockEvents(g.body);
    BlockCollects(f.body, x, pick);
    forall n ensures n in Poisoned(g) <==> n in Poisoned(f) {
      PoisonedByIff(before, n);
      PoisonedByIff(after, n);
      if n in Poisoned(f) {
        var i :| 0 <= i < |before| && before[i].Poison? && n in before[i].names;
        assert before[i] in after;
        var j :| 0 <= j < |after| && after[j] == before[i];
      }
      if n in Poisoned(g) {
        var i :| 0 <= i < |after| && after[i].Poison? && n in after[i].names;
        assert after[i] in after && after[i] in before;
        var j :| 0 <= j < |before| && before[j] == after[i];
      }
    }
  }

  lemma {:induction false} RespelledAssigned(f: FuncDef, x: Name, pick: set<nat>)
    ensures var g := RespellDef(f, x, pick); Assigned(f) <= Assigned(g) <= Assigned(f) + {x}
  {
    var g := RespellDef(f, x, pick);
    var before, after := BlockEvents(f.body), BlockEvents(g.body);
    BlockCollects(f.body, x, pick);
    forall n | n in Assigned(f) ensures n in Assigned(g) {
      var i :| 0 <= i < |before| && before[i].Source? && before[i].name == n;
      assert before[i] in after;
      var j :| 0 <= j < |after| && after[j] == before[i];
    }
    forall n | n in Assigned(g) && n != x ensures n in Assigned(f) {
      var i :| 0 <= i < |after| && after[i].Source? && after[i].name == n;
      assert after[i] in after && after[i] in before;
      var j :| 0 <= j < |before| && before[j] == after[i];
    }
  }

  /** The expression is one of the picked returns. */
  ghost predicate IsPicked(f: FuncDef, pick: set<nat>, e: Expr)
  {
    exists r :: r in BlockReturns(f.body) && Picked(r, pick) && e == r.result.value
  }

  /** Every name but x is fed the same expressions. */
  ghost predicate FeedsAlike(f: FuncDef, g: FuncDef, x: Name)
  {
    forall n, e :: n != x ==> (Feeds(Sources(g), n, e) <==> Feeds(Sources(f), n, e))
  }

  lemma {:induction false} RespelledNames(p: Program, path: Path, f: FuncDef, x: Name, pick: set<nat>)
    requires Fresh(p, path, f, x)
    ensures var g := RespellDef(f, x, pick);
      && Poisoned(g) == Poisoned(f)
      && Assigned(f) <= Assigned(g) <= Assigned(f) + {x}
      && FeedsAlike(f, g, x)
      && (forall e :: Feeds(Sources(g), x, e) <==> IsPicked(f, pick, e))
  {
    var g := RespellDef(f, x, pick);
    var before := BlockEvents(f.body);
    RespelledPoison(f, x, pick);
    RespelledAssigned(f, x, pick);
    BlockCollects(f.body, x, pick);
    SourcesOfIff(before);
    SourcesOfIff(BlockEvents(g.body));
    forall e ensures Source(x, e) !in before {
      assert forall i :: 0 <= i < |before| && before[i].Source? ==> before[i].name in Assigned(f);
    }
  }

  /** x is fresh, and no local is a module constant as well. */
  ghost predicate Respellable(w: Where, f: FuncDef, x: Name)
  {
    Fresh(w.p, w.path, f, x) && NotConsts(w, Assigned(f) + Poisoned(f))
  }

  /** The table of the locals before the poisoned names are struck out. */
  function Unpoisoned(w: Where, f: FuncDef): LocalTable { Solve(w, Sources(f), map[]) }

  lemma {:induction false} NamesAre(w: Where, f: FuncDef)
    requires NotConsts(w, Assigned(f))
    ensures NamesOf(Sources(f)) == Assigned(f) && IsDict(Sources(f))
  {
    SourcesStart(w, f);
    SourcesOfIff(BlockEvents(f.body));
  }

  /** What the respelled function's table says of f's own names solves f's equations. */
  lemma {:induction false} OldEquations(w: Where, f: FuncDef, x: Name, pick: set<nat>, u: LocalTable)
    requires Respellable(w, f, x)
    requires Solution(w, Sources(RespellDef(f, x, pick)), {}, u)
    ensures Solution(w, Sources(f), {}, map y | y in u && y != x :: u[y])
  {
    var g := RespellDef(f, x, pick);
    var u' := map y | y in u && y != x :: u[y];
    RespelledFacts(w, f, g, x, pick);
    assert u'.Keys == NamesOf(Sources(f));
    forall l | l in Sources(f) ensures u'[l.name] == AllSet(w, l.exprs, u') {
      assert l.name in NamesOf(Sources(f));
      OldEquation(w, f, g, x, u, u', l);
    }
  }

  lemma {:induction false} RespelledFacts(w: Where, f: FuncDef, g: FuncDef, x: Name, pick: set<nat>)
    requires Respellable(w, f, x) && g == RespellDef(f, x, pick)
    ensures FeedsAlike(f, g, x) && x !in NamesOf(Sources(f))
    ensures NamesOf(Sources(f)) <= NamesOf(Sources(g)) <= NamesOf(Sources(f)) + {x}
    ensures NamesOf(Sources(g)) == Assigned(g)
    ensures IsDict(Sources(g)) && forall e :: Feeds(Sources(g), x, e) <==> IsPicked(f, pick, e)
  {
    RespelledNames(w.p, w.path, f, x, pick);
    BothApart(w, f, g, x);
    NamesAre(w, f);
    NamesAre(w, g);
  }

  lemma {:induction false} OldEquation(w: Where, f: FuncDef, g: FuncDef, x: Name, u: LocalTable, u': LocalTable,
                                       l: Local)
    requires Fresh(w.p, w.path, f, x) && l in Sources(f) && l.name != x && l.name in u && SameBut(u, u', x)
    requires FeedsAlike(f, g, x)
    requires forall m :: m in Sources(g) ==> m.name in u && u[m.name] == AllSet(w, m.exprs, u)
    ensures u[l.name] == AllSet(w, l.exprs, u')
  {
    var m := Twin(f, g, l, x);
    UnrefdBySources(w.p, w.path, f, l, x);
    AllSetIgnores(w, l.exprs, u, u', x);
    SameFeedsSameSet(w, l.exprs, m.exprs, u);
  }

  /** The old table, with x bound to the union of the picked returns, solves the new equations. */
  lemma {:induction false} NewEquations(w: Where, f: FuncDef, x: Name, pick: set<nat>, t: LocalTable)
    requires Respellable(w, f, x) && Solution(w, Sources(f), {}, t)
    ensures var g := RespellDef(f, x, pick);
      Solution(w, Sources(g), {}, if x in Assigned(g) then t[x := AllSet(w, XExprs(Sources(g), x), t)] else t)
  {
    var g := RespellDef(f, x, pick);
    var t' := if x in Assigned(g) then t[x := AllSet(w, XExprs(Sources(g), x), t)] else t;
    RespelledFacts(w, f, g, x, pick);
    assert t'.Keys == NamesOf(Sources(g));
    forall l | l in Sources(g) ensures t'[l.name] == AllSet(w, l.exprs, t') {
      assert l.name in NamesOf(Sources(g));
      if l.name == x {
        XExprsIs(Sources(g), l, x);
        PickedUnrefd(w.p, w.path, f, g, l, x, pick);
        AllSetIgnores(w, l.exprs, t, t', x);
      } else {
        OtherEquation(w, f, g, x, t, t', l);
      }
    }
  }

  lemma {:induction false} OtherEquation(w: Where, f: FuncDef, g: FuncDef, x: Name, t: LocalTable, t': LocalTable,
                                         l: Local)
    requires Fresh(w.p, w.path, f, x) && l in Sources(g) && l.name != x && l.name in t && SameBut(t, t', x)
    requires FeedsAlike(f, g, x)
    requires forall m :: m in Sources(f) ==> m.name in t && t[m.name] == AllSet(w, m.exprs, t)
    ensures t[l.name] == AllSet(w, l.exprs, t')
  {
    assert FeedsAlike(g, f, x);
    var m := Twin(g, f, l, x);
    UnrefdBySources(w.p, w.path, f, m, x);
    AllSetIgnores(w, m.exprs, t, t', x);
    SameFeedsSameSet(w, l.exprs, m.exprs, t');
  }

  /** Before poisoning, the tables differ at x only, where the new one holds the union of the picked returns. */
  lemma {:induction false} RespelledTable(w: Where, f: FuncDef, x: Name, pick: set<nat>)
    requires Respellable(w, f, x)
    ensures var g := RespellDef(f, x, pick);
      var (t, u) := (Unpoisoned(w, f), Unpoisoned(w, g));
      && SameBut(t, u, x)
      && (x in Assigned(g) ==> x in u && u[x] == AllSet(w, XExprs(Sources(g), x), u))
  {
    var g := RespellDef(f, x, pick);
    var t, u := Unpoisoned(w, f), Unpoisoned(w, g);
    RespelledNames(w.p, w.path, f, x, pick);
    BothApart(w, f, g, x);
    SolveIsLeast(w, f);
    SolveIsLeast(w, g);
    OldEquations(w, f, x, pick, u);
    NewEquations(w, f, x, pick, t);
    var u' := map y | y in u && y != x :: u[y];
    var t' := if x in Assigned(g) then t[x := AllSet(w, XExprs(Sources(g), x), t)] else t;
    assert Below(t, u') && Below(u, t');
    forall y | y != x ensures (y in t <==> y in u) && (y in t ==> t[y] == u[y]) {
      assert y in t <==> y in NamesOf(Sources(f));
      assert y in u' <==> y in NamesOf(Sources(f));
      if y in t && t[y].None? && u[y].Some? { assert t'[y] == u[y]; }
    }
    if x in Assigned(g) {
      SourceNames(g);
      var l :| l in Sources(g) && l.name == x;
      SourcesOfIff(BlockEvents(g.body));
      XExprsIs(Sources(g), l, x);
    }
  }

  /** The same of the finished tables. */
  lemma {:induction false} PoisonedTables(w: Where, f: FuncDef, x: Name, pick: set<nat>)
    requires Respellable(w, f, x)
    ensures var g := RespellDef(f, x, pick);
      var (t, u) := (LocalMap(w, f), LocalMap(w, g));
      && SameBut(t, u, x)
      && (x in Assigned(g) ==> x in u && u[x] == AllSet(w, XExprs(Sources(g), x), Unpoisoned(w, g)))
      && NotConsts(w, t.Keys) && NotConsts(w, u.Keys)
  {
    var g := RespellDef(f, x, pick);
    RespelledTable(w, f, x, pick);
    RespelledNames(w.p, w.path, f, x, pick);
    BothApart(w, f, g, x);
    SolveIsLeast(w, f);
    SolveIsLeast(w, g);
    SourcesStart(w, f);
    SourcesStart(w, g);
  }

  /** The entry of a dictionary for one name. */
  function XExprs(srcs: seq<Local>, x: Name): seq<Expr>
  {
    if srcs == [] then [] else if srcs[0].name == x then srcs[0].exprs else XExprs(srcs[1..], x)
  }

  lemma {:induction false} XExprsIs(srcs: seq<Local>, l: Local, x: Name)
    requires IsDict(srcs) && l in srcs && l.name == x
    ensures XExprs(srcs, x) == l.exprs
    decreases |srcs|
  {
    if srcs[0] != l {
      DictUnique(srcs, srcs[0], srcs[0]);
      if srcs[0].name == x { DictUnique(srcs, srcs[0], l); }
      XExprsIs(srcs[1..], l, x);
    }
  }

  lemma {:induction false} Twin(f: FuncDef, g: FuncDef, l: Local, x: Name) returns (m: Local)
    requires FeedsAlike(f, g, x)
    requires l in Sources(f) && l.name != x
    ensures m in Sources(g) && m.name == l.name && forall e :: e in l.exprs <==> e in m.exprs
  {
    var fs, gs := Sources(f), Sources(g);
    SourcesOfIff(BlockEvents(f.body));
    SourcesOfIff(BlockEvents(g.body));
    assert Feeds(fs, l.name, l.exprs[0]);
    assert Feeds(gs, l.name, l.exprs[0]);
    m :| m in gs && m.name == l.name && l.exprs[0] in m.exprs;
    forall e ensures e in l.exprs <==> e in m.exprs {
      if e in l.exprs {
        assert Feeds(fs, l.name, e) && Feeds(gs, l.name, e);
        var k :| k in gs && k.name == l.name && e in k.exprs;
        DictUnique(gs, k, m);
      }
      if e in m.exprs {
        assert Feeds(gs, l.name, e) && Feeds(fs, l.name, e);
        var k :| k in fs && k.name == l.name && e in k.exprs;
        DictUnique(fs, k, l);
      }
    }
  }

  lemma {:induction false} UnrefdBySources(p: Program, path: Path, f: FuncDef, l: Local, x: Name)
    requires Fresh(p, path, f, x) && l in Sources(f)
    ensures forall e :: e in l.exprs ==> x !in Refs(e)
  {
    SourcesOfIff(BlockEvents(f.body));
    forall e | e in l.exprs ensures x !in Refs(e) {
      assert Feeds(Sources(f), l.name, e);
      assert Source(l.name, e) in BlockEvents(f.body);
    }
  }

  lemma {:induction false} PickedUnrefd(p: Program, path: Path, f: FuncDef, g: FuncDef, l: Local, x: Name,
                                        pick: set<nat>)
    requires Fresh(p, path, f, x) && l in Sources(g) && l.name == x
    requires forall e :: Feeds(Sources(g), x, e) <==> IsPicked(f, pick, e)
    ensures forall e :: e in l.exprs ==> x !in Refs(e)
  {
    forall e | e in l.exprs ensures x !in Refs(e) { assert Feeds(Sources(g), x, e); }
  }

  lemma {:induction false} BothApart(w: Where, f: FuncDef, g: FuncDef, x: Name)
    requires Respellable(w, f, x)
    requires Poisoned(g) == Poisoned(f) && Assigned(f) <= Assigned(g) <= Assigned(f) + {x}
    ensures NotConsts(w, Assigned(f)) && NotConsts(w, Assigned(g)) && NotConsts(w, Poisoned(f))
    ensures x !in Poisoned(f) && Tainted(g) == Tainted(f)
  {
    if ConstOf(w.p, w.path, x).Some? { ConstIsModuleName(w.p, w.path, x); }
  }

  // ----- the function's exit set -----

  lemma {:induction false} RespelledReturns(rs: seq<Ret>, x: Name, pick: set<nat>)
    ensures |RespellRets(rs, x, pick)| == |rs|
    ensures forall i :: 0 <= i < |rs| ==> RespellRets(rs, x, pick)[i] == RespellRet(rs[i], x, pick)
    decreases |rs|
  {
    if rs != [] { RespelledReturns(rs[1..], x, pick); }
  }

  /** Every return of `a` resolves inside what the returns of `b` resolve to. */
  lemma {:induction false} UnionBelow(w: Where, a: seq<Ret>, t: LocalTable, bound: set<int>)
    requires forall r :: r in a ==> ReturnSet(w, r, t).Some? && ReturnSet(w, r, t).value <= bound
    ensures ReturnsSet(w, a, t).Some? && ReturnsSet(w, a, t).value <= bound
    decreases |a|
  {
    if a != [] {
      assert a[|a| - 1] in a;
      UnionBelow(w, a[..|a| - 1], t, bound);
    }
  }

  lemma {:induction false} OneReturn(w: Where, rets: seq<Ret>, t: LocalTable, r: Ret)
    requires r in rets && ReturnsSet(w, rets, t).Some?
    ensures ReturnSet(w, r, t).Some? && ReturnSet(w, r, t).value <= ReturnsSet(w, rets, t).value
    decreases |rets|
  {
    if r != rets[|rets| - 1] { OneReturn(w, rets[..|rets| - 1], t, r); }
  }

  lemma {:induction false} AllBelow(w: Where, exprs: seq<Expr>, t: LocalTable, bound: set<int>)
    requires forall e :: e in exprs ==> Resolve(w, e, Some(t)).Some? && Resolve(w, e, Some(t)).value <= bound
    ensures AllSet(w, exprs, t).Some? && AllSet(w, exprs, t).value <= bound
    decreases |exprs|
  {
    if exprs != [] {
      assert exprs[|exprs| - 1] in exprs;
      AllBelow(w, exprs[..|exprs| - 1], t, bound);
    }
  }

  /** The expressions x is assigned are the picked returns. */
  ghost predicate XHolds(rets: seq<Ret>, exprs: seq<Expr>, pick: set<nat>)
  {
    forall e :: e in exprs <==> exists r :: r in rets && Picked(r, pick) && e == r.result.value
  }

  lemma {:induction false} XExprsHolds(w: Where, f: FuncDef, x: Name, pick: set<nat>)
    requires Respellable(w, f, x)
    ensures var g := RespellDef(f, x, pick);
      XHolds(BlockReturns(f.body), XExprs(Sources(g), x), pick)
      && ((exists r :: r in BlockReturns(f.body) && Picked(r, pick)) ==> x in Assigned(g))
  {
    var g := RespellDef(f, x, pick);
    var gs, rets := Sources(g), BlockReturns(f.body);
    RespelledNames(w.p, w.path, f, x, pick);
    SourcesOfIff(BlockEvents(g.body));
    SourceNames(g);
    forall e ensures e in XExprs(gs, x) <==> exists r :: r in rets && Picked(r, pick) && e == r.result.value {
      if Feeds(gs, x, e) {
        var l :| l in gs && l.name == x && e in l.exprs;
        XExprsIs(gs, l, x);
      }
      if e in XExprs(gs, x) { XExprsIn(gs, x, e); }
    }
    if r :| r in rets && Picked(r, pick) {
      assert Feeds(gs, x, r.result.value);
      var l :| l in gs && l.name == x && r.result.value in l.exprs;
    }
  }

  lemma {:induction false} XExprsIn(srcs: seq<Local>, x: Name, e: Expr)
    requires e in XExprs(srcs, x)
    ensures Feeds(srcs, x, e)
    decreases |srcs|
  {
    if srcs[0].name == x {
      assert srcs[0] in srcs;
    } else {
      XExprsIn(srcs[1..], x, e);
      var l :| l in srcs[1..] && l.name == x && e in l.exprs;
      assert l in srcs;
    }
  }

  /**
   Tables that agree except at x, and what x holds: the union of the picked returns, each
   resolved to what it resolves to under `u0`.
   */
  ghost predicate XUnion(w: Where, rets: seq<Ret>, exprs: seq<Expr>, t: LocalTable, u: LocalTable, u0: LocalTable,
                         x: Name, pick: set<nat>)
  {
    && SameBut(t, u, x) && XHolds(rets, exprs, pick)
    && (forall r :: r in rets && r.result.Some? ==> x !in Refs(r.result.value))
    && ((exists r :: r in rets && Picked(r, pick)) ==> x in u && u[x] == AllSet(w, exprs, u0))
  }

  /** What a return contributes to the respelled set. */
  function NewSet(w: Where, r: Ret, t: LocalTable, u0: LocalTable, pick: set<nat>): Codes
  {
    if Picked(r, pick) then Resolve(w, r.result.value, Some(u0)) else ReturnSet(w, r, t)
  }

  /** If every return contributes inside `bound`, so does the respelled function. */
  lemma {:induction false} RespelledBelow(w: Where, rets: seq<Ret>, exprs: seq<Expr>, t: LocalTable, u: LocalTable,
                                          u0: LocalTable, x: Name, pick: set<nat>, bound: set<int>)
    requires XUnion(w, rets, exprs, t, u, u0, x, pick)
    requires forall r :: r in rets ==> NewSet(w, r, t, u0, pick).Some? && NewSet(w, r, t, u0, pick).value <= bound
    ensures var b := ReturnsSet(w, RespellRets(rets, x, pick), u); b.Some? && b.value <= bound
  {
    forall e | e in exprs ensures Resolve(w, e, Some(u0)).Some? && Resolve(w, e, Some(u0)).value <= bound {
      var r :| r in rets && Picked(r, pick) && e == r.result.value;
    }
    AllBelow(w, exprs, u0, bound);
    RespelledReturns(rets, x, pick);
    forall r' | r' in RespellRets(rets, x, pick)
      ensures ReturnSet(w, r', u).Some? && ReturnSet(w, r', u).value <= bound
    {
      var i :| 0 <= i < |rets| && RespellRets(rets, x, pick)[i] == r';
      var r := rets[i];
      assert r in rets;
      if r.result.Some? { ResolveIgnores(w, r.result.value, t, u, x); }
    }
    UnionBelow(w, RespellRets(rets, x, pick), u, bound);
  }

  /** And every return contributes inside the respelled set. */
  lemma {:induction false} RespelledAbove(w: Where, rets: seq<Ret>, exprs: seq<Expr>, t: LocalTable, u: LocalTable,
                                          u0: LocalTable, x: Name, pick: set<nat>, r: Ret)
    requires XUnion(w, rets, exprs, t, u, u0, x, pick) && r in rets
    requires ReturnsSet(w, RespellRets(rets, x, pick), u).Some?
    ensures NewSet(w, r, t, u0, pick).Some?
    ensures NewSet(w, r, t, u0, pick).value <= ReturnsSet(w, RespellRets(rets, x, pick), u).value
  {
    RespelledReturns(rets, x, pick);
    var i :| 0 <= i < |rets| && rets[i] == r;
    var r' := RespellRets(rets, x, pick)[i];
    assert r' in RespellRets(rets, x, pick);
    OneReturn(w, RespellRets(rets, x, pick), u, r');
    if Picked(r, pick) {
      assert r.result.value in exprs;
      OneOfAll(w, exprs, u0, r.result.value);
    } else if r.result.Some? {
      ResolveIgnores(w, r.result.value, t, u, x);
    }
  }

  /** Every return left alone resolves, and every picked one resolves before the poison is applied. */
  ghost predicate ResolvesUnpoisoned(w: Where, f: FuncDef, pick: set<nat>)
  {
    forall r :: r in BlockReturns(f.body) ==> NewSet(w, r, LocalMap(w, f), Unpoisoned(w, f), pick).Some?
  }

  ghost predicate PickedApart(f: FuncDef, pick: set<nat>)
  {
    forall r :: r in BlockReturns(f.body) && Picked(r, pick) ==> ValueReads(r.result.value) !! Tainted(f)
  }

  lemma {:induction false} XUnionOf(w: Where, f: FuncDef, x: Name, pick: set<nat>)
    requires Respellable(w, f, x)
    ensures var g := RespellDef(f, x, pick);
      && XUnion(w, BlockReturns(f.body), XExprs(Sources(g), x), LocalMap(w, f), LocalMap(w, g), Unpoisoned(w, g), x,
                pick)
      && BlockReturns(g.body) == RespellRets(BlockReturns(f.body), x, pick)
      && |BlockReturns(g.body)| == |BlockReturns(f.body)|
  {
    BlockCollects(f.body, x, pick);
    RespelledReturns(BlockReturns(f.body), x, pick);
    PoisonedTables(w, f, x, pick);
    XExprsHolds(w, f, x, pick);
  }

  /** A return resolves under the finished table as before poisoning, if it resolves at all or reads nothing tainted. */
  lemma {:induction false} PoisonOnlyHides(w: Where, f: FuncDef, e: Expr)
    requires NotConsts(w, Assigned(f) + Poisoned(f))
    ensures var (s, s0) := (Resolve(w, e, Some(LocalMap(w, f))), Resolve(w, e, Some(Unpoisoned(w, f))));
      && (s.Some? ==> s0 == s)
      && (ValueReads(e) !! Tainted(f) ==> s0 == s)
  {
    var t, t0 := LocalMap(w, f), Unpoisoned(w, f);
    SolveIsLeast(w, f);
    SourcesStart(w, f);
    ResolveGrows(w, e, t, t0, {});
    if ValueReads(e) !! Tainted(f) { ResolveGrows(w, e, t0, t, Tainted(f)); }
  }

  lemma {:induction false} PickedSame(w: Where, f: FuncDef, x: Name, pick: set<nat>, r: Ret)
    requires Respellable(w, f, x) && r in BlockReturns(f.body) && Picked(r, pick)
    ensures var g := RespellDef(f, x, pick);
      Resolve(w, r.result.value, Some(Unpoisoned(w, g))) == Resolve(w, r.result.value, Some(Unpoisoned(w, f)))
  {
    RespelledTable(w, f, x, pick);
    ResolveIgnores(w, r.result.value, Unpoisoned(w, f), Unpoisoned(w, RespellDef(f, x, pick)), x);
  }

  /** A set that was computed is kept by respelling. */
  lemma {:induction false} RespelledKeeps(w: Where, f: FuncDef, x: Name, pick: set<nat>)
    requires Respellable(w, f, x) && ReturnsSet(w, BlockReturns(f.body), LocalMap(w, f)).Some?
    ensures var g := RespellDef(f, x, pick);
      ReturnsSet(w, BlockReturns(g.body), LocalMap(w, g)) == ReturnsSet(w, BlockReturns(f.body), LocalMap(w, f))
  {
    var g := RespellDef(f, x, pick);
    var rets, t, u, u0 := BlockReturns(f.body), LocalMap(w, f), LocalMap(w, g), Unpoisoned(w, g);
    var a := ReturnsSet(w, rets, t).value;
    XUnionOf(w, f, x, pick);
    forall r | r in rets ensures NewSet(w, r, t, u0, pick) == ReturnSet(w, r, t) {
      OneReturn(w, rets, t, r);
      if Picked(r, pick) { PickedSame(w, f, x, pick, r); PoisonOnlyHides(w, f, r.result.value); }
    }
    forall r | r in rets ensures ReturnSet(w, r, t).Some? && ReturnSet(w, r, t).value <= a { OneReturn(w, rets, t, r); }
    RespelledBelow(w, rets, XExprs(Sources(g), x), t, u, u0, x, pick, a);
    var b := ReturnsSet(w, BlockReturns(g.body), u).value;
    forall r | r in rets ensures ReturnSet(w, r, t).Some? && ReturnSet(w, r, t).value <= b {
      RespelledAbove(w, rets, XExprs(Sources(g), x), t, u, u0, x, pick, r);
    }
    UnionBelow(w, rets, t, b);
    assert a == b;
  }

  /** The respelled function has a set exactly when every return resolves, the picked ones unpoisoned. */
  lemma {:induction false} RespelledResolves(w: Where, f: FuncDef, x: Name, pick: set<nat>)
    requires Respellable(w, f, x)
    ensures var g := RespellDef(f, x, pick);
      ReturnsSet(w, BlockReturns(g.body), LocalMap(w, g)).Some? <==> ResolvesUnpoisoned(w, f, pick)
  {
    var g := RespellDef(f, x, pick);
    var rets, t, u, u0 := BlockReturns(f.body), LocalMap(w, f), LocalMap(w, g), Unpoisoned(w, g);
    XUnionOf(w, f, x, pick);
    forall r | r in rets ensures NewSet(w, r, t, u0, pick) == NewSet(w, r, t, Unpoisoned(w, f), pick) {
      if Picked(r, pick) { PickedSame(w, f, x, pick, r); }
    }
    if ResolvesUnpoisoned(w, f, pick) {
      var bound := set r, n | r in rets && n in NewSet(w, r, t, u0, pick).value :: n;
      forall r | r in rets ensures NewSet(w, r, t, u0, pick).Some? && NewSet(w, r, t, u0, pick).value <= bound {
        assert NewSet(w, r, t, Unpoisoned(w, f), pick).Some?;
        forall n | n in NewSet(w, r, t, u0, pick).value ensures n in bound {}
      }
      RespelledBelow(w, rets, XExprs(Sources(g), x), t, u, u0, x, pick, bound);
    }
    if ReturnsSet(w, BlockReturns(g.body), u).Some? {
      forall r | r in rets ensures NewSet(w, r, t, u0, pick).Some? {
        RespelledAbove(w, rets, XExprs(Sources(g), x), t, u, u0, x, pick, r);
      }
    }
  }

  /**
   Respelling changes a function's set exactly when the set was unresolved only because a
   picked return read a poisoned local: it then turns into a set.
   */
  lemma {:induction false} RespelledIff(w: Where, f: FuncDef, x: Name, pick: set<nat>)
    requires Respellable(w, f, x)
    ensures var g := RespellDef(f, x, pick);
      var a := ReturnsSet(w, BlockReturns(f.body), LocalMap(w, f));
      var b := ReturnsSet(w, BlockReturns(g.body), LocalMap(w, g));
      a != b <==> a.None? && ResolvesUnpoisoned(w, f, pick)
  {
    RespelledResolves(w, f, x, pick);
    if ReturnsSet(w, BlockReturns(f.body), LocalMap(w, f)).Some? { RespelledKeeps(w, f, x, pick); }
  }

  /** Respelling leaves one function's exit set as it was, resolved or not, if no picked return reads a tainted name. */
  lemma {:induction false} RespelledFunction(w: Where, f: FuncDef, x: Name, pick: set<nat>)
    requires Respellable(w, f, x) && PickedApart(f, pick)
    ensures var g := RespellDef(f, x, pick);
      |BlockReturns(g.body)| == |BlockReturns(f.body)| &&
      ReturnsSet(w, BlockReturns(g.body), LocalMap(w, g)) == ReturnsSet(w, BlockReturns(f.body), LocalMap(w, f))
  {
    XUnionOf(w, f, x, pick);
    RespelledIff(w, f, x, pick);
    if ResolvesUnpoisoned(w, f, pick) {
      forall r | r in BlockReturns(f.body) ensures ReturnSet(w, r, LocalMap(w, f)).Some? {
        if Picked(r, pick) { PoisonOnlyHides(w, f, r.result.value); }
      }
      ReturnsSetMembers(w, BlockReturns(f.body), LocalMap(w, f));
    }
  }

  // ----- the whole program -----

  ghost predicate SameTables(p: Program, p': Program, path: Path, name: Name, x: Name, pick: set<nat>)
  {
    && p'.located == p.located && p'.mods.Keys == p.mods.Keys
    && forall q :: SameTableAt(p, p', path, name, x, pick, q)
  }

  ghost predicate SameTableAt(p: Program, p': Program, path: Path, name: Name, x: Name, pick: set<nat>, q: Path)
  {
    SameTable(TablesOf(p, q), TablesOf(p', q), q == path, name, x, pick)
  }

  ghost predicate SameTable(t: Tables, t': Tables, here: bool, name: Name, x: Name, pick: set<nat>)
  {
    && t'.consts == t.consts && t'.imports == t.imports && t'.dupes == t.dupes && t'.funcs.Keys == t.funcs.Keys
    && forall n :: n in t.funcs ==>
         t'.funcs[n] == if here && n == name then RespellDef(t.funcs[n], x, pick) else t.funcs[n]
  }

  lemma {:induction false} LoadStmtRespelled(t: Tables, t': Tables, s: TopStmt, name: Name, x: Name, pick: set<nat>)
    requires SameTable(t, t', true, name, x, pick)
    ensures SameTable(LoadStmt(t, s), LoadStmt(t', RespellTop(s, name, x, pick)), true, name, x, pick)
  {
    match s
    case TopAssign(names, value, _) =>
      if ConstInt(value).Some? { ConstsAlike(t, t', names, ConstInt(value).value); }
    case TopImport(dotted, absolute, aliases) =>
      ImportsAlike(t, t', dotted, aliases);
    case _ =>
  }

  lemma {:induction false} LoadRespelled(body: seq<TopStmt>, name: Name, x: Name, pick: set<nat>)
    ensures SameTable(Load(body), Load(RespellTops(body, name, x, pick)), true, name, x, pick)
    decreases |body|
  {
    if body != [] {
      var init, last := body[..|body| - 1], body[|body| - 1];
      LoadRespelled(init, name, x, pick);
      var body' := RespellTops(body, name, x, pick);
      assert body'[..|body'| - 1] == RespellTops(init, name, x, pick);
      assert body'[|body'| - 1] == RespellTop(last, name, x, pick);
      LoadStmtRespelled(Load(init), Load(RespellTops(init, name, x, pick)), last, name, x, pick);
    }
  }

  lemma {:induction false} ImportsAlike(t: Tables, t': Tables, dotted: string, aliases: seq<Alias>)
    requires t.imports == t'.imports
    ensures var (r, r') := (AddImports(t, dotted, aliases), AddImports(t', dotted, aliases));
      && r.imports == r'.imports && r.funcs == t.funcs && r.consts == t.consts && r.dupes == t.dupes
      && r'.funcs == t'.funcs && r'.consts == t'.consts && r'.dupes == t'.dupes
  {
    AddImportsSpec(t, dotted, aliases);
    AddImportsSpec(t', dotted, aliases);
    assert AddImports(t, dotted, aliases).imports == AddImports(t', dotted, aliases).imports;
  }

  lemma {:induction false} ConstsAlike(t: Tables, t': Tables, names: seq<Name>, v: int)
    requires t.consts == t'.consts
    ensures AddConsts(t, names, v).consts == AddConsts(t', names, v).consts
  {
    var a, b := AddConsts(t, names, v), AddConsts(t', names, v);
    assert a.consts.Keys == b.consts.Keys;
  }

  lemma {:induction false} RespelledTables(p: Program, path: Path, name: Name, x: Name, pick: set<nat>)
    ensures SameTables(p, RespellProgram(p, path, name, x, pick), path, name, x, pick)
  {
    var p' := RespellProgram(p, path, name, x, pick);
    if path in p.mods { LoadRespelled(p.mods[path].body, name, x, pick); }
    assert p'.mods.Keys == p.mods.Keys;
    forall q ensures SameTableAt(p, p', path, name, x, pick, q) {
      if q != path || path !in p.mods { assert TablesOf(p', q) == TablesOf(p, q); }
    }
  }

  // ----- analyses that agree on calls agree on everything -----

  ghost predicate Agree(w: Where, w': Where)
  {
    && (forall c :: CallSet(w', c) == CallSet(w, c))
    && (forall id :: ConstOf(w'.p, w'.path, id) == ConstOf(w.p, w.path, id))
  }

  lemma {:induction false} ResolveAgrees(w: Where, w': Where, e: Expr, locals: Option<LocalTable>)
    requires Agree(w, w')
    ensures Resolve(w', e, locals) == Resolve(w, e, locals)
  {
    match e
    case Cond(_, body, orelse) =>
      ResolveAgrees(w, w', body, locals);
      ResolveAgrees(w, w', orelse, locals);
    case _ =>
  }

  lemma {:induction false} AllSetAgrees(w: Where, w': Where, exprs: seq<Expr>, t: LocalTable)
    requires Agree(w, w')
    ensures AllSet(w', exprs, t) == AllSet(w, exprs, t)
    decreases |exprs|
  {
    if exprs != [] {
      AllSetAgrees(w, w', exprs[..|exprs| - 1], t);
      ResolveAgrees(w, w', exprs[|exprs| - 1], Some(t));
    }
  }

  lemma {:induction false} PassAgrees(w: Where, w': Where, left: seq<Local>, t: LocalTable)
    requires Agree(w, w')
    ensures OnePass(w', left, t) == OnePass(w, left, t)
    decreases |left|
  {
    if left != [] {
      PassAgrees(w, w', left[..|left| - 1], t);
      AllSetAgrees(w, w', left[|left| - 1].exprs, OnePass(w, left[..|left| - 1], t).1);
    }
  }

  lemma {:induction false} SolveAgrees(w: Where, w': Where, left: seq<Local>, t: LocalTable)
    requires Agree(w, w')
    ensures Solve(w', left, t) == Solve(w, left, t)
    decreases |left|
  {
    if left != [] {
      PassAgrees(w, w', left, t);
      var (retry, table) := OnePass(w, left, t);
      if |retry| != |left| { SolveAgrees(w, w', retry, table); }
    }
  }

  lemma {:induction false} ReturnsAgree(w: Where, w': Where, rets: seq<Ret>, t: LocalTable)
    requires Agree(w, w')
    ensures ReturnsSet(w', rets, t) == ReturnsSet(w, rets, t)
    decreases |rets|
  {
    if rets != [] {
      ReturnsAgree(w, w', rets[..|rets| - 1], t);
      if rets[|rets| - 1].result.Some? { ResolveAgrees(w, w', rets[|rets| - 1].result.value, Some(t)); }
    }
  }

  /** What is asked of the respelled function, and of no other. */
  ghost predicate RespellOk(p: Program, path: Path, f: FuncDef, x: Name, pick: set<nat>)
  {
    && Fresh(p, path, f, x) && PickedApart(f, pick)
    && forall y :: y in Assigned(f) + Poisoned(f) ==> ConstOf(p, path, y).None?
  }

  /** The respelled program beside the original, seen from one place in each. */
  ghost predicate Beside(p: Program, p': Program, path: Path, name: Name, x: Name, pick: set<nat>)
  {
    && SameTables(p, p', path, name, x, pick)
    && (name in TablesOf(p, path).funcs ==> RespellOk(p, path, TablesOf(p, path).funcs[name], x, pick))
  }

  lemma {:induction false} TableBeside(p: Program, p': Program, path: Path, name: Name, x: Name, pick: set<nat>,
                                       q: Path)
    requires SameTables(p, p', path, name, x, pick)
    ensures SameTable(TablesOf(p, q), TablesOf(p', q), q == path, name, x, pick)
  {
    assert SameTableAt(p, p', path, name, x, pick, q);
  }

  lemma {:induction false} ConstsAgree(p: Program, p': Program, path: Path, name: Name, x: Name, pick: set<nat>,
                                       q: Path, id: Name)
    requires SameTables(p, p', path, name, x, pick)
    ensures ConstOf(p', q, id) == ConstOf(p, q, id)
  {
    TableBeside(p, p', path, name, x, pick, q);
    var t := TablesOf(p, q);
    if id !in t.consts && id in t.imports && Locate(p, t.imports[id]).Some? {
      var r := Locate(p, t.imports[id]).value;
      TableBeside(p, p', path, name, x, pick, r);
    }
  }

  lemma {:induction false} SiteSpelling(p: Program, p': Program, path: Path, name: Name, x: Name, pick: set<nat>,
                                        w: Where, callee: Name)
    requires SameTables(p, p', path, name, x, pick) && w.p == p
    ensures SiteOf(w.(p := p'), callee) ==
      match SiteOf(w, callee) case Known(c) => Known(c) case Follow(i) => Follow(i.(p := p'))
  {
    var t := TablesOf(p, w.path);
    TableBeside(p, p', path, name, x, pick, w.path);
    if callee in t.imports && Locate(p, t.imports[callee]).Some? {
      TableBeside(p, p', path, name, x, pick, Locate(p, t.imports[callee]).value);
    }
  }

  lemma {:induction false} CallSpelling(p: Program, p': Program, path: Path, name: Name, x: Name, pick: set<nat>,
                                        w: Where, callee: Name)
    requires Beside(p, p', path, name, x, pick) && w.p == p
    ensures CallSet(w.(p := p'), callee) == CallSet(w, callee)
    decreases Left(w), 1
  {
    SiteSpelling(p, p', path, name, x, pick, w, callee);
    if SiteOf(w, callee).Follow? { FunctionSpelling(p, p', path, name, x, pick, SiteOf(w, callee).inside, callee); }
  }

  lemma {:induction false} BodyAgrees(w: Where, w': Where, f: FuncDef)
    requires Agree(w, w')
    ensures ReturnsSet(w', BlockReturns(f.body), LocalMap(w', f)) == ReturnsSet(w, BlockReturns(f.body), LocalMap(w, f))
  {
    SolveAgrees(w, w', Sources(f), map[]);
    ReturnsAgree(w, w', BlockReturns(f.body), LocalMap(w, f));
  }

  lemma {:induction false} FunctionSpelling(p: Program, p': Program, path: Path, name: Name, x: Name, pick: set<nat>,
                                            w: Where, g: Name)
    requires Beside(p, p', path, name, x, pick) && w.p == p && g in TablesOf(p, w.path).funcs
    ensures g in TablesOf(p', w.path).funcs && FuncExitSet(w.(p := p'), g) == FuncExitSet(w, g)
    decreases Left(w), 0
  {
    TableBeside(p, p', path, name, x, pick, w.path);
    var key := (w.path, g);
    if key !in w.stack {
      var f, f' := TablesOf(p, w.path).funcs[g], TablesOf(p', w.path).funcs[g];
      var inner := w.(stack := w.stack + {key});
      var inner' := inner.(p := p');
      assert inner' == w.(p := p').(stack := w.(p := p').stack + {key});
      EntersLess(w, key);
      AgreeBeside(p, p', path, name, x, pick, inner);
      BodyAgrees(inner, inner', f');
      if f' != f {
        RespelledFunction(inner, f, x, pick);
      }
      assert BlockReturns(f'.body) == [] <==> BlockReturns(f.body) == [];
    }
  }

  lemma {:induction false} AgreeBeside(p: Program, p': Program, path: Path, name: Name, x: Name, pick: set<nat>,
                                       w: Where)
    requires Beside(p, p', path, name, x, pick) && w.p == p
    ensures Agree(w, w.(p := p'))
    decreases Left(w), 2
  {
    forall c ensures CallSet(w.(p := p'), c) == CallSet(w, c) { CallSpelling(p, p', path, name, x, pick, w, c); }
    forall id ensures ConstOf(p', w.path, id) == ConstOf(p, w.path, id) {
      ConstsAgree(p, p', path, name, x, pick, w.path, id);
    }
  }

  /**
   #467: whether an author used an intermediate variable is not a property of the exit
   contract.  At any call depth, in any module, under any recursion stack, every function of
   the respelled program has the exit set (or the unresolved status) it had before.
   */
  lemma {:induction false} SpellingIndependence(p: Program, path: Path, name: Name, x: Name, pick: set<nat>, w: Where,
                                                g: Name)
    requires w.p == p && g in TablesOf(p, w.path).funcs
    requires name in TablesOf(p, path).funcs ==> RespellOk(p, path, TablesOf(p, path).funcs[name], x, pick)
    ensures var p' := RespellProgram(p, path, name, x, pick);
      g in TablesOf(p', w.path).funcs && FuncExitSet(w.(p := p'), g) == FuncExitSet(w, g)
  {
    var p' := RespellProgram(p, path, name, x, pick);
    RespelledTables(p, path, name, x, pick);
    FunctionSpelling(p, p', path, name, x, pick, w, g);
  }
}
