/**
 What `_own_nodes` and the collection loop of `_local_map` gather from a function body:
 the returns, and, in walk order, which names are assigned which expressions and which
 names are bound by a form the analyser does not model (poisoned).
 */
module OwnNodes {
  import opened MiniPython

  datatype Event = Source(name: Name, expr: Expr) | Poison(names: set<Name>)

  datatype Ret = Ret(line: nat, result: Option<Expr>)

  function ExprEvents(e: Expr): seq<Event>
    decreases e, 1
  {
    match e
    case Cond(test, body, orelse) => ExprEvents(test) + ExprEvents(body) + ExprEvents(orelse)
    case Call(_, args, _) => ArgEvents(args)
    case Opaque(binds) => [Poison(binds)]
    case _ => []
  }

  function ArgEvents(args: seq<Expr>): seq<Event>
    decreases args, 0
  {
    if args == [] then [] else ExprEvents(args[0]) + ArgEvents(args[1..])
  }

  function TargetNames(t: Target): set<Name>
  {
    match t case NameTarget(id) => {id} case OtherTarget(names) => names
  }

  predicate AllPlain(targets: seq<Target>)
  {
    forall t :: t in targets ==> t.NameTarget?
  }

  function TargetEvents(targets: seq<Target>, value: Expr, plain: bool): seq<Event>
    requires plain ==> AllPlain(targets)
  {
    if targets == [] then []
    else [if plain then Source(targets[0].id, value) else Poison(TargetNames(targets[0]))]
         + TargetEvents(targets[1..], value, plain)
  }

  function StmtEvents(s: Stmt): seq<Event>
    decreases s, 1
  {
    match s
    case Assign(targets, value) =>
      TargetEvents(targets, value, AllPlain(targets)) + ExprEvents(value)
    case AnnAssign(target, init) =>
      (if target.NameTarget? && init.Some? then [Source(target.id, init.value)] else [Poison(TargetNames(target))])
      + (if init.Some? then ExprEvents(init.value) else [])
    case Rebind(names, value) => [Poison(names)] + ExprEvents(value)
    case For(names, value, body, orelse) =>
      [Poison(names)] + ExprEvents(value) + BlockEvents(body) + BlockEvents(orelse)
    case While(value, body, orelse) => ExprEvents(value) + BlockEvents(body) + BlockEvents(orelse)
    case With(value, names, body) => [Poison(names)] + ExprEvents(value) + BlockEvents(body)
    case If(value, body, orelse) => ExprEvents(value) + BlockEvents(body) + BlockEvents(orelse)
    case Try(body, handlers, orelse, finalbody) =>
      BlockEvents(body) + HandlerEvents(handlers) + BlockEvents(orelse) + BlockEvents(finalbody)
    case Return(_, result) => if result.Some? then ExprEvents(result.value) else []
    case Raise(exception) => if exception.Some? then ExprEvents(exception.value) else []
    case ExprStmt(value) => ExprEvents(value)
    case _ => []
  }

  function BlockEvents(b: seq<Stmt>): seq<Event>
    decreases b, 0
  {
    if b == [] then [] else StmtEvents(b[0]) + BlockEvents(b[1..])
  }

  function HandlerEvents(hs: seq<Handler>): seq<Event>
    decreases hs, 0
  {
    if hs == [] then []
    else (if hs[0].bound.Some? then [Poison({hs[0].bound.value})] else [])
         + BlockEvents(hs[0].body) + HandlerEvents(hs[1..])
  }

  function StmtReturns(s: Stmt): seq<Ret>
    decreases s, 1
  {
    match s
    case For(_, _, body, orelse) => BlockReturns(body) + BlockReturns(orelse)
    case While(_, body, orelse) => BlockReturns(body) + BlockReturns(orelse)
    case With(_, _, body) => BlockReturns(body)
    case If(_, body, orelse) => BlockReturns(body) + BlockReturns(orelse)
    case Try(body, handlers, orelse, finalbody) =>
      BlockReturns(body) + HandlerReturns(handlers) + BlockReturns(orelse) + BlockReturns(finalbody)
    case Return(line, result) => [Ret(line, result)]
    case _ => []
  }

  function BlockReturns(b: seq<Stmt>): seq<Ret>
    decreases b, 0
  {
    if b == [] then [] else StmtReturns(b[0]) + BlockReturns(b[1..])
  }

  function HandlerReturns(hs: seq<Handler>): seq<Ret>
    decreases hs, 0
  {
    if hs == [] then [] else BlockReturns(hs[0].body) + HandlerReturns(hs[1..])
  }

  // ----- the two dictionaries of _local_map -----

  /** A local name with every expression assigned to it, in walk order. */
  datatype Local = Local(name: Name, exprs: seq<Expr>)

  /** `sources.setdefault(name, []).append(expr)` on an insertion-ordered dictionary. */
  function AddSource(srcs: seq<Local>, name: Name, e: Expr): seq<Local>
  {
    if srcs == [] then [Local(name, [e])]
    else if srcs[0].name == name then [Local(name, srcs[0].exprs + [e])] + srcs[1..]
    else [srcs[0]] + AddSource(srcs[1..], name, e)
  }

  function SourcesOf(evs: seq<Event>): seq<Local>
  {
    if evs == [] then []
    else
      var rest := SourcesOf(evs[..|evs| - 1]);
      match evs[|evs| - 1]
      case Source(name, e) => AddSource(rest, name, e)
      case Poison(_) => rest
  }

  function PoisonedBy(evs: seq<Event>): set<Name>
  {
    if evs == [] then {}
    else PoisonedBy(evs[..|evs| - 1]) + (match evs[|evs| - 1] case Source(_, _) => {} case Poison(names) => names)
  }

  function AssignedBy(evs: seq<Event>): set<Name>
  {
    set i | 0 <= i < |evs| && evs[i].Source? :: evs[i].name
  }

  function Sources(f: FuncDef): seq<Local> { SourcesOf(BlockEvents(f.body)) }

  function Poisoned(f: FuncDef): set<Name> { PoisonedBy(BlockEvents(f.body)) }

  function Assigned(f: FuncDef): set<Name> { AssignedBy(BlockEvents(f.body)) }

  /** The names Python treats as local to the function. */
  function LocalNames(f: FuncDef): set<Name> { Assigned(f) + Poisoned(f) + f.hidden + Params(f) }

  // ----- what the collected tables mean -----

  lemma {:induction false} PoisonedByIff(evs: seq<Event>, n: Name)
    ensures n in PoisonedBy(evs) <==> exists i :: 0 <= i < |evs| && evs[i].Poison? && n in evs[i].names
  {
    if evs != [] {
      var init := evs[..|evs| - 1];
      PoisonedByIff(init, n);
      if i :| 0 <= i < |evs| && evs[i].Poison? && n in evs[i].names {
        if i < |init| { assert init[i] == evs[i]; }
      }
      if n in PoisonedBy(init) {
        var i :| 0 <= i < |init| && init[i].Poison? && n in init[i].names;
        assert evs[i] == init[i];
      }
      if evs[|evs| - 1].Poison? && n in evs[|evs| - 1].names {}
    }
  }

  // ----- what an expression's own value rests on -----

  /** The names read where the value of `e` comes from; tests and arguments do not count. */
  function ValueReads(e: Expr): set<Name>
  {
    match e
    case Cond(_, body, orelse) => ValueReads(body) + ValueReads(orelse)
    case Ref(id) => {id}
    case _ => {}
  }

  function ValueCalls(e: Expr): set<Name>
  {
    match e
    case Cond(_, body, orelse) => ValueCalls(body) + ValueCalls(orelse)
    case Call(callee, _, _) => {callee}
    case _ => {}
  }

  /** Assigned in a modelled form and bound in an unmodelled one as well. */
  ghost function Tainted(f: FuncDef): set<Name> { Assigned(f) * Poisoned(f) }

  /** The exit set of `f` rests on the value of `e`: a returned value, or a source of an unpoisoned name. */
  ghost predicate Trusted(f: FuncDef, e: Expr)
  {
    || (exists line :: Ret(line, Some(e)) in BlockReturns(f.body))
    || (exists n :: Source(n, e) in BlockEvents(f.body) && n !in Poisoned(f))
  }

  predicate Feeds(srcs: seq<Local>, name: Name, e: Expr)
  {
    exists l :: l in srcs && l.name == name && e in l.exprs
  }

  /** A dictionary: one entry a name, and no entry without an expression. */
  ghost predicate IsDict(srcs: seq<Local>)
  {
    && (forall i, j :: 0 <= i < j < |srcs| ==> srcs[i].name != srcs[j].name)
    && (forall l :: l in srcs ==> l.exprs != [])
  }

  lemma {:induction false} AddSourceSpec(srcs: seq<Local>, name: Name, e: Expr)
    requires IsDict(srcs)
    ensures var r := AddSource(srcs, name, e);
      && IsDict(r)
      && (forall n, x :: Feeds(r, n, x) <==> Feeds(srcs, n, x) || (n == name && x == e))
    decreases |srcs|
  {
    var r := AddSource(srcs, name, e);
    if srcs == [] {
      assert r == [Local(name, [e])];
      assert r[0] in r;
    } else if srcs[0].name == name {
      var l := Local(name, srcs[0].exprs + [e]);
      assert r == [l] + srcs[1..] && r[0] == l;
      assert srcs[0] in srcs;
      forall n, x ensures Feeds(r, n, x) <==> Feeds(srcs, n, x) || (n == name && x == e) {
        if m :| m in srcs && m.name == n && x in m.exprs {
          if m == srcs[0] { assert l in r; } else { assert m in srcs[1..]; assert m in r; }
        }
        if n == name && x == e { assert l in r && x in l.exprs; }
        if m :| m in r && m.name == n && x in m.exprs {
          if m == l { assert x in srcs[0].exprs || x == e; } else { assert m in srcs[1..]; }
        }
      }
    } else {
      assert forall l :: l in srcs[1..] ==> l in srcs;
      AddSourceSpec(srcs[1..], name, e);
      AddSourceBehind(srcs, name, e);
    }
  }

  /** The step of `AddSourceSpec` for a name that is not the first. */
  lemma {:induction false} AddSourceBehind(srcs: seq<Local>, name: Name, e: Expr)
    requires IsDict(srcs) && srcs != [] && srcs[0].name != name && IsDict(srcs[1..])
    requires var rt := AddSource(srcs[1..], name, e);
      IsDict(rt) && forall n, x :: Feeds(rt, n, x) <==> Feeds(srcs[1..], n, x) || (n == name && x == e)
    ensures var r := AddSource(srcs, name, e);
      IsDict(r) && forall n, x :: Feeds(r, n, x) <==> Feeds(srcs, n, x) || (n == name && x == e)
  {
    var tail, rt := srcs[1..], AddSource(srcs[1..], name, e);
    var r := [srcs[0]] + rt;
    forall n, x ensures Feeds(r, n, x) <==> Feeds(srcs, n, x) || (n == name && x == e) {
      FeedsCons(srcs[0], tail, n, x);
      FeedsCons(srcs[0], rt, n, x);
      assert srcs == [srcs[0]] + tail;
    }
    forall j | 0 < j < |r| ensures r[0].name != r[j].name {
      assert r[j] in rt;
      assert Feeds(rt, r[j].name, r[j].exprs[0]);
    }
    assert forall l :: l in r ==> l == srcs[0] || l in rt;
  }

  lemma {:induction false} FeedsCons(l: Local, rest: seq<Local>, n: Name, x: Expr)
    ensures Feeds([l] + rest, n, x) <==> (l.name == n && x in l.exprs) || Feeds(rest, n, x)
  {
    assert forall m :: m in [l] + rest <==> m == l || m in rest;
  }

  /** The dictionary built by the walk holds exactly the expressions assigned to each name. */
  lemma {:induction false} SourcesOfIff(evs: seq<Event>)
    ensures IsDict(SourcesOf(evs))
    ensures forall n, x :: Feeds(SourcesOf(evs), n, x) <==> Source(n, x) in evs
  {
    if evs != [] {
      var init, last := evs[..|evs| - 1], evs[|evs| - 1];
      SourcesOfIff(init);
      assert evs == init + [last];
      if last.Source? { AddSourceSpec(SourcesOf(init), last.name, last.expr); }
    }
  }

  lemma {:induction false} SourceNames(f: FuncDef)
    ensures forall n :: n in Assigned(f) <==> exists l :: l in Sources(f) && l.name == n
  {
    var evs := BlockEvents(f.body);
    SourcesOfIff(evs);
    forall n ensures n in Assigned(f) <==> exists l :: l in Sources(f) && l.name == n {
      if n in Assigned(f) {
        var i :| 0 <= i < |evs| && evs[i].Source? && evs[i].name == n;
        assert Source(n, evs[i].expr) in evs;
        assert Feeds(Sources(f), n, evs[i].expr);
      }
      if l :| l in Sources(f) && l.name == n {
        assert Feeds(Sources(f), n, l.exprs[0]);
      }
    }
  }
}
