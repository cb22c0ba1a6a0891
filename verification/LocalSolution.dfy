/**
 The table computed by `_local_map` is the least solution of the function's assignment
 equations, whatever order the names are visited in; a name is resolved exactly when it has
 a derivation of finite height from leaves that resolve.
 */
module LocalSolution {
  import opened MiniPython
  import opened OwnNodes
  import opened ExitSets

  /** No name of the table is also an integer constant of the module (or imported as one). */
  ghost predicate NotConsts(w: Where, names: set<Name>)
  {
    forall x :: x in names ==> ConstOf(w.p, w.path, x).None?
  }

  /** Everything outside `bad` that `a` has resolved, `b` has resolved to the same set. */
  ghost predicate BelowOff(a: LocalTable, b: LocalTable, bad: set<Name>)
  {
    forall x :: x in a && x !in bad && a[x].Some? ==> x in b && b[x] == a[x]
  }

  ghost predicate Below(a: LocalTable, b: LocalTable)
  {
    BelowOff(a, b, {})
  }

  ghost predicate NoneReads(exprs: seq<Expr>, bad: set<Name>)
  {
    forall e :: e in exprs ==> ValueReads(e) !! bad
  }

  ghost function NamesOf(srcs: seq<Local>): set<Name>
  {
    set l | l in srcs :: l.name
  }

  /** The equations: a local is the union of its assignments, a poisoned name is unresolved. */
  ghost predicate Solution(w: Where, srcs: seq<Local>, poisoned: set<Name>, t: LocalTable)
  {
    && t.Keys == NamesOf(srcs) + poisoned
    && (forall l :: l in srcs && l.name !in poisoned ==> t[l.name] == AllSet(w, l.exprs, t))
    && (forall x :: x in poisoned ==> t[x] == None)
  }

  // ----- monotonicity -----

  lemma {:induction false} ResolveGrows(w: Where, e: Expr, a: LocalTable, b: LocalTable, bad: set<Name>)
    requires BelowOff(a, b, bad) && NotConsts(w, b.Keys) && ValueReads(e) !! bad
    ensures Resolve(w, e, Some(a)).Some? ==> Resolve(w, e, Some(b)) == Resolve(w, e, Some(a))
  {
    match e
    case Cond(_, body, orelse) =>
      ResolveGrows(w, body, a, b, bad);
      ResolveGrows(w, orelse, a, b, bad);
    case _ =>
  }

  lemma {:induction false} AllSetGrows(w: Where, exprs: seq<Expr>, a: LocalTable, b: LocalTable, bad: set<Name>)
    requires BelowOff(a, b, bad) && NotConsts(w, b.Keys) && NoneReads(exprs, bad)
    ensures AllSet(w, exprs, a).Some? ==> AllSet(w, exprs, b) == AllSet(w, exprs, a)
  {
    if exprs != [] {
      AllSetGrows(w, exprs[..|exprs| - 1], a, b, bad);
      ResolveGrows(w, exprs[|exprs| - 1], a, b, bad);
    }
  }

  /** Tables that differ only in unresolved names, and in names not read, resolve every expression alike. */
  lemma {:induction false} AllSetSame(w: Where, exprs: seq<Expr>, a: LocalTable, b: LocalTable, bad: set<Name>)
    requires BelowOff(a, b, bad) && BelowOff(b, a, bad) && NotConsts(w, a.Keys) && NotConsts(w, b.Keys)
    requires NoneReads(exprs, bad)
    ensures AllSet(w, exprs, a) == AllSet(w, exprs, b)
  {
    AllSetGrows(w, exprs, a, b, bad);
    AllSetGrows(w, exprs, b, a, bad);
  }

  // ----- the state of the fixed-point loop -----

  /** `left` is what remains of `srcs`; the rest sits in the table with its union. */
  ghost predicate Progress(w: Where, srcs: seq<Local>, left: seq<Local>, t: LocalTable)
  {
    && IsDict(srcs) && IsDict(left) && NotConsts(w, NamesOf(srcs))
    && (forall l :: l in left ==> l in srcs && l.name !in t)
    && (forall l :: l in srcs && l !in left ==> l.name in t && t[l.name] == AllSet(w, l.exprs, t))
    && (forall x :: x in t ==> x in NamesOf(srcs) && t[x].Some?)
  }

  lemma {:induction false} DictUnique(srcs: seq<Local>, a: Local, b: Local)
    requires IsDict(srcs) && a in srcs && b in srcs && a.name == b.name
    ensures a == b
  {
    var i :| 0 <= i < |srcs| && srcs[i] == a;
    var j :| 0 <= j < |srcs| && srcs[j] == b;
  }

  /** A pass that retries everything changed nothing, and every name in it is stuck. */
  lemma {:induction false} PassStuck(w: Where, left: seq<Local>, t: LocalTable)
    ensures var (retry, table) := OnePass(w, left, t);
      |retry| == |left| ==> retry == left && table == t && forall l :: l in left ==> AllSet(w, l.exprs, t).None?
    decreases |left|
  {
    if left != [] {
      PassStuck(w, left[..|left| - 1], t);
      assert left == left[..|left| - 1] + [left[|left| - 1]];
    }
  }

  lemma {:induction false} PassProgress(w: Where, srcs: seq<Local>, left: seq<Local>, rest: seq<Local>, t: LocalTable)
    requires Progress(w, srcs, left + rest, t)
    ensures var (retry, table) := OnePass(w, left, t);
      && Progress(w, srcs, retry + rest, table)
      && (forall l :: l in retry ==> l in left)
      && Below(t, table)
    decreases |left|
  {
    if left != [] {
      var init, l := left[..|left| - 1], left[|left| - 1];
      assert left + rest == init + ([l] + rest);
      PassProgress(w, srcs, init, [l] + rest, t);
      var (retry, table) := OnePass(w, init, t);
      var (retry', table') := OnePass(w, left, t);
      var before, after := retry + ([l] + rest), retry' + rest;
      assert l in before;
      if AllSet(w, l.exprs, table).None? {
        assert after == before;
      } else {
        assert table' == table[l.name := AllSet(w, l.exprs, table)];
        TableGrows(w, srcs, retry, l, rest, table);
      }
    } else {
      assert left + rest == [] + rest;
    }
  }

  lemma {:induction false} TableGrows(w: Where, srcs: seq<Local>, retry: seq<Local>, l: Local, rest: seq<Local>,
                                      t: LocalTable)
    requires Progress(w, srcs, retry + ([l] + rest), t) && AllSet(w, l.exprs, t).Some?
    ensures Progress(w, srcs, retry + rest, t[l.name := AllSet(w, l.exprs, t)])
    ensures Below(t, t[l.name := AllSet(w, l.exprs, t)])
  {
    var before, after, t' := retry + ([l] + rest), retry + rest, t[l.name := AllSet(w, l.exprs, t)];
    WithoutOne(retry, l, rest);
    forall m | m in after ensures m in srcs && m.name !in t' {
      assert m in before && m.name != l.name;
    }
    assert NotConsts(w, t'.Keys);
    forall m | m in srcs && m !in after ensures m.name in t' && t'[m.name] == AllSet(w, m.exprs, t') {
      AllSetGrows(w, m.exprs, t, t', {});
      if m in before { assert m == l; }
    }
  }

  /** Taking one entry out of a dictionary. */
  lemma {:induction false} WithoutOne(retry: seq<Local>, l: Local, rest: seq<Local>)
    requires IsDict(retry + ([l] + rest))
    ensures IsDict(retry + rest)
    ensures forall m :: m in retry + ([l] + rest) <==> m == l || m in retry + rest
    ensures forall m :: m in retry + rest ==> m.name != l.name
  {
    var before, after := retry + ([l] + rest), retry + rest;
    assert before[|retry|] == l;
    forall i, j | 0 <= i < j < |after| ensures after[i].name != after[j].name {
      var i', j' := if i < |retry| then i else i + 1, if j < |retry| then j else j + 1;
      assert before[i'] == after[i] && before[j'] == after[j];
    }
    forall m | m in after ensures m in before && m.name != l.name {
      var i :| 0 <= i < |after| && after[i] == m;
      var i' := if i < |retry| then i else i + 1;
      assert before[i'] == m && before[i'].name != before[|retry|].name;
    }
  }

  lemma {:induction false} GiveUpTable(t: LocalTable, names: seq<Local>)
    requires forall l :: l in names ==> l.name !in t
    ensures var r := GiveUp(t, names);
      r.Keys == t.Keys + NamesOf(names) && forall x :: x in r ==> r[x] == if x in t then t[x] else None
    decreases |names|
  {
    if names != [] {
      var init := names[..|names| - 1];
      GiveUpTable(t, init);
      assert names == init + [names[|names| - 1]];
      assert NamesOf(names) == NamesOf(init) + {names[|names| - 1].name};
    }
  }

  lemma {:induction false} SolveSolves(w: Where, srcs: seq<Local>, left: seq<Local>, t: LocalTable)
    requires Progress(w, srcs, left, t)
    ensures Solution(w, srcs, {}, Solve(w, left, t))
    decreases |left|
  {
    if left == [] {
      assert t.Keys == NamesOf(srcs) by { assert forall l :: l in srcs ==> l.name in t; }
    } else {
      assert left + [] == left;
      PassProgress(w, srcs, left, [], t);
      PassStuck(w, left, t);
      var (retry, table) := OnePass(w, left, t);
      assert retry + [] == retry;
      if |retry| == |left| {
        GiveUpTable(t, left);
        var r := GiveUp(t, left);
        assert r.Keys == NamesOf(srcs) by {
          forall l | l in srcs ensures l.name in r {
            if l !in left { assert l.name in t; } else { assert l.name in NamesOf(left); }
          }
        }
        forall l | l in srcs ensures r[l.name] == AllSet(w, l.exprs, r) {
          AllSetSame(w, l.exprs, t, r, {});
          if l in left { assert AllSet(w, l.exprs, t).None?; } else { assert l.name in t; }
        }
      } else {
        SolveSolves(w, srcs, retry, table);
      }
    }
  }

  /** The equations of the names that are not in `bad` read none of `bad`. */
  ghost predicate ReadApart(srcs: seq<Local>, poisoned: set<Name>, bad: set<Name>)
  {
    forall l :: l in srcs && l.name !in bad ==> l.name !in poisoned && NoneReads(l.exprs, bad)
  }

  /** A solution `m` of the equations outside `bad` that bounds a table `t`. */
  ghost predicate Bounds(w: Where, srcs: seq<Local>, poisoned: set<Name>, bad: set<Name>, m: LocalTable, t: LocalTable)
  {
    && Solution(w, srcs, poisoned, m) && ReadApart(srcs, poisoned, bad)
    && NotConsts(w, m.Keys) && BelowOff(t, m, bad)
  }

  lemma {:induction false} PassBelow(w: Where, srcs: seq<Local>, poisoned: set<Name>, bad: set<Name>, left: seq<Local>,
                                     t: LocalTable, m: LocalTable)
    requires Bounds(w, srcs, poisoned, bad, m, t) && forall l :: l in left ==> l in srcs
    ensures Bounds(w, srcs, poisoned, bad, m, OnePass(w, left, t).1)
    ensures forall l :: l in OnePass(w, left, t).0 ==> l in left
    decreases |left|
  {
    if left != [] {
      var init, l := left[..|left| - 1], left[|left| - 1];
      PassBelow(w, srcs, poisoned, bad, init, t, m);
      assert l in left;
      if l.name !in bad {
        AllSetGrows(w, l.exprs, OnePass(w, init, t).1, m, bad);
        assert m[l.name] == AllSet(w, l.exprs, m);
      }
    }
  }

  lemma {:induction false} SolveBelow(w: Where, srcs: seq<Local>, poisoned: set<Name>, bad: set<Name>, left: seq<Local>,
                                      t: LocalTable, m: LocalTable)
    requires Bounds(w, srcs, poisoned, bad, m, t) && forall l :: l in left ==> l in srcs
    ensures BelowOff(Solve(w, left, t), m, bad)
    decreases |left|
  {
    if left != [] {
      PassBelow(w, srcs, poisoned, bad, left, t, m);
      var (retry, table) := OnePass(w, left, t);
      if |retry| == |left| {
        GiveUpBelow(table, retry, m, bad);
      } else {
        SolveBelow(w, srcs, poisoned, bad, retry, table, m);
      }
    }
  }

  lemma {:induction false} GiveUpBelow(t: LocalTable, names: seq<Local>, m: LocalTable, bad: set<Name>)
    requires BelowOff(t, m, bad)
    ensures BelowOff(GiveUp(t, names), m, bad)
    decreases |names|
  {
    if names != [] { GiveUpBelow(t, names[..|names| - 1], m, bad); }
  }

  // ----- the main results -----

  /** What an unpoisoned name is assigned reads no name that is both assigned and poisoned. */
  ghost predicate SourcesApart(f: FuncDef)
  {
    forall n, e :: Source(n, e) in BlockEvents(f.body) && n !in Poisoned(f) ==> ValueReads(e) !! Tainted(f)
  }

  /** No local is a module constant as well, and the poison does not reach the other equations. */
  ghost predicate Separated(w: Where, f: FuncDef)
  {
    NotConsts(w, Assigned(f) + Poisoned(f)) && SourcesApart(f)
  }

  lemma {:induction false} SourcesStart(w: Where, f: FuncDef)
    requires NotConsts(w, Assigned(f))
    ensures NamesOf(Sources(f)) == Assigned(f)
    ensures Progress(w, Sources(f), Sources(f), map[])
  {
    SourcesOfIff(BlockEvents(f.body));
    SourceNames(f);
    assert NamesOf(Sources(f)) == Assigned(f);
  }

  lemma {:induction false} SourcesReadApart(f: FuncDef)
    requires SourcesApart(f)
    ensures NamesOf(Sources(f)) == Assigned(f)
    ensures forall l :: l in Sources(f) && l.name !in Poisoned(f) ==> NoneReads(l.exprs, Tainted(f))
    ensures ReadApart(Sources(f), Poisoned(f), Tainted(f))
  {
    SourcesOfIff(BlockEvents(f.body));
    SourceNames(f);
    assert NamesOf(Sources(f)) == Assigned(f);
    forall l | l in Sources(f) && l.name !in Poisoned(f) ensures NoneReads(l.exprs, Tainted(f)) {
      forall e | e in l.exprs ensures ValueReads(e) !! Tainted(f) { assert Feeds(Sources(f), l.name, e); }
    }
    forall l | l in Sources(f) && l.name !in Tainted(f) ensures l.name !in Poisoned(f) {
      assert l.name in NamesOf(Sources(f));
    }
  }

  /** Before poisoning: the fixed point solves the equations and is below every solution. */
  lemma {:induction false} SolveIsLeast(w: Where, f: FuncDef)
    requires NotConsts(w, Assigned(f))
    ensures Solution(w, Sources(f), {}, Solve(w, Sources(f), map[]))
    ensures forall m :: Solution(w, Sources(f), {}, m) ==> Below(Solve(w, Sources(f), map[]), m)
  {
    var srcs := Sources(f);
    SourcesStart(w, f);
    SolveSolves(w, srcs, srcs, map[]);
    forall m | Solution(w, srcs, {}, m) ensures Below(Solve(w, srcs, map[]), m) {
      SolveBelow(w, srcs, {}, {}, srcs, map[], m);
    }
  }

  /** The table of a function's locals solves its equations and is below every other solution. */
  lemma {:induction false} LocalMapIsLeastSolution(w: Where, f: FuncDef)
    requires Separated(w, f)
    ensures Solution(w, Sources(f), Poisoned(f), LocalMap(w, f))
    ensures forall m :: Solution(w, Sources(f), Poisoned(f), m) ==> Below(LocalMap(w, f), m)
  {
    var srcs, t, r, bad := Sources(f), Solve(w, Sources(f), map[]), LocalMap(w, f), Tainted(f);
    SourcesReadApart(f);
    SolveIsLeast(w, f);
    assert t.Keys == Assigned(f) && r.Keys == Assigned(f) + Poisoned(f);
    forall l | l in srcs && l.name !in Poisoned(f) ensures r[l.name] == AllSet(w, l.exprs, r) {
      assert l.name in NamesOf(srcs);
      AllSetSame(w, l.exprs, t, r, bad);
    }
    forall m | Solution(w, srcs, Poisoned(f), m) ensures Below(r, m) {
      SolveBelow(w, srcs, Poisoned(f), bad, srcs, map[], m);
    }
  }

  lemma {:induction false} OneOfAll(w: Where, exprs: seq<Expr>, t: LocalTable, e: Expr)
    requires AllSet(w, exprs, t).Some? && e in exprs
    ensures Resolve(w, e, Some(t)).Some? && Resolve(w, e, Some(t)).value <= AllSet(w, exprs, t).value
    decreases |exprs|
  {
    if e != exprs[|exprs| - 1] { OneOfAll(w, exprs[..|exprs| - 1], t, e); }
  }

  lemma {:induction false} FewerFeeds(w: Where, a: seq<Expr>, b: seq<Expr>, t: LocalTable)
    requires AllSet(w, b, t).Some? && forall e :: e in a ==> e in b
    ensures AllSet(w, a, t).Some? && AllSet(w, a, t).value <= AllSet(w, b, t).value
    decreases |a|
  {
    if a != [] {
      FewerFeeds(w, a[..|a| - 1], b, t);
      OneOfAll(w, b, t, a[|a| - 1]);
    }
  }

  lemma {:induction false} SameFeedsSameSet(w: Where, a: seq<Expr>, b: seq<Expr>, t: LocalTable)
    requires forall e :: e in a <==> e in b
    ensures AllSet(w, a, t) == AllSet(w, b, t)
  {
    if AllSet(w, a, t).Some? { FewerFeeds(w, b, a, t); }
    if AllSet(w, b, t).Some? { FewerFeeds(w, a, b, t); }
    if AllSet(w, a, t).Some? && AllSet(w, b, t).Some? {
      assert AllSet(w, a, t).value == AllSet(w, b, t).value;
    }
  }

  /** Two least solutions are the same table, so only which expression feeds which name counts. */
  lemma {:induction false} OrderIsIrrelevant(w: Where, f: FuncDef, g: FuncDef)
    requires Separated(w, f) && Separated(w, g) && Poisoned(f) == Poisoned(g)
    requires forall n, e :: Feeds(Sources(f), n, e) <==> Feeds(Sources(g), n, e)
    ensures LocalMap(w, f) == LocalMap(w, g)
  {
    LocalMapIsLeastSolution(w, f);
    LocalMapIsLeastSolution(w, g);
    SolutionCarries(w, f, g, LocalMap(w, g));
    SolutionCarries(w, g, f, LocalMap(w, f));
    var a, b := LocalMap(w, f), LocalMap(w, g);
    assert a.Keys == b.Keys;
    forall x | x in a ensures a[x] == b[x] {
      if a[x].None? && b[x].Some? { assert Below(b, a); }
    }
  }

  lemma {:induction false} SolutionCarries(w: Where, f: FuncDef, g: FuncDef, t: LocalTable)
    requires Separated(w, f) && Separated(w, g) && Poisoned(f) == Poisoned(g)
    requires forall n, e :: Feeds(Sources(f), n, e) <==> Feeds(Sources(g), n, e)
    requires Solution(w, Sources(g), Poisoned(g), t)
    ensures Solution(w, Sources(f), Poisoned(f), t)
  {
    SourcesStart(w, f);
    SourcesStart(w, g);
    var fs, gs := Sources(f), Sources(g);
    forall l | l in fs
      ensures exists m :: m in gs && m.name == l.name && forall e :: e in l.exprs <==> e in m.exprs
    {
      assert Feeds(fs, l.name, l.exprs[0]);
      assert Feeds(gs, l.name, l.exprs[0]);
      var m :| m in gs && m.name == l.name && l.exprs[0] in m.exprs;
      forall e ensures e in l.exprs <==> e in m.exprs {
        if e in l.exprs {
          assert Feeds(fs, l.name, e);
          var k :| k in gs && k.name == l.name && e in k.exprs;
          DictUnique(gs, k, m);
        }
        if e in m.exprs {
          assert Feeds(gs, l.name, e);
          var k :| k in fs && k.name == l.name && e in k.exprs;
          DictUnique(fs, k, l);
        }
      }
    }
    forall l | l in fs ensures l.name in t && (l.name !in Poisoned(f) ==> t[l.name] == AllSet(w, l.exprs, t)) {
      var m :| m in gs && m.name == l.name && forall e :: e in l.exprs <==> e in m.exprs;
      SameFeedsSameSet(w, l.exprs, m.exprs, t);
      assert m.name in NamesOf(gs);
    }
    forall l | l in gs ensures l.name in NamesOf(fs) {
      assert Feeds(gs, l.name, l.exprs[0]);
      assert Feeds(fs, l.name, l.exprs[0]);
      var m :| m in fs && m.name == l.name && l.exprs[0] in m.exprs;
    }
  }

  // ----- resolved names are the ones with a derivation -----

  /** `e` resolves using only locals that have a derivation of height at most `k`. */
  ghost predicate ExprDerives(w: Where, srcs: seq<Local>, k: nat, e: Expr)
    decreases k, 1, e
  {
    match e
    case Cond(_, body, orelse) => ExprDerives(w, srcs, k, body) && ExprDerives(w, srcs, k, orelse)
    case Ref(id) => if id in NamesOf(srcs) then NameDerives(w, srcs, k, id) else ConstOf(w.p, w.path, id).Some?
    case _ => Resolve(w, e, None).Some?
  }

  ghost predicate NameDerives(w: Where, srcs: seq<Local>, k: nat, x: Name)
    decreases k, 0
  {
    k > 0 && exists l :: l in srcs && l.name == x && forall e :: e in l.exprs ==> ExprDerives(w, srcs, k - 1, e)
  }

  lemma {:induction false} DerivesMore(w: Where, srcs: seq<Local>, k: nat, k': nat, e: Expr)
    requires k <= k' && ExprDerives(w, srcs, k, e)
    ensures ExprDerives(w, srcs, k', e)
    decreases k, e
  {
    match e
    case Cond(_, body, orelse) =>
      DerivesMore(w, srcs, k, k', body);
      DerivesMore(w, srcs, k, k', orelse);
    case Ref(id) =>
      if id in NamesOf(srcs) {
        var l :| l in srcs && l.name == id && forall e :: e in l.exprs ==> ExprDerives(w, srcs, k - 1, e);
        forall e | e in l.exprs ensures ExprDerives(w, srcs, k' - 1, e) { DerivesMore(w, srcs, k - 1, k' - 1, e); }
      }
    case _ =>
  }

  lemma {:induction false} DerivedResolves(w: Where, srcs: seq<Local>, t: LocalTable, k: nat, e: Expr)
    requires IsDict(srcs) && Solution(w, srcs, {}, t) && ExprDerives(w, srcs, k, e)
    ensures Resolve(w, e, Some(t)).Some?
    decreases k, e
  {
    match e
    case Cond(_, body, orelse) =>
      DerivedResolves(w, srcs, t, k, body);
      DerivedResolves(w, srcs, t, k, orelse);
    case Ref(id) =>
      if id in NamesOf(srcs) {
        var l :| l in srcs && l.name == id && forall e :: e in l.exprs ==> ExprDerives(w, srcs, k - 1, e);
        forall e | e in l.exprs ensures Resolve(w, e, Some(t)).Some? { DerivedResolves(w, srcs, t, k - 1, e); }
        AllSetMembers(w, l.exprs, t);
      }
    case _ =>
  }

  /** Every resolved name has a derivation, at most as high as the number of names already in the table. */
  ghost predicate AllDerived(w: Where, srcs: seq<Local>, t: LocalTable, k: nat)
  {
    forall x :: x in t && t[x].Some? ==> x in NamesOf(srcs) && NameDerives(w, srcs, k, x)
  }

  lemma {:induction false} ResolvedDerives(w: Where, srcs: seq<Local>, t: LocalTable, k: nat, e: Expr)
    requires AllDerived(w, srcs, t, k) && NotConsts(w, NamesOf(srcs)) && Resolve(w, e, Some(t)).Some?
    requires NotConsts(w, t.Keys)
    ensures ExprDerives(w, srcs, k, e)
  {
    match e
    case Cond(_, body, orelse) =>
      ResolvedDerives(w, srcs, t, k, body);
      ResolvedDerives(w, srcs, t, k, orelse);
    case _ =>
  }

  lemma {:induction false} PassDerives(w: Where, srcs: seq<Local>, left: seq<Local>, t: LocalTable, k: nat)
    requires AllDerived(w, srcs, t, k) && NotConsts(w, NamesOf(srcs)) && t.Keys <= NamesOf(srcs)
    requires forall l :: l in left ==> l in srcs
    ensures AllDerived(w, srcs, OnePass(w, left, t).1, k + |left|)
    ensures OnePass(w, left, t).1.Keys <= NamesOf(srcs)
    ensures forall l :: l in OnePass(w, left, t).0 ==> l in left
    decreases |left|
  {
    if left != [] {
      var init, l := left[..|left| - 1], left[|left| - 1];
      PassDerives(w, srcs, init, t, k);
      var table, k' := OnePass(w, init, t).1, k + |init|;
      assert l in left;
      assert forall x :: x in NamesOf(srcs) && NameDerives(w, srcs, k', x) ==> NameDerives(w, srcs, k' + 1, x) by {
        forall x | x in NamesOf(srcs) && NameDerives(w, srcs, k', x) ensures NameDerives(w, srcs, k' + 1, x) {
          DerivesMore(w, srcs, k', k' + 1, Ref(x));
          assert ExprDerives(w, srcs, k' + 1, Ref(x));
        }
      }
      if AllSet(w, l.exprs, table).Some? {
        AllSetMembers(w, l.exprs, table);
        forall e | e in l.exprs ensures ExprDerives(w, srcs, k', e) { ResolvedDerives(w, srcs, table, k', e); }
        assert NameDerives(w, srcs, k' + 1, l.name);
      }
    }
  }

  lemma {:induction false} SolveDerives(w: Where, srcs: seq<Local>, left: seq<Local>, t: LocalTable, k: nat)
    returns (k': nat)
    requires AllDerived(w, srcs, t, k) && NotConsts(w, NamesOf(srcs)) && t.Keys <= NamesOf(srcs)
    requires forall l :: l in left ==> l in srcs
    ensures AllDerived(w, srcs, Solve(w, left, t), k')
    decreases |left|
  {
    k' := k;
    if left != [] {
      PassDerives(w, srcs, left, t, k);
      var (retry, table) := OnePass(w, left, t);
      k' := k + |left|;
      if |retry| == |left| {
        GiveUpBelow(table, retry, table, {});
      } else {
        k' := SolveDerives(w, srcs, retry, table, k');
      }
    }
  }

  /** A local is resolved exactly when it is not poisoned and has a derivation of finite height. */
  lemma {:induction false} ResolvedIffDerived(w: Where, f: FuncDef, x: Name)
    requires NotConsts(w, Assigned(f)) && x in Assigned(f)
    ensures x in LocalMap(w, f)
    ensures LocalMap(w, f)[x].Some? <==> x !in Poisoned(f) && exists k: nat :: NameDerives(w, Sources(f), k, x)
  {
    var srcs, t := Sources(f), Solve(w, Sources(f), map[]);
    SourcesStart(w, f);
    SolveSolves(w, srcs, srcs, map[]);
    assert x !in Poisoned(f) ==> LocalMap(w, f)[x] == t[x];
    var k' := SolveDerives(w, srcs, srcs, map[], 0);
    if k: nat :| NameDerives(w, srcs, k, x) {
      DerivedResolves(w, srcs, t, k, Ref(x));
    }
  }
}
