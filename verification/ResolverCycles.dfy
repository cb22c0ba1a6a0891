/**
 Cycles of calls yield no set.  Where the resolver computed an exit set, it followed calls
 into pairwise different functions only; a function on a cycle of such calls is unresolved,
 also when the cycle runs through other modules and the hop budget is renewed on the way.
 */
module ResolverCycles {
  import opened MiniPython
  import opened OwnNodes
  import opened ExitSets
  import opened LocalSolution

  /** A function, and what the resolver carries when it enters it. */
  datatype Frame = Frame(w: Where, name: Name)

  function KeyOf(a: Frame): Key { (a.w.path, a.name) }

  ghost predicate Exists(a: Frame) { a.name in TablesOf(a.w.p, a.w.path).funcs }

  /** What it carries inside the function. */
  function Inside(a: Frame): Where { a.w.(stack := a.w.stack + {KeyOf(a)}) }

  ghost predicate ReturnsCall(f: FuncDef, callee: Name)
  {
    exists r :: r in BlockReturns(f.body) && r.result.Some? && callee in ValueCalls(r.result.value)
  }

  ghost predicate FeedsCall(l: Local, callee: Name)
  {
    exists e :: e in l.exprs && callee in ValueCalls(e)
  }

  /** The call stands where a return, or a local that was resolved, takes its value from. */
  ghost predicate InResolvedPosition(a: Frame, callee: Name)
    requires Exists(a)
  {
    var f := TablesOf(a.w.p, a.w.path).funcs[a.name];
    var locals := LocalMap(Inside(a), f);
    || ReturnsCall(f, callee)
    || exists l :: l in Sources(f) && l.name in locals && locals[l.name].Some? && FeedsCall(l, callee)
  }

  /** The resolver, inside `a`, follows such a call into `b`. */
  ghost predicate Step(a: Frame, b: Frame)
  {
    Exists(a) && InResolvedPosition(a, b.name) && SiteOf(Inside(a), b.name) == Follow(b.w)
  }

  lemma {:induction false} CallsResolved(w: Where, e: Expr, t: LocalTable, callee: Name)
    requires Resolve(w, e, Some(t)).Some? && callee in ValueCalls(e)
    ensures CallSet(w, callee).Some?
  {
    if e.Cond? {
      if callee in ValueCalls(e.body) { CallsResolved(w, e.body, t, callee); }
      else { CallsResolved(w, e.orelse, t, callee); }
    }
  }

  // ----- a resolved local rests on resolved calls -----

  ghost predicate Backed(w: Where, srcs: seq<Local>, t: LocalTable)
  {
    forall l, c :: l in srcs && l.name in t && t[l.name].Some? && FeedsCall(l, c) ==> CallSet(w, c).Some?
  }

  lemma {:induction false} PassBacked(w: Where, srcs: seq<Local>, left: seq<Local>, t: LocalTable)
    requires IsDict(srcs) && Backed(w, srcs, t) && forall l :: l in left ==> l in srcs
    ensures Backed(w, srcs, OnePass(w, left, t).1)
    ensures forall l :: l in OnePass(w, left, t).0 ==> l in left
    decreases |left|
  {
    if left != [] {
      var init, l := left[..|left| - 1], left[|left| - 1];
      PassBacked(w, srcs, init, t);
      var table := OnePass(w, init, t).1;
      assert l in left;
      if AllSet(w, l.exprs, table).Some? {
        AllSetMembers(w, l.exprs, table);
        forall m, c | m in srcs && m.name == l.name && FeedsCall(m, c) ensures CallSet(w, c).Some? {
          DictUnique(srcs, m, l);
          var e :| e in l.exprs && c in ValueCalls(e);
          CallsResolved(w, e, table, c);
        }
      }
    }
  }

  lemma {:induction false} GiveUpBacked(w: Where, srcs: seq<Local>, t: LocalTable, names: seq<Local>)
    requires Backed(w, srcs, t)
    ensures Backed(w, srcs, GiveUp(t, names))
    decreases |names|
  {
    if names != [] { GiveUpBacked(w, srcs, t, names[..|names| - 1]); }
  }

  lemma {:induction false} SolveBacked(w: Where, srcs: seq<Local>, left: seq<Local>, t: LocalTable)
    requires IsDict(srcs) && Backed(w, srcs, t) && forall l :: l in left ==> l in srcs
    ensures Backed(w, srcs, Solve(w, left, t))
    decreases |left|
  {
    if left != [] {
      PassBacked(w, srcs, left, t);
      var (retry, table) := OnePass(w, left, t);
      if |retry| == |left| { GiveUpBacked(w, srcs, table, retry); } else { SolveBacked(w, srcs, retry, table); }
    }
  }

  /** From a function with a set, every step leads to a function with a set. */
  lemma {:induction false} StepResolved(a: Frame, b: Frame)
    requires Step(a, b) && FuncExitSet(a.w, a.name).Some?
    ensures KeyOf(a) !in a.w.stack && b.w.stack == a.w.stack + {KeyOf(a)}
    ensures Exists(b) && FuncExitSet(b.w, b.name).Some?
  {
    var f := TablesOf(a.w.p, a.w.path).funcs[a.name];
    var w, locals := Inside(a), LocalMap(Inside(a), f);
    assert CallSet(w, b.name).Some? by {
      if ReturnsCall(f, b.name) {
        var r :| r in BlockReturns(f.body) && r.result.Some? && b.name in ValueCalls(r.result.value);
        ReturnsSetMembers(w, BlockReturns(f.body), locals);
        CallsResolved(w, r.result.value, locals, b.name);
      } else {
        SourcesOfIff(BlockEvents(f.body));
        SolveBacked(w, Sources(f), Sources(f), map[]);
      }
    }
  }

  /**
   Along any chain of followed calls from a function with an exit set, every function has
   one, none of them was being entered already, and no function occurs twice.
   */
  lemma {:induction false} FollowedOnce(chain: seq<Frame>)
    requires chain != [] && Exists(chain[0]) && FuncExitSet(chain[0].w, chain[0].name).Some?
    requires forall i :: 0 <= i < |chain| - 1 ==> Step(chain[i], chain[i + 1])
    ensures forall i :: 0 <= i < |chain| ==> Exists(chain[i]) && FuncExitSet(chain[i].w, chain[i].name).Some?
    ensures forall i :: 0 <= i < |chain| ==> KeyOf(chain[i]) !in chain[0].w.stack
    ensures forall i, j :: 0 <= i < j < |chain| ==> KeyOf(chain[i]) != KeyOf(chain[j])
    decreases |chain|
  {
    if |chain| > 1 {
      var tail := chain[1..];
      assert Step(chain[0], chain[0 + 1]);
      StepResolved(chain[0], tail[0]);
      forall i | 0 <= i < |tail| - 1 ensures Step(tail[i], tail[i + 1]) {
        assert Step(chain[i + 1], chain[i + 1 + 1]);
      }
      FollowedOnce(tail);
      forall i | 0 < i < |chain|
        ensures Exists(chain[i]) && FuncExitSet(chain[i].w, chain[i].name).Some?
        ensures KeyOf(chain[i]) !in chain[0].w.stack && KeyOf(chain[i]) != KeyOf(chain[0])
      {
        assert tail[i - 1] == chain[i];
      }
      forall i, j | 0 <= i < j < |chain| ensures KeyOf(chain[i]) != KeyOf(chain[j]) {
        if i > 0 { assert tail[i - 1] == chain[i] && tail[j - 1] == chain[j]; }
      }
    }
  }

  /** A function from which followed calls lead into a cycle is unresolved. */
  lemma {:induction false} CyclesAreUnresolved(chain: seq<Frame>, i: nat, j: nat)
    requires i < j < |chain| && KeyOf(chain[i]) == KeyOf(chain[j]) && Exists(chain[0])
    requires forall k :: 0 <= k < |chain| - 1 ==> Step(chain[k], chain[k + 1])
    ensures FuncExitSet(chain[0].w, chain[0].name).None?
  {
    if FuncExitSet(chain[0].w, chain[0].name).Some? { FollowedOnce(chain); }
  }
}
