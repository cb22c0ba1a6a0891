/** The delegation chain of a PROTECTED entry point, and what holds all along it. */
module Delegation {
  import opened MiniPython
  import opened OwnNodes
  import opened PythonRuns
  import opened ExitSets
  import opened ExitSoundness
  import opened Containment

  /** A smaller chain so far can only help. */
  lemma {:induction false} SeenLess(p: Program, eps: set<Key>, entries: map<Key, Codes>, ep: Key, seen: set<Key>,
                                    fewer: set<Key>)
    requires IsProtected(p, eps, entries, ep, seen) && fewer <= seen
    ensures IsProtected(p, eps, entries, ep, fewer)
    decreases |eps - seen|, 1, 0
  {
    RestSeenLess(p, eps, entries, ep, seen, fewer, AfterDocstring(TablesOf(p, ep.0).funcs[ep.1].body));
  }

  lemma {:induction false} RestSeenLess(p: Program, eps: set<Key>, entries: map<Key, Codes>, ep: Key, seen: set<Key>,
                                        fewer: set<Key>, rest: seq<Stmt>)
    requires ep in eps && ep !in seen && fewer <= seen && ep.1 in TablesOf(p, ep.0).funcs
    requires EscapeRest(p, eps, entries, ep, seen, rest) == Protected
    ensures EscapeRest(p, eps, entries, ep, fewer, rest) == Protected
    decreases |eps - seen|, 0, |rest|
  {
    if rest != [] {
      var s := rest[0];
      if !s.Try? {
        var t := DelegationTarget(p, ep.0, eps, s).value;
        SeenGrows(eps, seen, ep);
        SeenLess(p, eps, entries, t, seen + {ep}, fewer + {ep});
      }
      RestSeenLess(p, eps, entries, ep, seen, fewer, rest[1..]);
    }
  }

  /**
   The chain is acyclic: along any sequence of hand-offs from a PROTECTED entry point the
   entry points are declared, pairwise different, and PROTECTED in their own right.
   */
  lemma {:induction false} ChainIsAcyclic(p: Program, eps: set<Key>, entries: map<Key, Codes>, chain: seq<Key>,
                                          seen: set<Key>)
    requires IsChain(p, eps, chain) && IsProtected(p, eps, entries, chain[0], seen)
    ensures forall i :: 0 <= i < |chain| ==> chain[i] !in seen && IsProtected(p, eps, entries, chain[i], {})
    ensures forall i, j :: 0 <= i < j < |chain| ==> chain[i] != chain[j]
    decreases |chain|
  {
    var ep := chain[0];
    SeenLess(p, eps, entries, ep, seen, {});
    if |chain| > 1 {
      var tail := chain[1..];
      assert DelegatesTo(p, eps, chain[0], chain[0 + 1]);
      var rest := AfterDocstring(TablesOf(p, ep.0).funcs[ep.1].body);
      var s :| s in rest && !s.Try? && DelegationTarget(p, ep.0, eps, s) == Some(chain[1]);
      StmtProtected(p, eps, entries, ep, seen, s);
      forall i | 0 <= i < |tail| - 1 ensures DelegatesTo(p, eps, tail[i], tail[i + 1]) {
        assert DelegatesTo(p, eps, chain[i + 1], chain[i + 1 + 1]);
      }
      ChainIsAcyclic(p, eps, entries, tail, seen + {ep});
      forall i | 0 < i < |chain|
        ensures chain[i] !in seen && chain[i] != ep && IsProtected(p, eps, entries, chain[i], {})
      {
        assert tail[i - 1] == chain[i];
      }
      forall i, j | 0 <= i < j < |chain| ensures chain[i] != chain[j] {
        if i > 0 { assert tail[i - 1] == chain[i] && tail[j - 1] == chain[j]; }
      }
    }
  }

  /** A cycle of hand-offs is never certified. */
  lemma {:induction false} CyclesAreNotProtected(p: Program, eps: set<Key>, entries: map<Key, Codes>, cycle: seq<Key>,
                                                 seen: set<Key>)
    requires |cycle| > 1 && cycle[0] in eps && cycle[0] !in seen && cycle[|cycle| - 1] == cycle[0]
    requires IsChain(p, eps, cycle)
    ensures EscapeStatus(p, eps, entries, cycle[0], seen) != Protected
  {
    if EscapeStatus(p, eps, entries, cycle[0], seen) == Protected { ChainIsAcyclic(p, eps, entries, cycle, seen); }
  }

  // ----- containment all along the chain -----

  /** Everything PROTECTED promises of one entry point. */
  ghost predicate Holds(p: Program, eps: set<Key>, entries: map<Key, Codes>, k: Key)
  {
    BodyHolds(p, eps, entries, k) && GuardsConvert(p, entries, k) && KeepsItsExceptions(p, eps, k)
  }

  /**
   Whichever entry points a PROTECTED one hands control to, in every run of each of them the
   guards never fall out of their ends and return in contract, and no ordinary exception
   leaves but from the handlers and hand-off arguments down the chain.
   */
  lemma {:induction false} ChainContained(p: Program, scope: set<Visit>, eps: set<Key>, entries: map<Key, Codes>,
                                          ep: Key, k: Key)
    requires Proper(p, scope, eps, entries) && IsProtected(p, eps, entries, ep, {})
    requires ChainSure(p, eps, ep) && OnChain(p, eps, ep, k)
    ensures IsProtected(p, eps, entries, k, {}) && Holds(p, eps, entries, k)
  {
    var chain :| IsChain(p, eps, chain) && chain[0] == ep && chain[|chain| - 1] == k;
    ChainIsAcyclic(p, eps, entries, chain, {});
    forall x | OnChain(p, eps, k, x) ensures GuardsSure(p, x) { ChainsJoin(p, eps, ep, k, x); }
    BodyContained(p, scope, eps, entries, k, {});
    AllGuardsConvert(p, scope, eps, entries, k, {});
    EntryContained(p, scope, eps, entries, k, {});
  }

  lemma {:induction false} ChainsJoin(p: Program, eps: set<Key>, a: Key, b: Key, c: Key)
    requires OnChain(p, eps, a, b) && OnChain(p, eps, b, c)
    ensures OnChain(p, eps, a, c)
  {
    var first :| IsChain(p, eps, first) && first[0] == a && first[|first| - 1] == b;
    var second :| IsChain(p, eps, second) && second[0] == b && second[|second| - 1] == c;
    var n := |first| - 1;
    var whole := first[..n] + second;
    forall i | 0 <= i < |whole| - 1 ensures DelegatesTo(p, eps, whole[i], whole[i + 1]) {
      if i < n {
        assert DelegatesTo(p, eps, first[i], first[i + 1]);
      } else {
        assert DelegatesTo(p, eps, second[i - n], second[i - n + 1]);
      }
    }
    assert IsChain(p, eps, whole) && whole[|whole| - 1] == c;
  }
}
