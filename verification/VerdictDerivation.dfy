/** The sets a verdict is stated over, by derivation: of an exit site, and of a declared function. */
module VerdictDerivation {
  import opened MiniPython
  import opened OwnNodes
  import opened ExitSets
  import opened Containment
  import opened Assess
  import opened Derivation

  /** The module level as a body without locals. */
  const NO_BODY: FuncDef := FuncDef("", Signature([], None, None), [], {}, true)

  ghost predicate ExprDerived(w: Where, e: Expr, s: set<int>) { exists n: nat :: Gives(w, NO_BODY, false, n, e, s) }

  /** What an exit site gives: 0 without an argument, 1 for text or several, else what its argument gives. */
  ghost predicate SiteDerived(p: Program, path: Path, entries: map<Key, Codes>, args: seq<Expr>, s: set<int>)
  {
    if |args| == 0 then s == {0}
    else if |args| > 1 then s == {1}
    else
      match args[0]
      case Lit(NoneConst) => s == {0}
      case Lit(TextConst) => s == {1}
      case _ => ExprDerived(Where(p, path, 0, {}, entries), args[0], s)
  }

  lemma {:induction false} NoLocals(w: Where, e: Expr)
    ensures Resolve(w, e, None) == Resolve(w, e, Some(map[]))
  {
    match e
    case Cond(_, body, orelse) =>
      NoLocals(w, body);
      NoLocals(w, orelse);
    case _ =>
  }

  lemma {:induction false} SiteIffDerived(p: Program, scope: set<Key>, path: Path, entries: map<Key, Codes>,
                                          args: seq<Expr>, s: set<int>)
    requires Tidy(p, scope) && forall e :: e in args ==> CallsTidy(p, scope, path, e)
    ensures SiteValues(p, path, entries, args) == Some(s) <==> SiteDerived(p, path, entries, args, s)
  {
    if |args| == 1 && args[0] != Lit(NoneConst) && args[0] != Lit(TextConst) {
      ModuleExprIff(Where(p, path, 0, {}, entries), scope, args[0], s);
    }
  }

  lemma {:induction false} ModuleExprIff(w: Where, scope: set<Key>, e: Expr, s: set<int>)
    requires Tidy(w.p, scope) && CallsTidy(w.p, scope, w.path, e)
    ensures Resolve(w, e, None) == Some(s) <==> ExprDerived(w, e, s)
  {
    NoLocals(w, e);
    assert BlockEvents(NO_BODY.body) == [] && BlockReturns(NO_BODY.body) == [];
    if Resolve(w, e, None) == Some(s) {
      var n := ExprGiven(w, scope, NO_BODY, false, map[], e);
      assert Gives(w, NO_BODY, false, n, e, s);
    }
    if ExprDerived(w, e, s) {
      var n: nat :| Gives(w, NO_BODY, false, n, e, s);
      GivesResolves(w, scope, NO_BODY, false, n, e, s);
    }
  }

  ghost predicate BodyDerived(w: Where, f: FuncDef, s: set<int>) { exists n: nat :: BodyGives(w, f, n, s) }

  /** The returns of a declared function give the set. */
  ghost predicate EntryDerived(p: Program, entries: map<Key, Codes>, k: Key, s: set<int>)
  {
    k.1 in TablesOf(p, k.0).funcs &&
    BodyDerived(EntryWhere(p, entries, k), TablesOf(p, k.0).funcs[k.1], s)
  }

  /** The set kept for a declared function; one without returns has the empty set. */
  lemma {:induction false} EntryIffDerived(p: Program, scope: set<Key>, entries: map<Key, Codes>, k: Key, s: set<int>)
    requires Tidy(p, scope) && k in scope
    ensures EntryCodes(p, entries, k) == Some(s) <==> EntryDerived(p, entries, k, s)
  {
    if k.1 in TablesOf(p, k.0).funcs {
      var w, f := EntryWhere(p, entries, k), TablesOf(p, k.0).funcs[k.1];
      assert KeyTidy(p, scope, k);
      if EntryCodes(p, entries, k) == Some(s) {
        var n := BodyGiven(w, scope, f);
        assert BodyGives(w, f, n, s);
      }
      if BodyDerived(w, f, s) {
        var n: nat :| BodyGives(w, f, n, s);
        BodyResolves(w, scope, f, n, s);
      }
    }
  }
}
