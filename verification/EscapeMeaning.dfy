/**
 What the three answers of axis ESCAPE mean: an entry point is protected when every statement
 behind its docstring is certified; otherwise the first one that is not decides between
 unprotected and unmeasured.
 */
module EscapeMeaning {
  import opened MiniPython
  import opened OwnNodes
  import opened ExitSets
  import opened Containment

  // ----- one guard -----

  /** A block ends in `return` or `raise` on every branch of its last statement. */
  ghost predicate Ends(b: seq<Stmt>)
  {
    b != [] &&
    var last := b[|b| - 1];
    last.Return? || last.Raise? || (last.If? && Ends(last.body) && Ends(last.orelse))
  }

  lemma {:induction false} EndsIff(b: seq<Stmt>)
    ensures EndsInReturnOrRaise(b) <==> Ends(b)
  {
    if b != [] && b[|b| - 1].If? {
      var last := b[|b| - 1];
      EndsIff(last.body);
      EndsIff(last.orelse);
      BranchTerminals(b, last);
    }
  }

  lemma {:induction false} BranchTerminals(b: seq<Stmt>, last: Stmt)
    requires b != [] && b[|b| - 1] == last && last.If?
    ensures EndsInReturnOrRaise(b) <==> EndsInReturnOrRaise(last.body) && EndsInReturnOrRaise(last.orelse)
  {
    var x, y := BlockTerminals(last.body), BlockTerminals(last.orelse);
    if last.orelse != [] && x.Some? && y.Some? {
      assert forall t :: t in x.value + y.value <==> t in x.value || t in y.value;
    }
  }

  /** The return gives a set inside the contract. */
  ghost predicate InContract(codes: Codes) { codes.Some? && codes.value <= {0, 5, 95, 96} }

  /** The i-th return is the first whose set is not known to be inside the contract. */
  ghost predicate FirstOutside(w: Where, rets: seq<Ret>, locals: LocalTable, i: nat)
    requires i < |rets|
  {
    && !InContract(ReturnSet(w, rets[i], locals))
    && forall j :: 0 <= j < i ==> InContract(ReturnSet(w, rets[j], locals))
  }

  /** Some return has no such set, and the first of them has these codes. */
  ghost predicate OutsideFirst(w: Where, rets: seq<Ret>, locals: LocalTable, known: bool)
  {
    exists i: nat {:trigger FirstOutside(w, rets, locals, i)} ::
      i < |rets| && FirstOutside(w, rets, locals, i) && ReturnSet(w, rets[i], locals).Some? == known
  }

  ghost predicate AllInContract(w: Where, rets: seq<Ret>, locals: LocalTable)
  {
    forall r :: r in rets ==> InContract(ReturnSet(w, r, locals))
  }

  lemma {:induction false} ReturnsMean(w: Where, rets: seq<Ret>, locals: LocalTable)
    ensures GuardReturns(w, rets, locals) == Protected <==> AllInContract(w, rets, locals)
    ensures GuardReturns(w, rets, locals) == Unprotected <==> OutsideFirst(w, rets, locals, true)
    ensures GuardReturns(w, rets, locals) == Unmeasured <==> OutsideFirst(w, rets, locals, false)
    decreases |rets|
  {
    if rets != [] {
      ReturnsMean(w, rets[1..], locals);
      if InContract(ReturnSet(w, rets[0], locals)) {
        ShiftOutside(w, rets, locals, true);
        ShiftOutside(w, rets, locals, false);
        assert forall r :: r in rets <==> r == rets[0] || r in rets[1..];
      } else {
        assert FirstOutside(w, rets, locals, 0) && rets[0] in rets;
        forall i: nat | i < |rets| && FirstOutside(w, rets, locals, i) ensures i == 0 {}
      }
    }
  }

  lemma {:induction false} ShiftOutside(w: Where, rets: seq<Ret>, locals: LocalTable, known: bool)
    requires rets != [] && InContract(ReturnSet(w, rets[0], locals))
    ensures OutsideFirst(w, rets, locals, known) <==> OutsideFirst(w, rets[1..], locals, known)
  {
    var rest := rets[1..];
    forall i: nat | i < |rest| ensures FirstOutside(w, rest, locals, i) <==> FirstOutside(w, rets, locals, i + 1) {
      assert forall j :: 0 <= j < i ==> rest[j] == rets[j + 1];
    }
    if OutsideFirst(w, rets, locals, known) {
      var i: nat :| i < |rets| && FirstOutside(w, rets, locals, i) && ReturnSet(w, rets[i], locals).Some? == known;
      assert FirstOutside(w, rest, locals, i - 1);
    }
    if OutsideFirst(w, rest, locals, known) {
      var i: nat :| i < |rest| && FirstOutside(w, rest, locals, i) && ReturnSet(w, rest[i], locals).Some? == known;
      assert FirstOutside(w, rets, locals, i + 1);
    }
  }

  /** The first handler that catches everything. */
  ghost predicate IsGuardOf(s: Stmt, g: Handler)
    requires s.Try?
  {
    exists i: nat :: i < |s.handlers| && s.handlers[i] == g && Blanket(g)
                     && forall j :: 0 <= j < i ==> !Blanket(s.handlers[j])
  }

  lemma {:induction false} GuardAt(hs: seq<Handler>) returns (i: nat)
    requires GuardOf(hs).Some?
    ensures i < |hs| && hs[i] == GuardOf(hs).value && forall j :: 0 <= j < i ==> !Blanket(hs[j])
  {
    if Blanket(hs[0]) {
      i := 0;
    } else {
      var k := GuardAt(hs[1..]);
      i := k + 1;
    }
  }

  lemma {:induction false} GuardIff(s: Stmt, g: Handler)
    requires s.Try?
    ensures IsGuardOf(s, g) <==> GuardOf(s.handlers) == Some(g)
  {
    if GuardOf(s.handlers).Some? {
      var i := GuardAt(s.handlers);
      if IsGuardOf(s, g) {
        var k: nat :| k < |s.handlers| && s.handlers[k] == g && Blanket(g)
                      && forall j :: 0 <= j < k ==> !Blanket(s.handlers[j]);
        assert i == k;
      }
    }
  }

  /** No `else` and no `finally`, and a handler that catches everything. */
  ghost predicate Shaped(s: Stmt)
    requires s.Try?
  {
    s.orelse == [] && s.finalbody == [] && exists h :: h in s.handlers && Blanket(h)
  }

  /** The answer for a `try`. */
  ghost predicate TryIs(w: Where, f: FuncDef, s: Stmt, status: Protection)
    requires s.Try?
  {
    if !Shaped(s) then status == Unprotected
    else exists g {:trigger IsGuardOf(s, g)} :: IsGuardOf(s, g) && GuardAnswers(w, f, g, status)
  }

  /** The answer of a guard: its returns decide, and then its ending. */
  ghost predicate GuardAnswers(w: Where, f: FuncDef, g: Handler, status: Protection)
  {
    var rets, locals := BlockReturns(g.body), LocalMap(w, f);
    match status
    case Protected => AllInContract(w, rets, locals) && Ends(g.body)
    case Unprotected => OutsideFirst(w, rets, locals, true) || (AllInContract(w, rets, locals) && !Ends(g.body))
    case Unmeasured => OutsideFirst(w, rets, locals, false)
  }

  lemma {:induction false} TryIff(w: Where, f: FuncDef, s: Stmt, status: Protection)
    requires s.Try?
    ensures GuardStatus(w, f, s) == status <==> TryIs(w, f, s, status)
  {
    if Shaped(s) {
      var g := GuardOf(s.handlers).value;
      GuardIff(s, g);
      GuardJudged(w, f, s, g, status);
      forall h | IsGuardOf(s, h) ensures h == g { GuardIff(s, h); }
    }
  }

  lemma {:induction false} GuardJudged(w: Where, f: FuncDef, s: Stmt, g: Handler, status: Protection)
    requires s.Try? && Shaped(s) && GuardOf(s.handlers) == Some(g)
    ensures GuardStatus(w, f, s) == status <==> GuardAnswers(w, f, g, status)
  {
    ReturnsMean(w, BlockReturns(g.body), LocalMap(w, f));
    EndsIff(g.body);
  }

  // ----- one entry point -----

  /** `return NAME(...)`, where NAME is a function of this file or else an imported one, declared as t. */
  ghost predicate HandsOver(p: Program, path: Path, eps: set<Key>, s: Stmt, t: Key)
  {
    && s.Return? && s.result.Some? && s.result.value.Call? && s.result.value.callee == t.1 && t in eps
    && var tables := TablesOf(p, path);
       if t.1 in tables.funcs then t.0 == path
       else t.1 in tables.imports && Locate(p, tables.imports[t.1]) == Some(t.0)
  }

  lemma {:induction false} HandsOverIff(p: Program, path: Path, eps: set<Key>, s: Stmt, t: Key)
    ensures DelegationTarget(p, path, eps, s) == Some(t) <==> HandsOver(p, path, eps, s, t)
  {
  }

  /** What stands behind the docstrings. */
  ghost predicate Behind(body: seq<Stmt>, rest: seq<Stmt>)
  {
    exists n: nat :: n <= |body| && rest == body[n..] && (forall i :: 0 <= i < n ==> IsDocstring(body[i]))
                     && (n < |body| ==> !IsDocstring(body[n]))
  }

  lemma {:induction false} BehindAt(body: seq<Stmt>) returns (n: nat)
    ensures n <= |body| && AfterDocstring(body) == body[n..] && (n < |body| ==> !IsDocstring(body[n]))
    ensures forall i :: 0 <= i < n ==> IsDocstring(body[i])
  {
    if body != [] && IsDocstring(body[0]) {
      var m := BehindAt(body[1..]);
      n := m + 1;
      assert body[1..][m..] == body[n..];
    } else {
      n := 0;
    }
  }

  lemma {:induction false} BehindIff(body: seq<Stmt>, rest: seq<Stmt>)
    ensures Behind(body, rest) <==> rest == AfterDocstring(body)
  {
    var n := BehindAt(body);
    if Behind(body, rest) {
      var m: nat :| m <= |body| && rest == body[m..] && (forall i :: 0 <= i < m ==> IsDocstring(body[i]))
                    && (m < |body| ==> !IsDocstring(body[m]));
      assert m == n;
    }
  }

  /** The answer for an entry point, over the delegations already followed. */
  ghost predicate EntryIs(p: Program, eps: set<Key>, entries: map<Key, Codes>, ep: Key, seen: set<Key>,
                          status: Protection)
    requires ep in eps && ep !in seen
    decreases |eps - seen|, 2, 0
  {
    if ep.1 !in TablesOf(p, ep.0).funcs then status == Unmeasured
    else exists rest {:trigger BodyIs(p, eps, entries, ep, seen, rest, status)} ::
      BodyIs(p, eps, entries, ep, seen, rest, status)
  }

  /** `rest` is what stands behind the docstrings, and decides; an empty rest protects nothing. */
  ghost predicate BodyIs(p: Program, eps: set<Key>, entries: map<Key, Codes>, ep: Key, seen: set<Key>, rest: seq<Stmt>,
                         status: Protection)
    requires ep in eps && ep !in seen && ep.1 in TablesOf(p, ep.0).funcs
    decreases |eps - seen|, 1, 1
  {
    && Behind(TablesOf(p, ep.0).funcs[ep.1].body, rest)
    && if rest == [] then status == Unprotected else RestIs(p, eps, entries, ep, seen, rest, status)
  }

  /** All statements are certified, or the first that is not decides. */
  ghost predicate RestIs(p: Program, eps: set<Key>, entries: map<Key, Codes>, ep: Key, seen: set<Key>, rest: seq<Stmt>,
                         status: Protection)
    requires ep in eps && ep !in seen && ep.1 in TablesOf(p, ep.0).funcs
    decreases |eps - seen|, 1, 0
  {
    if status == Protected then forall s :: s in rest ==> StmtIs(p, eps, entries, ep, seen, s, Protected)
    else exists i: nat {:trigger DecidesAt(p, eps, entries, ep, seen, rest, i, status)} ::
      i < |rest| && DecidesAt(p, eps, entries, ep, seen, rest, i, status)
  }

  ghost predicate DecidesAt(p: Program, eps: set<Key>, entries: map<Key, Codes>, ep: Key, seen: set<Key>,
                            rest: seq<Stmt>, i: nat, status: Protection)
    requires ep in eps && ep !in seen && ep.1 in TablesOf(p, ep.0).funcs && i < |rest|
    decreases |eps - seen|, 0, 1
  {
    && StmtIs(p, eps, entries, ep, seen, rest[i], status)
    && forall j :: 0 <= j < i ==> StmtIs(p, eps, entries, ep, seen, rest[j], Protected)
  }

  ghost predicate StmtIs(p: Program, eps: set<Key>, entries: map<Key, Codes>, ep: Key, seen: set<Key>, s: Stmt,
                         status: Protection)
    requires ep in eps && ep !in seen && ep.1 in TablesOf(p, ep.0).funcs
    decreases |eps - seen|, 0, 0
  {
    if s.Try? then TryIs(EntryWhere(p, entries, ep), TablesOf(p, ep.0).funcs[ep.1], s, status)
    else if t: Key :| HandsOver(p, ep.0, eps, s, t) then
      if t == ep || t in seen || t.0 !in p.mods then status == Unmeasured
      else
        SeenGrows(eps, seen, ep);
        EntryIs(p, eps, entries, t, seen + {ep}, status)
    else status == Unprotected
  }

  ghost predicate Certified(p: Program, eps: set<Key>, entries: map<Key, Codes>, ep: Key, seen: set<Key>, s: Stmt)
    requires ep in eps && ep !in seen && ep.1 in TablesOf(p, ep.0).funcs
  {
    StmtStatus(p, eps, entries, ep, seen, s) == Protected
  }

  /** The first statement that is not certified, or the end. */
  lemma {:induction false} FirstUncertified(p: Program, eps: set<Key>, entries: map<Key, Codes>, ep: Key,
                                            seen: set<Key>, rest: seq<Stmt>) returns (i: nat)
    requires ep in eps && ep !in seen && ep.1 in TablesOf(p, ep.0).funcs
    ensures i <= |rest| && forall j :: 0 <= j < i ==> Certified(p, eps, entries, ep, seen, rest[j])
    ensures i == |rest| ==> EscapeRest(p, eps, entries, ep, seen, rest) == Protected
    ensures i < |rest| ==> !Certified(p, eps, entries, ep, seen, rest[i])
    ensures i < |rest| ==>
      EscapeRest(p, eps, entries, ep, seen, rest) == StmtStatus(p, eps, entries, ep, seen, rest[i])
    decreases |rest|
  {
    if rest == [] || !Certified(p, eps, entries, ep, seen, rest[0]) {
      i := 0;
    } else {
      var tail := rest[1..];
      var k := FirstUncertified(p, eps, entries, ep, seen, tail);
      i := k + 1;
      forall j | 0 <= j < i ensures Certified(p, eps, entries, ep, seen, rest[j]) {
        if j > 0 { assert rest[j] == tail[j - 1]; }
      }
      assert k < |tail| ==> rest[i] == tail[k];
    }
  }

  ghost predicate StmtAgrees(p: Program, eps: set<Key>, entries: map<Key, Codes>, ep: Key, seen: set<Key>, s: Stmt)
    requires ep in eps && ep !in seen && ep.1 in TablesOf(p, ep.0).funcs
  {
    forall status ::
      StmtStatus(p, eps, entries, ep, seen, s) == status <==> StmtIs(p, eps, entries, ep, seen, s, status)
  }

  lemma {:induction false} Decides(p: Program, eps: set<Key>, entries: map<Key, Codes>, ep: Key, seen: set<Key>,
                                   rest: seq<Stmt>, status: Protection) returns (i: nat)
    requires ep in eps && ep !in seen && ep.1 in TablesOf(p, ep.0).funcs
    requires status != Protected && RestIs(p, eps, entries, ep, seen, rest, status)
    ensures i < |rest| && DecidesAt(p, eps, entries, ep, seen, rest, i, status)
  {
    i :| i < |rest| && DecidesAt(p, eps, entries, ep, seen, rest, i, status);
  }

  lemma {:induction false} StmtAgreesAt(p: Program, eps: set<Key>, entries: map<Key, Codes>, ep: Key, seen: set<Key>,
                                        s: Stmt, status: Protection)
    requires ep in eps && ep !in seen && ep.1 in TablesOf(p, ep.0).funcs
    requires StmtAgrees(p, eps, entries, ep, seen, s)
    ensures StmtStatus(p, eps, entries, ep, seen, s) == status <==> StmtIs(p, eps, entries, ep, seen, s, status)
  {
  }

  /** At the index found, and at no other, the statements decide. */
  lemma {:induction false} DecidesOnce(p: Program, eps: set<Key>, entries: map<Key, Codes>, ep: Key, seen: set<Key>,
                                       rest: seq<Stmt>, i: nat, k: nat, status: Protection)
    requires ep in eps && ep !in seen && ep.1 in TablesOf(p, ep.0).funcs && i <= |rest| && k < |rest|
    requires forall j :: 0 <= j < |rest| ==> StmtAgrees(p, eps, entries, ep, seen, rest[j])
    requires forall j :: 0 <= j < i ==> Certified(p, eps, entries, ep, seen, rest[j])
    requires i < |rest| ==> !Certified(p, eps, entries, ep, seen, rest[i])
    requires status != Protected
    ensures DecidesAt(p, eps, entries, ep, seen, rest, k, status)
      <==> k == i && StmtStatus(p, eps, entries, ep, seen, rest[i]) == status
  {
    forall j | 0 <= j < |rest|
      ensures Certified(p, eps, entries, ep, seen, rest[j]) <==> StmtIs(p, eps, entries, ep, seen, rest[j], Protected)
    {
      StmtAgreesAt(p, eps, entries, ep, seen, rest[j], Protected);
    }
    StmtAgreesAt(p, eps, entries, ep, seen, rest[k], status);
  }

  lemma {:induction false} AllAgree(p: Program, eps: set<Key>, entries: map<Key, Codes>, ep: Key, seen: set<Key>,
                                    rest: seq<Stmt>, i: nat)
    requires ep in eps && ep !in seen && ep.1 in TablesOf(p, ep.0).funcs && i <= |rest|
    requires forall s :: s in rest ==> StmtAgrees(p, eps, entries, ep, seen, s)
    requires forall j :: 0 <= j < i ==> Certified(p, eps, entries, ep, seen, rest[j])
    requires i < |rest| ==> !Certified(p, eps, entries, ep, seen, rest[i])
    ensures RestIs(p, eps, entries, ep, seen, rest, Protected) <==> i == |rest|
  {
    forall s | s in rest
      ensures Certified(p, eps, entries, ep, seen, s) <==> StmtIs(p, eps, entries, ep, seen, s, Protected)
    {
      StmtAgreesAt(p, eps, entries, ep, seen, s, Protected);
    }
    if i < |rest| { assert rest[i] in rest; }
  }

  lemma {:induction false} RestAgrees(p: Program, eps: set<Key>, entries: map<Key, Codes>, ep: Key, seen: set<Key>,
                                      rest: seq<Stmt>, status: Protection)
    requires ep in eps && ep !in seen && ep.1 in TablesOf(p, ep.0).funcs
    requires forall s :: s in rest ==> StmtAgrees(p, eps, entries, ep, seen, s)
    ensures EscapeRest(p, eps, entries, ep, seen, rest) == status <==> RestIs(p, eps, entries, ep, seen, rest, status)
  {
    var i := FirstUncertified(p, eps, entries, ep, seen, rest);
    if status == Protected {
      AllAgree(p, eps, entries, ep, seen, rest, i);
    } else {
      forall j | 0 <= j < |rest| ensures StmtAgrees(p, eps, entries, ep, seen, rest[j]) { assert rest[j] in rest; }
      if i < |rest| { DecidesOnce(p, eps, entries, ep, seen, rest, i, i, status); }
      if RestIs(p, eps, entries, ep, seen, rest, status) {
        var k := Decides(p, eps, entries, ep, seen, rest, status);
        DecidesOnce(p, eps, entries, ep, seen, rest, i, k, status);
      }
    }
  }

  lemma {:induction false} StmtIff(p: Program, eps: set<Key>, entries: map<Key, Codes>, ep: Key, seen: set<Key>,
                                   s: Stmt, status: Protection)
    requires ep in eps && ep !in seen && ep.1 in TablesOf(p, ep.0).funcs
    ensures StmtStatus(p, eps, entries, ep, seen, s) == status <==> StmtIs(p, eps, entries, ep, seen, s, status)
    decreases |eps - seen|, 0
  {
    if s.Try? {
      TryIff(EntryWhere(p, entries, ep), TablesOf(p, ep.0).funcs[ep.1], s, status);
    } else {
      forall t: Key ensures DelegationTarget(p, ep.0, eps, s) == Some(t) <==> HandsOver(p, ep.0, eps, s, t) {
        HandsOverIff(p, ep.0, eps, s, t);
      }
      if DelegationTarget(p, ep.0, eps, s).Some? {
        var t := DelegationTarget(p, ep.0, eps, s).value;
        assert HandsOver(p, ep.0, eps, s, t);
        if t != ep && t !in seen && t.0 in p.mods {
          SeenGrows(eps, seen, ep);
          EntryIff(p, eps, entries, t, seen + {ep}, status);
        }
      }
    }
  }

  lemma {:induction false} BodyDecides(p: Program, eps: set<Key>, entries: map<Key, Codes>, ep: Key, seen: set<Key>,
                                       status: Protection) returns (rest: seq<Stmt>)
    requires ep in eps && ep !in seen && ep.1 in TablesOf(p, ep.0).funcs
    requires EntryIs(p, eps, entries, ep, seen, status)
    ensures BodyIs(p, eps, entries, ep, seen, rest, status)
  {
    rest :| BodyIs(p, eps, entries, ep, seen, rest, status);
  }

  /** The three answers mean what they say, along every chain of delegations. */
  lemma {:induction false} EntryIff(p: Program, eps: set<Key>, entries: map<Key, Codes>, ep: Key, seen: set<Key>,
                                    status: Protection)
    requires ep in eps && ep !in seen
    ensures EscapeStatus(p, eps, entries, ep, seen) == status <==> EntryIs(p, eps, entries, ep, seen, status)
    decreases |eps - seen|, 1
  {
    if ep.1 in TablesOf(p, ep.0).funcs {
      var body := TablesOf(p, ep.0).funcs[ep.1].body;
      var rest := AfterDocstring(body);
      BehindIff(body, rest);
      forall s | s in rest ensures StmtAgrees(p, eps, entries, ep, seen, s) {
        forall st ensures
          StmtStatus(p, eps, entries, ep, seen, s) == st <==> StmtIs(p, eps, entries, ep, seen, s, st)
        {
          StmtIff(p, eps, entries, ep, seen, s, st);
        }
      }
      RestAgrees(p, eps, entries, ep, seen, rest, status);
      if EscapeStatus(p, eps, entries, ep, seen) == status { assert BodyIs(p, eps, entries, ep, seen, rest, status); }
      if EntryIs(p, eps, entries, ep, seen, status) {
        var r := BodyDecides(p, eps, entries, ep, seen, status);
        BehindIff(body, r);
      }
    }
  }
}
