/**
 checks/mutation_scope.py: the partition rules say exactly what they find, and a CLEAR verdict
 means that the printed counts add up to the tracked total.
 */
module Partition {
  const EXIT_CLEAR: int := 0
  const EXIT_RED: int := 5
  const EXIT_UNMEASURED: int := 95

  datatype Owner = ModulePaths | Pending | OutOfScope

  /** A path to its reason, or a module to its path. */
  type Table = map<string, string>

  /** The findings by rule: R1 to R3 and R4 name paths, R5 names the shared reasons. */
  datatype Findings = Findings(undeclared: set<string>, double: set<string>, stale: set<string>,
                               emptyPending: set<string>, emptyOut: set<string>, generic: set<string>)

  predicate Blank(reason: string)
  {
    forall k :: 0 <= k < |reason| ==> var c := reason[k]; c == ' ' || '\t' <= c <= '\r' || '\U{1C}' <= c <= '\U{1F}'
  }

  function Declared(modules: Table, pending: Table, out: Table): set<string>
  {
    modules.Values + pending.Keys + out.Keys
  }

  /** At least two of the three sets claim the path. */
  predicate TwoOwners(p: string, modules: Table, pending: Table, out: Table)
  {
    || (p in modules.Values && p in pending) || (p in modules.Values && p in out) || (p in pending && p in out)
  }

  // ----- R1 to R3 -----

  function Get<T>(m: map<string, set<T>>, key: string): set<T> { if key in m then m[key] else {} }

  predicate Owns(o: Owner, p: string, modules: Table, pending: Table, out: Table)
  {
    match o
    case ModulePaths => p in modules.Values
    case Pending => p in pending
    case OutOfScope => p in out
  }

  /** One pass of `setdefault(path, set()).add(owner)`. */
  method Claim(owners: map<string, set<Owner>>, paths: set<string>, o: Owner) returns (r: map<string, set<Owner>>)
    ensures r.Keys == owners.Keys + paths
    ensures forall p, q :: q in Get(r, p) <==> q in Get(owners, p) || (q == o && p in paths)
  {
    r := owners;
    var left, done: set<string> := paths, {};
    while left != {}
      invariant left + done == paths && r.Keys == owners.Keys + done
      invariant forall p, q :: q in Get(r, p) <==> q in Get(owners, p) || (q == o && p in done)
      decreases left
    {
      var p :| p in left;
      left, done := left - {p}, done + {p};
      var next := r[p := Get(r, p) + {o}];
      assert forall k :: Get(next, k) == if k == p then Get(r, p) + {o} else Get(r, k);
      r := next;
    }
  }

  /** The `owners` dict: who claims each declared path. */
  method Owners(modules: Table, pending: Table, out: Table) returns (owners: map<string, set<Owner>>)
    ensures owners.Keys == Declared(modules, pending, out)
    ensures forall p, o :: o in Get(owners, p) <==> Owns(o, p, modules, pending, out)
  {
    var covered := Claim(map[], modules.Values, ModulePaths);
    var both := Claim(covered, pending.Keys, Pending);
    owners := Claim(both, out.Keys, OutOfScope);
  }

  lemma {:induction false} AtLeastTwo<T>(s: set<T>)
    ensures |s| >= 2 <==> exists a, b :: a in s && b in s && a != b
  {
    if |s| >= 2 {
      var a :| a in s;
      assert |s - {a}| == |s| - 1;
      var b :| b in s - {a};
    }
    if a, b :| a in s && b in s && a != b {
      assert {a, b} <= s && |s - {a, b}| == |s| - |{a, b}|;
    }
  }

  method CheckOwners(tracked: set<string>, modules: Table, pending: Table, out: Table)
    returns (undeclared: set<string>, double: set<string>, stale: set<string>)
    ensures undeclared == tracked - Declared(modules, pending, out)
    ensures forall p :: p in double <==> TwoOwners(p, modules, pending, out)
    ensures stale == Declared(modules, pending, out) - tracked
  {
    var owners := Owners(modules, pending, out);
    undeclared := tracked - owners.Keys;
    double := set p | p in owners && |owners[p]| >= 2;
    stale := owners.Keys - tracked;
    forall p ensures p in double <==> TwoOwners(p, modules, pending, out) {
      var claims := Get(owners, p);
      AtLeastTwo(claims);
      assert ModulePaths in claims <==> p in modules.Values;
      assert Pending in claims <==> p in pending;
      assert OutOfScope in claims <==> p in out;
      if a, b :| a in claims && b in claims && a != b {
        assert Owns(a, p, modules, pending, out) && Owns(b, p, modules, pending, out);
      }
    }
  }

  // ----- R4 and R5 -----

  /** A declaration: which table, and the path. */
  type Wearer = (Owner, string)

  /** The declaration carries this reason. */
  predicate Wears(w: Wearer, reason: string, pending: Table, out: Table)
  {
    WearsIn(w, Pending, reason, pending) || WearsIn(w, OutOfScope, reason, out)
  }

  predicate WearsIn(w: Wearer, o: Owner, reason: string, declared: Table)
  {
    w.0 == o && w.1 in declared && declared[w.1] == reason
  }

  /** Two declarations share a reason. */
  ghost predicate Shared(reason: string, pending: Table, out: Table)
  {
    exists a, b :: a != b && Wears(a, reason, pending, out) && Wears(b, reason, pending, out)
  }

  /** The declaration has been filed under the reason. */
  predicate Filed(reasons: map<string, set<Wearer>>, r: string, w: Wearer) { w in Get(reasons, r) }

  method ReadReasons(o: Owner, declared: Table, before: map<string, set<Wearer>>)
    returns (empty: set<string>, reasons: map<string, set<Wearer>>)
    ensures empty == set p | p in declared && Blank(declared[p])
    ensures forall r, w :: Filed(reasons, r, w) <==> Filed(before, r, w) || (!Blank(r) && WearsIn(w, o, r, declared))
  {
    empty, reasons := {}, before;
    var left, done: set<string> := declared.Keys, {};
    while left != {}
      invariant left + done == declared.Keys
      invariant empty == set p | p in done && Blank(declared[p])
      invariant forall r, w :: Filed(reasons, r, w) <==>
                  Filed(before, r, w) || (!Blank(r) && w.1 in done && WearsIn(w, o, r, declared))
      decreases left
    {
      var p :| p in left;
      left, done := left - {p}, done + {p};
      var reason := declared[p];
      if Blank(reason) {
        empty := empty + {p};
      } else {
        ghost var was := reasons;
        reasons := reasons[reason := Get(reasons, reason) + {(o, p)}];
        forall r, w ensures Filed(reasons, r, w) <==> Filed(was, r, w) || (r == reason && w == (o, p)) {}
      }
    }
    assert done == declared.Keys;
  }

  method CheckReasons(pending: Table, out: Table)
    returns (emptyPending: set<string>, emptyOut: set<string>, generic: set<string>)
    ensures emptyPending == set p | p in pending && Blank(pending[p])
    ensures emptyOut == set p | p in out && Blank(out[p])
    ensures forall r :: r in generic <==> !Blank(r) && Shared(r, pending, out)
  {
    var some: map<string, set<Wearer>>, reasons: map<string, set<Wearer>>;
    emptyPending, some := ReadReasons(Pending, pending, map[]);
    emptyOut, reasons := ReadReasons(OutOfScope, out, some);
    generic := set r | r in reasons && |reasons[r]| >= 2;
    forall r ensures r in generic <==> !Blank(r) && Shared(r, pending, out) {
      AtLeastTwo(Get(reasons, r));
      forall w ensures w in Get(reasons, r) <==> !Blank(r) && Wears(w, r, pending, out) {
        assert Filed(reasons, r, w) <==> w in Get(reasons, r);
      }
    }
  }

  // ----- the verdict -----

  ghost predicate AreFindings(f: Findings, tracked: set<string>, modules: Table, pending: Table, out: Table)
  {
    && f.undeclared == tracked - Declared(modules, pending, out)
    && (forall p :: p in f.double <==> TwoOwners(p, modules, pending, out))
    && f.stale == Declared(modules, pending, out) - tracked
    && (f.emptyPending == set p | p in pending && Blank(pending[p]))
    && (f.emptyOut == set p | p in out && Blank(out[p]))
    && (forall r :: r in f.generic <==> !Blank(r) && Shared(r, pending, out))
  }

  method CheckPartition(tracked: set<string>, modules: Table, pending: Table, out: Table) returns (f: Findings)
    ensures AreFindings(f, tracked, modules, pending, out)
  {
    var undeclared, double, stale := CheckOwners(tracked, modules, pending, out);
    var emptyPending, emptyOut, generic := CheckReasons(pending, out);
    f := Findings(undeclared, double, stale, emptyPending, emptyOut, generic);
  }

  /** The printed numbers of a CLEAR verdict. */
  datatype Counts = Counts(total: nat, covered: nat, pending: nat, out: nat, undeclared: nat)

  /** The index is the disjoint union of the three sets. */
  predicate IsPartition(tracked: set<string>, modules: Table, pending: Table, out: Table)
  {
    && tracked == Declared(modules, pending, out)
    && modules.Values !! pending.Keys && modules.Values !! out.Keys && pending.Keys !! out.Keys
  }

  /** Every declaration carries a reason, and one of its own. */
  predicate OwnReasons(pending: Table, out: Table)
  {
    && (forall p :: p in pending ==> !Blank(pending[p])) && (forall p :: p in out ==> !Blank(out[p]))
    && (forall p, q :: p in pending && q in pending && pending[p] == pending[q] ==> p == q)
    && (forall p, q :: p in out && q in out && out[p] == out[q] ==> p == q)
    && (forall p, q :: p in pending && q in out ==> pending[p] != out[q])
  }

  method Evaluate(tracked: set<string>, modules: Table, pending: Table, out: Table) returns (code: int, counts: Counts)
    ensures code == EXIT_UNMEASURED <==> tracked == {}
    ensures code == EXIT_CLEAR <==>
            tracked != {} && IsPartition(tracked, modules, pending, out) && OwnReasons(pending, out)
    ensures code in {EXIT_CLEAR, EXIT_RED, EXIT_UNMEASURED}
    ensures counts.total == |tracked| && counts.covered == |modules.Values|
            && counts.pending == |pending| && counts.out == |out|
    ensures code == EXIT_CLEAR ==>
              counts.total == counts.covered + counts.pending + counts.out && counts.undeclared == 0
  {
    var undeclared := tracked - modules.Values - pending.Keys - out.Keys;
    counts := Counts(|tracked|, |modules.Values|, |pending|, |out|, |undeclared|);
    if |tracked| == 0 { return EXIT_UNMEASURED, counts; }
    var f := CheckPartition(tracked, modules, pending, out);
    PartitionExactly(f, tracked, modules, pending, out);
    ReasonsExactly(f, tracked, modules, pending, out);
    if f != Findings({}, {}, {}, {}, {}, {}) { return EXIT_RED, counts; }
    DisjointUnionCounts(tracked, modules, pending, out);
    return EXIT_CLEAR, counts;
  }

  /** R1, R2 and R3 are silent exactly on a partition of the index. */
  lemma {:induction false} PartitionExactly(f: Findings, tracked: set<string>, modules: Table, pending: Table,
                                            out: Table)
    requires AreFindings(f, tracked, modules, pending, out)
    ensures f.undeclared == f.double == f.stale == {} <==> IsPartition(tracked, modules, pending, out)
  {
    assert f.double == {} <==> forall p :: !TwoOwners(p, modules, pending, out) by {
      if f.double == {} { assert forall p :: p !in f.double; }
    }
    assert f.undeclared == f.stale == {} <==> tracked == Declared(modules, pending, out) by {
      if f.undeclared == f.stale == {} {
        assert forall p :: p !in f.undeclared && p !in f.stale;
      }
    }
  }

  /** R4 and R5 are silent exactly when every declaration carries a reason of its own. */
  lemma {:induction false} ReasonsExactly(f: Findings, tracked: set<string>, modules: Table, pending: Table, out: Table)
    requires AreFindings(f, tracked, modules, pending, out)
    ensures f.emptyPending == f.emptyOut == f.generic == {} <==> OwnReasons(pending, out)
  {
    NoneBlank(pending, f.emptyPending);
    NoneBlank(out, f.emptyOut);
    if OwnReasons(pending, out) {
      assert f.generic == {};
    }
    if f.emptyPending == f.emptyOut == f.generic == {} {
      forall r | !Blank(r) ensures !Shared(r, pending, out) {
        assert r !in f.generic;
      }
      NothingShared(pending, out);
    }
  }

  lemma {:induction false} NothingShared(pending: Table, out: Table)
    requires (forall p :: p in pending ==> !Blank(pending[p])) && (forall p :: p in out ==> !Blank(out[p]))
    requires forall r :: !Blank(r) ==> !Shared(r, pending, out)
    ensures OwnReasons(pending, out)
  {
    forall p, q | p in pending && q in pending && pending[p] == pending[q] ensures p == q {
      var r := pending[p];
      assert !Shared(r, pending, out) && Wears((Pending, p), r, pending, out) && Wears((Pending, q), r, pending, out);
    }
    forall p, q | p in out && q in out && out[p] == out[q] ensures p == q {
      var r := out[p];
      assert !Shared(r, pending, out);
      assert Wears((OutOfScope, p), r, pending, out) && Wears((OutOfScope, q), r, pending, out);
    }
    forall p, q | p in pending && q in out ensures pending[p] != out[q] {
      var r, s := pending[p], out[q];
      assert !Shared(r, pending, out);
      assert Wears((Pending, p), r, pending, out) && Wears((OutOfScope, q), s, pending, out);
    }
  }

  lemma {:induction false} NoneBlank(declared: Table, empty: set<string>)
    requires empty == set p | p in declared && Blank(declared[p])
    ensures empty == {} <==> forall p :: p in declared ==> !Blank(declared[p])
  {
    if empty == {} {
      forall p | p in declared ensures !Blank(declared[p]) {
        assert p !in empty;
      }
    }
  }

  lemma {:induction false} DisjointUnionCounts(tracked: set<string>, modules: Table, pending: Table, out: Table)
    requires IsPartition(tracked, modules, pending, out)
    ensures |tracked| == |modules.Values| + |pending| + |out|
    ensures tracked - modules.Values - pending.Keys - out.Keys == {}
  {
    assert |modules.Values + pending.Keys| == |modules.Values| + |pending.Keys|;
    assert |tracked| == |modules.Values + pending.Keys| + |out.Keys|;
  }
}
