/**
 launchers/f78_census_writer_driver.py: the definitions lifted from a probe are the least closed
 set around the entry, whatever order the work list is emptied in, and are emitted in the order
 the probe defines them; the walk over symbol tables misses no name while identities are distinct.
 */
module Closure {
  datatype Option<T> = None | Some(value: T)

  /** A top-level statement. `loads` are the names its subtree loads; `id` tells two definitions apart. */
  datatype Top = Future | Definition(name: string, loads: set<string>, id: nat) | Constant(name: string) | Ignored

  datatype Module = Module(futures: nat, consts: seq<string>, body: seq<Top>)

  // ----- what the probe defines -----

  /** The last definition of a name is the one that counts. */
  function Defs(tops: seq<Top>): map<string, Top>
  {
    if tops == [] then map[]
    else
      var last := tops[|tops| - 1];
      var before := Defs(tops[..|tops| - 1]);
      if last.Definition? then before[last.name := last] else before
  }

  /** Where a name is first defined. */
  function FirstIndex(tops: seq<Top>, name: string): (k: nat)
    requires name in Defs(tops)
    ensures k < |tops| && tops[k].Definition? && tops[k].name == name
    ensures forall j :: 0 <= j < k && tops[j].Definition? ==> tops[j].name != name
  {
    var before := tops[..|tops| - 1];
    if name in Defs(before) then FirstIndex(before, name)
    else
      Undefined(before, name);
      |tops| - 1
  }

  lemma {:induction false} Undefined(tops: seq<Top>, name: string)
    requires name !in Defs(tops)
    ensures forall j :: 0 <= j < |tops| && tops[j].Definition? ==> tops[j].name != name
    decreases |tops|
  {
    if tops != [] { Undefined(tops[..|tops| - 1], name); }
  }

  /** Defined names, ordered by where they are first defined. */
  predicate InTopLevelOrder(order: seq<string>, tops: seq<Top>)
  {
    && (forall n :: n in order ==> n in Defs(tops))
    && forall i, j :: 0 <= i < j < |order| ==> FirstIndex(tops, order[i]) < FirstIndex(tops, order[j])
  }

  /** Where a name is last defined. */
  function LastIndex(tops: seq<Top>, name: string): (k: nat)
    requires name in Defs(tops)
    ensures k < |tops| && tops[k].Definition? && tops[k].name == name && Defs(tops)[name] == tops[k]
    ensures forall j :: k < j < |tops| && tops[j].Definition? ==> tops[j].name != name
  {
    var last := |tops| - 1;
    if tops[last].Definition? && tops[last].name == name then last else LastIndex(tops[..last], name)
  }

  // ----- what the loop over the top level gathers -----

  function Futures(tops: seq<Top>): nat
  {
    if tops == [] then 0 else Futures(tops[..|tops| - 1]) + if tops[|tops| - 1].Future? then 1 else 0
  }

  function Consts(tops: seq<Top>): seq<string>
  {
    if tops == [] then []
    else
      var before, last := Consts(tops[..|tops| - 1]), tops[|tops| - 1];
      if last.Constant? && last.name !in before then before + [last.name] else before
  }

  function Order(tops: seq<Top>): seq<string>
  {
    if tops == [] then []
    else
      var front, last := tops[..|tops| - 1], tops[|tops| - 1];
      if last.Definition? && last.name !in Defs(front) then Order(front) + [last.name] else Order(front)
  }

  lemma {:induction false} FuturesCount(tops: seq<Top>)
    ensures Futures(tops) == |set k | 0 <= k < |tops| && tops[k] == Future|
    decreases |tops|
  {
    if tops != [] {
      var n := |tops| - 1;
      FuturesCount(tops[..n]);
      var before, after := set k | 0 <= k < n && tops[..n][k] == Future, set k | 0 <= k < |tops| && tops[k] == Future;
      assert after == if tops[n] == Future then before + {n} else before;
      assert n !in before;
    }
  }

  lemma {:induction false} ConstsOnce(tops: seq<Top>)
    ensures forall i, j :: 0 <= i < j < |Consts(tops)| ==> Consts(tops)[i] != Consts(tops)[j]
    ensures forall c :: c in Consts(tops) <==> Constant(c) in tops
    decreases |tops|
  {
    if tops != [] {
      var front, last := tops[..|tops| - 1], tops[|tops| - 1];
      ConstsOnce(front);
      assert tops == front + [last];
    }
  }

  lemma {:induction false} OrderHolds(tops: seq<Top>)
    ensures InTopLevelOrder(Order(tops), tops) && forall n :: n in Order(tops) <==> n in Defs(tops)
    decreases |tops|
  {
    if tops != [] {
      var n := |tops| - 1;
      OrderHolds(tops[..n]);
      OrderGrows(Order(tops[..n]), tops);
    }
  }

  lemma {:induction false} OrderGrows(order: seq<string>, tops: seq<Top>)
    requires tops != [] && InTopLevelOrder(order, tops[..|tops| - 1])
    ensures InTopLevelOrder(order, tops)
    ensures tops[|tops| - 1].Definition? && tops[|tops| - 1].name !in Defs(tops[..|tops| - 1]) ==>
              InTopLevelOrder(order + [tops[|tops| - 1].name], tops)
  {
    var i, front := |tops| - 1, tops[..|tops| - 1];
    forall n | n in order ensures n in Defs(tops) && FirstIndex(tops, n) == FirstIndex(front, n) < i {
    }
    if tops[i].Definition? && tops[i].name !in Defs(front) {
      assert FirstIndex(tops, tops[i].name) == i;
    }
  }

  method Collect(tops: seq<Top>) returns (futures: nat, consts: seq<string>, defs: map<string, Top>, order: seq<string>)
    ensures defs == Defs(tops)
    ensures (forall n :: n in defs ==> n in order) && InTopLevelOrder(order, tops)
    ensures futures == |set k | 0 <= k < |tops| && tops[k] == Future|
    ensures forall i, j :: 0 <= i < j < |consts| ==> consts[i] != consts[j]
    ensures forall c :: c in consts <==> Constant(c) in tops
  {
    futures, consts, defs, order := 0, [], map[], [];
    for i := 0 to |tops|
      invariant defs == Defs(tops[..i]) && order == Order(tops[..i])
      invariant futures == Futures(tops[..i]) && consts == Consts(tops[..i])
    {
      var node := tops[i];
      assert tops[..i + 1][..i] == tops[..i];
      match node
      case Future => futures := futures + 1;
      case Definition(name, _, _) =>
        if name !in defs { order := order + [name]; }
        defs := defs[name := node];
      case Constant(name) => if name !in consts { consts := consts + [name]; }
      case Ignored =>
    }
    assert tops[..|tops|] == tops;
    FuturesCount(tops);
    ConstsOnce(tops);
    OrderHolds(tops);
  }

  // ----- the closure -----

  /** With a definition, a closed set holds every definition it loads. */
  predicate Closed(s: set<string>, defs: map<string, Top>)
    requires forall n :: n in defs ==> defs[n].Definition?
  {
    forall n, m :: n in s && n in defs && m in defs[n].loads && m in defs ==> m in s
  }

  ghost predicate LeastClosed(s: set<string>, entry: string, defs: map<string, Top>)
    requires forall n :: n in defs ==> defs[n].Definition?
  {
    && entry in s && s <= defs.Keys && Closed(s, defs)
    && forall t: set<string> :: entry in t && Closed(t, defs) ==> s <= t
  }

  /** The work list may be emptied in any order. */
  method Keep(entry: string, defs: map<string, Top>) returns (keep: set<string>)
    requires forall n :: n in defs ==> defs[n].Definition?
    requires entry in defs
    ensures LeastClosed(keep, entry, defs)
  {
    keep := {};
    var pending := {entry};
    while pending != {}
      invariant keep <= defs.Keys && entry in keep + pending
      invariant forall n, m :: n in keep && m in defs[n].loads && m in defs ==> m in keep + pending
      invariant forall t: set<string> :: entry in t && Closed(t, defs) ==> keep <= t
      invariant forall t: set<string>, m :: entry in t && Closed(t, defs) && m in pending && m in defs ==> m in t
      decreases defs.Keys - keep, pending
    {
      var name :| name in pending;
      pending := pending - {name};
      if name in keep || name !in defs { continue; }
      keep := keep + {name};
      pending := pending + defs[name].loads;
    }
  }

  /** There is only one such set, so the order of the work list cannot show. */
  lemma {:induction false} OneClosure(a: set<string>, b: set<string>, entry: string, defs: map<string, Top>)
    requires forall n :: n in defs ==> defs[n].Definition?
    requires LeastClosed(a, entry, defs) && LeastClosed(b, entry, defs)
    ensures a == b
  {
    assert entry in a && entry in b;
  }

  /** The meaning of the closure: a name is kept exactly when a chain of loads leads to it. */
  ghost predicate Chain(path: seq<string>, entry: string, defs: map<string, Top>)
    requires forall n :: n in defs ==> defs[n].Definition?
  {
    && path != [] && path[0] == entry && (forall k :: 0 <= k < |path| ==> path[k] in defs)
    && forall k :: 0 <= k < |path| - 1 ==> path[k + 1] in defs[path[k]].loads
  }

  ghost predicate Reached(n: string, entry: string, defs: map<string, Top>)
    requires forall n :: n in defs ==> defs[n].Definition?
  {
    exists path :: Chain(path, entry, defs) && path[|path| - 1] == n
  }

  lemma {:induction false} ChainInClosed(path: seq<string>, entry: string, defs: map<string, Top>, s: set<string>)
    requires forall n :: n in defs ==> defs[n].Definition?
    requires Chain(path, entry, defs) && entry in s && Closed(s, defs)
    ensures path[|path| - 1] in s
    decreases |path|
  {
    if |path| > 1 {
      var front := path[..|path| - 1];
      ChainInClosed(front, entry, defs, s);
      assert path[|front|] in defs[front[|front| - 1]].loads;
    }
  }

  lemma {:induction false} KeptIsReached(keep: set<string>, entry: string, defs: map<string, Top>, name: string)
    requires forall n :: n in defs ==> defs[n].Definition?
    requires entry in defs && LeastClosed(keep, entry, defs)
    ensures name in keep <==> Reached(name, entry, defs)
  {
    var all := set n | n in defs && Reached(n, entry, defs);
    assert entry in all by { assert Chain([entry], entry, defs); }
    forall n, m | n in all && m in defs[n].loads && m in defs ensures m in all {
      var path :| Chain(path, entry, defs) && path[|path| - 1] == n;
      var longer := path + [m];
      assert Chain(longer, entry, defs) && longer[|longer| - 1] == m;
    }
    assert keep <= all;
    if Reached(name, entry, defs) {
      var path :| Chain(path, entry, defs) && path[|path| - 1] == name;
      ChainInClosed(path, entry, defs, keep);
    }
  }

  // ----- the emitted module -----

  function Kept(order: seq<string>, keep: set<string>): seq<string>
  {
    if order == [] then []
    else Kept(order[..|order| - 1], keep) + (if order[|order| - 1] in keep then [order[|order| - 1]] else [])
  }

  lemma {:induction false} OrderSnoc(order: seq<string>, n: string, tops: seq<Top>)
    requires InTopLevelOrder(order, tops) && n in Defs(tops)
    requires forall m :: m in order ==> FirstIndex(tops, m) < FirstIndex(tops, n)
    ensures InTopLevelOrder(order + [n], tops)
  {
    var r := order + [n];
    forall i, j | 0 <= i < j < |r| ensures FirstIndex(tops, r[i]) < FirstIndex(tops, r[j]) { assert r[i] in order; }
  }

  lemma {:induction false} KeptOrder(order: seq<string>, keep: set<string>, tops: seq<Top>)
    requires InTopLevelOrder(order, tops)
    ensures InTopLevelOrder(Kept(order, keep), tops)
    ensures forall n :: n in Kept(order, keep) <==> n in order && n in keep
    decreases |order|
  {
    if order != [] {
      var front, n := order[..|order| - 1], order[|order| - 1];
      KeptOrder(front, keep, tops);
      assert forall m :: m in order <==> m in front || m == n;
      forall m | m in front ensures FirstIndex(tops, m) < FirstIndex(tops, n) {
        var k :| 0 <= k < |front| && front[k] == m;
        assert order[k] == m;
      }
      OrderSnoc(Kept(front, keep), n, tops);
    }
  }

  lemma {:induction false} DefsAreDefinitions(tops: seq<Top>)
    ensures forall n :: n in Defs(tops) ==> Defs(tops)[n].Definition? && Defs(tops)[n].name == n
    decreases |tops|
  {
    if tops != [] { DefsAreDefinitions(tops[..|tops| - 1]); }
  }

  /**
   The body is the last definition of each kept name, and of no other; `names` are those names
   in the order in which the probe first defines them.
   */
  ghost predicate Lists(names: seq<string>, body: seq<Top>, keep: set<string>, tops: seq<Top>)
  {
    && InTopLevelOrder(names, tops) && |body| == |names|
    && (forall n :: n in names <==> n in keep)
    && forall k :: 0 <= k < |names| ==> body[k] == tops[LastIndex(tops, names[k])]
  }

  /** None when the probe does not define the entry. */
  method LoadWriter(tops: seq<Top>, entry: string)
    returns (r: Option<Module>, ghost keep: set<string>, ghost names: seq<string>)
    ensures r.None? <==> entry !in Defs(tops)
    ensures r.Some? ==>
              && (forall n :: n in Defs(tops) ==> Defs(tops)[n].Definition?)
              && LeastClosed(keep, entry, Defs(tops)) && Lists(names, r.value.body, keep, tops)
  {
    keep, names := {}, [];
    var futures, consts, defs, order := Collect(tops);
    DefsAreDefinitions(tops);
    if entry !in defs { return None, keep, names; }
    var kept := Keep(entry, defs);
    keep := kept;
    KeptOrder(order, kept, tops);
    var emitted := Kept(order, kept);
    names := emitted;
    var body := seq(|emitted|, k requires 0 <= k < |emitted| => defs[emitted[k]]);
    return Some(Module(futures, consts, body)), keep, names;
  }

  // ----- the order of the emitted definitions -----

  /** Each emitted definition stands behind the one before it in the probe. */
  ghost predicate Ascends(names: seq<string>, tops: seq<Top>)
    requires forall n :: n in names ==> n in Defs(tops)
  {
    forall i, j :: 0 <= i < j < |names| ==> LastIndex(tops, names[i]) < LastIndex(tops, names[j])
  }

  /** The first and the last definitions of the kept names stand in one order. */
  ghost predicate OrderedAlike(keep: set<string>, tops: seq<Top>)
    requires forall n :: n in keep ==> n in Defs(tops)
  {
    forall n, m :: n in keep && m in keep && FirstIndex(tops, n) < FirstIndex(tops, m) ==>
      LastIndex(tops, n) < LastIndex(tops, m)
  }

  lemma {:induction false} OrderOf(names: seq<string>, tops: seq<Top>, i: nat, j: nat)
    requires InTopLevelOrder(names, tops) && i < |names| && j < |names|
    requires FirstIndex(tops, names[i]) < FirstIndex(tops, names[j])
    ensures i < j
  {
  }

  /**
   The emitted definitions keep the order in which the probe holds them exactly when the first
   and the last definitions of the kept names are ordered alike.
   */
  lemma {:induction false} AscendsIff(names: seq<string>, body: seq<Top>, keep: set<string>, tops: seq<Top>)
    requires Lists(names, body, keep, tops)
    ensures Ascends(names, tops) <==> OrderedAlike(keep, tops)
  {
    if Ascends(names, tops) {
      forall n, m | n in keep && m in keep && FirstIndex(tops, n) < FirstIndex(tops, m)
        ensures LastIndex(tops, n) < LastIndex(tops, m)
      {
        var i :| 0 <= i < |names| && names[i] == n;
        var j :| 0 <= j < |names| && names[j] == m;
        OrderOf(names, tops, i, j);
      }
    }
    if OrderedAlike(keep, tops) {
      forall i, j | 0 <= i < j < |names| ensures LastIndex(tops, names[i]) < LastIndex(tops, names[j]) {
        assert names[i] in keep && names[j] in keep;
      }
    }
  }

  /** With names defined once, the order is always kept. */
  lemma {:induction false} UniqueNamesAscend(names: seq<string>, body: seq<Top>, keep: set<string>, tops: seq<Top>)
    requires Lists(names, body, keep, tops)
    requires forall i, j :: 0 <= i < j < |tops| && tops[i].Definition? && tops[j].Definition? ==>
      tops[i].name != tops[j].name
    ensures Ascends(names, tops)
  {
    forall n | n in keep ensures n in Defs(tops) && FirstIndex(tops, n) == LastIndex(tops, n) { assert n in names; }
    AscendsIff(names, body, keep, tops);
  }

  /** f, g, and f again: the last f is emitted before g, which stands before it in the probe. */
  lemma {:induction false} RedefinitionMoves(names: seq<string>, body: seq<Top>)
    requires var tops := [Definition("f", {"g"}, 0), Definition("g", {}, 1), Definition("f", {"g"}, 2)];
      Lists(names, body, {"f", "g"}, tops)
    ensures names == ["f", "g"] && body == [Definition("f", {"g"}, 2), Definition("g", {}, 1)]
  {
    var tops := [Definition("f", {"g"}, 0), Definition("g", {}, 1), Definition("f", {"g"}, 2)];
    assert FirstIndex(tops, "f") == 0 && FirstIndex(tops, "g") == 1;
    assert LastIndex(tops, "f") == 2 && LastIndex(tops, "g") == 1;
    assert "f" in names && "g" in names;
    var i :| 0 <= i < |names| && names[i] == "f";
    var j :| 0 <= j < |names| && names[j] == "g";
    OrderOf(names, tops, i, j);
    OneOfTwo(names, tops, i, j, 0);
    OneOfTwo(names, tops, i, j, 1);
    OneOfTwo(names, tops, i, j, |names| - 1);
  }

  lemma {:induction false} OneOfTwo(names: seq<string>, tops: seq<Top>, i: nat, j: nat, k: nat)
    requires InTopLevelOrder(names, tops) && i < |names| && j < |names| && k < |names|
    requires forall n :: n in names <==> n == names[i] || n == names[j]
    ensures k == i || k == j
  {
    assert names[k] in names;
  }

  // ----- the walk over symbol tables -----

  /** A scope: `id` is the identity the walk remembers, `globals` the module-level names it uses. */
  datatype Table = Table(id: nat, globals: set<string>, children: seq<Table>)

  function NeededBy(ts: seq<Table>): set<string>
  {
    if ts == [] then {}
    else
      var last := ts[|ts| - 1];
      NeededBy(ts[..|ts| - 1]) + last.globals + NeededBy(last.children)
  }

  /** How many of the scopes have the identity i. */
  function Count(ts: seq<Table>, i: nat): nat
  {
    if ts == [] then 0
    else
      var last := ts[|ts| - 1];
      Count(ts[..|ts| - 1], i) + (if last.id == i then 1 else 0) + Count(last.children, i)
  }

  function SizeOf(ts: seq<Table>): nat
  {
    if ts == [] then 0
    else
      var last := ts[|ts| - 1];
      SizeOf(ts[..|ts| - 1]) + 1 + SizeOf(last.children)
  }

  lemma {:induction false} NamesAppended(a: seq<Table>, b: seq<Table>)
    ensures NeededBy(a + b) == NeededBy(a) + NeededBy(b)
    decreases |b|
  {
    if b == [] {
      assert a + b == a;
    } else {
      NamesAppended(a, b[..|b| - 1]);
      assert (a + b)[..|a + b| - 1] == a + b[..|b| - 1];
    }
  }

  lemma {:induction false} CountAppended(a: seq<Table>, b: seq<Table>, i: nat)
    ensures Count(a + b, i) == Count(a, i) + Count(b, i)
    decreases |b|
  {
    if b == [] {
      assert a + b == a;
    } else {
      CountAppended(a, b[..|b| - 1], i);
      assert (a + b)[..|a + b| - 1] == a + b[..|b| - 1];
    }
  }

  lemma {:induction false} SizeAppended(a: seq<Table>, b: seq<Table>)
    ensures SizeOf(a + b) == SizeOf(a) + SizeOf(b)
    decreases |b|
  {
    if b == [] {
      assert a + b == a;
    } else {
      SizeAppended(a, b[..|b| - 1]);
      assert (a + b)[..|a + b| - 1] == a + b[..|b| - 1];
    }
  }

  lemma {:induction false} Appended(a: seq<Table>, b: seq<Table>)
    ensures NeededBy(a + b) == NeededBy(a) + NeededBy(b) && SizeOf(a + b) == SizeOf(a) + SizeOf(b)
    ensures forall i :: Count(a + b, i) == Count(a, i) + Count(b, i)
  {
    NamesAppended(a, b);
    SizeAppended(a, b);
    forall i ensures Count(a + b, i) == Count(a, i) + Count(b, i) { CountAppended(a, b, i); }
  }

  lemma {:induction false} LastOf(init: seq<Table>, t: Table)
    ensures NeededBy(init + [t]) == NeededBy(init) + t.globals + NeededBy(t.children)
  {
    assert (init + [t])[..|init|] == init;
  }

  /** What the stack walk collects from here on. */
  function Walk(stack: seq<Table>, seen: set<nat>): set<string>
    decreases SizeOf(stack)
  {
    if stack == [] then {}
    else
      var cur, rest := stack[|stack| - 1], stack[..|stack| - 1];
      Appended(rest, cur.children);
      if cur.id in seen then Walk(rest, seen)
      else cur.globals + Walk(rest + cur.children, seen + {cur.id})
  }

  method GlobalsNeeded(tbl: Table) returns (needed: set<string>)
    ensures needed == Walk([tbl], {})
  {
    var stack, seen: set<nat> := [tbl], {};
    needed := {};
    while stack != []
      invariant needed + Walk(stack, seen) == Walk([tbl], {})
      decreases SizeOf(stack)
    {
      var cur := stack[|stack| - 1];
      var rest := stack[..|stack| - 1];
      Appended(rest, cur.children);
      stack := rest;
      if cur.id in seen { continue; }
      seen := seen + {cur.id};
      needed := needed + cur.globals;
      stack := stack + cur.children;
    }
  }

  /** No identity occurs twice among the scopes still to come, or once there and in `seen`. */
  ghost predicate Unrepeated(stack: seq<Table>, seen: set<nat>)
  {
    forall i :: Count(stack, i) <= if i in seen then 0 else 1
  }

  lemma {:induction false} WalkCollects(stack: seq<Table>, seen: set<nat>)
    ensures Walk(stack, seen) <= NeededBy(stack)
    ensures Unrepeated(stack, seen) ==> Walk(stack, seen) == NeededBy(stack)
    decreases SizeOf(stack)
  {
    if stack != [] {
      var cur, rest := stack[|stack| - 1], stack[..|stack| - 1];
      Appended(rest, cur.children);
      if cur.id in seen {
        WalkCollects(rest, seen);
        assert Count(stack, cur.id) > 0;
      } else {
        WalkCollects(rest + cur.children, seen + {cur.id});
        if Unrepeated(stack, seen) { Popped(stack, cur, rest, seen); }
      }
    }
  }

  lemma {:induction false} Popped(stack: seq<Table>, cur: Table, rest: seq<Table>, seen: set<nat>)
    requires stack != [] && cur == stack[|stack| - 1] && rest == stack[..|stack| - 1]
    requires Unrepeated(stack, seen)
    ensures Unrepeated(rest + cur.children, seen + {cur.id})
  {
    forall i ensures Count(rest + cur.children, i) <= if i in seen + {cur.id} then 0 else 1 {
      CountAppended(rest, cur.children, i);
      assert Count(stack, i) <= if i in seen then 0 else 1;
    }
  }

  /** Never collects too much; misses nothing while every scope has its own identity. */
  lemma {:induction false} GlobalsComplete(tbl: Table)
    ensures Walk([tbl], {}) <= NeededBy([tbl])
    ensures AllDistinct(tbl) ==> Walk([tbl], {}) == NeededBy([tbl])
  {
    WalkCollects([tbl], {});
  }

  // ----- identities -----

  ghost predicate AllDistinct(tbl: Table) { forall i :: Count([tbl], i) <= 1 }

  /** The same scopes with the same identities; the names they use may be others. */
  predicate SameScopes(a: seq<Table>, b: seq<Table>)
  {
    if a == [] || b == [] then a == b
    else
      var x, y := a[|a| - 1], b[|b| - 1];
      SameScopes(a[..|a| - 1], b[..|b| - 1]) && x.id == y.id && SameScopes(x.children, y.children)
  }

  lemma {:induction false} SameScopesSameIds(a: seq<Table>, b: seq<Table>, i: nat)
    requires SameScopes(a, b)
    ensures Count(a, i) == Count(b, i) && SizeOf(a) == SizeOf(b)
  {
    if a != [] {
      SameScopesSameIds(a[..|a| - 1], b[..|b| - 1], i);
      SameScopesSameIds(a[|a| - 1].children, b[|b| - 1].children, i);
    }
  }

  function Titles(n: nat, m: nat, title: nat -> string): set<string>
    decreases m
  {
    if m <= n then {} else Titles(n, m - 1, title) + {title(m - 1)}
  }

  lemma {:induction false} TitlesJoin(n: nat, m: nat, k: nat, title: nat -> string)
    requires n <= m < k
    ensures Titles(n, k, title) == Titles(n, m, title) + {title(m)} + Titles(m + 1, k, title)
    decreases k
  {
    if m + 1 < k { TitlesJoin(n, m, k - 1, title); }
  }

  lemma {:induction false} TitlesCount(n: nat, m: nat, title: nat -> string)
    requires n <= m && forall k :: |title(k)| == k
    ensures |Titles(n, m, title)| == m - n && forall x :: x in Titles(n, m, title) ==> |x| < m
    decreases m
  {
    if n < m { TitlesCount(n, m - 1, title); }
  }

  /** Scopes that use one name of their own each, numbered from `n`. */
  ghost predicate Titled(ts: seq<Table>, out: seq<Table>, n: nat, title: nat -> string)
  {
    SameScopes(ts, out) && OneNameEach(out) && NeededBy(out) == Titles(n, n + SizeOf(ts), title)
  }

  lemma {:induction false} TitleAll(ts: seq<Table>, n: nat, title: nat -> string) returns (out: seq<Table>)
    ensures Titled(ts, out, n, title)
    decreases SizeOf(ts)
  {
    if ts == [] {
      out := [];
    } else {
      var init, last := ts[..|ts| - 1], ts[|ts| - 1];
      var m := n + SizeOf(init);
      var a := TitleAll(init, n, title);
      var b := TitleAll(last.children, m + 1, title);
      out := a + [Table(last.id, {title(m)}, b)];
      TitleLast(ts, init, last, a, b, n, m, title);
    }
  }

  lemma {:induction false} TitleLast(ts: seq<Table>, init: seq<Table>, last: Table, a: seq<Table>, b: seq<Table>,
                                     n: nat, m: nat, title: nat -> string)
    requires ts != [] && init == ts[..|ts| - 1] && last == ts[|ts| - 1] && m == n + SizeOf(init)
    requires Titled(init, a, n, title) && Titled(last.children, b, m + 1, title)
    ensures Titled(ts, a + [Table(last.id, {title(m)}, b)], n, title)
  {
    var t := Table(last.id, {title(m)}, b);
    TitleShape(ts, init, last, a, t);
    TitleNames(a, t, n, m, m + 1 + SizeOf(last.children), title);
  }

  lemma {:induction false} TitleNames(a: seq<Table>, t: Table, n: nat, m: nat, k: nat, title: nat -> string)
    requires n <= m < k && t.globals == {title(m)}
    requires NeededBy(a) == Titles(n, m, title) && NeededBy(t.children) == Titles(m + 1, k, title)
    ensures NeededBy(a + [t]) == Titles(n, k, title)
  {
    LastOf(a, t);
    TitlesJoin(n, m, k, title);
  }

  lemma {:induction false} TitleShape(ts: seq<Table>, init: seq<Table>, last: Table, a: seq<Table>, t: Table)
    requires ts != [] && init == ts[..|ts| - 1] && last == ts[|ts| - 1] && |t.globals| == 1 && t.id == last.id
    requires SameScopes(init, a) && OneNameEach(a) && SameScopes(last.children, t.children) && OneNameEach(t.children)
    ensures SameScopes(ts, a + [t]) && OneNameEach(a + [t]) && SizeOf(ts) == SizeOf(init) + 1 + SizeOf(last.children)
  {
    assert (a + [t])[..|a|] == a;
  }

  predicate OneNameEach(ts: seq<Table>)
  {
    if ts == [] then true
    else
      var last := ts[|ts| - 1];
      OneNameEach(ts[..|ts| - 1]) && |last.globals| == 1 && OneNameEach(last.children)
  }

  lemma {:induction false} OneNameAppended(a: seq<Table>, b: seq<Table>)
    requires OneNameEach(a) && OneNameEach(b)
    ensures OneNameEach(a + b)
    decreases |b|
  {
    if b == [] {
      assert a + b == a;
    } else {
      OneNameAppended(a, b[..|b| - 1]);
      assert (a + b)[..|a + b| - 1] == a + b[..|b| - 1];
    }
  }

  function IdSet(ts: seq<Table>): set<nat>
  {
    if ts == [] then {}
    else
      var last := ts[|ts| - 1];
      IdSet(ts[..|ts| - 1]) + {last.id} + IdSet(last.children)
  }

  lemma {:induction false} IdSetAppended(a: seq<Table>, b: seq<Table>)
    ensures IdSet(a + b) == IdSet(a) + IdSet(b)
    decreases |b|
  {
    if b == [] {
      assert a + b == a;
    } else {
      IdSetAppended(a, b[..|b| - 1]);
      assert (a + b)[..|a + b| - 1] == a + b[..|b| - 1];
    }
  }

  lemma {:induction false} IdSetCounts(ts: seq<Table>, i: nat)
    ensures i in IdSet(ts) <==> Count(ts, i) > 0
  {
    if ts != [] {
      IdSetCounts(ts[..|ts| - 1], i);
      IdSetCounts(ts[|ts| - 1].children, i);
    }
  }

  /** With one name a scope, the walk collects no more names than there are identities it has not seen. */
  lemma {:induction false} WalkAtMost(stack: seq<Table>, seen: set<nat>)
    requires OneNameEach(stack)
    ensures |Walk(stack, seen)| <= |IdSet(stack) - seen|
    decreases SizeOf(stack)
  {
    if stack != [] {
      var cur, rest := stack[|stack| - 1], stack[..|stack| - 1];
      Appended(rest, cur.children);
      if cur.id in seen {
        WalkAtMost(rest, seen);
        Smaller(IdSet(rest) - seen, IdSet(stack) - seen);
      } else {
        OneNameAppended(rest, cur.children);
        WalkAtMost(rest + cur.children, seen + {cur.id});
        OneLess(stack, cur, rest, seen);
        AtMostTogether(cur.globals, Walk(rest + cur.children, seen + {cur.id}));
      }
    }
  }

  lemma {:induction false} OneLess(stack: seq<Table>, cur: Table, rest: seq<Table>, seen: set<nat>)
    requires stack != [] && cur == stack[|stack| - 1] && rest == stack[..|stack| - 1] && cur.id !in seen
    ensures |IdSet(rest + cur.children) - (seen + {cur.id})| + 1 <= |IdSet(stack) - seen|
  {
    IdSetParts(stack, cur, rest);
    OneFewer(IdSet(rest) + IdSet(cur.children), cur.id, seen);
  }

  lemma {:induction false} IdSetParts(stack: seq<Table>, cur: Table, rest: seq<Table>)
    requires stack != [] && cur == stack[|stack| - 1] && rest == stack[..|stack| - 1]
    ensures IdSet(stack) == (IdSet(rest) + IdSet(cur.children)) + {cur.id}
    ensures IdSet(rest + cur.children) == IdSet(rest) + IdSet(cur.children)
  {
    IdSetAppended(rest, cur.children);
  }

  lemma {:induction false} OneFewer(ids: set<nat>, id: nat, seen: set<nat>)
    requires id !in seen
    ensures |ids - (seen + {id})| + 1 == |(ids + {id}) - seen|
  {
    assert (ids + {id}) - seen == (ids - (seen + {id})) + {id};
  }

  lemma {:induction false} AtMostTogether<T>(a: set<T>, b: set<T>)
    ensures |a + b| <= |a| + |b|
  {
    assert a + b == a + (b - a);
    Smaller(b - a, b);
  }

  lemma {:induction false} Smaller<T>(a: set<T>, b: set<T>)
    requires a <= b
    ensures |a| <= |b|
  {
    assert b == a + (b - a);
  }

  /** There are no more identities than scopes, and fewer when one repeats. */
  lemma {:induction false} RepeatsAreFewer(ts: seq<Table>, i: nat)
    ensures |IdSet(ts)| <= SizeOf(ts) && (Count(ts, i) > 1 ==> |IdSet(ts)| < SizeOf(ts))
  {
    if ts != [] {
      var init, last := ts[..|ts| - 1], ts[|ts| - 1];
      RepeatsAreFewer(init, i);
      RepeatsAreFewer(last.children, i);
      IdSetCounts(init, i);
      IdSetCounts(last.children, i);
      ThreeSets(IdSet(init), last.id, IdSet(last.children), i);
    }
  }

  lemma {:induction false} ThreeSets(a: set<nat>, x: nat, b: set<nat>, i: nat)
    ensures |a + {x} + b| <= |a| + 1 + |b|
    ensures (i in a && i == x) || (i in b && i == x) || (i in a && i in b) ==> |a + {x} + b| < |a| + 1 + |b|
  {
    assert a + {x} + b == a + ({x} - a) + (b - (a + {x}));
    Smaller({x} - a, {x});
    if i in b && i in a + {x} {
      Smaller(b - (a + {x}), b - {i});
    } else {
      Smaller(b - (a + {x}), b);
    }
    if i in a && i == x { assert {x} - a == {}; }
  }

  /**
   The walk loses no name, whichever names the scopes use, exactly when no two scopes have one
   identity.
   */
  lemma {:induction false} CompleteIff(tbl: Table)
    ensures AllDistinct(tbl) <==>
      forall other :: SameScopes([tbl], [other]) ==> Walk([other], {}) == NeededBy([other])
  {
    if AllDistinct(tbl) {
      forall other | SameScopes([tbl], [other]) ensures Walk([other], {}) == NeededBy([other]) {
        forall i ensures Count([other], i) <= 1 { SameScopesSameIds([tbl], [other], i); }
        GlobalsComplete(other);
      }
    } else {
      var i: nat :| Count([tbl], i) > 1;
      var other := RepeatLoses(tbl, i);
    }
  }

  /** With a repeated identity: one name a scope is one name too many for the walk. */
  lemma {:induction false} RepeatLoses(tbl: Table, i: nat) returns (other: Table)
    requires Count([tbl], i) > 1
    ensures SameScopes([tbl], [other]) && Walk([other], {}) != NeededBy([other])
  {
    var one := [tbl];
    var title := (n: nat) => seq(n, i => '1');
    var ts := TitleAll(one, 0, title);
    OneToOne(one, ts);
    other := ts[0];
    TooMany(one, ts, i, title);
  }

  lemma {:induction false} TooMany(one: seq<Table>, ts: seq<Table>, i: nat, title: nat -> string)
    requires Titled(one, ts, 0, title) && Count(one, i) > 1 && forall k :: |title(k)| == k
    ensures Walk(ts, {}) != NeededBy(ts)
  {
    TitlesCount(0, SizeOf(one), title);
    WalkAtMost(ts, {});
    SameScopesSameIds(one, ts, i);
    RepeatsAreFewer(ts, i);
    assert IdSet(ts) - {} == IdSet(ts);
  }

  lemma {:induction false} OneToOne(a: seq<Table>, b: seq<Table>)
    requires SameScopes(a, b) && |a| == 1
    ensures |b| == 1 && b == [b[0]]
  {
    assert a[..0] == [] && b[..|b| - 1] == [];
  }

  // ----- identities that can repeat -----

  predicate Apart(ids: set<nat>, ts: seq<Table>)
  {
    && (forall t :: t in ts ==> t.id !in ids)
    && (forall i, j :: 0 <= i < j < |ts| ==> ts[i].id != ts[j].id)
  }

  /**
   Identities that objects can have: when children are made, the root, their parent and what is
   on the stack exist and keep theirs; what was popped before is gone, and its identity is free.
   */
  predicate Possible(root: nat, stack: seq<Table>, seen: set<nat>)
    decreases SizeOf(stack)
  {
    stack == [] ||
    var cur, rest := stack[|stack| - 1], stack[..|stack| - 1];
    Appended(rest, cur.children);
    if cur.id in seen then Possible(root, rest, seen)
    else
      && Apart({root, cur.id} + (set t | t in rest :: t.id), cur.children)
      && Possible(root, rest + cur.children, seen + {cur.id})
  }

  /** Root, child, grandchild, and a great-grandchild that is given the identity the child had. */
  function Reused(name: string): Table
  {
    Table(0, {}, [Table(1, {}, [Table(2, {}, [Table(1, {name}, [])])])])
  }

  lemma {:induction false} OneBelow(id: nat, names: set<string>, child: Table, root: nat, seen: set<nat>)
    requires id !in seen
    ensures Walk([Table(id, names, [child])], seen) == names + Walk([child], seen + {id})
    ensures NeededBy([Table(id, names, [child])]) == names + NeededBy([child])
    ensures Possible(root, [Table(id, names, [child])], seen) <==>
      child.id != root && child.id != id && Possible(root, [child], seen + {id})
  {
    var t := Table(id, names, [child]);
    var rest: seq<Table> := [];
    assert [t][..0] == rest && rest + [child] == [child];
    Appended(rest, [child]);
    var held := {root, id} + (set x | x in rest :: x.id);
    assert held == {root, id} && [child][0] == child;
    assert Apart(held, [child]) <==> child.id != root && child.id != id;
  }

  /** Objects can have such identities, and the walk then misses a name. */
  lemma {:induction false} SharedIdentity(name: string)
    ensures Possible(0, [Reused(name)], {}) && !AllDistinct(Reused(name))
    ensures name in NeededBy([Reused(name)]) && name !in Walk([Reused(name)], {})
  {
    var d := Table(1, {name}, []);
    var c := Table(2, {}, [d]);
    var b := Table(1, {}, [c]);
    OneBelow(0, {}, b, 0, {});
    OneBelow(1, {}, c, 0, {} + {0});
    OneBelow(2, {}, d, 0, {} + {0} + {1});
    Repeated(d, name, {} + {0} + {1} + {2});
    GlobalsComplete(Reused(name));
  }

  lemma {:induction false} Repeated(d: Table, name: string, seen: set<nat>)
    requires d == Table(1, {name}, []) && 1 in seen
    ensures Walk([d], seen) == {} && NeededBy([d]) == {name} && Possible(0, [d], seen)
  {
    assert [d][..0] == [];
    assert NeededBy([d]) == {} + {name} + {};
  }
}
