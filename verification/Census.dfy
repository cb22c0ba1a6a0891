/**
 `_persist_adapter_census` of launchers/lora_target_census.py: the census is a function of the
 set of matched names and the parents' dimensions, carries dimensions for all or for none, and
 is always one the loader of src/foundationscale/gates/adjudication.py accepts.
 */
module Census {
  datatype Option<T> = None | Some(value: T)

  const STRIP_SEGMENT: string := "module."

  // ----- one parent -----

  /** What reading an attribute gives: a genuine integer, or something else (absent, a boolean, ...). */
  datatype Attribute = Int(value: int) | NotAnInt

  /** The two attributes of a module; None when reading them raises. */
  type Module = Option<(Attribute, Attribute)>

  function ParentDims(m: Module): Option<(int, int)>
  {
    if m.Some? && m.value.0.Int? && m.value.1.Int? && m.value.0.value > 0 && m.value.1.value > 0
    then Some((m.value.0.value, m.value.1.value))
    else None
  }

  function ArtifactStem(fqn: string): Option<string>
  {
    if STRIP_SEGMENT <= fqn && fqn[|STRIP_SEGMENT|..] != "" then Some(fqn[|STRIP_SEGMENT|..]) else None
  }

  /** The pair is the two attributes in their order, both positive integers. */
  lemma {:induction false} DimsIff(a: Attribute, b: Attribute, dims: (int, int))
    ensures ParentDims(Some((a, b))) == Some(dims) <==>
      a == Int(dims.0) && b == Int(dims.1) && dims.0 > 0 && dims.1 > 0
  {
  }

  /** The stem is what follows the segment, and is not empty. */
  lemma {:induction false} StemIff(fqn: string, stem: string)
    ensures ArtifactStem(fqn) == Some(stem) <==> stem != "" && fqn == "module." + stem
  {
    if fqn == "module." + stem { assert fqn[7..] == stem && STRIP_SEGMENT <= fqn; }
    if ArtifactStem(fqn) == Some(stem) { assert fqn == fqn[..7] + fqn[7..]; }
  }

  /** One segment is stripped from every name, so no two names get one stem. */
  lemma {:induction false} StemInjective(a: string, b: string)
    requires ArtifactStem(a).Some? && ArtifactStem(a) == ArtifactStem(b)
    ensures a == b
  {
    assert a == STRIP_SEGMENT + a[|STRIP_SEGMENT|..];
    assert b == STRIP_SEGMENT + b[|STRIP_SEGMENT|..];
  }

  // ----- Python's order on strings -----

  predicate Before(a: string, b: string)
  {
    if b == "" then false
    else if a == "" then true
    else a[0] < b[0] || (a[0] == b[0] && Before(a[1..], b[1..]))
  }

  lemma {:induction false} BeforeTotal(a: string, b: string)
    ensures Before(a, b) || a == b || Before(b, a)
    ensures !(Before(a, b) && Before(b, a)) && !Before(a, a)
    decreases |a|
  {
    if a != "" { BeforeTotal(a[1..], a[1..]); }
    if a != "" && b != "" {
      BeforeTotal(a[1..], b[1..]);
      assert a == [a[0]] + a[1..] && b == [b[0]] + b[1..];
    }
  }

  lemma {:induction false} BeforeTransitive(a: string, b: string, c: string)
    requires Before(a, b) && Before(b, c)
    ensures Before(a, c)
    decreases |a|
  {
    if a != "" && a[0] == b[0] == c[0] { BeforeTransitive(a[1..], b[1..], c[1..]); }
  }

  predicate Ascending(s: seq<string>)
  {
    forall i, j :: 0 <= i < j < |s| ==> Before(s[i], s[j])
  }

  ghost predicate Lists(s: seq<string>, names: set<string>)
  {
    forall x :: x in s <==> x in names
  }

  /** A set has one ascending listing. */
  lemma {:induction false} OneListing(a: seq<string>, b: seq<string>, names: set<string>)
    requires Ascending(a) && Ascending(b) && Lists(a, names) && Lists(b, names)
    ensures a == b
    decreases |a|
  {
    EmptyListing(a, names);
    EmptyListing(b, names);
    if names != {} {
      var x, y := a[|a| - 1], b[|b| - 1];
      assert x in b && y in a by { assert x in a && y in b; }
      BeforeTotal(x, y);
      assert x == y;
      LastIsGreatest(a);
      LastIsGreatest(b);
      OneListing(a[..|a| - 1], b[..|b| - 1], names - {x});
      assert a == a[..|a| - 1] + [x] && b == b[..|b| - 1] + [x];
    }
  }

  lemma {:induction false} EmptyListing(s: seq<string>, names: set<string>)
    requires Lists(s, names)
    ensures s == [] <==> names == {}
  {
    if s != [] { assert s[0] in s; }
  }

  lemma {:induction false} LastIsGreatest(a: seq<string>)
    requires Ascending(a) && a != []
    ensures forall z :: z in a[..|a| - 1] <==> z in a && z != a[|a| - 1]
  {
    BeforeTotal(a[|a| - 1], a[|a| - 1]);
    assert forall z :: z in a <==> z in a[..|a| - 1] || z == a[|a| - 1];
  }

  method Sorted(names: set<string>) returns (s: seq<string>)
    ensures Ascending(s) && Lists(s, names)
  {
    s := [];
    var left := names;
    while left != {}
      invariant left <= names && Ascending(s) && Lists(s, names - left)
      decreases left
    {
      var x :| x in left;
      left := left - {x};
      s := Insert(s, x);
    }
  }

  method Insert(s: seq<string>, x: string) returns (r: seq<string>)
    requires Ascending(s) && x !in s
    ensures Ascending(r) && forall y :: y in r <==> y in s || y == x
  {
    var k := |s|;
    while k > 0 && Before(x, s[k - 1])
      invariant 0 <= k <= |s|
      invariant forall j :: k <= j < |s| ==> Before(x, s[j])
    {
      k := k - 1;
    }
    forall j | 0 <= j < k ensures Before(s[j], x) {
      BeforeTotal(x, s[k - 1]);
      assert s[k - 1] in s;
      if j < k - 1 { BeforeTransitive(s[j], s[k - 1], x); }
    }
    r := s[..k] + [x] + s[k..];
    assert s == s[..k] + s[k..];
  }

  // ----- dimension tables, of the producer and of the consumer -----

  type Entry = (string, Option<(int, int)>)

  /** The table a loop over the entries fills. */
  function Table(entries: seq<Entry>): map<string, (int, int)>
  {
    if entries == [] then map[]
    else
      var last := entries[|entries| - 1];
      var before := Table(entries[..|entries| - 1]);
      if last.1.Some? then before[last.0 := last.1.value] else before
  }

  predicate DistinctKeys(entries: seq<Entry>)
  {
    forall i, j :: 0 <= i < j < |entries| ==> entries[i].0 != entries[j].0
  }

  predicate Full(entries: seq<Entry>)
  {
    forall k :: 0 <= k < |entries| ==> entries[k].1.Some?
  }

  predicate Void(entries: seq<Entry>)
  {
    forall k :: 0 <= k < |entries| ==> entries[k].1.None?
  }

  lemma {:induction false} TableKeys(entries: seq<Entry>, key: string)
    requires key in Table(entries)
    ensures exists k :: 0 <= k < |entries| && entries[k].0 == key
    decreases |entries|
  {
    var n := |entries| - 1;
    if key in Table(entries[..n]) {
      TableKeys(entries[..n], key);
    } else {
      assert entries[n].0 == key;
    }
  }

  lemma {:induction false} TableHas(entries: seq<Entry>, k: nat)
    requires DistinctKeys(entries) && k < |entries| && entries[k].1.Some?
    ensures entries[k].0 in Table(entries) && Table(entries)[entries[k].0] == entries[k].1.value
    decreases |entries|
  {
    if k < |entries| - 1 { TableHas(entries[..|entries| - 1], k); }
  }

  /** As keys differ, the table is as long as the list exactly when no entry lacks its value. */
  lemma {:induction false} TableSize(entries: seq<Entry>)
    requires DistinctKeys(entries)
    ensures |Table(entries)| <= |entries|
    ensures |Table(entries)| == |entries| <==> Full(entries)
    ensures Table(entries) == map[] <==> Void(entries)
    decreases |entries|
  {
    if entries != [] {
      var n := |entries| - 1;
      var front := entries[..n];
      TableSize(front);
      if entries[n].0 in Table(front) {
        TableKeys(front, entries[n].0);
      }
    }
  }

  // ----- the census -----

  datatype Item = Bare(stem: string) | Dimmed(stem: string, outFeatures: int, inFeatures: int) | Malformed

  /** A KeyError is not converted: a match outside the population ends in a traceback. */
  datatype Outcome = Refused(why: Why) | KeyError | Census(entries: seq<Item>)

  datatype Why = StripFailure | EmptySet

  function Dims(mods: map<string, Module>, fqn: string): Option<(int, int)>
    requires fqn in mods
  {
    ParentDims(mods[fqn])
  }

  predicate AllDimmed(mods: map<string, Module>, names: set<string>)
    requires names <= mods.Keys
  {
    forall n :: n in names ==> Dims(mods, n).Some?
  }

  predicate AllStems(names: set<string>)
  {
    forall n :: n in names ==> ArtifactStem(n).Some?
  }

  /** The entry of one name, dimmed or bare. */
  function ItemOf(mods: map<string, Module>, fqn: string, dimmed: bool): Item
    requires ArtifactStem(fqn).Some? && fqn in mods && (dimmed ==> Dims(mods, fqn).Some?)
  {
    var stem := ArtifactStem(fqn).value;
    if dimmed then Dimmed(stem, Dims(mods, fqn).value.0, Dims(mods, fqn).value.1) else Bare(stem)
  }

  function Items(mods: map<string, Module>, fqns: seq<string>, dimmed: bool): seq<Item>
    requires forall f :: f in fqns ==> ArtifactStem(f).Some? && f in mods && (dimmed ==> Dims(mods, f).Some?)
  {
    seq(|fqns|, k requires 0 <= k < |fqns| => ItemOf(mods, fqns[k], dimmed))
  }

  /** The outcome in terms of the set of matched names alone. */
  ghost predicate IsCensus(r: Outcome, names: set<string>, mods: map<string, Module>)
  {
    if !AllStems(names) then r == Refused(StripFailure)
    else if names == {} then r == Refused(EmptySet)
    else if !(names <= mods.Keys) then r == KeyError
    else
      r.Census? && exists fqns: seq<string> ::
        && Ascending(fqns) && Lists(fqns, names)
        && r.entries == Items(mods, fqns, AllDimmed(mods, names))
  }

  function Matched(rows: seq<seq<string>>): set<string>
  {
    set k, j | 0 <= k < |rows| && 0 <= j < |rows[k]| :: rows[k][j]
  }

  method PersistAdapterCensus(rows: seq<seq<string>>, population: seq<(Module, string)>)
    returns (r: Outcome, rawMatches: nat)
    ensures IsCensus(r, Matched(rows), ModByFqn(population))
  {
    var mods: map<string, Module> := map[];
    for i := 0 to |population|
      invariant mods == ModByFqn(population[..i])
    {
      assert population[..i + 1][..i] == population[..i];
      mods := mods[population[i].1 := population[i].0];
    }
    assert population[..|population|] == population;
    var attachment: set<string> := {};
    rawMatches := 0;
    for i := 0 to |rows|
      invariant attachment == set k, j | 0 <= k < i && 0 <= j < |rows[k]| :: rows[k][j]
    {
      for j := 0 to |rows[i]|
        invariant attachment == (set k, l | 0 <= k < i && 0 <= l < |rows[k]| :: rows[k][l])
                              + (set l | 0 <= l < j :: rows[i][l])
      {
        rawMatches := rawMatches + 1;
        attachment := attachment + {rows[i][j]};
      }
    }
    var fqns := Sorted(attachment);
    EmptyListing(fqns, attachment);
    r := Assemble(fqns, attachment, mods);
  }

  /** A later module of the same name replaces an earlier one. */
  function ModByFqn(population: seq<(Module, string)>): map<string, Module>
  {
    if population == [] then map[]
    else
      var last := population[|population| - 1];
      ModByFqn(population[..|population| - 1])[last.1 := last.0]
  }

  /** The module of a name is the last one listed under it. */
  lemma {:induction false} ModIs(population: seq<(Module, string)>, name: string, m: Module)
    ensures name in ModByFqn(population) && ModByFqn(population)[name] == m <==> LastNamed(population, name, m)
    decreases |population|
  {
    if population != [] {
      var init, last := population[..|population| - 1], population[|population| - 1];
      ModIs(init, name, m);
      LastNamedNext(init, last, name, m);
      assert population == init + [last];
    }
  }

  ghost predicate NamedAt(population: seq<(Module, string)>, i: nat, name: string, m: Module)
    requires i < |population|
  {
    population[i] == (m, name) && forall j :: i < j < |population| ==> population[j].1 != name
  }

  ghost predicate LastNamed(population: seq<(Module, string)>, name: string, m: Module)
  {
    exists i: nat {:trigger NamedAt(population, i, name, m)} :: i < |population| && NamedAt(population, i, name, m)
  }

  lemma {:induction false} LastNamedNext(init: seq<(Module, string)>, last: (Module, string), name: string, m: Module)
    ensures LastNamed(init + [last], name, m) <==> if last.1 == name then last.0 == m else LastNamed(init, name, m)
  {
    var all := init + [last];
    assert all[|init|] == last && forall i :: 0 <= i < |init| ==> all[i] == init[i];
    if LastNamed(all, name, m) {
      var i: nat :| i < |all| && NamedAt(all, i, name, m);
      if i < |init| { assert NamedAt(init, i, name, m); }
    }
    if last == (m, name) { assert NamedAt(all, |init|, name, m); }
    if last.1 != name && LastNamed(init, name, m) {
      var i: nat :| i < |init| && NamedAt(init, i, name, m);
      assert NamedAt(all, i, name, m);
    }
  }

  /** Names with their stems. */
  predicate ArePairs(pairs: seq<(string, string)>, fqns: seq<string>)
  {
    && |pairs| == |fqns|
    && forall k :: 0 <= k < |fqns| ==> pairs[k].0 == fqns[k] && ArtifactStem(fqns[k]) == Some(pairs[k].1)
  }

  lemma {:induction false} StemsDiffer(pairs: seq<(string, string)>, fqns: seq<string>)
    requires ArePairs(pairs, fqns) && Ascending(fqns)
    ensures forall i, j :: 0 <= i < j < |pairs| ==> pairs[i].1 != pairs[j].1
  {
    forall i, j | 0 <= i < j < |pairs| ensures pairs[i].1 != pairs[j].1 {
      BeforeTotal(fqns[i], fqns[j]);
      if pairs[i].1 == pairs[j].1 { StemInjective(fqns[i], fqns[j]); }
    }
  }

  function DimEntries(pairs: seq<(string, string)>, mods: map<string, Module>): seq<Entry>
    requires forall k :: 0 <= k < |pairs| ==> pairs[k].0 in mods
  {
    seq(|pairs|, k requires 0 <= k < |pairs| => (pairs[k].1, Dims(mods, pairs[k].0)))
  }

  /** None for a KeyError. */
  method CollectDims(pairs: seq<(string, string)>, mods: map<string, Module>)
    returns (dims: Option<map<string, (nat, nat)>>)
    ensures dims.Some? <==> forall k :: 0 <= k < |pairs| ==> pairs[k].0 in mods
    ensures dims.Some? ==> dims.value == Table(DimEntries(pairs, mods))
  {
    var table: map<string, (nat, nat)> := map[];
    for i := 0 to |pairs|
      invariant forall k :: 0 <= k < i ==> pairs[k].0 in mods
      invariant table == Table(DimEntries(pairs[..i], mods))
    {
      if pairs[i].0 !in mods { return None; }
      assert DimEntries(pairs[..i + 1], mods)[..i] == DimEntries(pairs[..i], mods);
      var d := Dims(mods, pairs[i].0);
      if d.Some? { table := table[pairs[i].1 := d.value]; }
    }
    assert pairs[..|pairs|] == pairs;
    return Some(table);
  }

  /** The strip loop: None when some name lacks the segment or is nothing but it. */
  method StripAll(fqns: seq<string>) returns (pairs: Option<seq<(string, string)>>)
    ensures pairs.Some? <==> forall k :: 0 <= k < |fqns| ==> ArtifactStem(fqns[k]).Some?
    ensures pairs.Some? ==> ArePairs(pairs.value, fqns)
  {
    var stripped: seq<(string, string)> := [];
    var failures: seq<string> := [];
    for i := 0 to |fqns|
      invariant failures == [] <==> forall k :: 0 <= k < i ==> ArtifactStem(fqns[k]).Some?
      invariant failures == [] ==> |stripped| == i
      invariant failures == [] ==>
                  forall k :: 0 <= k < i ==> stripped[k].0 == fqns[k] && ArtifactStem(fqns[k]) == Some(stripped[k].1)
    {
      var stem := ArtifactStem(fqns[i]);
      if stem.None? { failures := failures + [fqns[i]]; }
      else { stripped := stripped + [(fqns[i], stem.value)]; }
    }
    return if failures != [] then None else Some(stripped);
  }

  /** Dimensions for all parents, or for none. */
  method MakeEntries(pairs: seq<(string, string)>, fqns: seq<string>, mods: map<string, Module>, dims: map<string,
                     (int, int)>)
    returns (entries: seq<Item>)
    requires ArePairs(pairs, fqns) && Ascending(fqns) && forall k :: 0 <= k < |fqns| ==> fqns[k] in mods
    requires dims == Table(DimEntries(pairs, mods))
    ensures |entries| == |fqns|
    ensures (forall k :: 0 <= k < |fqns| ==> Dims(mods, fqns[k]).Some?) ==>
              forall k :: 0 <= k < |fqns| ==> entries[k] == ItemOf(mods, fqns[k], true)
    ensures !(forall k :: 0 <= k < |fqns| ==> Dims(mods, fqns[k]).Some?) ==>
              forall k :: 0 <= k < |fqns| ==> entries[k] == ItemOf(mods, fqns[k], false)
  {
    ghost var table := DimEntries(pairs, mods);
    StemsDiffer(pairs, fqns);
    TableSize(table);
    assert forall k :: 0 <= k < |fqns| ==> table[k].1 == Dims(mods, fqns[k]);
    if |dims| == |pairs| {
      forall k | 0 <= k < |pairs|
        ensures pairs[k].1 in dims && Dims(mods, fqns[k]) == Some(dims[pairs[k].1])
      {
        assert table[k].1.Some?;
        TableHas(table, k);
      }
      return seq(|pairs|, k requires 0 <= k < |pairs| => Dimmed(pairs[k].1, dims[pairs[k].1].0, dims[pairs[k].1].1));
    }
    return seq(|pairs|, k requires 0 <= k < |pairs| => Bare(pairs[k].1));
  }

  method Assemble(fqns: seq<string>, ghost names: set<string>, mods: map<string, Module>) returns (r: Outcome)
    requires Ascending(fqns) && Lists(fqns, names)
    ensures IsCensus(r, names, mods)
  {
    EmptyListing(fqns, names);
    assert forall k :: 0 <= k < |fqns| ==> fqns[k] in fqns;
    var pairs := StripAll(fqns);
    if pairs.None? { return Refused(StripFailure); }
    if pairs.value == [] { return Refused(EmptySet); }
    var dims := CollectDims(pairs.value, mods);
    if dims.None? { return KeyError; }
    var entries := MakeEntries(pairs.value, fqns, mods, dims.value);
    assert entries == Items(mods, fqns, AllDimmed(mods, names));
    return Census(entries);
  }

  // ----- what the census promises -----

  /** Two launches with the same matched names, and the same dimensions behind them, emit the
      same entries: order and repetition of rows and matches are invisible. */
  lemma {:induction false} SetAlone(a: Outcome, b: Outcome, names: set<string>, modsA: map<string, Module>,
                                    modsB: map<string, Module>)
    requires IsCensus(a, names, modsA) && IsCensus(b, names, modsB)
    requires names <= modsA.Keys && names <= modsB.Keys && forall n :: n in names ==> Dims(modsA, n) == Dims(modsB, n)
    ensures a == b
  {
    if a.Census? {
      var x: seq<string> :| Ascending(x) && Lists(x, names) && a.entries == Items(modsA, x, AllDimmed(modsA, names));
      var y: seq<string> :| Ascending(y) && Lists(y, names) && b.entries == Items(modsB, y, AllDimmed(modsB, names));
      OneListing(x, y, names);
      assert forall k :: 0 <= k < |x| ==> x[k] in x;
      assert a.entries == b.entries;
    }
  }

  predicate GoodItem(e: Item)
  {
    match e
    case Bare(stem) => stem != ""
    case Dimmed(stem, o, i) => stem != "" && o > 0 && i > 0
    case Malformed => false
  }

  /** What the loader takes: some entries, all well formed, no stem twice, dimensions for all or none. */
  predicate Acceptable(entries: seq<Item>)
  {
    && entries != [] && (forall k :: 0 <= k < |entries| ==> GoodItem(entries[k]))
    && (forall i, j :: 0 <= i < j < |entries| ==> entries[i].stem != entries[j].stem)
    && ((forall k :: 0 <= k < |entries| ==> entries[k].Dimmed?) || forall k :: 0 <= k < |entries| ==> entries[k].Bare?)
  }

  function LoadEntries(entries: seq<Item>): seq<Entry>
    requires forall k :: 0 <= k < |entries| ==> GoodItem(entries[k])
  {
    seq(|entries|, k requires 0 <= k < |entries| && GoodItem(entries[k]) => LoadEntry(entries[k]))
  }

  function LoadEntry(e: Item): Entry
    requires GoodItem(e)
  {
    (e.stem, if e.Dimmed? then Some((e.outFeatures, e.inFeatures)) else None)
  }

  function LoadedDims(entries: seq<Item>): map<string, (int, int)>
    requires forall k :: 0 <= k < |entries| ==> GoodItem(entries[k])
  {
    Table(LoadEntries(entries))
  }

  /** The consumer: what it takes, and what it then knows. */
  method LoadAdapterModules(entries: seq<Item>) returns (stems: Option<seq<string>>, dims: map<string, (int, int)>)
    ensures stems.Some? <==> Acceptable(entries)
    ensures stems.Some? ==> |stems.value| == |entries|
    ensures stems.Some? ==> forall k :: 0 <= k < |entries| ==> stems.value[k] == entries[k].stem
    ensures stems.Some? ==> dims == LoadedDims(entries)
  {
    var names: seq<string> := [];
    var bad := 0;
    dims := map[];
    for i := 0 to |entries|
      invariant bad >= 0 && (bad == 0 <==> forall k :: 0 <= k < i ==> GoodItem(entries[k]))
      invariant bad == 0 ==> |names| == i && forall k :: 0 <= k < i ==> names[k] == entries[k].stem
      invariant bad == 0 ==> dims == LoadedDims(entries[..i])
    {
      var e := entries[i];
      if GoodItem(e) {
        if bad == 0 { assert LoadEntries(entries[..i + 1])[..i] == LoadEntries(entries[..i]); }
        names := names + [e.stem];
        if e.Dimmed? { dims := dims[e.stem := (e.outFeatures, e.inFeatures)]; }
      } else {
        bad := bad + 1;
      }
    }
    assert entries[..|entries|] == entries;
    if bad > 0 || names == [] { return None, dims; }
    if exists i, j :: 0 <= i < j < |names| && names[i] == names[j] { return None, dims; }
    TableSize(LoadEntries(entries));
    assert forall k :: 0 <= k < |entries| ==> (LoadEntries(entries)[k].1.Some? <==> entries[k].Dimmed?);
    if dims != map[] && |dims| != |names| { return None, dims; }
    return Some(names), dims;
  }

  /** Whatever the producer writes the consumer takes. */
  lemma {:induction false} CensusIsAccepted(r: Outcome, names: set<string>, mods: map<string, Module>)
    requires IsCensus(r, names, mods) && r.Census?
    ensures Acceptable(r.entries)
    ensures (forall e :: e in r.entries ==> e.Dimmed?) <==> AllDimmed(mods, names)
  {
    var dimmed := AllDimmed(mods, names);
    var fqns: seq<string> :| Ascending(fqns) && Lists(fqns, names) && r.entries == Items(mods, fqns, dimmed);
    EmptyListing(fqns, names);
    assert forall k :: 0 <= k < |fqns| ==> fqns[k] in fqns;
    forall i, j | 0 <= i < j < |fqns| ensures r.entries[i].stem != r.entries[j].stem {
      BeforeTotal(fqns[i], fqns[j]);
      if r.entries[i].stem == r.entries[j].stem { StemInjective(fqns[i], fqns[j]); }
    }
    assert r.entries[0] in r.entries;
  }

  /** The consumer reads back exactly the matched names, */
  lemma {:induction false} NamesReadBack(r: Outcome, names: set<string>, mods: map<string, Module>, n: string)
    requires IsCensus(r, names, mods) && r.Census? && Acceptable(r.entries)
    ensures n in names <==> exists k :: 0 <= k < |r.entries| && n == STRIP_SEGMENT + r.entries[k].stem
  {
    var dimmed := AllDimmed(mods, names);
    var fqns: seq<string> :| Ascending(fqns) && Lists(fqns, names) && r.entries == Items(mods, fqns, dimmed);
    forall k | 0 <= k < |fqns| ensures fqns[k] in names && fqns[k] == STRIP_SEGMENT + r.entries[k].stem {
      assert fqns[k] in fqns;
    }
    if n in names {
      var k :| 0 <= k < |fqns| && fqns[k] == n;
    }
  }

  /** and, when there are dimensions, exactly those of the parents. */
  lemma {:induction false} DimsReadBack(r: Outcome, names: set<string>, mods: map<string, Module>, n: string)
    requires IsCensus(r, names, mods) && r.Census? && Acceptable(r.entries)
    requires n in names && AllDimmed(mods, names)
    ensures var stem := n[|STRIP_SEGMENT|..];
            stem in LoadedDims(r.entries) && Some(LoadedDims(r.entries)[stem]) == Dims(mods, n)
  {
    var fqns: seq<string> :| Ascending(fqns) && Lists(fqns, names) && r.entries == Items(mods, fqns, true);
    var k :| 0 <= k < |fqns| && fqns[k] == n;
    assert LoadEntries(r.entries)[k] == (n[|STRIP_SEGMENT|..], Dims(mods, n));
    TableHas(LoadEntries(r.entries), k);
  }
}
