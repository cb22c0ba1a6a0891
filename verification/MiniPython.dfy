/**
 The fragment of Python that checks/exit_contract_scope.py distinguishes: every shape that
 the analyser tells apart has its own constructor, and everything else is `Opaque`.

 A parsed file is a list of top-level statements.  `Load` builds from it the three tables
 the resolver reads; `OwnBinding` says what a module-level name really denotes once the
 module has been executed.  The two agree when every name is bound once (`TablesAreSound`).
 */
module MiniPython {
  datatype Option<+T> = None | Some(value: T)

  type Name = string
  type Path = string
  type Key = (Path, Name)

  datatype Constant = NoneConst | BoolConst(b: bool) | TextConst

  /**
   `Call` is a call of a plain name; its last |keywords| arguments are passed by keyword.
   `Opaque` is any other expression, and `binds` are the names that `:=` may bind in it.
   */
  datatype Expr =
    | IntLit(n: nat)
    | NegLit(n: nat)
    | Lit(c: Constant)
    | Cond(test: Expr, body: Expr, orelse: Expr)
    | Ref(id: Name)
    | Call(callee: Name, args: seq<Expr>, keywords: seq<Name>)
    | Opaque(binds: set<Name>)

  /** Every name under a target that is not a plain name (a tuple, an attribute, an index). */
  datatype Target = NameTarget(id: Name) | OtherTarget(names: set<Name>)

  datatype TypeExpr =
    | Plain(id: Name)
    | Dotted(base: TypeExpr, attr: Name)
    | TupleOf(elts: seq<TypeExpr>)
    | OtherType

  datatype Handler = Handler(caught: Option<TypeExpr>, bound: Option<Name>, body: seq<Stmt>)

  /** `Rebind` is an augmented assignment or an import inside a function; `Raise(None)` raises again. */
  datatype Stmt =
    | Assign(targets: seq<Target>, value: Expr)
    | AnnAssign(target: Target, init: Option<Expr>)
    | Rebind(names: set<Name>, value: Expr)
    | For(names: set<Name>, value: Expr, body: seq<Stmt>, orelse: seq<Stmt>)
    | While(value: Expr, body: seq<Stmt>, orelse: seq<Stmt>)
    | With(value: Expr, names: set<Name>, body: seq<Stmt>)
    | If(value: Expr, body: seq<Stmt>, orelse: seq<Stmt>)
    | Try(body: seq<Stmt>, handlers: seq<Handler>, orelse: seq<Stmt>, finalbody: seq<Stmt>)
    | Return(line: nat, result: Option<Expr>)
    | Raise(exception: Option<Expr>)
    | ExprStmt(value: Expr)
    | Pass
    | Break
    | Continue

  datatype Param = Param(name: Name, required: bool, keywordOnly: bool)

  /** `rest` and `kwrest` are the names of `*args` and `**kwargs`, if there are any. */
  datatype Signature = Signature(params: seq<Param>, rest: Option<Name>, kwrest: Option<Name>)

  const NO_PARAMS: Signature := Signature([], None, None)

  /**
   `hidden` are the names a function binds in a way the analyser does not look at: nested
   definitions, pattern captures, names a nested function declares nonlocal.  `direct` is false
   for coroutines, generators and decorated functions, where calling the name does not yield
   what the body returns.
   */
  datatype FuncDef = FuncDef(name: Name, sig: Signature, body: seq<Stmt>, hidden: set<Name>, direct: bool)

  function OptionSet(n: Option<Name>): set<Name> { if n.Some? then {n.value} else {} }

  /** The names that a call binds before the body runs. */
  function Params(f: FuncDef): set<Name>
  {
    (set i | 0 <= i < |f.sig.params| :: f.sig.params[i].name) + OptionSet(f.sig.rest) + OptionSet(f.sig.kwrest)
  }

  /** Does the signature take `args` positional arguments and these keywords? */
  predicate Accepts(sig: Signature, args: nat, keywords: seq<Name>)
  {
    && (args <= |set i | 0 <= i < |sig.params| && !sig.params[i].keywordOnly| || sig.rest.Some?)
    && (forall k :: k in keywords ==>
          || (exists i :: 0 <= i < |sig.params| && sig.params[i].name == k && (sig.params[i].keywordOnly || args <= i))
          || (sig.kwrest.Some? && forall i :: 0 <= i < |sig.params| ==> sig.params[i].name != k))
    && (forall i :: 0 <= i < |sig.params| && sig.params[i].required ==>
          (!sig.params[i].keywordOnly && i < args) || sig.params[i].name in keywords)
  }

  datatype Alias = Alias(name: Name, bound: Name)

  /** `TopModule` is `import dotted as bound`. */
  datatype TopStmt =
    | TopAssign(names: seq<Name>, value: Expr, others: seq<Name>)
    | TopDef(def: FuncDef)
    | TopImport(dotted: string, absolute: bool, aliases: seq<Alias>)
    | TopModule(dotted: string, bound: Name)
    | TopOther(binds: seq<Name>)

  datatype SiteKind = RaiseSystemExit | SysExit | OsExit

  datatype Keyword = Keyword(name: Name, value: Expr)

  /** A place that ends the interpreter; `locals` are the names local to where it stands. */
  datatype ExitSite =
    ExitSite(kind: SiteKind, args: seq<Expr>, keywords: seq<Keyword>, line: nat, locals: set<Name>)

  datatype Module = Module(body: seq<TopStmt>, sites: seq<ExitSite>)

  /**
   `located` is the file a dotted name is found in (root or root/src), `builtins` are the names
   the interpreter provides, and `errors` those of its exception classes below `Exception`.
   */
  datatype Program =
    Program(mods: map<Path, Module>, located: map<string, Path>, builtins: set<Name>, errors: set<Name>)

  // ----- literals -----

  /** What a literal test decides; None for any other expression. */
  function Truth(e: Expr): Option<bool>
  {
    match e
    case IntLit(n) => Some(n != 0)
    case NegLit(n) => Some(n != 0)
    case Lit(NoneConst) => Some(false)
    case Lit(BoolConst(b)) => Some(b)
    case _ => None
  }

  function ConstInt(e: Expr): (r: Option<int>)
  {
    match e
    case IntLit(n) => Some(n as int)
    case NegLit(n) => var v: int := n; Some(0 - v)
    case _ => None
  }

  // ----- the tables built by _load -----

  datatype Tables =
    Tables(consts: map<Name, int>, funcs: map<Name, FuncDef>, dupes: set<Name>, imports: map<Name, string>)

  function AddConsts(t: Tables, names: seq<Name>, v: int): (r: Tables)
    decreases |names|
    ensures r.funcs == t.funcs && r.imports == t.imports && r.dupes == t.dupes
    ensures forall n :: n in r.consts <==> n in t.consts || n in names
    ensures forall n :: n in r.consts ==> r.consts[n] == if n in names then v else t.consts[n]
  {
    if names == [] then t
    else AddConsts(t.(consts := t.consts[names[0] := v]), names[1..], v)
  }

  function AddImports(t: Tables, dotted: string, aliases: seq<Alias>): Tables
    decreases |aliases|
  {
    if aliases == [] then t
    else AddImports(t.(imports := t.imports[aliases[0].bound := dotted]), dotted, aliases[1..])
  }

  function AddDef(t: Tables, f: FuncDef): Tables
  {
    if f.name in t.funcs || f.name in t.dupes
    then t.(funcs := t.funcs - {f.name}, dupes := t.dupes + {f.name})
    else t.(funcs := t.funcs[f.name := f])
  }

  function LoadStmt(t: Tables, s: TopStmt): Tables
  {
    match s
    case TopAssign(names, value, _) =>
      (match ConstInt(value) case Some(v) => AddConsts(t, names, v) case None => t)
    case TopDef(f) => AddDef(t, f)
    case TopImport(dotted, absolute, aliases) =>
      if absolute && dotted != "__future__" then AddImports(t, dotted, aliases) else t
    case _ => t
  }

  function Load(body: seq<TopStmt>): Tables
  {
    if body == [] then Tables(map[], map[], {}, map[])
    else LoadStmt(Load(body[..|body| - 1]), body[|body| - 1])
  }

  function TablesOf(p: Program, path: Path): (t: Tables)
  {
    if path in p.mods then Load(p.mods[path].body) else Load([])
  }

  /** _load_dotted: the parsed module a dotted name leads to. */
  function Locate(p: Program, dotted: string): Option<Path>
  {
    if dotted in p.located && p.located[dotted] in p.mods then Some(p.located[dotted]) else None
  }

  /** The functions the analyser can follow. */
  ghost function Keys(p: Program): (keys: set<Key>)
    ensures forall q, n :: (q, n) in keys <==> n in TablesOf(p, q).funcs
  {
    set q, n | q in p.mods && n in Load(p.mods[q].body).funcs :: (q, n)
  }

  // ----- what a module-level name denotes -----

  datatype Binding =
    | IntBinding(n: int)
    | DefBinding(f: FuncDef)
    | ImportBinding(dotted: string, name: Name)
    | ModuleBinding(dotted: string)
    | ValueBinding
    | UnknownBinding

  function BoundNames(aliases: seq<Alias>): (r: seq<Name>)
    ensures |r| == |aliases| && forall i :: 0 <= i < |r| ==> r[i] == aliases[i].bound
  {
    if aliases == [] then [] else [aliases[0].bound] + BoundNames(aliases[1..])
  }

  function TopBinds(s: TopStmt): seq<Name>
  {
    match s
    case TopAssign(names, _, others) => names + others
    case TopDef(f) => [f.name]
    case TopImport(_, _, aliases) => BoundNames(aliases)
    case TopModule(_, bound) => [bound]
    case TopOther(binds) => binds
  }

  function AllBinds(body: seq<TopStmt>): seq<Name>
  {
    if body == [] then [] else AllBinds(body[..|body| - 1]) + TopBinds(body[|body| - 1])
  }

  function OriginalName(aliases: seq<Alias>, id: Name): (r: Name)
    requires id in BoundNames(aliases)
    ensures exists a :: a in aliases && a.bound == id && a.name == r
  {
    if aliases[0].bound == id then aliases[0].name else OriginalName(aliases[1..], id)
  }

  function BindingIn(s: TopStmt, id: Name): Binding
    requires id in TopBinds(s)
  {
    match s
    case TopAssign(names, value, _) =>
      if id in names && ConstInt(value).Some? then IntBinding(ConstInt(value).value) else ValueBinding
    case TopDef(f) => DefBinding(f)
    case TopImport(dotted, absolute, aliases) =>
      if absolute && dotted != "__future__" then ImportBinding(dotted, OriginalName(aliases, id)) else ValueBinding
    case TopModule(dotted, _) => ModuleBinding(dotted)
    case TopOther(_) => UnknownBinding
  }

  /** After a module has run, its last statement that binds a name decides what it denotes. */
  function OwnBinding(body: seq<TopStmt>, id: Name): Binding
  {
    if body == [] then UnknownBinding
    else if id in TopBinds(body[|body| - 1]) then BindingIn(body[|body| - 1], id)
    else OwnBinding(body[..|body| - 1], id)
  }

  // ----- well-formed modules -----

  function TableNames(t: Tables): set<Name>
  {
    t.consts.Keys + t.funcs.Keys + t.imports.Keys
  }

  ghost predicate BoundOnce(names: seq<Name>, n: Name)
  {
    forall i, j :: 0 <= i < j < |names| ==> !(names[i] == n && names[j] == n)
  }

  predicate Unaliased(s: TopStmt, n: Name)
  {
    s.TopImport? ==> forall a :: a in s.aliases && a.bound == n ==> a.name == n
  }

  /** `n` is bound by one statement of the module only, and not by a renaming import. */
  ghost predicate Settled(body: seq<TopStmt>, n: Name)
  {
    && BoundOnce(AllBinds(body), n)
    && forall s :: s in body ==> Unaliased(s, n)
  }

  /** The names the resolver can look up are settled; other names may be bound in any way. */
  ghost predicate ModuleOk(m: Module)
  {
    forall n :: n in TableNames(Load(m.body)) ==> Settled(m.body, n)
  }

  lemma {:induction false} AddImportsSpec(t: Tables, dotted: string, aliases: seq<Alias>)
    decreases |aliases|
    ensures var r := AddImports(t, dotted, aliases);
      && r.funcs == t.funcs && r.consts == t.consts && r.dupes == t.dupes
      && (forall n :: n in r.imports <==> n in t.imports || n in BoundNames(aliases))
      && (forall n :: n in r.imports ==> r.imports[n] == if n in BoundNames(aliases) then dotted else t.imports[n])
  {
    if aliases == [] {
    } else {
      AddImportsSpec(t.(imports := t.imports[aliases[0].bound := dotted]), dotted, aliases[1..]);
    }
  }

  /** What one statement does to the entries of one name. */
  lemma {:induction false} LoadStmtAt(t: Tables, s: TopStmt, n: Name)
    requires n !in TopBinds(s)
    ensures var r := LoadStmt(t, s);
      && (n in r.consts <==> n in t.consts) && (n in t.consts ==> r.consts[n] == t.consts[n])
      && (n in r.funcs <==> n in t.funcs) && (n in t.funcs ==> r.funcs[n] == t.funcs[n])
      && (n in r.imports <==> n in t.imports) && (n in t.imports ==> r.imports[n] == t.imports[n])
      && (n in r.dupes <==> n in t.dupes)
  {
    if s.TopImport? { AddImportsSpec(t, s.dotted, s.aliases); }
  }

  lemma {:induction false} TablesBind(body: seq<TopStmt>, n: Name)
    requires n !in AllBinds(body)
    ensures n !in TableNames(Load(body)) && n !in Load(body).dupes
  {
    if body != [] {
      TablesBind(body[..|body| - 1], n);
      LoadStmtAt(Load(body[..|body| - 1]), body[|body| - 1], n);
    }
  }

  // ----- what the tables hold -----

  /** The statement assigns the integer literal v to x. */
  predicate AssignsInt(s: TopStmt, x: Name, v: int)
  {
    && s.TopAssign? && x in s.names
    && match s.value case IntLit(n) => v == n case NegLit(n) => v == 0 - n as int case _ => false
  }

  /** An absolute import binds x, other than from `__future__`. */
  ghost predicate ImportsName(s: TopStmt, x: Name, dotted: string)
  {
    && s.TopImport? && s.absolute && s.dotted == dotted && dotted != "__future__"
    && exists a :: a in s.aliases && a.bound == x
  }

  /** The i-th statement assigns v, and no later one assigns an integer literal to x. */
  ghost predicate LastInt(body: seq<TopStmt>, i: nat, x: Name, v: int)
    requires i < |body|
  {
    AssignsInt(body[i], x, v) && forall j, u :: i < j < |body| ==> !AssignsInt(body[j], x, u)
  }

  ghost predicate LastImport(body: seq<TopStmt>, i: nat, x: Name, dotted: string)
    requires i < |body|
  {
    ImportsName(body[i], x, dotted) && forall j, d :: i < j < |body| ==> !ImportsName(body[j], x, d)
  }

  ghost predicate HoldsInt(body: seq<TopStmt>, x: Name, v: int)
  {
    exists i: nat {:trigger LastInt(body, i, x, v)} :: i < |body| && LastInt(body, i, x, v)
  }

  ghost predicate HoldsImport(body: seq<TopStmt>, x: Name, dotted: string)
  {
    exists i: nat {:trigger LastImport(body, i, x, dotted)} :: i < |body| && LastImport(body, i, x, dotted)
  }

  /** How many definitions of the name there are. */
  function DefCount(body: seq<TopStmt>, name: Name): nat
  {
    if body == [] then 0
    else
      var last := body[|body| - 1];
      DefCount(body[..|body| - 1], name) + if last.TopDef? && last.def.name == name then 1 else 0
  }

  lemma {:induction false} HoldsIntNext(init: seq<TopStmt>, last: TopStmt, x: Name, v: int)
    ensures HoldsInt(init + [last], x, v) <==>
      AssignsInt(last, x, v) || (HoldsInt(init, x, v) && forall u :: !AssignsInt(last, x, u))
  {
    var body := init + [last];
    assert body[|init|] == last && forall i :: 0 <= i < |init| ==> body[i] == init[i];
    if HoldsInt(body, x, v) {
      var i: nat :| i < |body| && LastInt(body, i, x, v);
      if i < |init| { assert LastInt(init, i, x, v); }
    }
    if AssignsInt(last, x, v) { assert LastInt(body, |init|, x, v); }
    if HoldsInt(init, x, v) && forall u :: !AssignsInt(last, x, u) {
      var i: nat :| i < |init| && LastInt(init, i, x, v);
      assert LastInt(body, i, x, v);
    }
  }

  lemma {:induction false} HoldsImportNext(init: seq<TopStmt>, last: TopStmt, x: Name, dotted: string)
    ensures HoldsImport(init + [last], x, dotted) <==>
      ImportsName(last, x, dotted) || (HoldsImport(init, x, dotted) && forall d :: !ImportsName(last, x, d))
  {
    var body := init + [last];
    assert body[|init|] == last && forall i :: 0 <= i < |init| ==> body[i] == init[i];
    if HoldsImport(body, x, dotted) {
      var i: nat :| i < |body| && LastImport(body, i, x, dotted);
      if i < |init| { assert LastImport(init, i, x, dotted); }
    }
    if ImportsName(last, x, dotted) { assert LastImport(body, |init|, x, dotted); }
    if HoldsImport(init, x, dotted) && forall d :: !ImportsName(last, x, d) {
      var i: nat :| i < |init| && LastImport(init, i, x, dotted);
      assert LastImport(body, i, x, dotted);
    }
  }

  /** A constant is the last integer literal assigned to the name, whatever else binds it. */
  lemma {:induction false} ConstsAre(body: seq<TopStmt>, x: Name, v: int)
    ensures x in Load(body).consts && Load(body).consts[x] == v <==> HoldsInt(body, x, v)
    decreases |body|
  {
    if body != [] {
      var init, last := body[..|body| - 1], body[|body| - 1];
      assert body == init + [last];
      ConstsAre(init, x, v);
      HoldsIntNext(init, last, x, v);
      ConstStep(Load(init), last, x, v);
    }
  }

  lemma {:induction false} ConstStep(t: Tables, s: TopStmt, x: Name, v: int)
    ensures var r := LoadStmt(t, s);
      x in r.consts && r.consts[x] == v <==>
        AssignsInt(s, x, v) || (x in t.consts && t.consts[x] == v && forall u :: !AssignsInt(s, x, u))
  {
    if s.TopImport? { AddImportsSpec(t, s.dotted, s.aliases); }
    if s.TopAssign? && x in s.names && ConstInt(s.value).Some? {
      assert AssignsInt(s, x, ConstInt(s.value).value);
    }
  }

  /** A name with one definition is a function, one with more is not. */
  lemma {:induction false} FuncsAre(body: seq<TopStmt>, x: Name)
    ensures x in Load(body).funcs <==> DefCount(body, x) == 1
    ensures x in Load(body).dupes <==> DefCount(body, x) > 1
    ensures x in Load(body).funcs ==> Load(body).funcs[x].name == x && TopDef(Load(body).funcs[x]) in body
    decreases |body|
  {
    if body != [] {
      var init, last := body[..|body| - 1], body[|body| - 1];
      FuncsAre(init, x);
      assert body == init + [last];
      if last.TopImport? { AddImportsSpec(Load(init), last.dotted, last.aliases); }
    }
  }

  /** An import is the last that binds the name. */
  lemma {:induction false} ImportsAre(body: seq<TopStmt>, x: Name, dotted: string)
    ensures x in Load(body).imports && Load(body).imports[x] == dotted <==> HoldsImport(body, x, dotted)
    decreases |body|
  {
    if body != [] {
      var init, last := body[..|body| - 1], body[|body| - 1];
      assert body == init + [last];
      ImportsAre(init, x, dotted);
      HoldsImportNext(init, last, x, dotted);
      ImportStep(Load(init), last, x, dotted);
    }
  }

  lemma {:induction false} BoundBy(aliases: seq<Alias>, x: Name)
    ensures x in BoundNames(aliases) <==> exists a :: a in aliases && a.bound == x
  {
    if x in BoundNames(aliases) {
      var i :| 0 <= i < |aliases| && BoundNames(aliases)[i] == x;
      assert aliases[i] in aliases;
    }
    if a :| a in aliases && a.bound == x {
      var i :| 0 <= i < |aliases| && aliases[i] == a;
      assert BoundNames(aliases)[i] == x;
    }
  }

  lemma {:induction false} ImportStep(t: Tables, s: TopStmt, x: Name, dotted: string)
    ensures var r := LoadStmt(t, s);
      x in r.imports && r.imports[x] == dotted <==>
        || ImportsName(s, x, dotted)
        || (x in t.imports && t.imports[x] == dotted && forall d :: !ImportsName(s, x, d))
  {
    if s.TopImport? {
      AddImportsSpec(t, s.dotted, s.aliases);
      BoundBy(s.aliases, x);
      assert ImportsName(s, x, s.dotted) <==> s.absolute && s.dotted != "__future__" && x in BoundNames(s.aliases);
    }
  }

  /** The entries of `n` say what `n` denotes. */
  ghost predicate MatchesAt(t: Tables, body: seq<TopStmt>, n: Name)
  {
    && (n in t.consts ==> OwnBinding(body, n) == IntBinding(t.consts[n]))
    && (n in t.funcs ==> OwnBinding(body, n) == DefBinding(t.funcs[n]) && t.funcs[n].name == n)
    && (n in t.imports ==> OwnBinding(body, n) == ImportBinding(t.imports[n], n))
  }

  ghost predicate TablesMatch(t: Tables, body: seq<TopStmt>)
  {
    forall n :: n in TableNames(t) ==> MatchesAt(t, body, n)
  }

  lemma {:induction false} BoundOnceInit(body: seq<TopStmt>, n: Name)
    requires body != [] && BoundOnce(AllBinds(body), n)
    ensures BoundOnce(AllBinds(body[..|body| - 1]), n)
    ensures n in TopBinds(body[|body| - 1]) ==> n !in AllBinds(body[..|body| - 1])
  {
    var before, own := AllBinds(body[..|body| - 1]), TopBinds(body[|body| - 1]);
    var all := AllBinds(body);
    assert all == before + own;
    assert forall i :: 0 <= i < |before| ==> all[i] == before[i];
    assert forall j :: 0 <= j < |own| ==> all[|before| + j] == own[j];
  }

  /** A name that the statement binds, and that no table held before. */
  lemma {:induction false} FirstBinding(t: Tables, s: TopStmt, n: Name)
    requires n in TopBinds(s) && n !in TableNames(t) && n !in t.dupes && Unaliased(s, n)
    ensures var r := LoadStmt(t, s);
      && (n in r.consts ==> BindingIn(s, n) == IntBinding(r.consts[n]))
      && (n in r.funcs ==> BindingIn(s, n) == DefBinding(r.funcs[n]) && r.funcs[n].name == n)
      && (n in r.imports ==> BindingIn(s, n) == ImportBinding(r.imports[n], n))
  {
    if s.TopImport? { AddImportsSpec(t, s.dotted, s.aliases); }
  }

  lemma {:induction false} MatchesSettled(body: seq<TopStmt>, n: Name)
    requires Settled(body, n)
    ensures MatchesAt(Load(body), body, n)
  {
    if body != [] {
      var init, s := body[..|body| - 1], body[|body| - 1];
      BoundOnceInit(body, n);
      assert Unaliased(s, n);
      if n in TopBinds(s) {
        TablesBind(init, n);
        FirstBinding(Load(init), s, n);
      } else {
        MatchesSettled(init, n);
        LoadStmtAt(Load(init), s, n);
      }
    }
  }

  /** When the names in the tables are settled, the tables say what they denote. */
  lemma {:induction false} TablesAreSound(m: Module)
    requires ModuleOk(m)
    ensures TablesMatch(Load(m.body), m.body)
  {
    forall n | n in TableNames(Load(m.body)) ensures MatchesAt(Load(m.body), m.body, n) {
      MatchesSettled(m.body, n);
    }
  }
}
