/**
 The concrete runs of a mini-Python program.

 Everything the analyser cannot see (the value of an opaque expression, which way a test
 goes, how often a loop turns, whether an operation raises, what a parameter holds) is read
 from an oracle, a finite sequence of choices.  A run is an evaluation under some oracle;
 "every run" is "for every oracle".  A run that outlives its oracle is `Cut` and nothing is
 claimed about it.
 */
module PythonRuns {
  import opened MiniPython
  import opened OwnNodes

  /** Where code stands, and whether the exception being handled there, if any, is an ordinary one. */
  datatype At = At(p: Program, path: Path, f: FuncDef, handling: Option<bool>)

  function Here(p: Program, path: Path, f: FuncDef): At { At(p, path, f, None) }

  function Handling(at: At, ordinary: bool): At { at.(handling := Some(ordinary)) }

  /** `NoneV(fell)` is None; `fell` records that a body ended without a return statement. */
  datatype Value = IntV(n: int) | NoneV(fell: bool) | BoolV(b: bool) | OtherV

  /** The status the interpreter exits with for `SystemExit(v)`. */
  function Status(v: Value): int
  {
    match v
    case IntV(n) => n
    case NoneV(_) => 0
    case BoolV(b) => if b then 1 else 0
    case OtherV => 1
  }

  type Env = map<Name, Value>

  datatype Choice = Choice(fail: bool, ordinary: bool, go: bool, v: Value, upd: Env)
  type Oracle = seq<Choice>

  /**
   Which code an exception or a returned value last came out of: a handler of `f`, or the
   arguments of the call `e` in `f`, where `f` is a function of the module `path`.
   */
  datatype Origin =
    | Unguarded
    | InHandler(path: Path, f: FuncDef, h: Handler)
    | InArguments(path: Path, f: FuncDef, e: Expr)

  datatype Eval =
    | Val(v: Value, env: Env, rest: Oracle)
    | Exn(ordinary: bool, origin: Origin, env: Env, rest: Oracle)
    | EvalCut

  datatype Outcome =
    | Normal
    | Returned(v: Value, origin: Origin)
    | Raised(ordinary: bool, origin: Origin)
    | Jumped(brk: bool)

  datatype Run = Done(out: Outcome, env: Env, rest: Oracle) | Cut

  datatype ArgRun =
    | ArgsDone(env: Env, rest: Oracle)
    | ArgsExn(ordinary: bool, env: Env, rest: Oracle)
    | ArgsCut

  datatype CallRun =
    | Result(v: Value, rest: Oracle)
    | Escaped(ordinary: bool, origin: Origin, rest: Oracle)
    | CallCut

  /** The names in `names` take whatever value the oracle gives them, or none. */
  function Havoc(env: Env, names: set<Name>, upd: Env): Env
  {
    map x | x in env.Keys + upd.Keys && (if x in names then x in upd else x in env) ::
      if x in names then upd[x] else env[x]
  }

  /** What a call binds before the body runs: the parameters, to whatever the oracle says. */
  function Enter(f: FuncDef, upd: Env): Env
  {
    map x | x in Params(f) + f.hidden && (x in Params(f) || x in upd) :: if x in upd then upd[x] else OtherV
  }

  // ----- what a non-local name denotes -----

  /** A `ValueGlobal` exists and holds some value; of an `UnknownGlobal` not even that is known. */
  datatype Global = IntGlobal(n: int) | DefGlobal(path: Path, f: FuncDef) | ValueGlobal | UnknownGlobal

  function GlobalOf(p: Program, path: Path, id: Name): Global
  {
    if path !in p.mods then UnknownGlobal
    else match OwnBinding(p.mods[path].body, id)
      case IntBinding(n) => IntGlobal(n)
      case DefBinding(f) => DefGlobal(path, f)
      case UnknownBinding =>
        if id in p.builtins && id !in AllBinds(p.mods[path].body) then ValueGlobal else UnknownGlobal
      case ModuleBinding(_) => ValueGlobal
      case ValueBinding => ValueGlobal
      case ImportBinding(dotted, name) =>
        match Locate(p, dotted)
        case None => ValueGlobal
        case Some(q) =>
          match OwnBinding(p.mods[q].body, name)
          case IntBinding(n) => IntGlobal(n)
          case DefBinding(f) => DefGlobal(q, f)
          case _ => ValueGlobal
  }

  // ----- handlers -----

  /** The expression denotes the builtin called `name`. */
  predicate IsBuiltin(at: At, t: TypeExpr, name: Name)
  {
    at.path in at.p.mods &&
    var body := at.p.mods[at.path].body;
    match t
    case Plain(id) =>
      id !in LocalNames(at.f) &&
      ((id == name && id !in AllBinds(body)) || OwnBinding(body, id) == ImportBinding("builtins", name))
    case Dotted(base, attr) =>
      attr == name && base.Plain? && base.id !in LocalNames(at.f)
      && OwnBinding(body, base.id) == ModuleBinding("builtins")
    case _ => false
  }

  /** The handler type is the builtin class, or a tuple that holds it. */
  predicate Denotes(at: At, t: TypeExpr, name: Name)
  {
    IsBuiltin(at, t, name) || (t.TupleOf? && exists e :: e in t.elts && Denotes(at, e, name))
  }

  const EXCEPTION: Name := "Exception"
  const BASE_EXCEPTION: Name := "BaseException"

  /** The builtin classes of exceptions that are not ordinary. */
  const FATAL: set<Name> := {"KeyboardInterrupt", "SystemExit", "GeneratorExit"}

  /** Everything of the type is an ordinary exception. */
  predicate OnlyOrdinary(at: At, t: TypeExpr)
  {
    || IsBuiltin(at, t, EXCEPTION)
    || (exists n :: n in at.p.errors && IsBuiltin(at, t, n))
    || (t.TupleOf? && forall e :: e in t.elts ==> OnlyOrdinary(at, e))
  }

  /** Nothing of the type is an ordinary exception. */
  predicate OnlyFatal(at: At, t: TypeExpr)
  {
    || (exists n :: n in FATAL && IsBuiltin(at, t, n))
    || (t.TupleOf? && forall e :: e in t.elts ==> OnlyFatal(at, e))
  }

  predicate TakesAll(at: At, h: Handler)
  {
    h.caught.None? || Denotes(at, h.caught.value, BASE_EXCEPTION)
  }

  /** Every ordinary exception that meets the handler is caught. */
  predicate Sure(at: At, h: Handler)
  {
    TakesAll(at, h) || Denotes(at, h.caught.value, EXCEPTION)
  }

  /**
   Whether the handler takes an exception.  What a type catches of which only one of the two
   kinds is known, or neither, is for the oracle to say (`go`).
   */
  predicate Takes(at: At, h: Handler, ordinary: bool, go: bool)
  {
    if TakesAll(at, h) || (ordinary && Sure(at, h)) then true
    else if ordinary then go && !OnlyFatal(at, h.caught.value)
    else go && !OnlyOrdinary(at, h.caught.value)
  }

  // ----- evaluation -----

  /** Which way a test goes: a literal decides it, otherwise the oracle does. */
  function Branch(test: Expr, go: bool): bool
  {
    if Truth(test).Some? then Truth(test).value else go
  }

  ghost function EvalExpr(at: At, e: Expr, env: Env, o: Oracle): (r: Eval)
    ensures !r.EvalCut? ==> |r.rest| <= |o|
    decreases |o|, e, 1
  {
    match e
    case IntLit(n) => Val(IntV(n), env, o)
    case NegLit(n) => Val(IntV(0 - n as int), env, o)
    case Lit(c) => Val(ConstValue(c), env, o)
    case Ref(id) =>
      if id in LocalNames(at.f) then
        if id in env then Val(env[id], env, o) else Exn(true, Unguarded, env, o)
      else
        (match GlobalOf(at.p, at.path, id)
         case IntGlobal(n) => Val(IntV(n), env, o)
         case DefGlobal(_, _) => Val(OtherV, env, o)
         case ValueGlobal => if o == [] then EvalCut else Val(o[0].v, env, o[1..])
         case UnknownGlobal =>
           if o == [] then EvalCut
           else if o[0].fail then Exn(true, Unguarded, env, o[1..])
           else Val(o[0].v, env, o[1..]))
    case Cond(test, body, orelse) =>
      (match EvalExpr(at, test, env, o)
       case Val(_, env1, o1) =>
         if o1 == [] then EvalCut
         else EvalExpr(at, if Branch(test, o1[0].go) then body else orelse, env1, o1[1..])
       case r => r)
    case Opaque(binds) =>
      if o == [] then EvalCut
      else
        var env1 := Havoc(env, binds + at.f.hidden, o[0].upd);
        if o[0].fail then Exn(o[0].ordinary, Unguarded, env1, o[1..]) else Val(o[0].v, env1, o[1..])
    case Call(callee, args, _) =>
      if callee in LocalNames(at.f) && callee !in env then Exn(true, Unguarded, env, o)
      else
        match EvalArgs(at, args, env, o)
        case ArgsCut => EvalCut
        case ArgsExn(ordinary, env1, o1) => Exn(ordinary, InArguments(at.path, at.f, e), env1, o1)
        case ArgsDone(env1, o1) => RunCall(at, e, env1, o1)
  }

  /** A call whose arguments have their values. */
  ghost function RunCall(at: At, e: Expr, env: Env, o: Oracle): (r: Eval)
    requires e.Call?
    ensures !r.EvalCut? ==> |r.rest| <= |o|
    decreases |o|, e, 0
  {
    if o == [] then EvalCut
    else
      var env1 := Havoc(env, at.f.hidden, o[0].upd);
      if e.callee in LocalNames(at.f) then
        if o[0].fail then Exn(o[0].ordinary, Unguarded, env1, o[1..]) else Val(o[0].v, env1, o[1..])
      else if !Fits(GlobalOf(at.p, at.path, e.callee), |e.args|, e.keywords) then
        Exn(true, InArguments(at.path, at.f, e), env1, o[1..])
      else
        match Invoke(at.p, at.path, e.callee, o[1..])
        case Result(v, rest) => Val(v, env1, rest)
        case Escaped(ordinary, origin, rest) => Exn(ordinary, origin, env1, rest)
        case CallCut => EvalCut
  }

  function ConstValue(c: Constant): Value
  {
    match c
    case NoneConst => NoneV(false)
    case BoolConst(b) => BoolV(b)
    case TextConst => OtherV
  }

  /** The arguments of a call bind to the parameters of what it calls; a number takes none. */
  predicate Fits(g: Global, args: nat, keywords: seq<Name>)
  {
    match g
    case IntGlobal(_) => false
    case DefGlobal(_, f) => f.direct ==> Accepts(f.sig, if |keywords| <= args then args - |keywords| else 0, keywords)
    case _ => true
  }

  /** The arguments, from left to right. */
  ghost function EvalArgs(at: At, args: seq<Expr>, env: Env, o: Oracle): (r: ArgRun)
    ensures !r.ArgsCut? ==> |r.rest| <= |o|
    decreases |o|, args, 0
  {
    if args == [] then ArgsDone(env, o)
    else
      match EvalExpr(at, args[0], env, o)
      case EvalCut => ArgsCut
      case Exn(ordinary, _, env1, o1) => ArgsExn(ordinary, env1, o1)
      case Val(_, env1, o1) => EvalArgs(at, args[1..], env1, o1)
  }

  /** Calling a module-level name, once its arguments are bound. */
  ghost function Invoke(p: Program, path: Path, callee: Name, o: Oracle): (r: CallRun)
    ensures !r.CallCut? ==> |r.rest| <= |o|
    decreases |o|, 1
  {
    if o == [] then CallCut
    else
      var g := GlobalOf(p, path, callee);
      if g.DefGlobal? && g.f.direct then RunFunction(p, g.path, g.f, o)
      else if o[0].fail then Escaped(o[0].ordinary, Unguarded, o[1..])
      else Result(o[0].v, o[1..])
  }

  /** One run of a function's body. */
  ghost function RunFunction(p: Program, path: Path, f: FuncDef, o: Oracle): (r: CallRun)
    ensures !r.CallCut? ==> |r.rest| <= |o|
    decreases |o|, 0
  {
    if o == [] then CallCut
    else CallOf(RunBlock(Here(p, path, f), f.body, Enter(f, o[0].upd), o[1..]))
  }

  /** What a call makes of the run of the body. */
  function CallOf(r: Run): (k: CallRun)
    ensures !k.CallCut? ==> r.Done? && k.rest == r.rest
  {
    match r
    case Cut => CallCut
    case Done(out, _, rest) =>
      match out
      case Returned(v, _) => Result(v, rest)
      case Normal => Result(NoneV(true), rest)
      case Raised(ordinary, origin) => Escaped(ordinary, origin, rest)
      case Jumped(_) => CallCut
  }

  // ----- statements -----

  /** Binding the targets of an assignment, one after the other; one that is no plain name may fail. */
  ghost function RunTargets(targets: seq<Target>, v: Value, env: Env, o: Oracle): (r: Run)
    ensures r.Done? ==> |r.rest| <= |o|
    decreases |targets|
  {
    if targets == [] then Done(Normal, env, o)
    else
      match targets[0]
      case NameTarget(id) => RunTargets(targets[1..], v, env[id := v], o)
      case OtherTarget(names) =>
        if o == [] then Cut
        else if o[0].fail then Done(Raised(o[0].ordinary, Unguarded), env, o[1..])
        else RunTargets(targets[1..], v, Havoc(env, names, o[0].upd), o[1..])
  }

  /** Evaluating a value and binding it to targets. */
  ghost function RunStore(at: At, targets: seq<Target>, value: Expr, env: Env, o: Oracle): (r: Run)
    ensures r.Done? ==> |r.rest| <= |o|
    decreases |o|, value, 2
  {
    match EvalExpr(at, value, env, o)
    case EvalCut => Cut
    case Exn(ordinary, origin, env1, o1) => Done(Raised(ordinary, origin), env1, o1)
    case Val(v, env1, o1) => RunTargets(targets, v, env1, o1)
  }

  ghost function RunStmt(at: At, s: Stmt, env: Env, o: Oracle): (r: Run)
    ensures r.Done? ==> |r.rest| <= |o|
    decreases |o|, s, 4
  {
    match s
    case Assign(targets, value) => RunStore(at, targets, value, env, o)
    case AnnAssign(target, init) =>
      if init.None? then Done(Normal, env, o) else RunStore(at, [target], init.value, env, o)
    case While(_, _, _) => RunLoop(at, s, env, o)
    case Try(_, _, _, _) => RunTry(at, s, env, o)
    case Return(_, result) =>
      if result.None? then Done(Returned(NoneV(false), Unguarded), env, o)
      else
        (match EvalExpr(at, result.value, env, o)
         case Val(v, env1, o1) => Done(Returned(v, Unguarded), env1, o1)
         case Exn(ordinary, origin, env1, o1) => Done(Raised(ordinary, origin), env1, o1)
         case EvalCut => Cut)
    case Raise(_) => RunRaise(at, s, env, o)
    case Pass => Done(Normal, env, o)
    case Break => Done(Jumped(true), env, o)
    case Continue => Done(Jumped(false), env, o)
    case _ =>
      (match EvalExpr(at, s.value, env, o)
       case Val(_, env1, o1) => RunAfter(at, s, env1, o1)
       case Exn(ordinary, origin, env1, o1) => Done(Raised(ordinary, origin), env1, o1)
       case EvalCut => Cut)
  }

  /** Without an exception of its own it raises the one being handled. */
  ghost function RunRaise(at: At, s: Stmt, env: Env, o: Oracle): (r: Run)
    requires s.Raise?
    ensures r.Done? ==> |r.rest| <= |o|
    decreases |o|, s, 3
  {
    if s.exception.Some? then
      match EvalExpr(at, s.exception.value, env, o)
      case Val(_, env1, o1) =>
        if o1 == [] then Cut else Done(Raised(o1[0].ordinary, Unguarded), env1, o1[1..])
      case Exn(ordinary, origin, env1, o1) => Done(Raised(ordinary, origin), env1, o1)
      case EvalCut => Cut
    else if at.handling.Some? then Done(Raised(at.handling.value, Unguarded), env, o)
    else if o == [] then Cut
    else Done(Raised(o[0].ordinary, Unguarded), env, o[1..])
  }

  /** A `try`: what its `finally` clause ends with goes before what the rest ended with. */
  ghost function RunTry(at: At, s: Stmt, env: Env, o: Oracle): (r: Run)
    requires s.Try?
    ensures r.Done? ==> |r.rest| <= |o|
    decreases |o|, s, 3
  {
    match RunGuarded(at, s, env, o)
    case Cut => Cut
    case Done(out, env1, o1) =>
      if s.finalbody == [] then Done(out, env1, o1)
      else
        match RunBlock(if out.Raised? then Handling(at, out.ordinary) else at, s.finalbody, env1, o1)
        case Cut => Cut
        case Done(out2, env2, o2) => Done(if out2.Normal? then out else out2, env2, o2)
  }

  /** Statements that begin by evaluating an expression. */
  predicate HasValue(s: Stmt) { s.Rebind? || s.For? || s.With? || s.If? || s.ExprStmt? }

  /** What such a statement does once its expression has a value. */
  ghost function RunAfter(at: At, s: Stmt, env: Env, o: Oracle): (r: Run)
    requires HasValue(s)
    ensures r.Done? ==> |r.rest| <= |o|
    decreases |o|, s, 3
  {
    match s
    case For(_, _, _, _) => RunLoop(at, s, env, o)
    case ExprStmt(_) => Done(Normal, env, o)
    case If(value, body, orelse) =>
      if o == [] then Cut
      else RunBlock(at, if Branch(value, o[0].go) then body else orelse, env, o[1..])
    case Rebind(names, _) =>
      if o == [] then Cut
      else if o[0].fail then Done(Raised(o[0].ordinary, Unguarded), env, o[1..])
      else Done(Normal, Havoc(env, names, o[0].upd), o[1..])
    case With(_, names, body) =>
      if o == [] then Cut
      else if o[0].fail then Done(Raised(o[0].ordinary, Unguarded), env, o[1..])
      else LeaveWith(RunBlock(at, body, Havoc(env, names, o[0].upd), o[1..]))
  }

  /** A context manager may raise on exit, and may swallow an exception. */
  function LeaveWith(r: Run): (r': Run)
    ensures r'.Done? ==> r.Done? && |r'.rest| <= |r.rest|
  {
    match r
    case Cut => Cut
    case Done(out, env, o) =>
      if o == [] then Cut
      else if o[0].fail then Done(Raised(o[0].ordinary, Unguarded), env, o[1..])
      else if out.Raised? && o[0].go then Done(Normal, env, o[1..])
      else Done(out, env, o[1..])
  }

  /** The turns of a `for` or `while` loop. */
  ghost function RunLoop(at: At, s: Stmt, env: Env, o: Oracle): (r: Run)
    requires s.For? || s.While?
    ensures r.Done? ==> |r.rest| <= |o|
    decreases |o|, s, 2
  {
    if s.For? then RunTurn(at, s, env, o)
    else
      match EvalExpr(at, s.value, env, o)
      case EvalCut => Cut
      case Exn(ordinary, origin, env1, o1) => Done(Raised(ordinary, origin), env1, o1)
      case Val(_, env1, o1) => RunTurn(at, s, env1, o1)
  }

  /** A loop that decides on its next turn; asking an iterator for it may fail. */
  ghost function RunTurn(at: At, s: Stmt, env: Env, o: Oracle): (r: Run)
    requires s.For? || s.While?
    ensures r.Done? ==> |r.rest| <= |o|
    decreases |o|, s, 1
  {
    if o == [] then Cut
    else if s.For? && o[0].fail then Done(Raised(o[0].ordinary, Unguarded), env, o[1..])
    else if !(if s.For? then o[0].go else Branch(s.value, o[0].go)) then RunBlock(at, s.orelse, env, o[1..])
    else
      match RunBlock(at, s.body, if s.For? then Havoc(env, s.names, o[0].upd) else env, o[1..])
      case Cut => Cut
      case Done(out, env3, o3) =>
        if out.Normal? || out == Jumped(false) then RunLoop(at, s, env3, o3)
        else Done(if out == Jumped(true) then Normal else out, env3, o3)
  }

  /** A `try` up to, and not including, its `finally` clause. */
  ghost function RunGuarded(at: At, s: Stmt, env: Env, o: Oracle): (r: Run)
    requires s.Try?
    ensures r.Done? ==> |r.rest| <= |o|
    decreases |o|, s, 2
  {
    match RunBlock(at, s.body, env, o)
    case Cut => Cut
    case Done(out, env1, o1) =>
      match out
      case Normal => RunBlock(at, s.orelse, env1, o1)
      case Returned(v, _) => Done(Returned(v, Unguarded), env1, o1)
      case Jumped(_) => Done(out, env1, o1)
      case Raised(ordinary, origin) => RunHandlers(at, s.handlers, ordinary, origin, env1, o1)
  }

  /** The first handler that takes the exception runs. */
  ghost function RunHandlers(at: At, hs: seq<Handler>, ordinary: bool, origin: Origin, env: Env, o: Oracle): (r: Run)
    ensures r.Done? ==> |r.rest| <= |o|
    decreases |o|, hs, 0
  {
    if hs == [] then Done(Raised(ordinary, origin), env, o)
    else if o == [] then Cut
    else if Takes(at, hs[0], ordinary, o[0].go) then RunHandler(at, hs[0], ordinary, env, o[1..])
    else RunHandlers(at, hs[1..], ordinary, origin, env, o[1..])
  }

  /** The name an exception is bound to exists inside its handler only. */
  ghost function RunHandler(at: At, h: Handler, ordinary: bool, env: Env, o: Oracle): (r: Run)
    ensures r.Done? ==> |r.rest| <= |o|
    decreases |o|, h, 0
  {
    LeaveHandler(at, h, RunBlock(Handling(at, ordinary), h.body, EnterHandler(h, env), o))
  }

  /** What leaves a handler came out of it. */
  function LeaveHandler(at: At, h: Handler, r: Run): (r': Run)
    ensures r'.Done? ==> r.Done? && r'.rest == r.rest
  {
    match r
    case Cut => Cut
    case Done(out, env, o) =>
      var env1 := if h.bound.Some? then env - {h.bound.value} else env;
      match out
      case Returned(v, _) => Done(Returned(v, InHandler(at.path, at.f, h)), env1, o)
      case Raised(ord, _) => Done(Raised(ord, InHandler(at.path, at.f, h)), env1, o)
      case _ => Done(out, env1, o)
  }

  function EnterHandler(h: Handler, env: Env): Env
  {
    if h.bound.Some? then env[h.bound.value := OtherV] else env
  }

  ghost function RunBlock(at: At, b: seq<Stmt>, env: Env, o: Oracle): (r: Run)
    ensures r.Done? ==> |r.rest| <= |o|
    decreases |o|, b, 0
  {
    if b == [] then Done(Normal, env, o)
    else
      match RunStmt(at, b[0], env, o)
      case Cut => Cut
      case Done(out, env1, o1) =>
        if out.Normal? then RunBlock(at, b[1..], env1, o1) else Done(out, env1, o1)
  }
}
