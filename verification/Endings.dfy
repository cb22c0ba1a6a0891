/**
 How a piece of Python may end, computed from its text.

 The course of a run depends on the values of locals only through which names are bound; of the
 values themselves only one thing is followed, whether a judge calls them good or bad.  So a
 block has, from each of finitely many states, finitely many endings, and the functions below
 compute them by recursion on the syntax.  A loop is followed until it brings no new state, and
 what calls can do is the least fixpoint over the functions of the program.  `RunsEnd` and
 `ReachedEndings` prove that what is computed is what the runs do.
 */
module Endings {
  import opened MiniPython
  import opened OwnNodes
  import opened PythonRuns

  // ----- good and bad values -----

  /** The good values: these numbers (or all), perhaps None, perhaps what is neither. */
  datatype Judge = Judge(numbers: Option<set<int>>, none: bool, other: bool)

  predicate GoodNumber(j: Judge, n: int) { j.numbers.Some? ==> n in j.numbers.value }

  predicate Bad(j: Judge, v: Value)
  {
    match v
    case IntV(n) => !GoodNumber(j, n)
    case BoolV(b) => !GoodNumber(j, if b then 1 else 0)
    case NoneV(_) => !j.none
    case OtherV => !j.other
  }

  /** Some value is bad, or some value is good. */
  predicate Occurs(j: Judge, bad: bool)
  {
    if bad then j.numbers.Some? || !j.none || !j.other
    else j.none || j.other || (j.numbers.Some? ==> j.numbers.value != {})
  }

  /** Follows nothing but which names are bound. */
  const ALL_GOOD: Judge := Judge(None, true, true)

  // ----- states -----

  /** The bound names, and those of them that hold bad values. */
  datatype State = State(bound: set<Name>, bad: set<Name>)

  const NOTHING_BOUND: State := State({}, {})

  function StateOf(j: Judge, env: Env): State
  {
    State(env.Keys, set x | x in env && Bad(j, env[x]))
  }

  function Put(a: State, x: Name, bad: bool): State
  {
    State(a.bound + {x}, if bad then a.bad + {x} else a.bad - {x})
  }

  function Drop(a: State, x: Name): State { State(a.bound - {x}, a.bad - {x}) }

  /** The names in `names` may be bound to anything, or to nothing. */
  function Shuffles(j: Judge, a: State, names: set<Name>): set<State>
  {
    set X, Y | X <= names && Y <= X && (Y != {} ==> Occurs(j, true)) && (Y != X ==> Occurs(j, false)) ::
      State((a.bound - names) + X, (a.bad - names) + Y)
  }

  /** Every state over these names. */
  function States(j: Judge, names: set<Name>): set<State> { Shuffles(j, NOTHING_BOUND, names) }

  /** The states a call of the function may begin in. */
  function Entries(j: Judge, f: FuncDef): set<State>
  {
    set a | a in States(j, Params(f) + f.hidden) && Params(f) <= a.bound
  }

  // ----- what evaluations and executions end with -----

  datatype Out = Yields(bad: bool) | Fails(ordinary: bool)

  datatype End = Falls | Leaves(bad: bool) | Throws(ordinary: bool) | Jumps(brk: bool)

  datatype Eval1 = Eval1(out: Out, state: State)

  datatype ArgsEnd = ArgsEnd(failed: Option<bool>, state: State)

  datatype Ending = Ending(end: End, state: State)

  /** A call of the function `f` of the module `path` can end so. */
  datatype Fact = Fact(path: Path, f: FuncDef, out: Out)

  /** Where the code stands, who judges, and what is known of calls. */
  datatype Ctx = Ctx(at: At, judge: Judge, facts: set<Fact>)

  function Frame(c: Ctx): set<Name> { LocalNames(c.at.f) }

  // ----- expressions -----

  function Anything(j: Judge): set<Out> { set bad: bool | Occurs(j, bad) :: Yields(bad) }

  function AnyOut(j: Judge): set<Out> { Anything(j) + {Fails(true), Fails(false)} }

  function GlobalOuts(j: Judge, g: Global): set<Out>
  {
    match g
    case IntGlobal(n) => {Yields(Bad(j, IntV(n)))}
    case DefGlobal(_, _) => {Yields(Bad(j, OtherV))}
    case ValueGlobal => Anything(j)
    case UnknownGlobal => Anything(j) + {Fails(true)}
  }

  /** What calling a name can end with, once its arguments are evaluated. */
  function CallOuts(c: Ctx, callee: Name, args: nat, keywords: seq<Name>): set<Out>
  {
    if callee in Frame(c) then AnyOut(c.judge)
    else
      var g := GlobalOf(c.at.p, c.at.path, callee);
      if !Fits(g, args, keywords) then {Fails(true)}
      else if g.DefGlobal? && g.f.direct then OutsOf(c.facts, g.path, g.f)
      else AnyOut(c.judge)
  }

  function OutsOf(facts: set<Fact>, path: Path, f: FuncDef): set<Out>
  {
    set x | x in facts && x.path == path && x.f == f :: x.out
  }

  function Ways(test: Expr): set<bool>
  {
    if Truth(test).Some? then {Truth(test).value} else {true, false}
  }

  function ExprEnds(c: Ctx, e: Expr, a: State): set<Eval1>
    decreases e, 1
  {
    match e
    case IntLit(n) => {Eval1(Yields(Bad(c.judge, IntV(n))), a)}
    case NegLit(n) => {Eval1(Yields(Bad(c.judge, IntV(0 - n as int))), a)}
    case Lit(k) => {Eval1(Yields(Bad(c.judge, ConstValue(k))), a)}
    case Ref(id) =>
      if id in Frame(c) then {Eval1(if id in a.bound then Yields(id in a.bad) else Fails(true), a)}
      else set out | out in GlobalOuts(c.judge, GlobalOf(c.at.p, c.at.path, id)) :: Eval1(out, a)
    case Cond(test, body, orelse) =>
      var first := ExprEnds(c, test, a);
      Failing(first)
      + (set r, x | r in first && r.out.Yields? && true in Ways(test) && x in ExprEnds(c, body, r.state) :: x)
      + (set r, x | r in first && r.out.Yields? && false in Ways(test) && x in ExprEnds(c, orelse, r.state) :: x)
    case Opaque(binds) =>
      set b, out | b in Shuffles(c.judge, a, binds + c.at.f.hidden) && out in AnyOut(c.judge) :: Eval1(out, b)
    case Call(callee, args, keywords) =>
      if callee in Frame(c) && callee !in a.bound then {Eval1(Fails(true), a)}
      else
        var ended := ArgsEnds(c, args, a);
        (set r | r in ended && r.failed.Some? :: Eval1(Fails(r.failed.value), r.state))
        + (set r, b, out | r in ended && r.failed.None? && b in Shuffles(c.judge, r.state, c.at.f.hidden)
             && out in CallOuts(c, callee, |args|, keywords) :: Eval1(out, b))
  }

  function ArgsEnds(c: Ctx, args: seq<Expr>, a: State): set<ArgsEnd>
    decreases args, 0
  {
    if args == [] then {ArgsEnd(None, a)}
    else
      var first := ExprEnds(c, args[0], a);
      (set r | r in first && r.out.Fails? :: ArgsEnd(Some(r.out.ordinary), r.state))
      + (set r, x | r in first && r.out.Yields? && x in ArgsEnds(c, args[1..], r.state) :: x)
  }

  function Failing(evals: set<Eval1>): set<Eval1> { set r | r in evals && r.out.Fails? }

  // ----- statements -----

  function AnyThrow(a: State): set<Ending> { {Ending(Throws(true), a), Ending(Throws(false), a)} }

  function Thrown(evals: set<Eval1>): set<Ending>
  {
    set r | r in evals && r.out.Fails? :: Ending(Throws(r.out.ordinary), r.state)
  }

  function TargetsEnds(j: Judge, targets: seq<Target>, bad: bool, a: State): set<Ending>
    decreases |targets|
  {
    if targets == [] then {Ending(Falls, a)}
    else
      match targets[0]
      case NameTarget(id) => TargetsEnds(j, targets[1..], bad, Put(a, id, bad))
      case OtherTarget(names) =>
        AnyThrow(a) + set b, x | b in Shuffles(j, a, names) && x in TargetsEnds(j, targets[1..], bad, b) :: x
  }

  function StoreEnds(c: Ctx, targets: seq<Target>, value: Expr, a: State): set<Ending>
    decreases value, 2
  {
    var evals := ExprEnds(c, value, a);
    Thrown(evals)
    + set r, x | r in evals && r.out.Yields? && x in TargetsEnds(c.judge, targets, r.out.bad, r.state) :: x
  }

  function StmtEnds(c: Ctx, s: Stmt, a: State): set<Ending>
    decreases s, 6
  {
    match s
    case Assign(targets, value) => StoreEnds(c, targets, value, a)
    case AnnAssign(target, init) =>
      if init.None? then {Ending(Falls, a)} else StoreEnds(c, [target], init.value, a)
    case While(_, _, _) => LoopEnds(c, s, a)
    case Try(_, _, _, finalbody) =>
      set r, x | r in GuardedEnds(c, s, a) && x in FinallyEnds(c, finalbody, r) :: x
    case Return(_, result) =>
      if result.None? then {Ending(Leaves(Bad(c.judge, NoneV(false))), a)}
      else
        var evals := ExprEnds(c, result.value, a);
        Thrown(evals) + set r | r in evals && r.out.Yields? :: Ending(Leaves(r.out.bad), r.state)
    case Raise(exception) =>
      if exception.Some? then
        var evals := ExprEnds(c, exception.value, a);
        Thrown(evals) + set r, x | r in evals && r.out.Yields? && x in AnyThrow(r.state) :: x
      else if c.at.handling.Some? then {Ending(Throws(c.at.handling.value), a)}
      else AnyThrow(a)
    case Pass => {Ending(Falls, a)}
    case Break => {Ending(Jumps(true), a)}
    case Continue => {Ending(Jumps(false), a)}
    case _ =>
      var evals := ExprEnds(c, s.value, a);
      Thrown(evals) + set r, x | r in evals && r.out.Yields? && x in AfterEnds(c, s, r.state) :: x
  }

  /** A statement whose expression has its value. */
  function AfterEnds(c: Ctx, s: Stmt, a: State): set<Ending>
    requires HasValue(s)
    decreases s, 5
  {
    match s
    case For(_, _, _, _) => LoopEnds(c, s, a)
    case ExprStmt(_) => {Ending(Falls, a)}
    case If(value, body, orelse) =>
      (if true in Ways(value) then BlockEnds(c, body, a) else {})
      + (if false in Ways(value) then BlockEnds(c, orelse, a) else {})
    case Rebind(names, _) => AnyThrow(a) + set b | b in Shuffles(c.judge, a, names) :: Ending(Falls, b)
    case With(_, names, body) =>
      AnyThrow(a)
      + set b, r, x | b in Shuffles(c.judge, a, names) && r in BlockEnds(c, body, b) && x in LeaveEnds(r) :: x
  }

  /** Leaving a `with` may raise, and may swallow what its body raised. */
  function LeaveEnds(r: Ending): set<Ending>
  {
    AnyThrow(r.state) + {r} + if r.end.Throws? then {Ending(Falls, r.state)} else {}
  }

  // ----- loops -----

  predicate IsLoop(s: Stmt) { s.For? || s.While? }

  /** The states in which a loop that stands at its head decides on its next turn. */
  function Decisions(c: Ctx, s: Stmt, a: State): set<State>
    requires IsLoop(s)
    decreases s, 0
  {
    if s.For? then {a} else set r | r in ExprEnds(c, s.value, a) && r.out.Yields? :: r.state
  }

  /** Can the loop take another turn, or end for lack of one? */
  function Turns(s: Stmt): set<bool>
    requires IsLoop(s)
  {
    if s.For? then {true, false} else Ways(s.value)
  }

  /** How one turn of the body ends. */
  function BodyEnds(c: Ctx, s: Stmt, a: State): set<Ending>
    requires IsLoop(s)
    decreases s, 1
  {
    set d, b, x | d in Decisions(c, s, a) && true in Turns(s)
      && b in (if s.For? then Shuffles(c.judge, d, s.names) else {d}) && x in BlockEnds(c, s.body, b) :: x
  }

  predicate GoesOn(end: End) { end.Falls? || end == Jumps(false) }

  function LoopExit(x: Ending): Ending { Ending(if x.end == Jumps(true) then Falls else x.end, x.state) }

  /** How the loop can end without coming back to its head. */
  function ExitEnds(c: Ctx, s: Stmt, a: State): set<Ending>
    requires IsLoop(s)
    decreases s, 2
  {
    (if s.For? then AnyThrow(a) else Thrown(ExprEnds(c, s.value, a)))
    + (set d, x | d in Decisions(c, s, a) && false in Turns(s) && x in BlockEnds(c, s.orelse, d) :: x)
    + set x | x in BodyEnds(c, s, a) && !GoesOn(x.end) :: LoopExit(x)
  }

  /** The states in which it can come back to its head. */
  function NextHeads(c: Ctx, s: Stmt, heads: set<State>): set<State>
    requires IsLoop(s)
    decreases s, 2
  {
    set h, x | h in heads && x in BodyEnds(c, s, h) && GoesOn(x.end) :: x.state
  }

  lemma {:induction false} FewerLeft<T>(all: set<T>, some: set<T>, more: set<T>)
    requires more <= all && more !! some && more != {}
    ensures |all - (some + more)| < |all - some|
  {
    assert all - some == (all - (some + more)) + more;
  }

  /** The states in which the loop can stand at its head. */
  function Heads(c: Ctx, s: Stmt, heads: set<State>): (r: set<State>)
    requires IsLoop(s)
    ensures heads <= r && NextHeads(c, s, r) * States(c.judge, Frame(c)) <= r
    decreases s, 3, |States(c.judge, Frame(c)) - heads|
  {
    var more := NextHeads(c, s, heads) * States(c.judge, Frame(c)) - heads;
    if more == {} then heads
    else
      FewerLeft(States(c.judge, Frame(c)), heads, more);
      Heads(c, s, heads + more)
  }

  function LoopEnds(c: Ctx, s: Stmt, a: State): set<Ending>
    requires IsLoop(s)
    decreases s, 4
  {
    set h, x | h in Heads(c, s, {a}) && x in ExitEnds(c, s, h) :: x
  }

  // ----- try -----

  function GuardedEnds(c: Ctx, s: Stmt, a: State): set<Ending>
    requires s.Try?
    decreases s, 4
  {
    set r, x | r in BlockEnds(c, s.body, a) && x in PastBody(c, s, r) :: x
  }

  function PastBody(c: Ctx, s: Stmt, r: Ending): set<Ending>
    requires s.Try?
    decreases s, 3
  {
    match r.end
    case Falls => BlockEnds(c, s.orelse, r.state)
    case Throws(ordinary) => HandlersEnds(c, s.handlers, ordinary, r.state)
    case _ => {r}
  }

  function FinallyEnds(c: Ctx, finalbody: seq<Stmt>, r: Ending): set<Ending>
    decreases finalbody, 3
  {
    var inner := if r.end.Throws? then c.(at := Handling(c.at, r.end.ordinary)) else c;
    set x | x in BlockEnds(inner, finalbody, r.state) :: if x.end.Falls? then Ending(r.end, x.state) else x
  }

  function HandlersEnds(c: Ctx, hs: seq<Handler>, ordinary: bool, a: State): set<Ending>
    decreases hs, 1
  {
    if hs == [] then {Ending(Throws(ordinary), a)}
    else
      (if Takes(c.at, hs[0], ordinary, true) then HandlerEnds(c, hs[0], ordinary, a) else {})
      + (if !Takes(c.at, hs[0], ordinary, false) then HandlersEnds(c, hs[1..], ordinary, a) else {})
  }

  function HandlerEnds(c: Ctx, h: Handler, ordinary: bool, a: State): set<Ending>
    decreases h, 1
  {
    set x | x in BlockEnds(c.(at := Handling(c.at, ordinary)), h.body, Entered(c.judge, h, a)) ::
      Ending(x.end, Cleared(h, x.state))
  }

  function Entered(j: Judge, h: Handler, a: State): State
  {
    if h.bound.Some? then Put(a, h.bound.value, Bad(j, OtherV)) else a
  }

  function Cleared(h: Handler, a: State): State
  {
    if h.bound.Some? then Drop(a, h.bound.value) else a
  }

  function BlockEnds(c: Ctx, body: seq<Stmt>, a: State): set<Ending>
    decreases body, 2
  {
    if body == [] then {Ending(Falls, a)}
    else set r, x | r in StmtEnds(c, body[0], a) && x in PastFirst(c, body, r) :: x
  }

  function PastFirst(c: Ctx, body: seq<Stmt>, r: Ending): set<Ending>
    requires body != []
    decreases body, 1
  {
    if r.end.Falls? then BlockEnds(c, body[1..], r.state) else {r}
  }

  // ----- functions -----

  function OutOf(j: Judge, end: End): Out
    requires !end.Jumps?
  {
    match end
    case Falls => Yields(Bad(j, NoneV(true)))
    case Leaves(bad) => Yields(bad)
    case Throws(ordinary) => Fails(ordinary)
  }

  /** What a call of the function can end with, if the calls in it end as the facts say. */
  function FunctionOuts(p: Program, j: Judge, facts: set<Fact>, path: Path, f: FuncDef): set<Out>
  {
    set a, x | a in Entries(j, f) && x in BlockEnds(Ctx(Here(p, path, f), j, facts), f.body, a) && !x.end.Jumps? ::
      OutOf(j, x.end)
  }

  /** The functions of the program. */
  function Defs(p: Program): set<(Path, FuncDef)>
  {
    set q, i | q in p.mods && 0 <= i < |p.mods[q].body| && p.mods[q].body[i].TopDef? :: (q, p.mods[q].body[i].def)
  }

  const OUTS: set<Out> := {Yields(true), Yields(false), Fails(true), Fails(false)}

  function AllFacts(p: Program): set<Fact>
  {
    set d, out | d in Defs(p) && out in OUTS :: Fact(d.0, d.1, out)
  }

  function Derived(p: Program, j: Judge, facts: set<Fact>): (r: set<Fact>)
    ensures r <= AllFacts(p)
  {
    set d, out | d in Defs(p) && out in FunctionOuts(p, j, facts, d.0, d.1) :: Fact(d.0, d.1, out)
  }

  /** Nothing more can be derived. */
  predicate Closed(p: Program, j: Judge, facts: set<Fact>) { Derived(p, j, facts) <= facts }

  function Fixpoint(p: Program, j: Judge, facts: set<Fact>): (r: set<Fact>)
    ensures facts <= r && Closed(p, j, r)
    decreases |AllFacts(p) - facts|
  {
    var all, more := AllFacts(p), Derived(p, j, facts) - facts;
    if more == {} then facts
    else
      FewerLeft(all, facts, more);
      Fixpoint(p, j, facts + more)
  }

  /** What the functions of the program can do. */
  function FactsOf(p: Program, j: Judge): set<Fact> { Fixpoint(p, j, {}) }

  /** The context of code that is not called by anything considered. */
  function CtxOf(at: At, j: Judge): Ctx { Ctx(at, j, FactsOf(at.p, j)) }
}
