# FoundationScale gates: a Dafny model

FoundationScale ships its quality gates as programs: analysers, scanners, rewriters and work
lists, each with an exact exit-code rule (0 clear, 5 red, 95 unmeasured, 96 refused). This project
models the ones whose verdict rests on an argument rather than on a lookup, and proves that
argument for all inputs. `dafny verify dfyconfig.toml` checks everything.

**The exit-code analyser** (`checks/exit_contract_scope.py`). `MiniPython` is the fragment of
Python the analyser tells apart, with the tables it loads; `OwnNodes` is what it gathers from a
body; `ExitSets` is the interprocedural resolver with its fixed point over locals; `Containment`
is the exception analysis with its delegation chain; `Assess` is the three-axis verdict.
`PythonRuns` is an independent meaning: an interpreter in which a finite oracle decides branches,
exceptions, opaque values and what unmodelled bindings do, so that "for every oracle" reads "for
every run". Against it:

- `ExitSoundness` and `VerdictSoundness`: a computed exit set covers every run of its function,
  and a CLEAR verdict means that every declared function ends in contract on every run, that every
  entry point keeps its ordinary exceptions down its whole chain, and that an exit site ends in
  contract exactly when it is safe. `ClearExample` is a program that obtains such a verdict.
- The hypotheses are those of `ExitSoundness.ProgramOk`. Of a module: a name the resolver can look
  up is bound by one statement and not by a renaming import; other names are free. Of a function
  the analyser enters (the `scope`, a set closed under the calls it follows), and of no other: it
  is called directly, its locals are no module names, a parameter that is also assigned is one the
  analyser has no set for (`root = root.resolve()`), and what an unpoisoned local is assigned reads
  no local that is both assigned and poisoned. `Witnesses` gives, for each of these, a program that
  breaks it alone and a run the computed set misses.
- `ResolverCycles`: from a function that has a set, followed calls never lead to a function twice;
  a function on a cycle of calls is unresolved, across modules and renewed hop budgets too.
- `Derivation`: when a set is computed, and which: exactly when a finite derivation from the text
  gives it. `VerdictDerivation` says the same of declared functions and exit sites. What is asked
  of the functions that may be entered is that no local they assign is an integer constant too:
  read before it is assigned it still counts as the constant (`DerivationExamples.HiddenConstant`).
- `LocalSolution`: the fixed point is the least solution of the assignment equations, hence
  independent of order, and resolves exactly the names with a finite derivation.
- `Spelling`: `x = e; return x` for `return e` changes no computed set in the whole program, if no
  rewritten e reads a local that is both assigned and poisoned; and what happens if one does.
- `Assess` gives all three codes of the gate a meaning over the declared functions, exit sites and
  entry points, and `EscapeMeaning` the three statuses of an entry point.
- `Containment` and `Delegation`: what PROTECTED gives, over every run of every entry point on the
  chain, when each guard has a handler that is bare or names the builtin `Exception` or
  `BaseException` (`EscapeWitnesses` breaks that alone); chains are finite and acyclic, cycles
  never PROTECTED.
- `Endings` computes from the text how a piece of Python can end: a finite set of endings with the
  names then bound, loops followed until nothing new comes, calls by a least fixed point over the
  functions of the program. `RunsEnd` and `ReachedEndings` prove that what is computed is exactly
  what the runs do. On these computed sets `TotalGuards` decides when a guard lets no ordinary
  exception out, `Handoffs` when a PROTECTED entry point lets one out all the same, and `Nones`
  which values a call or an expression can come to. `GuardExamples` and `EscapeWitnesses` evaluate
  the conditions on small programs, with both outcomes.

**The in-place rewriter** (`checks/countables_drift.py`): `Numerals` (printer, parser, masking),
`Rewriting` (plan, sort, splice loop) and `Reread` (a rewritten document read again).

**The shell scanners**: `CommandWords`, `QuotedArguments`, `Sequencing` and `RecipeLines` for
`checks/makefile_tooling.py`; `BashScan` and `BashSweep` for `checks/bash_lc_sweep.py`. They bear
on sections 2.2 (Quoting) and 2.3 (Token Recognition) of the Shell Command Language of
POSIX.1-2017, and prove what the code does, which is a part of those sections. Each scanner is
proved against a reading of its line by characters: what stands where, which backslash escapes
(`QuotedText`), which quote and which parenthesis closes.

**Coverage floors** (`checks/coverage_floor.py`): `CoverageFloor`. **Paths and citations**
(`checks/citation_lines.py`, `checks/doc_pointers.py`): `PathAlgebra`, `Citations`, `DocPointers`.
**Work lists**: `Closure` (`launchers/f78_census_writer_driver.py`) and `TreeWalk`
(`tools/bridge_fqn_map.py`). **The adapter census** (`launchers/lora_target_census.py`): `Census`,
which also models the loader that reads it back, and `AtomicWrite`. **The mutation partition**
(`checks/mutation_scope.py`): `Partition`.

Loops of the source are methods, proved against functions or against a property stated outright;
expressions are functions. File contents, tracked paths, parsed trees, regular-expression matches,
symbol tables and the tables of floors, declarations and reasons are parameters, so the theorems
hold for every such table. A path is the list of its components between slashes.

## Where the code and its own words differ

- `_guard_status` asks whether a `try` converts EVERY exception. It does not, in two ways.
  Handlers other than the guard are not inspected, and a handler may itself raise: a PROTECTED
  entry point can let an ordinary exception out (`EscapeWitnesses.EarlierHandlerReraises`). And a
  handler type counts as `Exception` when it is spelled so, whatever it denotes: with
  `import errors` and `except errors.Exception` every exception passes
  (`EscapeWitnesses.ForeignException`). `Containment.HandlersCatchIff` and
  `TotalGuards.GuardTotalIff` give the exact conditions. The arguments of a hand-off are evaluated
  unguarded; `Handoffs.EscapesIffHandoffRaises` says exactly when that shows. `return f(c)` with a
  bound `c` keeps everything in (`GuardExamples.QuietHandoffKeeps`), `return f(load())` does not
  (`GuardExamples.OpaqueHandoffEscapes`).
- `_site_values` looks at positional arguments only and counts None as 0. `os._exit(status=1)` is
  measured as 0 and ends with 1; `SystemExit(code=5)` is measured as 0 and is a TypeError
  (`VerdictSoundness.KeywordsAreMissed`); `os._exit()` and `os._exit(None)` are measured as 0 and
  are TypeErrors; so is `os._exit(f())` when `f` falls off its end (`SiteWitness.FallingCallee`).
  The exact condition, on the literals and callees of the argument, is
  `VerdictSoundness.SiteCoveredIff`; where a None comes from is `Nones`.
- `_local_map` poisons names after the fixed point, not before: a name assigned and poisoned feeds
  other names first. A set can then miss a run (`Witnesses.PoisonedLocal`), and the spelling of a
  return matters after all (`SpellingWitness.RespelledTaint`, `Spelling.RespelledIff`).
- JSON can carry `NaN`. The band comparisons of `evaluate` then both fail and the module is
  reported clear, while the updater raises (`CoverageFloor.NaNIsClear`, `CoverageFloor.UpdateRaises`).
- The driver emits a redefined function once, with its last body, at the place of its first
  definition; the comment beside it says original order. `Closure.RedefinitionMoves` is an input
  for which the two differ, `Closure.AscendsIff` says exactly when they agree.
- The symbol-table walk remembers visited tables by `id()` and is said to never under-collect. It
  loses no name, whichever names the tables use, exactly when no two tables have one identity
  (`Closure.CompleteIff`). A table that was popped is gone, so a table made later may get its
  identity, and a name is then missed (`Closure.SharedIdentity`).
- Two patterns of the countables table match one number in "Repo-wide: 5 git-tracked .py/.sh/.md
  lines repo-wide", and a census of 10 is then written as 100 (`Reread.OverlapCorrupts`). When one
  number alone is planned more than once and what is printed is not as long as what it replaces,
  the document comes out right exactly when it is shorter and ends the document
  (`Reread.DocumentIff`). With two such numbers nothing of the kind holds: their errors can cancel
  out (`Reread.RepeatsCancel`).

## Model

| member | source | states |
|---|---|---|
| MiniPython.TablesAreSound | checks/exit_contract_scope.py:275-314 | when the names in the tables are bound by one statement each and no import renames them, the three tables say what each denotes after the module has executed |
| MiniPython.AddImportsSpec | checks/exit_contract_scope.py:308-311 | the import loop binds every bound name to its module, later aliases winning, and leaves the other tables alone |
| MiniPython.ConstsAre | checks/exit_contract_scope.py:291-301 | a constant is the last integer literal assigned to the name at module level, whatever else binds it |
| MiniPython.FuncsAre | checks/exit_contract_scope.py:302-307 | a function is looked up exactly when its name is defined once; defined again, it is looked up no more |
| MiniPython.ImportsAre | checks/exit_contract_scope.py:308-311 | an import is the last absolute one that binds the name, `__future__` excepted |
| OwnNodes.SourcesOfIff | checks/exit_contract_scope.py:391-420 | the dictionary built by the walk has one entry a name and feeds a name exactly the expressions assigned to it |
| OwnNodes.PoisonedByIff | checks/exit_contract_scope.py:351-361 | a name is poisoned exactly when some event of the body binds it in an unmodelled form |
| ExitSets.SiteOf | checks/exit_contract_scope.py:490-511 | a followed call keeps program, stack and declared sets and enters a function that exists; which call is followed where, and with what result, is `Derivation.CallIffDerived` |
| ExitSets.EntersLess | checks/exit_contract_scope.py:528-537 | entering a function not on the stack leaves fewer functions to enter, which bounds the recursion on cyclic call graphs |
| ExitSets.SolveLocals | checks/exit_contract_scope.py:422-450 | the retry loop, with poisoning after it, computes the table of locals |
| ExitSets.FunctionExitSet | checks/exit_contract_scope.py:514-548 | the loop over returns with the recursion cut computes the set that `Derivation.ExitSetIffDerived` characterises |
| ExitSets.ReturnsSetMembers | checks/exit_contract_scope.py:539-548 | the set is exactly the union over all returns, and is unresolved exactly when one of them is |
| ExitSets.AllSetMembers | checks/exit_contract_scope.py:429-441 | a name's set is exactly the union over all expressions assigned to it, resolved only if all are |
| Derivation.ExitSetIffDerived | checks/exit_contract_scope.py:514-548 | a function has the set s exactly when a finite derivation from the text gives s: literals, both branches, all assignments of an unpoisoned local, constants here or imported, and calls; at any hop depth, through other modules, with any functions being entered |
| Derivation.CallIffDerived | checks/exit_contract_scope.py:490-511 | a call has the set s exactly when it is derived: a declared function here has the set computed for it; at the first hop, a function of this file or else a declared name of the imported module, or else its function with a hop of its own; never one that is being entered |
| Derivation.ReturnIffDerived | checks/exit_contract_scope.py:555-615 | the same for one return of a function that is measured itself |
| VerdictDerivation.EntryIffDerived | checks/exit_contract_scope.py:555-615 | the set kept for a declared function is the one derived from all its returns, and there is none exactly when there is no derivation |
| VerdictDerivation.SiteIffDerived | checks/exit_contract_scope.py:852-872 | an exit site gives 0 without an argument or with None, 1 for text or several arguments, and else exactly what a derivation gives its argument at module level |
| DerivationExamples.EnteredAcross | checks/exit_contract_scope.py:500-509 | a function imported from another module is entered and gives its set |
| DerivationExamples.DeclaredAcross | checks/exit_contract_scope.py:500-509 | a declared function of another module gives the set computed for it, whatever that is |
| DerivationExamples.HiddenConstant | checks/exit_contract_scope.py:422-450 | `x = 0` in the module and `y = x; x = 5; return y` in a function: the set is 0, the only derivation gives 5 |
| ResolverCycles.StepResolved | checks/exit_contract_scope.py:528-548 | a call in a position that a set rests on, when followed, leads to a function with a set, one key deeper on the stack |
| ResolverCycles.FollowedOnce | checks/exit_contract_scope.py:528-548 | along any chain of followed calls from a function with a set all functions have one, none is on the stack, and none occurs twice |
| ResolverCycles.CyclesAreUnresolved | checks/exit_contract_scope.py:528-548 | a function from which followed calls run into a cycle has no set, through other modules and renewed hop budgets too |
| LocalSolution.LocalMapIsLeastSolution | checks/exit_contract_scope.py:422-450 | the table of locals solves the assignment equations with the poisoned names unresolved, and is below every other solution |
| LocalSolution.OrderIsIrrelevant | checks/exit_contract_scope.py:391-450 | functions that feed each name the same expressions have the same table, whatever the order of statements or passes |
| LocalSolution.ResolvedIffDerived | checks/exit_contract_scope.py:422-450 | a local is resolved exactly when it is not poisoned and has a derivation of finite height from resolvable leaves |
| ExitSoundness.EvalSound | checks/exit_contract_scope.py:453-511 | whatever an expression evaluates to in any run lies in its resolved set |
| ExitSoundness.StmtSound | checks/exit_contract_scope.py:364-450 | every statement keeps locals inside their sets and returns only values inside the union of its returns |
| ExitSoundness.SiteDenotes | checks/exit_contract_scope.py:490-511 | a call whose codes are known, or that is followed, denotes at run time the function the analyser found |
| ExitSoundness.BodyCovered | checks/exit_contract_scope.py:539-548 | a function whose returns resolve returns, in every run, only values of their union, a fall through the end counting as 0 |
| ExitSoundness.ExitSetCovers | checks/exit_contract_scope.py:514-548 | resolver soundness: a computed exit set covers every run that returns, at any hop depth and through other modules, if the functions entered on the way are well formed |
| Spelling.RespelledIff | checks/exit_contract_scope.py:373-385 | assigning returned expressions to a fresh name and returning it changes the set exactly when the set was unresolved only because a returned expression reads a poisoned local |
| Spelling.RespelledFunction | checks/exit_contract_scope.py:373-385 | it leaves the function's set and its unresolved status as they were when no rewritten return reads a local both assigned and poisoned |
| Spelling.SpellingIndependence | checks/exit_contract_scope.py:373-385 | the same for every function of the program, whichever function was respelled and at whatever depth it is reached; nothing is asked of the other functions |
| SpellingWitness.RespelledTaint | checks/exit_contract_scope.py:447-449 | for `x = 0; x += 7; return x` the spelling matters: unresolved one way, and the other way a set that misses a run |
| Containment.GuardOf | checks/exit_contract_scope.py:705-709 | the guard is a blanket handler, and there is one exactly when some handler is |
| Containment.DelegationTarget | checks/exit_contract_scope.py:648-683 | a hand-off target is a declared entry point |
| Containment.CheckEntry | checks/exit_contract_scope.py:754-849 | the statement-by-statement check with its recursion over hand-offs computes the specified status |
| Containment.SkipDocstring | checks/exit_contract_scope.py:791-799 | the body is judged from behind its docstring |
| Containment.CheckStatements | checks/exit_contract_scope.py:799-849 | the first statement that is not certified decides |
| EscapeMeaning.TryIff | checks/exit_contract_scope.py:686-751 | a `try` is unprotected unless it has a catch-all handler and no `else` or `finally`; then the first return of that handler whose set is not inside the contract decides between unprotected and unmeasured, and without one its ending decides |
| EscapeMeaning.EntryIff | checks/exit_contract_scope.py:754-849 | the three statuses of an entry point, along its whole chain: protected when every statement behind the docstring is certified, else the first that is not decides; an absent function, a cycle and a target in an unread file are unmeasured |
| Containment.NeverFallsThrough | checks/exit_contract_scope.py:629-645 | a block whose terminals all return or raise completes normally in no run |
| Containment.GuardConverts | checks/exit_contract_scope.py:705-751 | the guard of a PROTECTED `try` never falls out of its end and what it returns is in contract, in every run |
| Containment.HandlersCatch | checks/exit_contract_scope.py:618-626 | what leaves the handlers of a `try` was raised by one of them, or is the exception that came, ordinary only if no handler is bare or denotes such a builtin |
| Containment.HandlersCatchIff | checks/exit_contract_scope.py:618-626 | no ordinary exception passes the handlers exactly when one is bare or denotes the builtin `Exception` or `BaseException`, plain, dotted or in a tuple |
| Containment.BodyContained | checks/exit_contract_scope.py:754-849 | in every run of the body of a PROTECTED entry point an ordinary exception comes only out of handlers of top-level guards or hand-off arguments on its chain, and what a guard returns is in contract |
| Containment.EntryContained | checks/exit_contract_scope.py:754-849 | the same of every call of the entry point |
| Delegation.ChainIsAcyclic | checks/exit_contract_scope.py:822-838 | along any hand-offs from a PROTECTED entry point the entry points are declared, pairwise different and PROTECTED themselves |
| Delegation.CyclesAreNotProtected | checks/exit_contract_scope.py:822-838 | an entry point on a cycle of hand-offs is never PROTECTED |
| Delegation.ChainContained | checks/exit_contract_scope.py:754-849 | every entry point on the chain is PROTECTED itself, its guards convert in every run, and its ordinary exceptions are contained |
| TotalGuards.GuardTotalIff | checks/exit_contract_scope.py:686-751 | a PROTECTED guard lets no ordinary exception out, whatever it guards, exactly when every ordinary exception is taken by some handler and no handler that an exception can reach is computed to raise |
| TotalGuards.TotalChain | checks/exit_contract_scope.py:686-849 | with such guards down the chain an ordinary exception comes only out of the arguments of a hand-off on the chain |
| Handoffs.EscapesIffHandoffRaises | checks/exit_contract_scope.py:754-849 | and it does, in some run, exactly when a hand-off that can be reached may raise in an argument, in binding its arguments, or in the same way in the entry point it hands over to |
| Handoffs.QuietArguments | checks/exit_contract_scope.py:834-838 | arguments that are literals, bound locals, existing globals or choices among them never raise |
| Handoffs.OpaqueArgumentRaises | checks/exit_contract_scope.py:834-838 | an argument that is opaque or an unbound local, behind quiet ones, may raise |
| GuardExamples.TrainIsTotal | checks/exit_contract_scope.py:686-751 | `try: return 0` with `except Exception: return 5` is computed to be total |
| GuardExamples.CallingKeeps | checks/exit_contract_scope.py:686-751 | a handler that returns the result of a function no run of which raises is not computed to raise |
| GuardExamples.QuietHandoffKeeps | checks/exit_contract_scope.py:822-838 | for `def h(c): return f(c)` the condition is computed to be false: PROTECTED, total, and no run lets an ordinary exception out |
| GuardExamples.OpaqueHandoffEscapes | checks/exit_contract_scope.py:822-838 | for `def h(c): return f(load())` it is computed to be true: PROTECTED, total, and some run lets one out |
| Assess.AxisBalances | checks/exit_contract_scope.py:231-235 | every counted unit is in exactly one of in contract, out of contract and unresolved |
| Assess.CountUnit | checks/exit_contract_scope.py:582-614 | one unit adds one to the total and one to the class it belongs to (unresolved, outside 0, 5, 95, 96, or inside) and enters the one list of its class, and nothing else changes |
| Assess.AssessEntry | checks/exit_contract_scope.py:555-615 | one declared function is counted return by return, and its set is unresolved if one return is |
| Assess.MeasureAll | checks/exit_contract_scope.py:1000-1015 | declared functions are measured in order, each seeing the sets of those before it |
| Assess.MeasureFiles | checks/exit_contract_scope.py:875-940 | every exit site of the listed files is counted once |
| Assess.MeasureEscape | checks/exit_contract_scope.py:1020-1028 | each entry point enters the list its status asks for |
| Assess.Run | checks/exit_contract_scope.py:956-1048 | the three axes and one code, with the meaning that `Assess.VerdictMeans` states |
| Assess.VerdictMeans | checks/exit_contract_scope.py:956-1048 | 5 exactly when all files parse and some return of a declared function or some exit site has a set not inside 0, 5, 95, 96, or some entry point is unprotected; 95 exactly when a file does not parse, or nothing is so and either nothing is counted or some return, site or entry point is undecided; 0 otherwise |
| VerdictSoundness.EntriesOfSound | checks/exit_contract_scope.py:1000-1015 | every set the gate computes covers the runs of its function; no set is presupposed |
| VerdictSoundness.SiteCoveredIff | checks/exit_contract_scope.py:852-872 | the set of an exit site covers every status it can end with exactly when the call is not a TypeError (or 1 is in the set), the literals and callees of a `status=` keyword give only codes of the set, and an argument that may be None by its literals and callees ends with a code of the set |
| VerdictSoundness.SiteExitsIff | checks/exit_contract_scope.py:852-872 | which statuses a site can end with at all, whatever was computed for it: decided on the literals and callees of its argument |
| VerdictSoundness.KeywordsAreMissed | checks/exit_contract_scope.py:852-872 | `os._exit(status=1)` and `SystemExit(code=5)` are measured as 0 and end with 1 |
| Nones.BadValueIff | checks/exit_contract_scope.py:852-872 | an expression evaluates to a value outside a given set in some run exactly when a literal, a name or a callee in a position its value can come from gives one |
| Nones.NoneIff | checks/exit_contract_scope.py:852-872 | a function yields None in some run exactly when its text can fall off its end, or can be left by a return that is bare or whose value may be None |
| Nones.NeverNone | checks/exit_contract_scope.py:852-872 | read off the returns alone: all branches end in a return or raise and no return is bare or may be None, so the function never yields None |
| Nones.CallMayBeIff | checks/exit_contract_scope.py:852-872 | a call may come to a value outside a given set exactly when its arguments can be evaluated and bound and some run of the function returns such a value |
| SiteWitness.FallingCallee | checks/exit_contract_scope.py:852-872 | `os._exit(f())` with an f that falls off its end is measured as 0, is computed to be unsafe, and ends with 1 in some run |
| VerdictSoundness.ClearIsSound | checks/exit_contract_scope.py:956-1048 | CLEAR means: helpers and entry points end in contract on every run, entry points keep their ordinary exceptions down their chains, and an exit site ends in contract exactly when it is safe |
| ClearExample.ClearIsReachable | checks/exit_contract_scope.py:1409-1419 | a well-formed guarded entry point obtains CLEAR |
| Witnesses.ShadowedConstant | checks/exit_contract_scope.py:480-489 | a parameter that shadows a module constant makes the set miss a run |
| Witnesses.ReboundConstant | checks/exit_contract_scope.py:291-301 | a module constant bound a second time makes the set miss a run |
| Witnesses.RenamedImport | checks/exit_contract_scope.py:308-311 | a renamed import is looked up under its bound name, and the set misses a run |
| Witnesses.RenamedImportBreaksOnlyThat | checks/exit_contract_scope.py:308-311 | that program breaks no other condition |
| Witnesses.IndirectCallee | checks/exit_contract_scope.py:490-511 | a callee that returns a coroutine makes the set miss a run |
| Witnesses.OverwrittenParameter | checks/exit_contract_scope.py:391-420 | a parameter that is also assigned a literal makes the set miss a run |
| Witnesses.ReassignedParameter | checks/exit_contract_scope.py:391-420 | a parameter reassigned from an expression without a set, as in `x = x.resolve()`, leaves the function well formed |
| Witnesses.PoisonedLocal | checks/exit_contract_scope.py:447-449 | a name assigned and poisoned feeds other names before it is poisoned, and the set misses a run |
| EscapeWitnesses.EarlierHandlerReraises | checks/exit_contract_scope.py:705-709 | a PROTECTED entry point with a sure guard lets an ordinary exception out when an earlier handler raises; its guard is computed not to be total |
| EscapeWitnesses.ForeignException | checks/exit_contract_scope.py:618-626 | a class that is only called `Exception` makes an entry point PROTECTED that lets ordinary exceptions out of unguarded code; no other condition is broken |
| Numerals.StyleRoundTrip | checks/countables_drift.py:671-679 | what is printed at a site reads back as the value, is a number token without leading zeros, has commas only if the site had them and then exactly between groups of three |
| Numerals.GroupedShape | checks/countables_drift.py:675-679 | thousands separators stand exactly at three-digit groups, and without them the digits are those of the number |
| Numerals.MaskInPlace | checks/countables_drift.py:682-692 | the character list keeps its length, matched clauses become spaces and line ends stay |
| Numerals.MaskHistorical | checks/countables_drift.py:682-692 | the masked text is the text except for spaces over the clauses |
| Numerals.TokenIsOriginal | checks/countables_drift.py:682-692 | a number token found in the masked text stands byte for byte in the original |
| Numerals.TokenMissesHistory | checks/countables_drift.py:682-692 | such a token has no character in common with a historical clause |
| Rewriting.PlanRewrites | checks/countables_drift.py:813-823 | the plan lists every token of every drifted site |
| Rewriting.PlanOnlyDrifted | checks/countables_drift.py:813-823 | every planned edit is a token of a drifted site, rewritten to its census value |
| Rewriting.SortIsDescending | checks/countables_drift.py:826-835 | sorting disjoint edits lists the same edits from right to left, none touching another |
| Rewriting.SortTimes | checks/countables_drift.py:826-835 | sorting keeps every edit as often as it is planned |
| Rewriting.SpliceIsSubstitution | checks/countables_drift.py:826-835 | the right-to-left splices equal the simultaneous substitution |
| Rewriting.ApplyRewrites | checks/countables_drift.py:826-835 | any plan is spliced from right to left and every edit counted; a plan without overlaps comes out as the simultaneous substitution |
| Rewriting.ApplyAll | checks/countables_drift.py:826-835 | each planned document is spliced so and every other document stays |
| Reread.KeptSpan | checks/countables_drift.py:826-835 | text no edit touches is found again at its shifted place |
| Reread.EditedSpan | checks/countables_drift.py:826-835 | the text of every edit stands at its shifted place |
| Reread.PlanIsDisjoint | checks/countables_drift.py:813-823 | tokens that do not overlap give a plan of disjoint spans |
| Reread.TokenSettles | checks/countables_drift.py:695-712 | after the rewrite every token of a drifted site, the agreeing half included, reads as its census value, and a token no edit stands on reads as before |
| Reread.RewriteSettles | checks/countables_drift.py:813-835 | when tokens are apart, or are one number whose new text fits it, the rewrite is the simultaneous substitution, the document then states its census values, and planning again plans nothing |
| Reread.HistorySurvives | checks/countables_drift.py:682-684 | a number stated as history is not rewritten: every historical clause stands in the rewritten document word for word |
| Reread.TwiceIff | checks/countables_drift.py:826-835 | an edit spliced in twice leaves what one leaves exactly when it fits its span, or is shorter and ends the text |
| Reread.CoincidentIff | checks/countables_drift.py:813-835 | two drifted sites on one number come out as one rewrite under exactly that condition |
| Reread.OneRepeatIff | checks/countables_drift.py:813-835 | any plan whose spans are apart or repeated, with one repeated edit that does not fit: it comes out as the simultaneous substitution exactly when that edit is shorter than its span and ends the document |
| Reread.DocumentIff | checks/countables_drift.py:813-835 | the same for the plan of any document in which one number alone is stated by several drifted sites and does not fit |
| Reread.RepeatsCancel | checks/countables_drift.py:826-835 | two repeated edits that do not fit and whose errors cancel out |
| Reread.OverlapCorrupts | checks/countables_drift.py:564-577 | a sentence that two patterns of the table match at one number: a census of 10 is written as 100 |
| CommandWords.SkipSingleQuoted | checks/makefile_tooling.py:118-121 | the end of a single-quoted run |
| CommandWords.SkipDoubleQuoted | checks/makefile_tooling.py:124-135 | the end of a double-quoted run, escapes respected |
| CommandWords.SkipMakeVar | checks/makefile_tooling.py:138-155 | the end of a make expansion, nested ones counted |
| CommandWords.StepAt | checks/makefile_tooling.py:158-258 | each round of the scanner consumes at least one character and stays inside the line |
| CommandWords.ReadToken | checks/makefile_tooling.py:216-242 | a token absorbs quoted runs and expansions and ends where `CommandWords.TokenEndStands` says |
| CommandWords.TokenEndStands | checks/makefile_tooling.py:216-242 | a token is parts end to end, each one character, a quoted run up to its first unescaped closing quote, or an expansion up to the parenthesis that balances it, and ends at the first blank, semicolon, bar, ampersand, backquote, parenthesis or `$$(` between parts |
| CommandWords.CommandWords | checks/makefile_tooling.py:158-258 | the words are the command words of the one reading of the line: the tokens that are no assignments and have no token but assignments between them and the line start, an opener, or a transparent command word; only the first token of the line loses its prefix |
| CommandWords.ScanReads | checks/makefile_tooling.py:158-258 | every line has a reading into blanks, quoted arguments, openers, other ampersands and tokens that lie end to end, and what the scanner returns are its command words |
| CommandWords.ReadingIsUnique | checks/makefile_tooling.py:158-258 | a line has only one reading |
| CommandWords.TransparentIff | checks/makefile_tooling.py:104-115 | a word is transparent exactly when it is one of the listed words, bare or between two equal quotes |
| CommandWords.StripPrefixIs | checks/makefile_tooling.py:251-253 | the recipe prefix is the longest run of at signs, minus and plus signs |
| QuotedArguments.QuotedContentsAreInert | checks/makefile_tooling.py:118-258 | refilling a quoted run outside command position with any text free of that quote (and of backslashes in double quotes) leaves the words as they were |
| Sequencing.OpenerSequences | checks/makefile_tooling.py:158-258 | nothing behind an opener is missed: the words are those before it and then those behind it, read from command position |
| Sequencing.OpenersAre | checks/makefile_tooling.py:158-258 | the openers are `$$(`, two ampersands, one bar or two, the semicolon, the backquote and both parentheses, and one ampersand outside a redirection |
| RecipeLines.ReadCommand | checks/makefile_tooling.py:278-308 | a logical command is a maximal run of recipe lines, each but the last ending with one backslash and not two, and its text is their contents, without leading tabs and without that backslash, with one space between |
| RecipeLines.LogicalRecipeLines | checks/makefile_tooling.py:278-308 | the commands cover the recipe lines, and the physical count is their number |
| RecipeLines.IndicesAreRecipeLines | checks/makefile_tooling.py:278-308 | the covered lines are exactly the recipe lines, each once and in order |
| BashScan.CommentStart | checks/bash_lc_sweep.py:151-175 | the result is the first comment sign at the start of a word that the reading of the line into escaped characters, closed quoted runs and single characters comes to, or there is none |
| BashScan.CommentIff | checks/bash_lc_sweep.py:151-175 | the scanner with its two quote flags and its escapes is outside quotes exactly where that reading is |
| BashScan.InnerSource | checks/bash_lc_sweep.py:178-202 | at the first character behind `bash -lc` that is no blank: non-literal without a quote, single-quoted for a single quote, double-quoted for a double quote, and then the body is what stands before the first unescaped double quote, in order, without backslashes and the characters they escape |
| BashScan.InnerIff | checks/bash_lc_sweep.py:178-202 | every argument is read so, in one way |
| BashScan.CmdSubSpan | checks/bash_lc_sweep.py:205-217 | a command substitution ends at the first place where as many parentheses are closed as opened, and its text is what stands between; without such a place it is all the rest |
| BashScan.ExpansionAt | checks/bash_lc_sweep.py:225-276 | an expansion starts where it is found and consumes at least one character |
| BashScan.ExpansionIff | checks/bash_lc_sweep.py:205-276 | what is reported at a place: a substitution, as rendered or as a splice by its text, or else a variable, from the dollar sign over the longest name, with the braces around it if there are any |
| BashScan.ScanBody | checks/bash_lc_sweep.py:225-276 | the scan loop reports what the specification finds |
| BashScan.ScanReportsExactly | checks/bash_lc_sweep.py:225-276 | left to right, exactly the expansions at even single-quote parity outside the spans of the others, each with its token and kind |
| BashSweep.Match | checks/bash_lc_sweep.py:349-354 | the first declaration that names a splice, or none does |
| BashSweep.MatchHits | checks/bash_lc_sweep.py:346-359 | a site has a residual splice exactly when one is undeclared, and each match adds one hit to its declaration |
| BashSweep.VisitSite | checks/bash_lc_sweep.py:314-369 | one site enters one bucket and the tallies of its declarations |
| BashSweep.SweepLine | checks/bash_lc_sweep.py:301-369 | every occurrence of the line is visited once, from left to right |
| BashSweep.Classify | checks/bash_lc_sweep.py:279-437 | 5 exactly when a file cannot be read, or a site exists and some splice is not declared or some declaration is not matched exactly once; 95 exactly for fewer than two files or no site; 0 otherwise |
| BashSweep.CodeMeans | checks/bash_lc_sweep.py:279-437 | the exit code has that meaning, over the occurrences of the files, the reading of their arguments and the declarations |
| BashSweep.MatchIsFirst | checks/bash_lc_sweep.py:349-354 | no declaration before the matched one names the splice |
| BashSweep.WholeIff | checks/bash_lc_sweep.py:335-342 | a source is taken for one whole variable exactly when its only hit is a variable and, trimmed, it is a dollar sign, a name and optional braces |
| BashSweep.SweepPartitions | checks/bash_lc_sweep.py:279-437 | each bucket holds exactly its sites, buckets add up to the total, sites and mentions add up to the occurrences, tallies count the matches |
| BashSweep.BucketMembers | checks/bash_lc_sweep.py:279-437 | an occurrence outside comments is in the one bucket its splices ask for |
| BashSweep.MismatchIsDead | checks/bash_lc_sweep.py:385-392 | the partition-mismatch branch can never be taken |
| BashSweep.PlacesComplete | checks/bash_lc_sweep.py:300-307 | the enumeration lists exactly the occurrences of `bash -lc` in the files |
| BashSweep.ClearMeansDeclared | checks/bash_lc_sweep.py:379-437 | exit 0 means that some site exists, that every raw splice outside comments is whole-source, rendered or declared, and that each declaration is matched exactly once |
| CoverageFloor.OneNamePerFile | checks/coverage_floor.py:503-518 | the absolute and the relative spelling of a file get one name exactly when the relative one stays in the tree |
| CoverageFloor.LineSet | checks/coverage_floor.py:462-475 | a line list is usable exactly when all its items are positive integers, and then is their set |
| CoverageFloor.AssessReportFreshness | checks/coverage_floor.py:521-584 | freshness is unknown exactly when a tracked row or its file cannot be read; otherwise the stale rows are exactly those whose lines do not line up |
| CoverageFloor.AssessRow | checks/coverage_floor.py:559-583 | a row lines up when executed and missing lines are statements and every statement is executed, missing or excluded |
| CoverageFloor.Evaluate | checks/coverage_floor.py:587-639 | outcomes of all tracked modules in order, drift and excluded rows split by where they live |
| CoverageFloor.ReportedIs | checks/coverage_floor.py:605-616 | of several rows under one name the last one counts |
| CoverageFloor.RowsSplit | checks/coverage_floor.py:605-616 | every row of the report is a row of the tree, under its name there, or excluded, never both |
| CoverageFloor.Measure | checks/coverage_floor.py:642-742 | the sequence of guards and one code, with the meaning that `CoverageFloor.VerdictMeans` states |
| CoverageFloor.VerdictMeans | checks/coverage_floor.py:642-742 | 95 exactly when nothing is tracked, the report is unusable or describes another tree, or a tracked module has no measurement; otherwise 5 exactly when a module is out of its band or a row of the tree is untracked; otherwise 0 |
| CoverageFloor.ClearExactly | checks/coverage_floor.py:642-742 | CLEAR exactly when something is tracked, the report is usable and describes the tree, every module is accepted and no row of the tree is untracked |
| CoverageFloor.OutOfTreeIsInert | checks/coverage_floor.py:719-731 | adding or removing rows outside the tree never changes the exit code |
| CoverageFloor.ComputeUpdatedFloors | checks/coverage_floor.py:905-947 | the table holds, for each path, what the last outcome that writes for it asks for, and nothing else: the greatest integer not above a measurement outside 90 to 95, or the old floor of a module without one; the carried and unfloored modules; it raises exactly on a measurement that is not finite |
| CoverageFloor.UpdatedHolds | checks/coverage_floor.py:924-947 | the same of the specification, for every list of outcomes with finite measurements |
| CoverageFloor.ModuleRepaired | checks/coverage_floor.py:905-947 | after the update a measured module is inside its band and an unmeasured one keeps its floor |
| CoverageFloor.UpdateRepairs | checks/coverage_floor.py:905-947 | re-evaluating under the new table finds nothing below or stale, keeps unmeasured floors, and a second update changes nothing |
| CoverageFloor.UpdateRaises | checks/coverage_floor.py:944-944 | the update goes through exactly when every measurement is finite |
| CoverageFloor.NaNIsClear | checks/coverage_floor.py:628-638 | a NaN percentage is in no band, is judged clear, and makes the update raise |
| Closure.Collect | launchers/f78_census_writer_driver.py:434-453 | definitions by name with the last one winning, names in order of first definition, literal constants once each |
| Closure.Keep | launchers/f78_census_writer_driver.py:458-466 | for every order of popping, the least set that holds the entry and every definition loaded from it |
| Closure.OneClosure | launchers/f78_census_writer_driver.py:458-466 | there is only one such set |
| Closure.KeptIsReached | launchers/f78_census_writer_driver.py:458-466 | a name is kept exactly when a chain of loads leads to it from the entry |
| Closure.LoadWriter | launchers/f78_census_writer_driver.py:434-473 | the emitted body lists exactly the kept definitions, each the last of its name, in order of first definition, or the entry is missing |
| Closure.AscendsIff | launchers/f78_census_writer_driver.py:468-473 | the emitted definitions keep the order of the file exactly when first and last definitions of the kept names are ordered alike |
| Closure.UniqueNamesAscend | launchers/f78_census_writer_driver.py:468-473 | names defined once keep the order of the file |
| Closure.RedefinitionMoves | launchers/f78_census_writer_driver.py:468-473 | f, g, and f again: the last f is emitted before g |
| Closure.GlobalsNeeded | launchers/f78_census_writer_driver.py:382-397 | the stack loop collects what the specification of the walk collects |
| Closure.GlobalsComplete | launchers/f78_census_writer_driver.py:382-397 | the walk never collects too much, and misses nothing when tables have distinct identities |
| Closure.CompleteIff | launchers/f78_census_writer_driver.py:382-397 | it misses nothing, whichever names the tables use, exactly when no two of them have one identity |
| Closure.SharedIdentity | launchers/f78_census_writer_driver.py:382-397 | identities that objects can have, a great-grandchild given that of the popped child, under which a name is missed |
| TreeWalk.CollectKeys | tools/bridge_fqn_map.py:57-80 | the walk terminates and returns exactly the keys of the tensor and of the object leaves that occur |
| TreeWalk.BuildMap | tools/bridge_fqn_map.py:83-109 | declared names are the union over all chunks without extra state, and the object count is that of the union |
| TreeWalk.SameKeys | tools/bridge_fqn_map.py:67-80 | reordering what containers hold, at any depth, changes no key set |
| PathAlgebra.Normalise | checks/citation_lines.py:174-190 | the push and pop loop computes the normal form |
| PathAlgebra.NormaliseExactly | checks/citation_lines.py:174-190 | None exactly when some prefix climbs above the root or nothing is left; otherwise only names, as many as the depth |
| PathAlgebra.NormaliseIdempotent | checks/citation_lines.py:174-190 | a normal form is its own normal form, and every list of names is one |
| PathAlgebra.NormaliseJoin | checks/doc_pointers.py:154-166 | a base may be normalised before or after it is joined; one that collapses contributes nothing, one that escapes stays escaped |
| PathAlgebra.Cancel | checks/doc_pointers.py:154-166 | a name followed by `..` cancels wherever it stands, and `.` vanishes |
| Citations.ResolveDenotes | checks/citation_lines.py:193-211 | a citation resolves to a path exactly when it denotes it: as written, else joined to the names of the citing file without the last, else as the only tracked path that ends in it; always a tracked path |
| Citations.ResolveOrderFree | checks/citation_lines.py:193-211 | the iteration order of the tracked set is irrelevant |
| Citations.Report.LineCount | checks/citation_lines.py:214-224 | the cache never changes an answer |
| Citations.Report.Cite | checks/citation_lines.py:245-264 | one citation is counted once and judged as a reader of the tree would judge it |
| Citations.Scan | checks/citation_lines.py:227-268 | the report describes exactly the citations of the files, and the denominator is verified plus red plus unresolved |
| Citations.CountsBalance | checks/citation_lines.py:227-268 | every citation is in exactly one of the three classes |
| Citations.Report.GateExitCode | checks/citation_lines.py:271-278 | REFUSE: no citation; RED: one that denotes a tracked file points at lines the file does not have; UNMEASURED: none denotes a tracked file; CLEAR: some do and all of those are right |
| Citations.VerdictExactly | checks/citation_lines.py:227-278 | there are red rows exactly when a citation that denotes a tracked file is wrong; without them something is verified exactly when a citation denotes a tracked file |
| Citations.Audit | checks/citation_lines.py:361-376 | scanning and gating the tracked files gives the code with that meaning; no tracked file at all is refused |
| DocPointers.TrackedPaths | checks/doc_pointers.py:125-139 | the universe is the tracked files and every directory that holds one |
| DocPointers.UniverseIsLeast | checks/doc_pointers.py:125-139 | it is the least set with the tracked files that is closed under taking parents |
| DocPointers.Resolves | checks/doc_pointers.py:169-181 | a pointer resolves exactly when walking it from the citing directory or from the root ends on a tracked file or on a directory that holds one |
| DocPointers.MaskFences | checks/doc_pointers.py:66-88 | the lines blanked are exactly those of the blocks, each from a fence to the next fence of the same character or to the end, every fence in some block; everything in them but the newline is blanked, every other line is untouched, and the blocks are counted |
| DocPointers.FenceIff | checks/doc_pointers.py:66-88 | a fence is at most three blanks and then three backquotes or three tildes |
| DocPointers.SpansBlanked | checks/doc_pointers.py:89-95 | the second mask blanks exactly the spans of inline code |
| DocPointers.MaskKeepsLineNumbers | checks/doc_pointers.py:66-95 | both masks keep length and newlines, so every offset keeps its line number and what is not blank is untouched |
| Census.StemInjective | launchers/lora_target_census.py:161-171 | different names never get one stem |
| Census.StemIff | launchers/lora_target_census.py:161-171 | the stem is what follows the one stripped segment, and is not empty |
| Census.DimsIff | launchers/lora_target_census.py:174-197 | the dimensions are the two attributes in their order, when both are positive integers |
| Census.PersistAdapterCensus | launchers/lora_target_census.py:238-377 | refusal, KeyError or census as a function of the set of matched names and the parents' dimensions |
| Census.ModIs | launchers/lora_target_census.py:273-273 | the module of a name is the last one of the population under it |
| Census.TableSize | launchers/lora_target_census.py:316-321 | as keys differ, the table is as long as the list exactly when no parent lacks dimensions |
| Census.SetAlone | launchers/lora_target_census.py:273-331 | launches with the same matched names and dimensions emit the same entries, whatever the order and repetition of matches |
| Census.LoadAdapterModules | src/foundationscale/gates/adjudication.py:604-659 | the loader takes a census exactly when it is non-empty, well formed, without duplicates and dimmed for all or none |
| Census.CensusIsAccepted | launchers/lora_target_census.py:316-331 | whatever the producer emits the loader takes, and it is dimmed throughout exactly when every parent has dimensions |
| Census.NamesReadBack | launchers/lora_target_census.py:281-288 | the stems read back are exactly those of the matched names |
| Census.DimsReadBack | launchers/lora_target_census.py:316-325 | the dimensions read back are those of the parents |
| AtomicWrite.StepKeeps | launchers/lora_target_census.py:200-235 | what every step of the write keeps, exceptions and write-back included |
| AtomicWrite.OldOrComplete | launchers/lora_target_census.py:200-235 | after a crash at any point of any run the destination holds what it held or the complete text, never a part of it |
| AtomicWrite.OldUntilReplaced | launchers/lora_target_census.py:223-235 | until the replacement the old file stands, whatever is raised |
| AtomicWrite.Completes | launchers/lora_target_census.py:219-229 | a run without faults ends with the complete durable text |
| AtomicWrite.SyncIsNeeded | launchers/lora_target_census.py:227-229 | had the replacement come before the sync, a crash could leave any beginning of the text |
| Partition.CheckPartition | checks/mutation_scope.py:989-1064 | the findings of each rule are exactly the paths and reasons that break it |
| Partition.PartitionExactly | checks/mutation_scope.py:997-1036 | R1, R2 and R3 are silent exactly when the index is the disjoint union of the three sets |
| Partition.ReasonsExactly | checks/mutation_scope.py:1037-1062 | R4 and R5 are silent exactly when every declaration carries a reason of its own |
| Partition.Evaluate | checks/mutation_scope.py:1067-1102 | CLEAR exactly on a partition with its own reasons, and then the total is covered plus pending plus out of scope with none undeclared |

## Left out

- Argument parsing, file and git access, subprocesses, JSON and YAML reading, printing and the wording of findings; `--self-test` tables.
- Python's own parser and symbol tables, and the regular-expression engine: trees, tables and match spans are inputs. `BashScan` takes the recogniser of `printf '%q'` forms as a predicate, `Numerals` the spans of historical clauses.
- Python outside the fragment: generators, decorators and `async` functions are functions not called directly (the `direct` flag); class bodies, `global` and `nonlocal` are not modelled. Starred and double-starred arguments of an exit site are opaque expressions.
- What a handler type other than `Exception`, `BaseException`, the listed fatal classes and the error classes of a program catches is left to the oracle. Evaluating a handler type does not raise here, and which kind of exception is being handled is all that a bare `raise` depends on.
- A test that is not a literal may go either way, and a parameter, an opaque expression or a name bound in an unmodelled form may hold anything or, in the last two cases, be unbound. What the theorems call possible is possible in this sense.
- Positional-only parameters, and starred arguments of a call, whose number is not known; a call binds by position and by name.
- Asynchronous exceptions, exhaustion of memory or stack, and the reduction of exit statuses modulo 256.
- Derivation.ExitSetIffDerived: asks, as do the other lemmas of `Derivation` and `VerdictDerivation`, that no local a function assigns is an integer constant of its module too; there the order of the passes decides what the name counts as.
- Reread.RewriteSettles: asks that number tokens are apart or coincide with a fitting edit; which patterns guarantee it is a property of the pattern table, which is a parameter here.
- `per_key`, `scan` and `gate_exit_code` of the countables gate: counting loops and a verdict table over sites, which are inputs here.
- `scan` and `evaluate` of the makefile gate, and `reinstate` of the bash sweep: verdict tables over the words and sites that are modelled.
- White space is that of ASCII and the separators U+001C to U+001F; Unicode white space and digits are not modelled.
- Orders of reporting: drift, excluded rows, carried modules and partition findings are given as unsorted lists or sets.
- `percent_of` and `missing_count_of`: a row carries its percentage already read; an integer too large for a float, and rounding, are not modelled.
- Report keys reach `CoverageFloor` with backslashes already replaced, one row a key; the repository root is an absolute path with one leading slash.
- `BARE` tokens of the citation scan, a separate counter, and the pointer patterns of `extract`.
- Absolute paths in `citation_lines` and `doc_pointers`: git lists relative ones.
- Cycles among Python containers in the tree walk, and keys of dictionaries, which it does not read.
- AtomicWrite: a directory whose rename is not durable, and a disk that loses synced data.
- Rendering of the floors table and the sentinel block that `apply_update` rewrites.
- `_synthesize_kwargs`, the execution of the lifted definitions and the drive and verify commands of the census driver.
- Torch, Megatron, PEFT and vLLM code, `build_model` and the module matcher.
- The other gates under `checks/`, mostly verdict tables or set comparisons that would add only easy members.
