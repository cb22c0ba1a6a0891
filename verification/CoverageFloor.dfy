/**
 checks/coverage_floor.py: the banded judge, the freshness of a report, and the updater that
 must clear what the judge reports. A report row is given with its percentage already read;
 JSON can carry NaN and the infinities, so a percentage is a Number, not a real.
 */
module CoverageFloor {
  import opened PathAlgebra

  const EXIT_CLEAR: int := 0
  const EXIT_RED: int := 5
  const EXIT_UNMEASURED: int := 95

  const DEFAULT_FLOOR: int := 90
  const SLACK: int := 5

  datatype Number = Finite(value: real) | PositiveInfinity | NegativeInfinity | NaN

  predicate Less(n: Number, bound: int)
  {
    n == NegativeInfinity || (n.Finite? && n.value < bound as real)
  }

  predicate Greater(n: Number, bound: int)
  {
    n == PositiveInfinity || (n.Finite? && n.value > bound as real)
  }

  // ----- where a report key lives -----

  predicate Absolute(key: Path) { |key| > 1 && key[0] == "" }

  /** Exactly two leading slashes are a root of their own in POSIX paths. */
  predicate DoubleSlash(key: Path)
  {
    Absolute(key) && |key| > 2 && key[1] == "" && !(|key| > 3 && key[2] == "")
  }

  /** os.path.normpath on components: an absolute path cannot climb above its root, a relative
      one keeps the climb. */
  function NormPath(absolute: bool, key: Path): Path
  {
    if key == [] then []
    else
      var at := NormPath(absolute, key[..|key| - 1]);
      var part := key[|key| - 1];
      if part == "" || part == HERE then at
      else if part != UP then at + [part]
      else if at == [] then if absolute then [] else [UP]
      else if at[|at| - 1] == UP then at + [UP]
      else at[..|at| - 1]
  }

  datatype Place = InTree(path: Path) | OutOfTree(path: Path)

  function OrHere(p: Path): Path { if p == [] then [HERE] else p }

  /** `root` lists the directories of the repository root, itself an absolute path. */
  function LocateReportKey(key: Path, root: Path): Place
  {
    var path := NormPath(Absolute(key), key);
    if !Absolute(key) then InTree(OrHere(path))
    else if !DoubleSlash(key) && StartsWith(path, root) then InTree(OrHere(path[|root|..]))
    else OutOfTree(path)
  }

  lemma {:induction false} AbsoluteNames(key: Path)
    ensures Names(NormPath(true, key))
    decreases |key|
  {
    if key != [] { AbsoluteNames(key[..|key| - 1]); }
  }

  lemma {:induction false} RelativeNorm(key: Path)
    ensures Walk([], key).Some? ==> NormPath(false, key) == Walk([], key).value
    ensures Walk([], key).Some? ==> Names(NormPath(false, key))
    ensures Walk([], key).None? ==> NormPath(false, key) != [] && NormPath(false, key)[0] == UP
    decreases |key|
  {
    if key != [] { RelativeNorm(key[..|key| - 1]); }
  }

  lemma {:induction false} RootItself(root: Path)
    requires Names(root)
    ensures NormPath(true, root) == root
    decreases |root|
  {
    if root != [] {
      var r := root[..|root| - 1];
      RootItself(r);
      assert root == r + [root[|root| - 1]];
    }
  }

  lemma {:induction false} UnderRoot(root: Path, rel: Path)
    requires Names(root) && Walk([], rel).Some?
    ensures NormPath(true, root + rel) == root + Walk([], rel).value
    decreases |rel|
  {
    if rel == [] {
      assert root + rel == root;
      RootItself(root);
    } else {
      var r := rel[..|rel| - 1];
      UnderRoot(root, r);
      assert (root + rel)[..|root + rel| - 1] == root + r;
      WalkDepth(r);
      SameStep(root, Walk([], r).value, rel[|rel| - 1]);
    }
  }

  lemma {:induction false} SameStep(root: Path, at: Path, part: string)
    requires Names(at)
    ensures part == UP && at != [] ==> (root + at)[..|root + at| - 1] == root + at[..|at| - 1]
    ensures IsName(part) ==> root + at + [part] == root + (at + [part])
  {}

  lemma {:induction false} LeadingSlash(key: Path)
    ensures NormPath(true, [""] + key) == NormPath(true, key)
    decreases |key|
  {
    if key != [] {
      LeadingSlash(key[..|key| - 1]);
      assert ([""] + key)[..|[""] + key| - 1] == [""] + key[..|key| - 1];
    }
  }

  /** The absolute spelling, where it is looked for. */
  lemma {:induction false} AbsoluteKey(root: Path, rel: Path)
    requires Names(root) && rel != [] && !Absolute(rel)
    ensures var (key, path) := ([""] + root + rel, NormPath(true, root + rel));
      && Names(path)
      && LocateReportKey(key, root)
         == if StartsWith(path, root) then InTree(OrHere(path[|root|..])) else OutOfTree(path)
  {
    var key := [""] + root + rel;
    assert key == [""] + (root + rel);
    LeadingSlash(root + rel);
    AbsoluteNames(root + rel);
    assert Absolute(key) && !DoubleSlash(key) by {
      if root != [] { assert key[1] == root[0]; } else { assert key == [""] + rel; }
    }
  }

  /** Both spellings of one file get one name, exactly when the relative one stays in the tree. */
  lemma {:induction false} OneNamePerFile(root: Path, rel: Path)
    requires Names(root) && rel != [] && !Absolute(rel)
    ensures LocateReportKey([""] + root + rel, root) == LocateReportKey(rel, root) <==> Walk([], rel).Some?
  {
    AbsoluteKey(root, rel);
    RelativeNorm(rel);
    if Walk([], rel).Some? {
      var at := Walk([], rel).value;
      UnderRoot(root, rel);
      assert (root + at)[..|root|] == root && (root + at)[|root|..] == at;
    } else {
      assert LocateReportKey(rel, root) == InTree(NormPath(false, rel));
      var path := NormPath(true, root + rel);
      if StartsWith(path, root) {
        assert path[|root|..] != [] ==> IsName(path[|root|..][0]);
      }
    }
  }

  // ----- the rows of a report -----

  /** One element of a line list: a genuine integer, or anything else. */
  datatype Item = Number(line: int) | Other

  datatype LineList = NotAList | Lines(items: seq<Item>)

  datatype Row = NotAnObject | Row(percent: Option<Number>, executed: LineList, missing: LineList, excluded: LineList)

  datatype Entry = Entry(key: Path, row: Row)

  /** The rows of the tree under their repository names, in report order. */
  function InTreeRows(files: seq<Entry>, root: Path): seq<Entry>
  {
    if files == [] then []
    else
      var last := files[|files| - 1];
      InTreeRows(files[..|files| - 1], root)
      + (match LocateReportKey(last.key, root) case InTree(p) => [Entry(p, last.row)] case OutOfTree(_) => [])
  }

  function Excluded(files: seq<Entry>, root: Path): seq<Path>
  {
    if files == [] then []
    else
      Excluded(files[..|files| - 1], root)
      + (match LocateReportKey(files[|files| - 1].key, root) case InTree(_) => [] case OutOfTree(p) => [p])
  }

  /** A later row for the same name replaces an earlier one. */
  function Reported(rows: seq<Entry>): map<Path, Row>
  {
    if rows == [] then map[]
    else Reported(rows[..|rows| - 1])[rows[|rows| - 1].key := rows[|rows| - 1].row]
  }

  /** The i-th row is the last one under its name. */
  ghost predicate LastRow(rows: seq<Entry>, i: nat, p: Path, row: Row)
    requires i < |rows|
  {
    rows[i] == Entry(p, row) && forall j :: i < j < |rows| ==> rows[j].key != p
  }

  ghost predicate HasRow(rows: seq<Entry>, p: Path, row: Row)
  {
    exists i: nat {:trigger LastRow(rows, i, p, row)} :: i < |rows| && LastRow(rows, i, p, row)
  }

  /** The row of a name is the last one under it. */
  lemma {:induction false} ReportedIs(rows: seq<Entry>, p: Path, row: Row)
    ensures p in Reported(rows) && Reported(rows)[p] == row <==> HasRow(rows, p, row)
    decreases |rows|
  {
    if rows != [] {
      var init, last := rows[..|rows| - 1], rows[|rows| - 1];
      ReportedIs(init, p, row);
      HasRowNext(init, last, p, row);
      assert rows == init + [last];
    }
  }

  lemma {:induction false} HasRowNext(init: seq<Entry>, last: Entry, p: Path, row: Row)
    ensures HasRow(init + [last], p, row) <==> if last.key == p then last.row == row else HasRow(init, p, row)
  {
    var rows := init + [last];
    assert rows[|init|] == last && forall i :: 0 <= i < |init| ==> rows[i] == init[i];
    if HasRow(rows, p, row) {
      var i: nat :| i < |rows| && LastRow(rows, i, p, row);
      if i < |init| { assert LastRow(init, i, p, row); }
    }
    if last == Entry(p, row) { assert LastRow(rows, |init|, p, row); }
    if last.key != p && HasRow(init, p, row) {
      var i: nat :| i < |init| && LastRow(init, i, p, row);
      assert LastRow(rows, i, p, row);
    }
  }

  /** Every row of the report is either a row of the tree, under its name there, or excluded. */
  lemma {:induction false} RowsSplit(files: seq<Entry>, root: Path, e: Entry, p: Path)
    ensures e in InTreeRows(files, root)
      <==> exists f :: f in files && LocateReportKey(f.key, root) == InTree(e.key) && f.row == e.row
    ensures p in Excluded(files, root)
      <==> exists f :: f in files && LocateReportKey(f.key, root) == OutOfTree(p)
    ensures |InTreeRows(files, root)| + |Excluded(files, root)| == |files|
    decreases |files|
  {
    if files != [] {
      var init, last := files[..|files| - 1], files[|files| - 1];
      RowsSplit(init, root, e, p);
      assert forall f :: f in files <==> f in init || f == last;
    }
  }

  function Drift(rows: seq<Entry>, tracked: seq<Path>): seq<Path>
  {
    if rows == [] then []
    else
      var last := rows[|rows| - 1].key;
      Drift(rows[..|rows| - 1], tracked) + (if last in tracked then [] else [last])
  }

  // ----- freshness -----

  predicate Usable(l: LineList)
  {
    l.Lines? && forall k :: 0 <= k < |l.items| ==> l.items[k].Number? && l.items[k].line > 0
  }

  function LineNumbers(l: LineList): set<int>
    requires Usable(l)
  {
    set k | 0 <= k < |l.items| :: l.items[k].line
  }

  method LineSet(l: LineList) returns (r: Option<set<int>>)
    ensures r == if Usable(l) then Some(LineNumbers(l)) else None
  {
    if l.NotAList? { return None; }
    var lines: set<int> := {};
    for i := 0 to |l.items|
      invariant forall k :: 0 <= k < i ==> l.items[k].Number? && l.items[k].line > 0
      invariant lines == set k | 0 <= k < i :: l.items[k].line
    {
      if l.items[i].Other? || l.items[i].line <= 0 { return None; }
      lines := lines + {l.items[i].line};
    }
    return Some(lines);
  }

  /** The current statements of a file; None when it cannot be parsed. */
  type Parser = Path -> Option<set<int>>

  predicate Readable(row: Row, current: Option<set<int>>)
  {
    row.Row? && Usable(row.executed) && Usable(row.missing) && Usable(row.excluded) && current.Some?
  }

  /** The row's line map and the current statements agree, up to excluded lines. */
  predicate LinedUp(row: Row, current: set<int>)
    requires Readable(row, Some(current))
  {
    var seen := LineNumbers(row.executed) + LineNumbers(row.missing);
    seen <= current <= seen + LineNumbers(row.excluded)
  }

  predicate CanJudge(path: Path, reported: map<Path, Row>, parse: Parser)
  {
    path in reported ==> Readable(reported[path], parse(path))
  }

  predicate Fresh(path: Path, reported: map<Path, Row>, parse: Parser)
    requires CanJudge(path, reported, parse)
  {
    path in reported ==> LinedUp(reported[path], parse(path).value)
  }

  /** None: freshness cannot be verified. Otherwise the tracked rows that describe another tree. */
  method AssessReportFreshness(files: seq<Entry>, tracked: seq<Path>, root: Path, parser: Option<Parser>)
    returns (stale: Option<seq<Path>>)
    ensures stale.Some? <==>
            parser.Some? && forall p :: p in tracked ==> CanJudge(p, Reported(InTreeRows(files, root)), parser.value)
    ensures stale.Some? ==> forall p :: p in stale.value <==>
              p in tracked && !Fresh(p, Reported(InTreeRows(files, root)), parser.value)
  {
    if parser.None? { return None; }
    ghost var all := Reported(InTreeRows(files, root));
    var reported := TrackedRows(files, tracked, root);
    var rows: seq<Path> := [];
    for i := 0 to |tracked|
      invariant forall k :: 0 <= k < i ==> CanJudge(tracked[k], all, parser.value)
      invariant forall p :: p in rows <==>
                  exists k :: 0 <= k < i && tracked[k] == p && !Fresh(p, all, parser.value)
    {
      var path := tracked[i];
      if path in reported {
        var bad, outdated := AssessRow(reported[path], parser.value(path));
        if bad {
          assert path in tracked && !CanJudge(path, all, parser.value);
          return None;
        }
        if outdated { rows := rows + [path]; }
      }
    }
    return Some(rows);
  }

  method TrackedRows(files: seq<Entry>, tracked: seq<Path>, root: Path) returns (reported: map<Path, Row>)
    ensures forall p :: p in tracked ==>
              var all := Reported(InTreeRows(files, root));
              (p in reported <==> p in all) && (p in all ==> reported[p] == all[p])
  {
    reported := map[];
    for i := 0 to |files|
      invariant forall p :: p in tracked ==>
                  var all := Reported(InTreeRows(files[..i], root));
                  (p in reported <==> p in all) && (p in all ==> reported[p] == all[p])
    {
      NextRow(files, i, root);
      var place := LocateReportKey(files[i].key, root);
      if place.InTree? && place.path in tracked {
        reported := reported[place.path := files[i].row];
      }
    }
    assert files[..|files|] == files;
  }

  lemma {:induction false} NextRow(files: seq<Entry>, i: nat, root: Path)
    requires i < |files|
    ensures match LocateReportKey(files[i].key, root)
            case InTree(p) =>
              && InTreeRows(files[..i + 1], root) == InTreeRows(files[..i], root) + [Entry(p, files[i].row)]
              && Reported(InTreeRows(files[..i + 1], root)) == Reported(InTreeRows(files[..i], root))[p := files[i].row]
            case OutOfTree(_) => InTreeRows(files[..i + 1], root) == InTreeRows(files[..i], root)
  {
    assert files[..i + 1][..i] == files[..i];
    var before := InTreeRows(files[..i], root);
    match LocateReportKey(files[i].key, root)
    case InTree(p) =>
      var after := before + [Entry(p, files[i].row)];
      assert after[..|after| - 1] == before;
    case OutOfTree(_) =>
  }

  lemma {:induction false} NoDifference(a: set<int>, b: set<int>)
    ensures a - b == {} <==> a <= b
  {
    if a - b == {} {
      forall x | x in a ensures x in b {
        assert x !in a - b;
      }
    }
  }

  /** One row against the current statements: unusable, or of another tree. */
  method AssessRow(row: Row, current: Option<set<int>>) returns (bad: bool, outdated: bool)
    ensures bad <==> !Readable(row, current)
    ensures !bad ==> (outdated <==> !LinedUp(row, current.value))
  {
    if row.NotAnObject? { return true, false; }
    var executed := LineSet(row.executed);
    var missing := LineSet(row.missing);
    var excluded := LineSet(row.excluded);
    if executed.None? || missing.None? || excluded.None? || current.None? { return true, false; }
    var seen := executed.value + missing.value;
    var ghosts := seen - current.value;
    var orphans := current.value - seen - excluded.value;
    NoDifference(seen, current.value);
    NoDifference(current.value, seen + excluded.value);
    assert orphans == current.value - (seen + excluded.value);
    return false, ghosts != {} || orphans != {};
  }

  // ----- the judge -----

  datatype Status = Clear | Below | Stale | Unmeasured

  datatype Outcome = Outcome(path: Path, status: Status, measured: Option<Number>, floor: int)

  function EffectiveFloor(floors: map<Path, int>, path: Path): int
  {
    if path in floors then floors[path] else DEFAULT_FLOOR
  }

  function Measured(reported: map<Path, Row>, path: Path): Option<Number>
  {
    if path in reported && reported[path].Row? then reported[path].percent else None
  }

  function Judge(measured: Option<Number>, floor: int): Status
  {
    if measured.None? then Unmeasured
    else if Less(measured.value, floor) then Below
    else if Greater(measured.value, floor + SLACK) then Stale
    else Clear
  }

  function OutcomeOf(path: Path, reported: map<Path, Row>, floors: map<Path, int>): Outcome
  {
    var measured := Measured(reported, path);
    var floor := EffectiveFloor(floors, path);
    Outcome(path, Judge(measured, floor), measured, floor)
  }

  /** The state of the row loop after n rows. */
  ghost predicate RowsRead(files: seq<Entry>, n: nat, tracked: seq<Path>, root: Path, reported: map<Path, Row>,
                           drift: seq<Path>, excluded: seq<Path>)
  {
    && n <= |files| && reported == Reported(InTreeRows(files[..n], root))
    && drift == Drift(InTreeRows(files[..n], root), tracked) && excluded == Excluded(files[..n], root)
  }

  lemma {:induction false} DriftSnoc(rows: seq<Entry>, e: Entry, tracked: seq<Path>)
    ensures Drift(rows + [e], tracked) == Drift(rows, tracked) + if e.key !in tracked then [e.key] else []
  {
    assert (rows + [e])[..|rows|] == rows;
  }

  lemma {:induction false} RowInTree(files: seq<Entry>, i: nat, tracked: seq<Path>, root: Path, p: Path,
                                     reported: map<Path, Row>, drift: seq<Path>, excluded: seq<Path>)
    requires i < |files| && RowsRead(files, i, tracked, root, reported, drift, excluded)
    requires LocateReportKey(files[i].key, root) == InTree(p)
    ensures RowsRead(files, i + 1, tracked, root, reported[p := files[i].row],
                     if p !in tracked then drift + [p] else drift, excluded)
  {
    NextRow(files, i, root);
    assert files[..i + 1][..i] == files[..i];
    DriftSnoc(InTreeRows(files[..i], root), Entry(p, files[i].row), tracked);
  }

  lemma {:induction false} RowOutOfTree(files: seq<Entry>, i: nat, tracked: seq<Path>, root: Path, p: Path,
                                        reported: map<Path, Row>, drift: seq<Path>, excluded: seq<Path>)
    requires i < |files| && RowsRead(files, i, tracked, root, reported, drift, excluded)
    requires LocateReportKey(files[i].key, root) == OutOfTree(p)
    ensures RowsRead(files, i + 1, tracked, root, reported, drift, excluded + [p])
  {
    NextRow(files, i, root);
    assert files[..i + 1][..i] == files[..i];
  }

  /** The loop over the rows of the report: a row of the tree is kept, and is drift if it is not tracked. */
  method ReadRows(files: seq<Entry>, tracked: seq<Path>, root: Path)
    returns (reported: map<Path, Row>, drift: seq<Path>, excluded: seq<Path>)
    ensures RowsRead(files, |files|, tracked, root, reported, drift, excluded)
  {
    reported, drift, excluded := map[], [], [];
    for i := 0 to |files|
      invariant RowsRead(files, i, tracked, root, reported, drift, excluded)
    {
      match LocateReportKey(files[i].key, root)
      case OutOfTree(p) =>
        RowOutOfTree(files, i, tracked, root, p, reported, drift, excluded);
        excluded := excluded + [p];
      case InTree(p) =>
        RowInTree(files, i, tracked, root, p, reported, drift, excluded);
        if p !in tracked { drift := drift + [p]; }
        reported := reported[p := files[i].row];
    }
  }

  /** One tracked module against its floor. */
  method JudgeModule(path: Path, reported: map<Path, Row>, floors: map<Path, int>) returns (o: Outcome)
    ensures o == OutcomeOf(path, reported, floors)
  {
    var floor := EffectiveFloor(floors, path);
    var measured: Option<Number> := None;
    if path in reported && reported[path].Row? { measured := reported[path].percent; }
    if measured.None? {
      o := Outcome(path, Unmeasured, None, floor);
    } else if Less(measured.value, floor) {
      o := Outcome(path, Below, measured, floor);
    } else if Greater(measured.value, floor + SLACK) {
      o := Outcome(path, Stale, measured, floor);
    } else {
      o := Outcome(path, Clear, measured, floor);
    }
  }

  function Outcomes(tracked: seq<Path>, reported: map<Path, Row>, floors: map<Path, int>): (r: seq<Outcome>)
  {
    seq(|tracked|, k requires 0 <= k < |tracked| => OutcomeOf(tracked[k], reported, floors))
  }

  method Evaluate(files: seq<Entry>, tracked: seq<Path>, floors: map<Path, int>, root: Path)
    returns (outcomes: seq<Outcome>, drift: seq<Path>, excluded: seq<Path>)
    ensures outcomes == Outcomes(tracked, Reported(InTreeRows(files, root)), floors)
    ensures drift == Drift(InTreeRows(files, root), tracked)
    ensures excluded == Excluded(files, root)
  {
    var reported;
    reported, drift, excluded := ReadRows(files, tracked, root);
    assert files[..|files|] == files;
    outcomes := [];
    for i := 0 to |tracked|
      invariant |outcomes| == i && forall k :: 0 <= k < i ==> outcomes[k] == OutcomeOf(tracked[k], reported, floors)
    {
      var o := JudgeModule(tracked[i], reported, floors);
      outcomes := outcomes + [o];
    }
  }

  // ----- the verdict -----

  datatype GateResult = GateResult(code: int, outcomes: seq<Outcome>, drift: seq<Path>, excluded: seq<Path>,
                                   measured: bool)

  const NOTHING: GateResult := GateResult(EXIT_UNMEASURED, [], [], [], false)

  /** The exit code over judged modules: not knowing outranks red, red outranks clear. */
  function CodeOf(outcomes: seq<Outcome>, drift: seq<Path>): int
  {
    var statuses := set o | o in outcomes :: o.status;
    if Unmeasured in statuses then EXIT_UNMEASURED
    else if drift != [] || Below in statuses || Stale in statuses then EXIT_RED
    else EXIT_CLEAR
  }

  /** Every tracked row of the report can be read and describes the current tree. */
  ghost predicate DescribesTree(tracked: seq<Path>, reported: map<Path, Row>, parser: Option<Parser>)
  {
    && parser.Some?
    && (forall p :: p in tracked ==> CanJudge(p, reported, parser.value))
    && forall p :: p in tracked ==> Fresh(p, reported, parser.value)
  }

  ghost function Verdict(report: Option<seq<Entry>>, tracked: seq<Path>, floors: map<Path, int>, root: Path,
                         checkFreshness: bool, parser: Option<Parser>): GateResult
  {
    if tracked == [] || report.None? || report.value == [] then NOTHING
    else
      var rows := InTreeRows(report.value, root);
      if checkFreshness && !DescribesTree(tracked, Reported(rows), parser) then NOTHING
      else
        var outcomes := Outcomes(tracked, Reported(rows), floors);
        GateResult(CodeOf(outcomes, Drift(rows, tracked)), outcomes, Drift(rows, tracked),
                   Excluded(report.value, root), true)
  }

  /** The measurement is outside the band; NaN compares with nothing. */
  predicate OutOfBand(n: Number, floor: int)
  {
    match n
    case Finite(v) => v < floor as real || v > (floor + 5) as real
    case NaN => false
    case _ => true
  }

  ghost predicate SomeMissing(tracked: seq<Path>, reported: map<Path, Row>)
  {
    exists p :: p in tracked && Measured(reported, p).None?
  }

  ghost predicate SomeOutOfBand(tracked: seq<Path>, reported: map<Path, Row>, floors: map<Path, int>)
  {
    exists p :: p in tracked && Measured(reported, p).Some?
                && OutOfBand(Measured(reported, p).value, EffectiveFloor(floors, p))
  }

  /**
   Unmeasured: nothing to judge, a report of another tree, or a tracked module without a
   measurement.  Red: otherwise, a module out of its band or a row of the tree that is not
   tracked.  Clear: neither.
   */
  ghost predicate CodeMeans(report: Option<seq<Entry>>, tracked: seq<Path>, floors: map<Path, int>, root: Path,
                            checkFreshness: bool, parser: Option<Parser>, code: int)
  {
    var rows := if report.Some? then InTreeRows(report.value, root) else [];
    var reported := Reported(rows);
    var unknown :=
      || tracked == [] || report.None? || report.value == []
      || (checkFreshness && !DescribesTree(tracked, reported, parser)) || SomeMissing(tracked, reported);
    var wrong := SomeOutOfBand(tracked, reported, floors) || exists e :: e in rows && e.key !in tracked;
    code == if unknown then 95 else if wrong then 5 else 0
  }

  lemma {:induction false} StatusMeans(measured: Option<Number>, floor: int)
    ensures Judge(measured, floor) == Unmeasured <==> measured.None?
    ensures Judge(measured, floor) in {Below, Stale} <==> measured.Some? && OutOfBand(measured.value, floor)
  {
  }

  lemma {:induction false} StatusesMean(tracked: seq<Path>, reported: map<Path, Row>, floors: map<Path, int>)
    ensures var statuses := set o | o in Outcomes(tracked, reported, floors) :: o.status;
      && (Unmeasured in statuses <==> SomeMissing(tracked, reported))
      && (Below in statuses || Stale in statuses <==> SomeOutOfBand(tracked, reported, floors))
  {
    var outcomes := Outcomes(tracked, reported, floors);
    forall o ensures o in outcomes <==> exists p :: p in tracked && o == OutcomeOf(p, reported, floors) {
      OutcomeIn(tracked, reported, floors, o);
    }
    forall p | p in tracked ensures OutcomeOf(p, reported, floors) in outcomes {}
    forall p { StatusMeans(Measured(reported, p), EffectiveFloor(floors, p)); }
  }

  lemma {:induction false} OutcomeIn(tracked: seq<Path>, reported: map<Path, Row>, floors: map<Path, int>, o: Outcome)
    ensures o in Outcomes(tracked, reported, floors)
      <==> exists p :: p in tracked && o == OutcomeOf(p, reported, floors)
  {
    var outcomes := Outcomes(tracked, reported, floors);
    assert forall k :: 0 <= k < |tracked| ==> outcomes[k] == OutcomeOf(tracked[k], reported, floors);
    if p :| p in tracked && o == OutcomeOf(p, reported, floors) {
      var k :| 0 <= k < |tracked| && tracked[k] == p;
      assert outcomes[k] in outcomes;
    }
  }

  lemma {:induction false} DriftMembers(rows: seq<Entry>, tracked: seq<Path>)
    ensures Drift(rows, tracked) == [] <==> forall e :: e in rows ==> e.key in tracked
    decreases |rows|
  {
    if rows != [] {
      DriftMembers(rows[..|rows| - 1], tracked);
      assert forall e :: e in rows <==> e in rows[..|rows| - 1] || e == rows[|rows| - 1];
    }
  }

  lemma {:induction false} VerdictMeans(report: Option<seq<Entry>>, tracked: seq<Path>, floors: map<Path, int>,
                                        root: Path, checkFreshness: bool, parser: Option<Parser>)
    ensures CodeMeans(report, tracked, floors, root, checkFreshness, parser,
                      Verdict(report, tracked, floors, root, checkFreshness, parser).code)
  {
    if report.Some? {
      var rows := InTreeRows(report.value, root);
      DriftMembers(rows, tracked);
      StatusesMean(tracked, Reported(rows), floors);
    }
  }

  /** `report` is None when the file is missing, not JSON, or has no usable `files`. */
  method Measure(report: Option<seq<Entry>>, tracked: seq<Path>, floors: map<Path, int>, root: Path,
                 checkFreshness: bool, parser: Option<Parser>)
    returns (r: GateResult)
    ensures r == Verdict(report, tracked, floors, root, checkFreshness, parser)
    ensures CodeMeans(report, tracked, floors, root, checkFreshness, parser, r.code)
  {
    VerdictMeans(report, tracked, floors, root, checkFreshness, parser);
    if tracked == [] || report.None? || report.value == [] { return NOTHING; }
    var files := report.value;
    if checkFreshness {
      var stale := AssessReportFreshness(files, tracked, root, parser);
      if stale.None? { return NOTHING; }
      if stale.value != [] {
        assert stale.value[0] in stale.value;
        return NOTHING;
      }
    }
    var outcomes, drift, excluded := Evaluate(files, tracked, floors, root);
    return GateResult(CodeOf(outcomes, drift), outcomes, drift, excluded, true);
  }

  predicate InBand(n: Number, floor: int)
  {
    n.Finite? && floor as real <= n.value <= (floor + SLACK) as real
  }

  /** What the judge accepts: a percentage inside the inclusive band, or NaN. */
  predicate Accepted(measured: Option<Number>, floor: int)
  {
    measured.Some? && (InBand(measured.value, floor) || measured.value == NaN)
  }

  lemma {:induction false} CodeExactly(tracked: seq<Path>, reported: map<Path, Row>, floors: map<Path, int>,
                                       drift: seq<Path>)
    ensures CodeOf(Outcomes(tracked, reported, floors), drift) == EXIT_CLEAR <==>
            drift == [] && forall p :: p in tracked ==>
              Accepted(Measured(reported, p), EffectiveFloor(floors, p))
  {
    var outcomes := Outcomes(tracked, reported, floors);
    assert forall k :: 0 <= k < |tracked| ==> outcomes[k] == OutcomeOf(tracked[k], reported, floors);
    forall p | p in tracked ensures OutcomeOf(p, reported, floors) in outcomes {
      var k :| 0 <= k < |tracked| && tracked[k] == p;
      assert outcomes[k] in outcomes;
    }
  }

  /** CLEAR exactly when there is something to judge, the report describes this tree, every
      tracked module is accepted and no row of the tree is untracked. */
  lemma {:induction false} ClearExactly(report: Option<seq<Entry>>, tracked: seq<Path>, floors: map<Path, int>,
                                        root: Path, parser: Option<Parser>)
    ensures Verdict(report, tracked, floors, root, true, parser).code == EXIT_CLEAR <==>
            && tracked != [] && report.Some? && report.value != []
            && var rows := InTreeRows(report.value, root);
            && DescribesTree(tracked, Reported(rows), parser)
            && (forall p :: p in tracked ==> Accepted(Measured(Reported(rows), p), EffectiveFloor(floors, p)))
            && (forall e :: e in rows ==> e.key in tracked)
  {
    if report.Some? {
      var rows := InTreeRows(report.value, root);
      DriftMembers(rows, tracked);
      CodeExactly(tracked, Reported(rows), floors, Drift(rows, tracked));
    }
  }

  /** Rows outside the tree never change the exit code, wherever they are added or removed. */
  lemma {:induction false} OutOfTreeIsInert(a: seq<Entry>, b: seq<Entry>, tracked: seq<Path>, floors: map<Path, int>,
                                            root: Path, checkFreshness: bool, parser: Option<Parser>)
    requires InTreeRows(a, root) == InTreeRows(b, root)
    ensures Verdict(Some(a), tracked, floors, root, checkFreshness, parser).code
         == Verdict(Some(b), tracked, floors, root, checkFreshness, parser).code
  {
    NoRowsUnmeasured(a, tracked, floors, root, checkFreshness, parser);
    NoRowsUnmeasured(b, tracked, floors, root, checkFreshness, parser);
    assert InTreeRows([], root) == [];
  }

  /** A report without a row of the tree measures nothing. */
  lemma {:induction false} NoRowsUnmeasured(files: seq<Entry>, tracked: seq<Path>, floors: map<Path, int>, root: Path,
                         checkFreshness: bool, parser: Option<Parser>)
    ensures InTreeRows(files, root) == [] ==>
            Verdict(Some(files), tracked, floors, root, checkFreshness, parser).code == EXIT_UNMEASURED
  {
    if InTreeRows(files, root) == [] && tracked != [] {
      var outcomes := Outcomes(tracked, map[], floors);
      assert outcomes[0] == OutcomeOf(tracked[0], map[], floors) && outcomes[0] in outcomes;
    }
  }

  // ----- the updater -----

  /** The floor the update writes for one outcome, if it writes one. */
  function Written(o: Outcome, existing: map<Path, int>): Option<int>
  {
    match o.measured
    case None => if o.path in existing then Some(existing[o.path]) else None
    case Some(n) => if InBand(n, DEFAULT_FLOOR) || !n.Finite? then None else Some(n.value.Floor)
  }

  /** math.floor raises on NaN and on the infinities. */
  predicate Raises(o: Outcome) { o.measured.Some? && !o.measured.value.Finite? }

  /** The last write of each path. */
  function UpdatedFloors(outcomes: seq<Outcome>, existing: map<Path, int>): map<Path, int>
  {
    if outcomes == [] then map[]
    else
      var last := outcomes[|outcomes| - 1];
      var before := UpdatedFloors(outcomes[..|outcomes| - 1], existing);
      match Written(last, existing) case None => before case Some(floor) => before[last.path := floor]
  }

  /** What the outcome asks to be written: the greatest integer not above a measurement out of the default band. */
  ghost predicate Asks(o: Outcome, existing: map<Path, int>, floor: int)
  {
    match o.measured
    case None => o.path in existing && floor == existing[o.path]
    case Some(n) =>
      && n.Finite? && (n.value < 90.0 || n.value > 95.0)
      && floor as real <= n.value < (floor + 1) as real
  }

  /** The outcome writes nothing: it is inside the default band, or neither measured nor floored. */
  ghost predicate Silent(o: Outcome, existing: map<Path, int>)
  {
    match o.measured
    case None => o.path !in existing
    case Some(n) => n.Finite? && 90.0 <= n.value <= 95.0
  }

  /** The i-th outcome is the last one that writes for its path, and asks for this. */
  ghost predicate LastAsks(outcomes: seq<Outcome>, existing: map<Path, int>, i: nat, p: Path, floor: int)
    requires i < |outcomes|
  {
    && outcomes[i].path == p && Asks(outcomes[i], existing, floor)
    && forall j :: i < j < |outcomes| && outcomes[j].path == p ==> Silent(outcomes[j], existing)
  }

  ghost predicate Wanted(outcomes: seq<Outcome>, existing: map<Path, int>, p: Path, floor: int)
  {
    exists i: nat :: i < |outcomes| && LastAsks(outcomes, existing, i, p, floor)
  }

  /** The table holds, for each path, what the last outcome that writes for it asks for, and nothing else. */
  ghost predicate TableHolds(table: map<Path, int>, outcomes: seq<Outcome>, existing: map<Path, int>)
  {
    forall p, floor :: (p in table && table[p] == floor) <==> Wanted(outcomes, existing, p, floor)
  }

  lemma {:induction false} AsksIff(o: Outcome, existing: map<Path, int>, floor: int)
    requires !Raises(o)
    ensures Asks(o, existing, floor) <==> Written(o, existing) == Some(floor)
    ensures Silent(o, existing) <==> Written(o, existing) == None
  {
  }

  lemma {:induction false} WantedNext(init: seq<Outcome>, last: Outcome, existing: map<Path, int>, p: Path, floor: int)
    requires !Raises(last)
    ensures Wanted(init + [last], existing, p, floor) <==>
      if last.path == p && Written(last, existing).Some? then Written(last, existing) == Some(floor)
      else Wanted(init, existing, p, floor)
  {
    var all := init + [last];
    AsksIff(last, existing, floor);
    if Wanted(all, existing, p, floor) {
      var i: nat :| i < |all| && LastAsks(all, existing, i, p, floor);
      if i < |init| {
        assert all[|init|] == last && forall j :: 0 <= j < |init| ==> all[j] == init[j];
        assert LastAsks(init, existing, i, p, floor);
      }
    }
    if Wanted(init, existing, p, floor) && (last.path == p ==> Written(last, existing).None?) {
      var i: nat :| i < |init| && LastAsks(init, existing, i, p, floor);
      assert LastAsks(all, existing, i, p, floor);
    }
    if last.path == p && Asks(last, existing, floor) { assert LastAsks(all, existing, |init|, p, floor); }
  }

  lemma {:induction false} UpdatedHolds(outcomes: seq<Outcome>, existing: map<Path, int>)
    requires forall o :: o in outcomes ==> !Raises(o)
    ensures TableHolds(UpdatedFloors(outcomes, existing), outcomes, existing)
    decreases |outcomes|
  {
    if outcomes != [] {
      var init, last := outcomes[..|outcomes| - 1], outcomes[|outcomes| - 1];
      UpdatedHolds(init, existing);
      assert outcomes == init + [last];
      forall p, floor ensures var table := UpdatedFloors(outcomes, existing);
        (p in table && table[p] == floor) <==> Wanted(outcomes, existing, p, floor)
      {
        WantedNext(init, last, existing, p, floor);
        assert Wanted(init, existing, p, floor)
          <==> p in UpdatedFloors(init, existing) && UpdatedFloors(init, existing)[p] == floor;
      }
    }
  }

  /** None when math.floor raises: then no table is written. */
  method ComputeUpdatedFloors(outcomes: seq<Outcome>, existing: map<Path, int>)
    returns (floors: Option<map<Path, int>>, carried: seq<Path>, unfloored: seq<Path>)
    ensures floors.None? <==> exists o :: o in outcomes && Raises(o)
    ensures floors.Some? ==> floors.value == UpdatedFloors(outcomes, existing)
    ensures floors.Some? ==> TableHolds(floors.value, outcomes, existing)
    ensures floors.Some? ==> forall p :: p in carried <==>
              exists o :: o in outcomes && o.path == p && o.measured.None? && p in existing
    ensures floors.Some? ==> forall p :: p in unfloored <==>
              exists o :: o in outcomes && o.path == p && o.measured.None? && p !in existing
  {
    var table: map<Path, int> := map[];
    carried, unfloored := [], [];
    for i := 0 to |outcomes|
      invariant forall k :: 0 <= k < i ==> !Raises(outcomes[k])
      invariant table == UpdatedFloors(outcomes[..i], existing)
      invariant forall p :: p in carried <==>
                  exists k :: 0 <= k < i && outcomes[k].path == p && outcomes[k].measured.None? && p in existing
      invariant forall p :: p in unfloored <==>
                  exists k :: 0 <= k < i && outcomes[k].path == p && outcomes[k].measured.None? && p !in existing
    {
      var o := outcomes[i];
      assert outcomes[..i + 1][..i] == outcomes[..i];
      if o.measured.None? {
        if o.path in existing {
          table := table[o.path := existing[o.path]];
          carried := carried + [o.path];
        } else {
          unfloored := unfloored + [o.path];
        }
      } else if !InBand(o.measured.value, DEFAULT_FLOOR) {
        if !o.measured.value.Finite? {
          assert o in outcomes && Raises(o);
          return None, [], [];
        }
        table := table[o.path := o.measured.value.value.Floor];
      }
    }
    assert outcomes[..|outcomes|] == outcomes;
    assert TableHolds(table, outcomes, existing) by { UpdatedHolds(outcomes, existing); }
    return Some(table), carried, unfloored;
  }

  // ----- the updater clears what the judge reports -----

  lemma {:induction false} UpdatedEntries(tracked: seq<Path>, reported: map<Path, Row>, floors: map<Path, int>, p: Path)
    ensures
      var table := UpdatedFloors(Outcomes(tracked, reported, floors), floors);
      var w := Written(OutcomeOf(p, reported, floors), floors);
      && (p in table <==> p in tracked && w.Some?)
      && (p in table ==> table[p] == w.value)
    decreases |tracked|
  {
    if tracked != [] {
      var n := |tracked| - 1;
      UpdatedEntries(tracked[..n], reported, floors, p);
      var outcomes := Outcomes(tracked, reported, floors);
      assert outcomes[..n] == Outcomes(tracked[..n], reported, floors);
      assert p in tracked <==> p in tracked[..n] || p == tracked[n];
    }
  }

  /** No tracked module with a measurement that math.floor cannot take. */
  predicate AllFinite(tracked: seq<Path>, reported: map<Path, Row>)
  {
    forall p :: p in tracked ==>
      var m := Measured(reported, p); m.Some? ==> m.value.Finite?
  }

  /** One module after the update: never red, its floor not above its measurement, and an
      unmeasured module keeps the floor it had. */
  lemma {:induction false} ModuleRepaired(tracked: seq<Path>, reported: map<Path, Row>, floors: map<Path, int>, p: Path)
    requires p in tracked && AllFinite(tracked, reported)
    ensures
      var table := UpdatedFloors(Outcomes(tracked, reported, floors), floors);
      var after := OutcomeOf(p, reported, table);
      && after.status !in {Below, Stale}
      && (after.measured.None? ==> after.floor == EffectiveFloor(floors, p))
      && (after.measured.Some? ==> InBand(after.measured.value, after.floor))
  {
    UpdatedEntries(tracked, reported, floors, p);
  }

  /** The updater repairs the judge: re-evaluating the same report under the new table finds no
      module below or above its band, unmeasured modules keep their effective floor, and updating
      again changes nothing. Untracked entries are dropped. */
  lemma {:induction false} UpdateRepairs(tracked: seq<Path>, reported: map<Path, Row>, floors: map<Path, int>)
    requires AllFinite(tracked, reported)
    ensures
      var table := UpdatedFloors(Outcomes(tracked, reported, floors), floors);
      var after := Outcomes(tracked, reported, table);
      && (forall o :: o in after ==> o.status !in {Below, Stale})
      && (forall o :: o in after && o.measured.None? ==> o.floor == EffectiveFloor(floors, o.path))
      && UpdatedFloors(after, table) == table
      && (forall p :: p in table ==> p in tracked)
  {
    var table := UpdatedFloors(Outcomes(tracked, reported, floors), floors);
    var after := Outcomes(tracked, reported, table);
    var again := UpdatedFloors(after, table);
    forall o | o in after
      ensures o.status !in {Below, Stale}
      ensures o.measured.None? ==> o.floor == EffectiveFloor(floors, o.path)
    {
      var k :| 0 <= k < |after| && after[k] == o;
      ModuleRepaired(tracked, reported, floors, tracked[k]);
    }
    forall p ensures p in again <==> p in table
             ensures p in table ==> again[p] == table[p] && p in tracked {
      UpdatedEntries(tracked, reported, floors, p);
      UpdatedEntries(tracked, reported, table, p);
    }
  }

  /** The update goes through exactly when every measurement is finite. */
  lemma {:induction false} UpdateRaises(tracked: seq<Path>, reported: map<Path, Row>, floors: map<Path, int>)
    ensures (exists o :: o in Outcomes(tracked, reported, floors) && Raises(o)) <==> !AllFinite(tracked, reported)
  {
    var outcomes := Outcomes(tracked, reported, floors);
    assert forall k :: 0 <= k < |tracked| ==> outcomes[k] == OutcomeOf(tracked[k], reported, floors);
    forall p | p in tracked ensures OutcomeOf(p, reported, floors) in outcomes {
      var k :| 0 <= k < |tracked| && tracked[k] == p;
      assert outcomes[k] in outcomes;
    }
    if o :| o in outcomes && Raises(o) {
      var k :| 0 <= k < |outcomes| && outcomes[k] == o;
      assert tracked[k] in tracked;
    }
  }

  /** A percentage of NaN is inside no band, yet the judge calls the module clear, whatever its
      floor, and the update raises. */
  lemma {:induction false} NaNIsClear(path: Path, floor: int)
    ensures
      var row := Row(Some(NaN), Lines([]), Lines([]), Lines([]));
      var o := OutcomeOf(path, map[path := row], map[path := floor]);
      o.status == Clear && !InBand(NaN, floor) && Raises(o)
  {
    var row := Row(Some(NaN), Lines([]), Lines([]), Lines([]));
    assert Measured(map[path := row], path) == Some(NaN);
  }
}
