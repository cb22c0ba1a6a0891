/**
 checks/citation_lines.py: which tracked path a citation names, and the conserved counts of
 the scan. Citation tokens are given as the matches found on each line.
 */
module Citations {
  import opened PathAlgebra

  const EXIT_CLEAR: int := 0
  const EXIT_RED: int := 5
  const EXIT_UNMEASURED: int := 95
  const EXIT_REFUSE: int := 96

  // ----- resolution -----

  /** Step 2 of the resolver: the cited path read from the citing file's directory. */
  function Joined(citing: Path, cited: Path): Option<Path>
  {
    Normal(Parent(citing) + cited)
  }

  /** A tracked path that ends with a slash and the cited path. */
  predicate SuffixMatch(p: Path, cited: Path)
  {
    p == cited || (|cited| < |p| && EndsWith(p, cited))
  }

  function SuffixMatches(tracked: seq<Path>, cited: Path): seq<Path>
  {
    if tracked == [] then []
    else (if SuffixMatch(tracked[0], cited) then [tracked[0]] else []) + SuffixMatches(tracked[1..], cited)
  }

  /** `tracked` lists the set in the order Python happens to iterate it. */
  function Resolve(tracked: seq<Path>, citing: Path, cited: Path): Option<Path>
  {
    if cited in tracked then Some(cited)
    else
      var joined := Joined(citing, cited);
      if joined.Some? && joined.value in tracked then joined
      else
        var matches := SuffixMatches(tracked, cited);
        if |matches| == 1 then Some(matches[0]) else None
  }

  function All(tracked: seq<Path>): set<Path>
  {
    set p | p in tracked
  }

  ghost predicate Distinct<T(!new)>(s: seq<T>)
  {
    forall i, j :: 0 <= i < j < |s| ==> s[i] != s[j]
  }

  /** The names of the file without the last; a path without names lies in the root. */
  ghost predicate LiesIn(file: Path, dir: Path)
  {
    (Kept(file) == [] && dir == []) || exists name :: Kept(file) == dir + [name]
  }

  /** The cited path, read from the directory of the citing file, is t. */
  ghost predicate JoinsTo(citing: Path, cited: Path, t: Path)
  {
    exists dir {:trigger LiesIn(citing, dir)} :: LiesIn(citing, dir) && Normal(dir + cited) == Some(t)
  }

  /** The path is the cited one, or has it behind further directories. */
  ghost predicate EndsIn(p: Path, cited: Path)
  {
    exists before: Path :: p == before + cited
  }

  /** What a citation denotes, without any order: the first of the three readings that applies. */
  ghost predicate Denotes(tracked: set<Path>, citing: Path, cited: Path, t: Path)
  {
    if cited in tracked then t == cited
    else if exists u {:trigger JoinsTo(citing, cited, u)} :: u in tracked && JoinsTo(citing, cited, u) then
      JoinsTo(citing, cited, t)
    else UniqueSuffix(tracked, cited, t)
  }

  ghost predicate UniqueSuffix(tracked: set<Path>, cited: Path, t: Path)
  {
    && t in tracked && EndsIn(t, cited)
    && forall u :: u in tracked && EndsIn(u, cited) ==> u == t
  }

  lemma {:induction false} SuffixIff(p: Path, cited: Path)
    ensures SuffixMatch(p, cited) <==> EndsIn(p, cited)
  {
    if SuffixMatch(p, cited) {
      var before := p[..|p| - |cited|];
      assert p == before + cited;
    }
    if before: Path :| p == before + cited {
      assert p[|p| - |cited|..] == cited;
      if before == [] { assert p == cited; }
    }
  }

  lemma {:induction false} LiesInIff(file: Path, dir: Path)
    ensures LiesIn(file, dir) <==> dir == Parent(file)
  {
    var q := Kept(file);
    if q != [] { assert q == q[..|q| - 1] + [q[|q| - 1]]; }
    if name :| q == dir + [name] { assert dir == q[..|q| - 1]; }
  }

  lemma {:induction false} JoinsIff(citing: Path, cited: Path, t: Path)
    ensures JoinsTo(citing, cited, t) <==> Joined(citing, cited) == Some(t)
  {
    LiesInIff(citing, Parent(citing));
    forall dir | LiesIn(citing, dir) ensures dir == Parent(citing) { LiesInIff(citing, dir); }
  }

  lemma {:induction false} SuffixMatchesMembers(tracked: seq<Path>, cited: Path, p: Path)
    ensures p in SuffixMatches(tracked, cited) <==> p in tracked && SuffixMatch(p, cited)
    ensures Distinct(tracked) ==> Distinct(SuffixMatches(tracked, cited))
    decreases |tracked|
  {
    if tracked != [] {
      SuffixMatchesMembers(tracked[1..], cited, p);
      if Distinct(tracked) {
        SuffixMatchesMembers(tracked[1..], cited, tracked[0]);
        assert tracked[0] !in SuffixMatches(tracked[1..], cited);
      }
    }
  }

  lemma {:induction false} OnlyElement(s: seq<Path>, t: Path)
    requires Distinct(s) && t in s && forall p :: p in s ==> p == t
    ensures s == [t]
  {
    forall k | 0 <= k < |s| ensures s[k] == t {
      assert s[k] in s;
    }
    var first, last := s[0], s[|s| - 1];
    if |s| > 1 { assert false; }
  }

  /** Resolution only returns tracked paths, and is the one reading that `Denotes` allows. */
  lemma {:induction false} ResolveDenotes(tracked: seq<Path>, citing: Path, cited: Path, t: Path)
    requires Distinct(tracked)
    ensures Resolve(tracked, citing, cited) == Some(t) <==> Denotes(All(tracked), citing, cited, t)
    ensures Resolve(tracked, citing, cited) == Some(t) ==> t in tracked
  {
    forall u ensures JoinsTo(citing, cited, u) <==> Joined(citing, cited) == Some(u) { JoinsIff(citing, cited, u); }
    OnlyMatch(tracked, cited, t);
  }

  /** One match: the unique suffix. */
  lemma {:induction false} OnlyMatch(tracked: seq<Path>, cited: Path, t: Path)
    requires Distinct(tracked)
    ensures SuffixMatches(tracked, cited) == [t] <==> UniqueSuffix(All(tracked), cited, t)
  {
    var all := All(tracked);
    var matches := SuffixMatches(tracked, cited);
    forall p ensures p in matches <==> p in all && EndsIn(p, cited) {
      SuffixMatchesMembers(tracked, cited, p);
      SuffixIff(p, cited);
    }
    SuffixMatchesMembers(tracked, cited, t);
    if UniqueSuffix(all, cited, t) {
      OnlyElement(matches, t);
    }
    if matches == [t] { assert t in matches; }
  }

  /** The order in which the set is iterated is irrelevant. */
  lemma {:induction false} ResolveOrderFree(a: seq<Path>, b: seq<Path>, citing: Path, cited: Path)
    requires Distinct(a) && Distinct(b)
    requires All(a) == All(b)
    ensures Resolve(a, citing, cited) == Resolve(b, citing, cited)
  {
    var x, y := Resolve(a, citing, cited), Resolve(b, citing, cited);
    if x.Some? {
      ResolveDenotes(a, citing, cited, x.value);
      ResolveDenotes(b, citing, cited, x.value);
    }
    if y.Some? {
      ResolveDenotes(a, citing, cited, y.value);
      ResolveDenotes(b, citing, cited, y.value);
    }
  }

  // ----- the scan -----

  datatype Token = Token(cited: Path, lo: nat, hi: Option<nat>)

  /** The tokens on each line; None for a file that is unreadable or not UTF-8. */
  datatype File = File(rel: Path, lines: Option<seq<seq<Token>>>)

  datatype Kind = OutOfRange | Malformed | Unreadable

  datatype RedRow = RedRow(kind: Kind, citing: Path, line: nat, token: Token, target: Path, targetLines: int)

  datatype Citation = Citation(citing: Path, line: nat, token: Token)

  datatype Finding = Verified(target: Path) | Red(row: RedRow) | Unresolved

  /** What a reader of the tree would find behind one citation. */
  function Judge(tracked: seq<Path>, counts: map<Path, nat>, c: Citation): Finding
  {
    match Resolve(tracked, c.citing, c.token.cited)
    case None => Unresolved
    case Some(target) =>
      var hi := HighLine(c.token);
      if target !in counts then Red(RedRow(Unreadable, c.citing, c.line, c.token, target, -1))
      else if 1 <= c.token.lo <= hi <= counts[target] then Verified(target)
      else Red(RedRow(if c.token.lo > hi then Malformed else OutOfRange,
                      c.citing, c.line, c.token, target, counts[target]))
  }

  function HighLine(t: Token): nat
  {
    if t.hi.Some? then t.hi.value else t.lo
  }

  function LineCitations(rel: Path, number: nat, tokens: seq<Token>): seq<Citation>
  {
    if tokens == [] then []
    else LineCitations(rel, number, tokens[..|tokens| - 1]) + [Citation(rel, number, tokens[|tokens| - 1])]
  }

  function FileCitations(rel: Path, lines: seq<seq<Token>>): seq<Citation>
  {
    if lines == [] then []
    else FileCitations(rel, lines[..|lines| - 1]) + LineCitations(rel, |lines|, lines[|lines| - 1])
  }

  lemma {:induction false} NextLine(cs: seq<Citation>, rel: Path, lines: seq<seq<Token>>, i: nat)
    requires i < |lines|
    ensures cs + FileCitations(rel, lines[..i + 1])
         == cs + FileCitations(rel, lines[..i]) + LineCitations(rel, i + 1, lines[i])
  {
    assert lines[..i + 1][..i] == lines[..i];
  }

  function AllCitations(files: seq<File>): seq<Citation>
  {
    if files == [] then []
    else
      var last := files[|files| - 1];
      AllCitations(files[..|files| - 1])
      + (if last.lines.Some? then FileCitations(last.rel, last.lines.value) else [])
  }

  function RedRows(tracked: seq<Path>, counts: map<Path, nat>, cs: seq<Citation>): seq<RedRow>
  {
    if cs == [] then []
    else
      var f := Judge(tracked, counts, cs[|cs| - 1]);
      RedRows(tracked, counts, cs[..|cs| - 1]) + (if f.Red? then [f.row] else [])
  }

  function UnresolvedRows(tracked: seq<Path>, counts: map<Path, nat>, cs: seq<Citation>): seq<Citation>
  {
    if cs == [] then []
    else
      var last := cs[|cs| - 1];
      UnresolvedRows(tracked, counts, cs[..|cs| - 1])
      + (if Judge(tracked, counts, last).Unresolved? then [last] else [])
  }

  function VerifiedCount(tracked: seq<Path>, counts: map<Path, nat>, cs: seq<Citation>): nat
  {
    if cs == [] then 0
    else VerifiedCount(tracked, counts, cs[..|cs| - 1])
         + (if Judge(tracked, counts, cs[|cs| - 1]).Verified? then 1 else 0)
  }

  /** The counts are conserved: every citation is verified, red or unresolved, and only one of them. */
  lemma {:induction false} CountsBalance(tracked: seq<Path>, counts: map<Path, nat>, cs: seq<Citation>)
    ensures |cs| == VerifiedCount(tracked, counts, cs) + |RedRows(tracked, counts, cs)|
                    + |UnresolvedRows(tracked, counts, cs)|
    decreases |cs|
  {
    if cs != [] { CountsBalance(tracked, counts, cs[..|cs| - 1]); }
  }

  /** A report of a scan: the fields are those of the source, `cache` is the scan's own. */
  class Report {
    var filesScanned: nat
    var filesSkipped: nat
    var denominator: nat
    var verified: nat
    var red: seq<RedRow>
    var unresolved: seq<Citation>
    var cache: map<Path, nat>

    /** The report describes exactly the citations `cs`, and the cache holds true counts only. */
    ghost predicate Describes(tracked: seq<Path>, counts: map<Path, nat>, cs: seq<Citation>)
      reads this
    {
      && denominator == |cs|
      && verified == VerifiedCount(tracked, counts, cs)
      && red == RedRows(tracked, counts, cs)
      && unresolved == UnresolvedRows(tracked, counts, cs)
      && forall p :: p in cache ==> p in counts && cache[p] == counts[p]
    }

    constructor ()
      ensures Describes([], map[], []) && cache == map[] && filesScanned == filesSkipped == 0
    {
      filesScanned, filesSkipped, denominator, verified := 0, 0, 0, 0;
      red, unresolved, cache := [], [], map[];
    }

    /** A target's true line count, read once. */
    method LineCount(counts: map<Path, nat>, rel: Path) returns (r: Option<nat>)
      requires forall p :: p in cache ==> p in counts && cache[p] == counts[p]
      modifies this`cache
      ensures r == if rel in counts then Some(counts[rel]) else None
      ensures forall p :: p in cache ==> p in counts && cache[p] == counts[p]
    {
      if rel in cache { return Some(cache[rel]); }
      if rel !in counts { return None; }
      cache := cache[rel := counts[rel]];
      return Some(counts[rel]);
    }

    method Cite(tracked: seq<Path>, counts: map<Path, nat>, ghost cs: seq<Citation>, c: Citation)
      requires Describes(tracked, counts, cs)
      modifies this`denominator, this`verified, this`red, this`unresolved, this`cache
      ensures Describes(tracked, counts, cs + [c])
    {
      assert (cs + [c])[..|cs + [c]| - 1] == cs;
      denominator := denominator + 1;
      var target := Resolve(tracked, c.citing, c.token.cited);
      if target.None? {
        unresolved := unresolved + [c];
        return;
      }
      var hi := HighLine(c.token);
      var lines := LineCount(counts, target.value);
      if lines.None? {
        red := red + [RedRow(Unreadable, c.citing, c.line, c.token, target.value, -1)];
      } else if 1 <= c.token.lo <= hi <= lines.value {
        verified := verified + 1;
      } else {
        var kind := if c.token.lo > hi then Malformed else OutOfRange;
        red := red + [RedRow(kind, c.citing, c.line, c.token, target.value, lines.value)];
      }
    }

    method ScanLine(tracked: seq<Path>, counts: map<Path, nat>, ghost cs: seq<Citation>,
                    rel: Path, number: nat, tokens: seq<Token>)
      requires Describes(tracked, counts, cs)
      modifies this`denominator, this`verified, this`red, this`unresolved, this`cache
      ensures Describes(tracked, counts, cs + LineCitations(rel, number, tokens))
    {
      assert cs + [] == cs;
      for j := 0 to |tokens|
        invariant Describes(tracked, counts, cs + LineCitations(rel, number, tokens[..j]))
      {
        ghost var done := LineCitations(rel, number, tokens[..j]);
        var c := Citation(rel, number, tokens[j]);
        Cite(tracked, counts, cs + done, c);
        assert tokens[..j + 1][..j] == tokens[..j];
        assert cs + done + [c] == cs + (done + [c]);
      }
      assert tokens[..|tokens|] == tokens;
    }

    method ScanFile(tracked: seq<Path>, counts: map<Path, nat>, ghost cs: seq<Citation>,
                    rel: Path, lines: seq<seq<Token>>)
      requires Describes(tracked, counts, cs)
      modifies this`denominator, this`verified, this`red, this`unresolved, this`cache
      ensures Describes(tracked, counts, cs + FileCitations(rel, lines))
    {
      assert cs + [] == cs;
      for i := 0 to |lines|
        invariant Describes(tracked, counts, cs + FileCitations(rel, lines[..i]))
      {
        ScanLine(tracked, counts, cs + FileCitations(rel, lines[..i]), rel, i + 1, lines[i]);
        NextLine(cs, rel, lines, i);
      }
      assert lines[..|lines|] == lines;
    }

    /** One code over the report of the citations `cs`. */
    method GateExitCode(ghost tracked: seq<Path>, ghost counts: map<Path, nat>, ghost cs: seq<Citation>)
      returns (code: int)
      requires Describes(tracked, counts, cs) && Distinct(tracked)
      ensures Means(tracked, counts, cs, code)
    {
      VerdictExactly(tracked, counts, cs);
      if denominator == 0 { return EXIT_REFUSE; }
      if red != [] { return EXIT_RED; }
      if verified == 0 { return EXIT_UNMEASURED; }
      return EXIT_CLEAR;
    }
  }

  lemma {:induction false} NextFile(files: seq<File>, i: nat)
    requires i < |files|
    ensures AllCitations(files[..i + 1]) == AllCitations(files[..i])
      + if files[i].lines.Some? then FileCitations(files[i].rel, files[i].lines.value) else []
  {
    assert files[..i + 1][..i] == files[..i];
  }

  /** `files` in sorted order, `tracked` the same names as a set in some order. */
  method Scan(tracked: seq<Path>, files: seq<File>, counts: map<Path, nat>) returns (report: Report)
    ensures fresh(report)
    ensures report.Describes(tracked, counts, AllCitations(files))
    ensures report.denominator == report.verified + |report.red| + |report.unresolved|
    ensures report.filesScanned + report.filesSkipped == |files|
  {
    report := new Report();
    for i := 0 to |files|
      invariant fresh(report)
      invariant report.Describes(tracked, counts, AllCitations(files[..i]))
      invariant report.filesScanned + report.filesSkipped == i
    {
      NextFile(files, i);
      var file := files[i];
      if file.lines.None? {
        report.filesSkipped := report.filesSkipped + 1;
        assert AllCitations(files[..i + 1]) == AllCitations(files[..i]);
      } else {
        report.filesScanned := report.filesScanned + 1;
        report.ScanFile(tracked, counts, AllCitations(files[..i]), file.rel, file.lines.value);
      }
    }
    assert files[..|files|] == files;
    CountsBalance(tracked, counts, AllCitations(files));
  }

  lemma {:induction false} NoRedRows(tracked: seq<Path>, counts: map<Path, nat>, cs: seq<Citation>)
    ensures RedRows(tracked, counts, cs) == [] <==> forall c :: c in cs ==> !Judge(tracked, counts, c).Red?
    decreases |cs|
  {
    if cs != [] {
      NoRedRows(tracked, counts, cs[..|cs| - 1]);
      LastOrBefore(cs);
    }
  }

  lemma {:induction false} SomeVerified(tracked: seq<Path>, counts: map<Path, nat>, cs: seq<Citation>)
    ensures VerifiedCount(tracked, counts, cs) > 0 <==> exists c :: c in cs && Judge(tracked, counts, c).Verified?
    decreases |cs|
  {
    if cs != [] {
      SomeVerified(tracked, counts, cs[..|cs| - 1]);
      LastOrBefore(cs);
    }
  }

  lemma {:induction false} LastOrBefore<T>(s: seq<T>)
    requires s != []
    ensures forall x :: x in s <==> x in s[..|s| - 1] || x == s[|s| - 1]
  {}

  /** Every citation that names a tracked file at all points at a line the file has. */
  ghost predicate Sound(tracked: seq<Path>, counts: map<Path, nat>, c: Citation)
  {
    forall t :: Denotes(All(tracked), c.citing, c.token.cited, t) ==>
      t in counts && 1 <= c.token.lo <= HighLine(c.token) <= counts[t]
  }

  ghost predicate Resolved(tracked: seq<Path>, c: Citation)
  {
    exists t :: Denotes(All(tracked), c.citing, c.token.cited, t)
  }

  lemma {:induction false} JudgeSound(tracked: seq<Path>, counts: map<Path, nat>, c: Citation)
    requires Distinct(tracked)
    ensures !Judge(tracked, counts, c).Red? <==> Sound(tracked, counts, c)
    ensures Judge(tracked, counts, c).Unresolved? <==> !Resolved(tracked, c)
  {
    forall t ensures Resolve(tracked, c.citing, c.token.cited) == Some(t)
                 <==> Denotes(All(tracked), c.citing, c.token.cited, t) {
      ResolveDenotes(tracked, c.citing, c.token.cited, t);
    }
  }

  /**
   What an exit code says of the citations.  REFUSE: there are none.  RED: one that denotes a
   tracked file points at lines the file does not have.  UNMEASURED: none denotes a tracked
   file.  CLEAR: some do, and all of those are right.
   */
  ghost predicate Means(tracked: seq<Path>, counts: map<Path, nat>, cs: seq<Citation>, code: int)
  {
    && (code == EXIT_REFUSE <==> cs == [])
    && (code == EXIT_RED <==> exists c :: c in cs && !Sound(tracked, counts, c))
    && (code == EXIT_UNMEASURED <==> cs != [] && forall c :: c in cs ==> !Resolved(tracked, c))
    && (code == EXIT_CLEAR <==>
          (forall c :: c in cs ==> Sound(tracked, counts, c)) && exists c :: c in cs && Resolved(tracked, c))
  }

  /** What the rows and counts of a report say of the citations themselves. */
  lemma {:induction false} VerdictExactly(tracked: seq<Path>, counts: map<Path, nat>, cs: seq<Citation>)
    requires Distinct(tracked)
    ensures RedRows(tracked, counts, cs) != [] <==> exists c :: c in cs && !Sound(tracked, counts, c)
    ensures RedRows(tracked, counts, cs) == [] ==>
      (VerifiedCount(tracked, counts, cs) > 0 <==> exists c :: c in cs && Resolved(tracked, c))
    ensures (exists c :: c in cs && !Sound(tracked, counts, c)) ==> exists c :: c in cs && Resolved(tracked, c)
  {
    NoRedRows(tracked, counts, cs);
    SomeVerified(tracked, counts, cs);
    forall c ensures (!Judge(tracked, counts, c).Red? <==> Sound(tracked, counts, c))
                  && (Judge(tracked, counts, c).Unresolved? <==> !Resolved(tracked, c)) {
      JudgeSound(tracked, counts, c);
    }
  }

  /** `audit`: no tracked file at all is refused; otherwise one scan, one code. */
  method Audit(tracked: seq<Path>, files: seq<File>, counts: map<Path, nat>) returns (code: int)
    requires Distinct(tracked)
    ensures Means(tracked, counts, AllCitations(files), code)
  {
    if files == [] {
      VerdictExactly(tracked, counts, []);
      return EXIT_REFUSE;
    }
    var report := Scan(tracked, files, counts);
    code := report.GateExitCode(tracked, counts, AllCitations(files));
  }
}
