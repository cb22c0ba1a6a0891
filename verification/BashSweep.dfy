/**
 The classifier of checks/bash_lc_sweep.py: every `bash -lc` of the launchers is found,
 every site outside comments lands in exactly one bucket, and exit 0 means that no raw
 splice is left undeclared.
 */
module BashSweep {
  import opened BashScan

  const EXIT_CLEAR: int := 0
  const EXIT_RED: int := 5
  const EXIT_UNMEASURED: int := 95

  datatype Declaration = Declaration(file: string, anchor: string, token: string)

  /** `lines` is None when the file cannot be read. */
  datatype File = File(base: string, lines: Option<seq<string>>)

  /** One occurrence of `bash -lc`: file and line number, place in the line, and the line. */
  datatype Place = Place(file: nat, number: nat, at: nat, base: string, line: string)

  predicate StartsAt(s: string, i: nat, p: string)
  {
    i + |p| <= |s| && s[i..i + |p|] == p
  }

  predicate Contains(s: string, p: string)
  {
    exists i :: 0 <= i <= |s| && StartsAt(s, i, p)
  }

  // ----- enumeration -----

  function LinePlaces(file: nat, number: nat, base: string, line: string, pos: nat): seq<Place>
    decreases |line| - pos
  {
    if pos >= |line| then []
    else (if StartsAt(line, pos, BASH_LC) then [Place(file, number, pos, base, line)] else [])
         + LinePlaces(file, number, base, line, pos + 1)
  }

  function FilePlaces(file: nat, base: string, lines: seq<string>): seq<Place>
  {
    if lines == [] then []
    else FilePlaces(file, base, lines[..|lines| - 1]) + LinePlaces(file, |lines| - 1, base, lines[|lines| - 1], 0)
  }

  function AllPlaces(files: seq<File>): seq<Place>
    requires forall f :: f in files ==> f.lines.Some?
  {
    if files == [] then []
    else
      var last := files[|files| - 1];
      assert last in files;
      AllPlaces(files[..|files| - 1]) + FilePlaces(|files| - 1, last.base, last.lines.value)
  }

  /** A mention behind a comment sign cannot execute. */
  predicate InComment(pl: Place)
  {
    exists k :: 0 <= k < pl.at && k < |pl.line| && OpensComment(pl.line, 0, PLAIN, k)
  }

  // ----- one site -----

  predicate Space(c: char) { c == ' ' || '\t' <= c <= '\r' || '\U{1C}' <= c <= '\U{1F}' }

  function Strip(s: string): string
  {
    if s != "" && Space(s[0]) then Strip(s[1..])
    else if s != "" && Space(s[|s| - 1]) then Strip(s[..|s| - 1])
    else s
  }

  /** The whole inner source is one variable: the value is not spliced into source, it is the source. */
  predicate WholeSource(body: string, hits: seq<Hit>)
  {
    var s := Strip(body);
    |hits| == 1 && hits[0].kind == Variable && s != "" && VarEnd(s, 0) == Some(|s|)
  }

  predicate Declares(d: Declaration, base: string, line: string, token: string)
  {
    d.file == base && Contains(line, d.anchor) && d.token == token
  }

  /** The first declaration that names this splice. */
  function Match(decls: seq<Declaration>, base: string, line: string, token: string): (m: Option<nat>)
    ensures m.Some? ==> m.value < |decls| && Declares(decls[m.value], base, line, token)
    ensures m.None? <==> forall d :: d in decls ==> !Declares(d, base, line, token)
  {
    if decls == [] then None
    else if Declares(decls[0], base, line, token) then Some(0)
    else match Match(decls[1..], base, line, token) case Some(i) => Some(i + 1) case None => None
  }

  lemma {:induction false} MatchIsFirst(decls: seq<Declaration>, base: string, line: string, token: string, j: nat)
    requires Match(decls, base, line, token).Some? && j < Match(decls, base, line, token).value
    ensures !Declares(decls[j], base, line, token)
    decreases j
  {
    if j > 0 { MatchIsFirst(decls[1..], base, line, token, j - 1); }
  }

  /** The splices of a site that need a declaration: none if the site is safe by its shape. */
  function RawHits(pl: Place, rendered: string -> bool): seq<Hit>
  {
    match InnerAt(pl.line, pl.at)
    case DoubleQuoted(body) =>
      var hits := Hits(body, rendered);
      if WholeSource(body, hits) then [] else Raw(hits)
    case _ => []
  }

  function Raw(hits: seq<Hit>): seq<Hit>
  {
    if hits == [] then []
    else Raw(hits[..|hits| - 1]) + (if hits[|hits| - 1].kind == Rendered then [] else [hits[|hits| - 1]])
  }

  lemma {:induction false} RawMembers(hits: seq<Hit>, h: Hit)
    ensures h in Raw(hits) <==> h in hits && h.kind != Rendered
    decreases |hits|
  {
    if hits != [] {
      RawMembers(hits[..|hits| - 1], h);
      assert hits == hits[..|hits| - 1] + [hits[|hits| - 1]];
    }
  }

  datatype Bucket = Audited | Declared | Unsafe

  function MatchOf(decls: seq<Declaration>, pl: Place, h: Hit): Option<nat>
  {
    Match(decls, pl.base, pl.line, h.token)
  }

  function BucketOf(decls: seq<Declaration>, pl: Place, rendered: string -> bool): Bucket
  {
    var raw := RawHits(pl, rendered);
    if exists h :: h in raw && MatchOf(decls, pl, h).None? then Unsafe
    else if raw != [] then Declared
    else Audited
  }

  /** How many of these splices are matched to declaration i. */
  function MatchCount(decls: seq<Declaration>, pl: Place, raw: seq<Hit>, i: nat): nat
  {
    if raw == [] then 0
    else MatchCount(decls, pl, raw[..|raw| - 1], i) + (if MatchOf(decls, pl, raw[|raw| - 1]) == Some(i) then 1 else 0)
  }

  // ----- the sweep -----

  /** The counters, the three bucket lists and the hit count of each declaration. */
  datatype Sweep = Sweep(total: nat, mentions: nat, audited: seq<Place>, declared: seq<Place>, unsafe: seq<Place>,
                         hits: seq<nat>)

  function AddMatches(hits: seq<nat>, decls: seq<Declaration>, pl: Place, raw: seq<Hit>): (r: seq<nat>)
    requires |hits| == |decls|
    ensures |r| == |decls| && forall i :: 0 <= i < |r| ==> r[i] == hits[i] + MatchCount(decls, pl, raw, i)
  {
    seq(|decls|, i requires 0 <= i < |decls| => hits[i] + MatchCount(decls, pl, raw, i))
  }

  function Visit(sw: Sweep, decls: seq<Declaration>, pl: Place, rendered: string -> bool): (r: Sweep)
    requires |sw.hits| == |decls|
    ensures |r.hits| == |decls|
  {
    if InComment(pl) then sw.(mentions := sw.mentions + 1)
    else
      var counted := sw.(total := sw.total + 1, hits := AddMatches(sw.hits, decls, pl, RawHits(pl, rendered)));
      match BucketOf(decls, pl, rendered)
      case Audited => counted.(audited := counted.audited + [pl])
      case Declared => counted.(declared := counted.declared + [pl])
      case Unsafe => counted.(unsafe := counted.unsafe + [pl])
  }

  function Start(decls: seq<Declaration>): (r: Sweep)
    ensures |r.hits| == |decls|
  {
    Sweep(0, 0, [], [], [], seq(|decls|, _ => 0))
  }

  function SweepAll(decls: seq<Declaration>, pls: seq<Place>, rendered: string -> bool): (r: Sweep)
    ensures |r.hits| == |decls|
  {
    if pls == [] then Start(decls)
    else Visit(SweepAll(decls, pls[..|pls| - 1], rendered), decls, pls[|pls| - 1], rendered)
  }

  function Verdict(sw: Sweep): int
  {
    if sw.total == 0 then EXIT_UNMEASURED
    else if |sw.audited| + |sw.declared| + |sw.unsafe| != sw.total then EXIT_RED
    else if (exists h :: h in sw.hits && h == 0) || (exists h :: h in sw.hits && h > 1) || sw.unsafe != [] then EXIT_RED
    else EXIT_CLEAR
  }

  function ExitCode(files: seq<File>, decls: seq<Declaration>, rendered: string -> bool): int
  {
    if |files| < 2 then EXIT_UNMEASURED
    else if exists f :: f in files && f.lines.None? then EXIT_RED
    else Verdict(SweepAll(decls, AllPlaces(files), rendered))
  }

  // ----- the loops -----

  /** What `_comment_start` finds: the first sign that opens a comment, or none. */
  predicate IsCommentStart(line: string, cs: int)
  {
    && -1 <= cs < |line| && (cs >= 0 ==> OpensComment(line, 0, PLAIN, cs))
    && forall k :: 0 <= k < (if cs >= 0 then cs else |line|) ==> !OpensComment(line, 0, PLAIN, k)
  }

  /** The splices of one site that need a declaration. */
  method ReadSite(pl: Place, rendered: string -> bool) returns (raw: seq<Hit>)
    ensures raw == RawHits(pl, rendered)
  {
    raw := [];
    var inner := InnerSource(pl.line, pl.at);
    if inner.DoubleQuoted? {
      var hits := ScanBody(inner.body, rendered);
      if !WholeSource(inner.body, hits) {
        for i := 0 to |hits|
          invariant raw == Raw(hits[..i])
        {
          assert hits[..i + 1][..i] == hits[..i];
          if hits[i].kind != Rendered { raw := raw + [hits[i]]; }
        }
        assert hits[..|hits|] == hits;
      }
    }
  }

  /** The loop over the splices of one site: each is matched to the first declaration naming it. */
  method MatchHits(decls: seq<Declaration>, pl: Place, raw: seq<Hit>, hits: seq<nat>)
    returns (residual: bool, counts: seq<nat>)
    requires |hits| == |decls|
    ensures residual <==> exists h :: h in raw && MatchOf(decls, pl, h).None?
    ensures counts == AddMatches(hits, decls, pl, raw)
  {
    residual, counts := false, hits;
    for i := 0 to |raw|
      invariant |counts| == |decls|
      invariant residual <==> exists h :: h in raw[..i] && MatchOf(decls, pl, h).None?
      invariant forall d :: 0 <= d < |decls| ==> counts[d] == hits[d] + MatchCount(decls, pl, raw[..i], d)
    {
      assert raw[..i + 1][..i] == raw[..i] && raw[..i + 1] == raw[..i] + [raw[i]];
      var m := MatchOf(decls, pl, raw[i]);
      if m.Some? { counts := counts[m.value := counts[m.value] + 1]; } else { residual := true; }
    }
    assert raw[..|raw|] == raw;
  }

  /** The body of the loop over sites. */
  method VisitSite(sw: Sweep, decls: seq<Declaration>, pl: Place, rendered: string -> bool) returns (r: Sweep)
    requires |sw.hits| == |decls| && !InComment(pl)
    ensures r == Visit(sw, decls, pl, rendered)
  {
    var raw := ReadSite(pl, rendered);
    var residual, counts := MatchHits(decls, pl, raw, sw.hits);
    r := sw.(total := sw.total + 1, hits := counts);
    if residual {
      r := r.(unsafe := r.unsafe + [pl]);
    } else if raw != [] {
      r := r.(declared := r.declared + [pl]);
    } else {
      r := r.(audited := r.audited + [pl]);
    }
  }

  lemma {:induction false} LinePlacesSkip(file: nat, number: nat, base: string, line: string, pos: nat, at: nat)
    requires pos <= at && forall k :: pos <= k < at ==> !StartsAt(line, k, BASH_LC)
    ensures LinePlaces(file, number, base, line, pos) == LinePlaces(file, number, base, line, at)
    decreases at - pos
  {
    if pos < at {
      LinePlacesSkip(file, number, base, line, pos + 1, at);
      if pos < |line| {
        assert !StartsAt(line, pos, BASH_LC);
      } else {
        assert LinePlaces(file, number, base, line, at) == [];
      }
    }
  }

  /** `line.find("bash -lc", pos)` */
  method Find(line: string, pos: nat) returns (at: int)
    ensures at == -1 || (pos <= at && StartsAt(line, at, BASH_LC))
    ensures forall k :: pos <= k < (if at == -1 then |line| else at) ==> !StartsAt(line, k, BASH_LC)
  {
    var i := pos;
    while i < |line|
      invariant pos <= i && forall k :: pos <= k < i ==> !StartsAt(line, k, BASH_LC)
    {
      if StartsAt(line, i, BASH_LC) { return i; }
      i := i + 1;
    }
    return -1;
  }

  lemma {:induction false} SweepOne(decls: seq<Declaration>, pls: seq<Place>, pl: Place, rendered: string -> bool)
    ensures SweepAll(decls, pls + [pl], rendered) == Visit(SweepAll(decls, pls, rendered), decls, pl, rendered)
  {
    assert (pls + [pl])[..|pls|] == pls;
  }

  /** Visiting places one after the other. */
  function VisitEach(sw: Sweep, decls: seq<Declaration>, pls: seq<Place>, rendered: string -> bool): (r: Sweep)
    requires |sw.hits| == |decls|
    ensures |r.hits| == |decls|
    decreases |pls|
  {
    if pls == [] then sw else VisitEach(Visit(sw, decls, pls[0], rendered), decls, pls[1..], rendered)
  }

  lemma {:induction false} SweepMore(decls: seq<Declaration>, done: seq<Place>, pls: seq<Place>,
                                     rendered: string -> bool)
    ensures SweepAll(decls, done + pls, rendered) == VisitEach(SweepAll(decls, done, rendered), decls, pls, rendered)
    decreases |pls|
  {
    if pls == [] {
      assert done + pls == done;
    } else {
      var next, rest := done + [pls[0]], pls[1..];
      assert done + pls == next + rest;
      SweepOne(decls, done, pls[0], rendered);
      SweepMore(decls, next, rest, rendered);
    }
  }

  /** One occurrence: a mention if it stands behind the comment sign, a site if not. */
  method SweepPlace(sw: Sweep, decls: seq<Declaration>, pl: Place, cs: int, rendered: string -> bool) returns (r: Sweep)
    requires |sw.hits| == |decls| && IsCommentStart(pl.line, cs) && pl.at < |pl.line|
    ensures r == Visit(sw, decls, pl, rendered)
  {
    assert InComment(pl) <==> 0 <= cs < pl.at;
    if 0 <= cs < pl.at {
      r := sw.(mentions := sw.mentions + 1);
    } else {
      r := VisitSite(sw, decls, pl, rendered);
    }
  }

  lemma {:induction false} NextPlace(sw: Sweep, decls: seq<Declaration>, pl: Place, pos: nat, rendered: string -> bool)
    requires |sw.hits| == |decls| && pos <= pl.at < |pl.line| && StartsAt(pl.line, pl.at, BASH_LC)
    requires forall k :: pos <= k < pl.at ==> !StartsAt(pl.line, k, BASH_LC)
    requires pl == Place(pl.file, pl.number, pl.at, pl.base, pl.line)
    ensures VisitEach(sw, decls, LinePlaces(pl.file, pl.number, pl.base, pl.line, pos), rendered)
         == VisitEach(Visit(sw, decls, pl, rendered), decls,
                       LinePlaces(pl.file, pl.number, pl.base, pl.line, pl.at + 1), rendered)
  {
    LinePlacesSkip(pl.file, pl.number, pl.base, pl.line, pos, pl.at);
    var rest := LinePlaces(pl.file, pl.number, pl.base, pl.line, pl.at + 1);
    assert LinePlaces(pl.file, pl.number, pl.base, pl.line, pl.at) == [pl] + rest;
    assert ([pl] + rest)[1..] == rest;
  }

  lemma {:induction false} NoPlace(file: nat, number: nat, base: string, line: string, pos: nat)
    requires forall k :: pos <= k < |line| ==> !StartsAt(line, k, BASH_LC)
    ensures LinePlaces(file, number, base, line, pos) == []
  {
    LinePlacesSkip(file, number, base, line, pos, if pos <= |line| then |line| else pos);
  }

  /** One round: the next occurrence from `pos` on, if any, is visited. */
  method SweepNext(sw: Sweep, decls: seq<Declaration>, file: nat, number: nat, base: string, line: string,
                   cs: int, pos: nat, rendered: string -> bool)
    returns (r: Sweep, next: Option<nat>)
    requires |sw.hits| == |decls| && IsCommentStart(line, cs)
    ensures |r.hits| == |decls|
    ensures next.Some? ==> pos < next.value <= |line|
    ensures VisitEach(sw, decls, LinePlaces(file, number, base, line, pos), rendered)
         == match next
            case None => r
            case Some(p) => VisitEach(r, decls, LinePlaces(file, number, base, line, p), rendered)
  {
    var at := Find(line, pos);
    if at < 0 {
      NoPlace(file, number, base, line, pos);
      return sw, None;
    }
    var pl := Place(file, number, at, base, line);
    NextPlace(sw, decls, pl, pos, rendered);
    r := SweepPlace(sw, decls, pl, cs, rendered);
    next := Some(at + 1);
  }

  /** The sites and mentions of one line, from left to right. */
  method SweepLine(sw: Sweep, decls: seq<Declaration>, file: nat, number: nat, base: string, line: string,
                   rendered: string -> bool)
    returns (r: Sweep)
    requires |sw.hits| == |decls|
    ensures r == VisitEach(sw, decls, LinePlaces(file, number, base, line, 0), rendered)
  {
    r := sw;
    var cs := CommentStart(line);
    var pos := Some(0);
    while pos.Some?
      invariant |r.hits| == |decls| && (pos.Some? ==> pos.value <= |line|)
      invariant VisitEach(sw, decls, LinePlaces(file, number, base, line, 0), rendered)
             == match pos
                case None => r
                case Some(p) => VisitEach(r, decls, LinePlaces(file, number, base, line, p), rendered)
      decreases if pos.Some? then |line| - pos.value + 1 else 0
    {
      r, pos := SweepNext(r, decls, file, number, base, line, cs, pos.value, rendered);
    }
  }

  method SweepFile(sw: Sweep, decls: seq<Declaration>, file: nat, base: string, lines: seq<string>,
                   rendered: string -> bool, ghost done: seq<Place>)
    returns (r: Sweep)
    requires sw == SweepAll(decls, done, rendered)
    ensures r == SweepAll(decls, done + FilePlaces(file, base, lines), rendered)
  {
    r := sw;
    assert done + [] == done;
    for n := 0 to |lines|
      invariant r == SweepAll(decls, done + FilePlaces(file, base, lines[..n]), rendered)
    {
      ghost var seen := done + FilePlaces(file, base, lines[..n]);
      r := SweepLine(r, decls, file, n, base, lines[n], rendered);
      SweepMore(decls, seen, LinePlaces(file, n, base, lines[n], 0), rendered);
      OneMoreLine(done, file, base, lines, n);
    }
    assert lines[..|lines|] == lines;
  }

  lemma {:induction false} OneMoreLine(done: seq<Place>, file: nat, base: string, lines: seq<string>, n: nat)
    requires n < |lines|
    ensures done + FilePlaces(file, base, lines[..n]) + LinePlaces(file, n, base, lines[n], 0)
      == done + FilePlaces(file, base, lines[..n + 1])
  {
    assert lines[..n + 1][..n] == lines[..n];
    var a, b := FilePlaces(file, base, lines[..n]), LinePlaces(file, n, base, lines[n], 0);
    assert FilePlaces(file, base, lines[..n + 1]) == a + b;
    assert done + a + b == done + (a + b);
  }

  // ----- what the verdict is worth -----

  predicate NonComment(pls: seq<Place>, pl: Place)
  {
    pl in pls && !InComment(pl)
  }

  function TotalMatches(decls: seq<Declaration>, pls: seq<Place>, rendered: string -> bool, i: nat): nat
  {
    if pls == [] then 0
    else
      var last := pls[|pls| - 1];
      TotalMatches(decls, pls[..|pls| - 1], rendered, i)
      + (if InComment(last) then 0 else MatchCount(decls, last, RawHits(last, rendered), i))
  }

  /** The sites, in order, that fall into one bucket. */
  function InBucket(decls: seq<Declaration>, pls: seq<Place>, rendered: string -> bool, b: Bucket): seq<Place>
  {
    if pls == [] then []
    else
      var last := pls[|pls| - 1];
      InBucket(decls, pls[..|pls| - 1], rendered, b)
      + (if !InComment(last) && BucketOf(decls, last, rendered) == b then [last] else [])
  }

  /**
   The partition: each bucket holds exactly its own sites, no site is in none or in two, and
   sites and mentions together are the occurrences.
   */
  lemma {:induction false} SweepPartitions(decls: seq<Declaration>, pls: seq<Place>, rendered: string -> bool)
    ensures var sw := SweepAll(decls, pls, rendered);
      && sw.audited == InBucket(decls, pls, rendered, Audited)
      && sw.declared == InBucket(decls, pls, rendered, Declared)
      && sw.unsafe == InBucket(decls, pls, rendered, Unsafe)
      && |sw.audited| + |sw.declared| + |sw.unsafe| == sw.total
      && sw.total + sw.mentions == |pls|
      && forall i :: 0 <= i < |decls| ==> sw.hits[i] == TotalMatches(decls, pls, rendered, i)
    decreases |pls|
  {
    if pls != [] { SweepPartitions(decls, pls[..|pls| - 1], rendered); }
  }

  lemma {:induction false} BucketMembers(decls: seq<Declaration>, pls: seq<Place>, rendered: string -> bool, b: Bucket,
                                         pl: Place)
    ensures pl in InBucket(decls, pls, rendered, b) <==> NonComment(pls, pl) && BucketOf(decls, pl, rendered) == b
    decreases |pls|
  {
    if pls != [] {
      var init, last := pls[..|pls| - 1], pls[|pls| - 1];
      assert pl in pls <==> pl in init || pl == last by { assert pls == init + [last]; }
      BucketMembers(decls, init, rendered, b, pl);
    }
  }

  /** The branch that reports a partition mismatch is dead. */
  lemma {:induction false} MismatchIsDead(decls: seq<Declaration>, pls: seq<Place>, rendered: string -> bool)
    ensures var sw := SweepAll(decls, pls, rendered);
      Verdict(sw) == if sw.total == 0 then EXIT_UNMEASURED
        else if (exists h :: h in sw.hits && h != 1) || sw.unsafe != [] then EXIT_RED else EXIT_CLEAR
  {
    SweepPartitions(decls, pls, rendered);
  }

  /** Every occurrence is enumerated, and nothing else is. */
  lemma {:induction false} LineComplete(file: nat, number: nat, base: string, line: string, pos: nat, pl: Place)
    ensures pl in LinePlaces(file, number, base, line, pos) <==>
      && pl.file == file && pl.number == number && pl.base == base && pl.line == line
      && pos <= pl.at && StartsAt(line, pl.at, BASH_LC)
    decreases |line| - pos
  {
    if pos < |line| { LineComplete(file, number, base, line, pos + 1, pl); }
  }

  lemma {:induction false} FileComplete(file: nat, base: string, lines: seq<string>, pl: Place)
    ensures pl in FilePlaces(file, base, lines) <==>
      && pl.file == file && pl.base == base && pl.number < |lines| && pl.line == lines[pl.number]
      && StartsAt(pl.line, pl.at, BASH_LC)
    decreases |lines|
  {
    if lines != [] {
      FileComplete(file, base, lines[..|lines| - 1], pl);
      LineComplete(file, |lines| - 1, base, lines[|lines| - 1], 0, pl);
    }
  }

  predicate IsOccurrence(files: seq<File>, pl: Place)
    requires forall f :: f in files ==> f.lines.Some?
  {
    pl.file < |files| && files[pl.file] in files && pl.base == files[pl.file].base
    && pl.number < |files[pl.file].lines.value| && pl.line == files[pl.file].lines.value[pl.number]
    && StartsAt(pl.line, pl.at, BASH_LC)
  }

  lemma {:induction false} PlacesComplete(files: seq<File>, pl: Place)
    requires forall f :: f in files ==> f.lines.Some?
    ensures pl in AllPlaces(files) <==> IsOccurrence(files, pl)
    decreases |files|
  {
    if files != [] {
      var init, last := files[..|files| - 1], files[|files| - 1];
      assert last in files;
      PlacesComplete(init, pl);
      FileComplete(|files| - 1, last.base, last.lines.value, pl);
      if pl.file < |init| { assert init[pl.file] == files[pl.file]; }
    }
  }

  /** A splice is accounted for when some declaration names it. */
  predicate Accounted(decls: seq<Declaration>, pl: Place, h: Hit)
  {
    exists d :: d in decls && Declares(d, pl.base, pl.line, h.token)
  }

  // The whole source is one variable, read from its characters.

  predicate AllSpace(s: string) { forall k :: 0 <= k < |s| ==> Space(s[k]) }

  /** `s` is the body without the white space at its ends. */
  ghost predicate Trims(body: string, s: string)
  {
    && (s != "" ==> !Space(s[0]) && !Space(s[|s| - 1]))
    && exists lead, tail {:trigger Framed(body, lead, s, tail)} :: Framed(body, lead, s, tail)
  }

  predicate Framed(body: string, lead: string, s: string, tail: string)
  {
    AllSpace(lead) && AllSpace(tail) && body == lead + s + tail
  }

  lemma {:induction false} FramedLeft(body: string, lead: string, s: string, tail: string)
    requires body != "" && Space(body[0]) && Framed(body[1..], lead, s, tail)
    ensures Framed(body, [body[0]] + lead, s, tail)
  {
    assert body == [body[0]] + body[1..];
  }

  lemma {:induction false} FramedRight(body: string, lead: string, s: string, tail: string)
    requires body != "" && Space(body[|body| - 1]) && Framed(body[..|body| - 1], lead, s, tail)
    ensures Framed(body, lead, s, tail + [body[|body| - 1]])
  {
    assert body == body[..|body| - 1] + [body[|body| - 1]];
  }

  lemma {:induction false} StripTrims(body: string) returns (lead: string, tail: string)
    ensures Framed(body, lead, Strip(body), tail)
    ensures Strip(body) != "" ==> !Space(Strip(body)[0]) && !Space(Strip(body)[|Strip(body)| - 1])
    decreases |body|
  {
    lead, tail := "", "";
    if body != "" && Space(body[0]) {
      lead, tail := StripTrims(body[1..]);
      FramedLeft(body, lead, Strip(body), tail);
      lead := [body[0]] + lead;
    } else if body != "" && Space(body[|body| - 1]) {
      lead, tail := StripTrims(body[..|body| - 1]);
      FramedRight(body, lead, Strip(body), tail);
      tail := tail + [body[|body| - 1]];
    }
  }

  lemma {:induction false} StripOnce(lead: string, s: string, tail: string)
    requires AllSpace(lead) && AllSpace(tail) && (s != "" ==> !Space(s[0]) && !Space(s[|s| - 1]))
    ensures Strip(lead + s + tail) == s
    decreases |lead| + |tail|
  {
    var body := lead + s + tail;
    if lead != "" {
      assert body[1..] == lead[1..] + s + tail;
      StripOnce(lead[1..], s, tail);
    } else if tail != "" {
      if s == "" {
        assert body[1..] == lead + s + tail[1..];
        StripOnce(lead, s, tail[1..]);
      } else {
        assert body[..|body| - 1] == lead + s + tail[..|tail| - 1];
        StripOnce(lead, s, tail[..|tail| - 1]);
      }
    } else {
      assert body == s;
    }
  }

  lemma {:induction false} TrimsIff(body: string, s: string)
    ensures Trims(body, s) <==> s == Strip(body)
  {
    if Trims(body, s) {
      var lead, tail :| Framed(body, lead, s, tail);
      StripOnce(lead, s, tail);
    }
    if s == Strip(body) { var lead, tail := StripTrims(body); }
  }

  predicate IsVarName(name: string)
  {
    name != "" && NameStart(name[0]) && forall k :: 0 < k < |name| ==> NameChar(name[k])
  }

  predicate VarSpells(s: string, open: string, name: string, close: string)
  {
    (open == "" || open == "{") && (close == "" || close == "}") && IsVarName(name) && s == "$" + open + name + close
  }

  ghost predicate OneVariable(s: string)
  {
    exists open, name, close {:trigger VarSpells(s, open, name, close)} :: VarSpells(s, open, name, close)
  }

  lemma {:induction false} VarIsRead(s: string)
    requires s != "" && VarEnd(s, 0) == Some(|s|)
    ensures OneVariable(s)
  {
    var j := if 1 < |s| && s[1] == '{' then 2 else 1;
    var e := NameEnd(s, j + 1);
    assert s[..j] == if j == 2 then "$" + "{" else "$" + "";
    assert s == s[..j] + s[j..e] + s[e..];
    assert s[e..] == if e < |s| then "}" else "";
    assert VarSpells(s, if j == 2 then "{" else "", s[j..e], s[e..]);
  }

  lemma {:induction false} VarIsWhole(s: string, open: string, name: string, close: string)
    requires VarSpells(s, open, name, close)
    ensures s != "" && VarEnd(s, 0) == Some(|s|)
  {
    var j := 1 + |open|;
    assert s[j] == name[0] && (open == "{" ==> s[1] == '{');
    assert forall k :: 0 <= k < |name| ==> s[j + k] == name[k];
    assert close == "}" ==> s[j + |name|] == '}';
    var e := NameEnd(s, j + 1);
    assert e == j + |name|;
  }

  ghost predicate IsWhole(body: string, hits: seq<Hit>)
  {
    |hits| == 1 && hits[0].kind == Variable && exists s {:trigger Trims(body, s)} :: Trims(body, s) && OneVariable(s)
  }

  lemma {:induction false} WholeIff(body: string, hits: seq<Hit>)
    ensures WholeSource(body, hits) <==> IsWhole(body, hits)
  {
    var s := Strip(body);
    TrimsIff(body, s);
    if s != "" && VarEnd(s, 0) == Some(|s|) { VarIsRead(s); }
    if IsWhole(body, hits) {
      var t :| Trims(body, t) && OneVariable(t);
      TrimsIff(body, t);
      var open, name, close :| VarSpells(t, open, name, close);
      VarIsWhole(t, open, name, close);
    }
  }

  /** An expansion of a double-quoted source that is neither rendered by %q nor the whole source. */
  ghost predicate Splices(pl: Place, rendered: string -> bool, h: Hit)
  {
    exists body {:trigger ReadsInner(pl.line, pl.at, DoubleQuoted(body))} ::
      && ReadsInner(pl.line, pl.at, DoubleQuoted(body))
      && h in Hits(body, rendered) && h.kind != Rendered && !IsWhole(body, Hits(body, rendered))
  }

  lemma {:induction false} RawIff(pl: Place, rendered: string -> bool, h: Hit)
    ensures h in RawHits(pl, rendered) <==> Splices(pl, rendered, h)
  {
    var inner := InnerAt(pl.line, pl.at);
    InnerIff(pl.line, pl.at, inner);
    if inner.DoubleQuoted? {
      RawMembers(Hits(inner.body, rendered), h);
      WholeIff(inner.body, Hits(inner.body, rendered));
    }
    forall body | ReadsInner(pl.line, pl.at, DoubleQuoted(body)) ensures inner == DoubleQuoted(body) {
      InnerIff(pl.line, pl.at, DoubleQuoted(body));
    }
  }

  /** It stands behind a sign that opens a comment. */
  ghost predicate Mentioned(pl: Place)
  {
    exists k {:trigger CommentAt(pl.line, k)} :: 0 <= k < pl.at && k < |pl.line| && CommentAt(pl.line, k)
  }

  lemma {:induction false} MentionedIff(pl: Place)
    ensures InComment(pl) <==> Mentioned(pl)
  {
    if InComment(pl) {
      var k :| 0 <= k < pl.at && k < |pl.line| && OpensComment(pl.line, 0, PLAIN, k);
      CommentIff(pl.line, k);
    }
    if Mentioned(pl) {
      var k :| 0 <= k < pl.at && k < |pl.line| && CommentAt(pl.line, k);
      CommentIff(pl.line, k);
    }
  }

  /** An occurrence that can execute. */
  ghost predicate IsSite(files: seq<File>, pl: Place)
    requires forall f :: f in files ==> f.lines.Some?
  {
    IsOccurrence(files, pl) && !Mentioned(pl)
  }

  ghost predicate LooseAt(decls: seq<Declaration>, pl: Place, rendered: string -> bool)
  {
    exists h :: Splices(pl, rendered, h) && !Accounted(decls, pl, h)
  }

  /** Some splice of a site is not declared. */
  ghost predicate Loose(files: seq<File>, decls: seq<Declaration>, rendered: string -> bool)
    requires forall f :: f in files ==> f.lines.Some?
  {
    exists pl :: IsSite(files, pl) && LooseAt(decls, pl, rendered)
  }

  /** What the splices of these sites are matched to, in order. */
  function Names(decls: seq<Declaration>, pls: seq<Place>, rendered: string -> bool): seq<Option<nat>>
  {
    if pls == [] then []
    else
      var last := pls[|pls| - 1];
      Names(decls, pls[..|pls| - 1], rendered)
      + if InComment(last) then [] else NamesAt(decls, last, RawHits(last, rendered))
  }

  function NamesAt(decls: seq<Declaration>, pl: Place, raw: seq<Hit>): (r: seq<Option<nat>>)
  {
    seq(|raw|, i requires 0 <= i < |raw| => MatchOf(decls, pl, raw[i]))
  }

  lemma {:induction false} MatchesCounted(decls: seq<Declaration>, pl: Place, raw: seq<Hit>, i: nat)
    ensures MatchCount(decls, pl, raw, i) == multiset(NamesAt(decls, pl, raw))[Some(i)]
    decreases |raw|
  {
    if raw != [] {
      var init, last := raw[..|raw| - 1], raw[|raw| - 1];
      MatchesCounted(decls, pl, init, i);
      assert NamesAt(decls, pl, raw) == NamesAt(decls, pl, init) + [MatchOf(decls, pl, last)];
    }
  }

  lemma {:induction false} NamesCounted(decls: seq<Declaration>, pls: seq<Place>, rendered: string -> bool, i: nat)
    ensures TotalMatches(decls, pls, rendered, i) == multiset(Names(decls, pls, rendered))[Some(i)]
    decreases |pls|
  {
    if pls != [] {
      var last := pls[|pls| - 1];
      NamesCounted(decls, pls[..|pls| - 1], rendered, i);
      if !InComment(last) { MatchesCounted(decls, last, RawHits(last, rendered), i); }
    }
  }

  predicate Once(names: multiset<Option<nat>>, i: nat) { names[Some(i)] == 1 }

  /** Some declaration is matched by no splice, or by more than one. */
  ghost predicate Mismatched(files: seq<File>, decls: seq<Declaration>, rendered: string -> bool)
    requires forall f :: f in files ==> f.lines.Some?
  {
    var names := multiset(Names(decls, AllPlaces(files), rendered));
    exists i: nat :: i < |decls| && !Once(names, i)
  }

  lemma {:induction false} NotOnce(hits: seq<nat>, names: multiset<Option<nat>>)
    requires forall i: nat :: i < |hits| ==> hits[i] == names[Some(i)]
    ensures (exists h :: h in hits && h != 1) <==> exists i: nat :: i < |hits| && !Once(names, i)
  {
    if h :| h in hits && h != 1 {
      var i: nat :| i < |hits| && hits[i] == h;
      assert !Once(names, i);
    }
    if i: nat :| i < |hits| && !Once(names, i) { assert hits[i] in hits && hits[i] != 1; }
  }

  lemma {:induction false} MismatchedIff(files: seq<File>, decls: seq<Declaration>, rendered: string -> bool)
    requires forall f :: f in files ==> f.lines.Some?
    ensures var hits := SweepAll(decls, AllPlaces(files), rendered).hits;
      Mismatched(files, decls, rendered) <==> exists h :: h in hits && h != 1
  {
    var pls := AllPlaces(files);
    HitsCounted(decls, pls, rendered);
    NotOnce(SweepAll(decls, pls, rendered).hits, multiset(Names(decls, pls, rendered)));
  }

  lemma {:induction false} HitsCounted(decls: seq<Declaration>, pls: seq<Place>, rendered: string -> bool)
    ensures var (hits, names) := (SweepAll(decls, pls, rendered).hits, multiset(Names(decls, pls, rendered)));
      |hits| == |decls| && forall i: nat :: i < |hits| ==> hits[i] == names[Some(i)]
  {
    SweepPartitions(decls, pls, rendered);
    forall i: nat | i < |decls|
      ensures TotalMatches(decls, pls, rendered, i) == multiset(Names(decls, pls, rendered))[Some(i)]
    {
      NamesCounted(decls, pls, rendered, i);
    }
  }

  lemma {:induction false} UnsafeIff(decls: seq<Declaration>, pl: Place, rendered: string -> bool)
    ensures BucketOf(decls, pl, rendered) == Unsafe <==> LooseAt(decls, pl, rendered)
  {
    forall h ensures h in RawHits(pl, rendered) <==> Splices(pl, rendered, h) { RawIff(pl, rendered, h); }
    forall h ensures MatchOf(decls, pl, h).None? <==> !Accounted(decls, pl, h) {}
  }

  lemma {:induction false} LooseIff(files: seq<File>, decls: seq<Declaration>, rendered: string -> bool)
    requires forall f :: f in files ==> f.lines.Some?
    ensures Loose(files, decls, rendered) <==> SweepAll(decls, AllPlaces(files), rendered).unsafe != []
  {
    var pls := AllPlaces(files);
    var unsafe := SweepAll(decls, pls, rendered).unsafe;
    SweepPartitions(decls, pls, rendered);
    forall pl ensures pl in unsafe <==> IsSite(files, pl) && LooseAt(decls, pl, rendered) {
      BucketMembers(decls, pls, rendered, Unsafe, pl);
      PlacesComplete(files, pl);
      MentionedIff(pl);
      UnsafeIff(decls, pl, rendered);
    }
    if unsafe != [] { assert unsafe[0] in unsafe; }
  }

  ghost predicate SomeSite(files: seq<File>)
    requires forall f :: f in files ==> f.lines.Some?
  {
    exists pl :: IsSite(files, pl)
  }

  lemma {:induction false} SitesCounted(files: seq<File>, decls: seq<Declaration>, rendered: string -> bool)
    requires forall f :: f in files ==> f.lines.Some?
    ensures SomeSite(files) <==> SweepAll(decls, AllPlaces(files), rendered).total > 0
  {
    var pls := AllPlaces(files);
    forall pl ensures NonComment(pls, pl) <==> IsSite(files, pl) {
      PlacesComplete(files, pl);
      MentionedIff(pl);
    }
    if SweepAll(decls, pls, rendered).total > 0 { var pl := FindSite(decls, pls, rendered); }
    if pl :| IsSite(files, pl) { CountsSite(decls, pls, rendered, pl); }
  }

  lemma {:induction false} CountsSite(decls: seq<Declaration>, pls: seq<Place>, rendered: string -> bool, pl: Place)
    requires NonComment(pls, pl)
    ensures SweepAll(decls, pls, rendered).total > 0
    decreases |pls|
  {
    var init, last := pls[..|pls| - 1], pls[|pls| - 1];
    assert pls == init + [last];
    if InComment(last) { CountsSite(decls, init, rendered, pl); }
  }

  ghost predicate Readable(files: seq<File>) { forall f :: f in files ==> f.lines.Some? }

  /**
   The three exit codes: red for a file that cannot be read, an undeclared splice or a
   declaration that is not matched exactly once; unmeasured for a partial sweep and for one
   without sites.
   */
  ghost predicate Means(files: seq<File>, decls: seq<Declaration>, rendered: string -> bool, rc: int)
  {
    var swept := |files| >= 2 && Readable(files) && SomeSite(files);
    var wrong := swept && (Loose(files, decls, rendered) || Mismatched(files, decls, rendered));
    && (rc == 5 <==> (|files| >= 2 && !Readable(files)) || wrong)
    && (rc == 95 <==> |files| < 2 || (Readable(files) && !SomeSite(files)))
    && (rc == 0 <==> swept && !wrong)
  }

  lemma {:induction false} CodeMeans(files: seq<File>, decls: seq<Declaration>, rendered: string -> bool)
    ensures Means(files, decls, rendered, ExitCode(files, decls, rendered))
  {
    if |files| >= 2 && Readable(files) {
      SitesCounted(files, decls, rendered);
      MismatchedIff(files, decls, rendered);
      LooseIff(files, decls, rendered);
      MismatchIsDead(decls, AllPlaces(files), rendered);
    }
  }

  /**
   Exit 0: outside comments, every expansion that reaches inner source raw is declared, and
   every declaration is matched exactly once.
   */
  lemma {:induction false} ClearMeansDeclared(files: seq<File>, decls: seq<Declaration>, rendered: string -> bool)
    requires ExitCode(files, decls, rendered) == EXIT_CLEAR
    ensures |files| >= 2 && Readable(files)
    ensures exists pl :: IsSite(files, pl)
    ensures forall pl, h :: IsSite(files, pl) && Splices(pl, rendered, h) ==> Accounted(decls, pl, h)
    ensures forall i: nat :: i < |decls| ==> Once(multiset(Names(decls, AllPlaces(files), rendered)), i)
  {
    CodeMeans(files, decls, rendered);
    forall pl, h | IsSite(files, pl) && Splices(pl, rendered, h) ensures Accounted(decls, pl, h) {
      assert !LooseAt(decls, pl, rendered);
    }
  }

  lemma {:induction false} FindSite(decls: seq<Declaration>, pls: seq<Place>, rendered: string -> bool)
    returns (pl: Place)
    requires SweepAll(decls, pls, rendered).total > 0
    ensures NonComment(pls, pl)
    decreases |pls|
  {
    pl := pls[|pls| - 1];
    if InComment(pl) { pl := FindSite(decls, pls[..|pls| - 1], rendered); }
  }

  /** `classify` */
  method Classify(files: seq<File>, decls: seq<Declaration>, rendered: string -> bool) returns (rc: int)
    ensures rc == ExitCode(files, decls, rendered) && Means(files, decls, rendered, rc)
  {
    if |files| < 2 { return EXIT_UNMEASURED; }
    var sw := Start(decls);
    for i := 0 to |files|
      invariant forall f :: f in files[..i] ==> f.lines.Some?
      invariant sw == SweepAll(decls, AllPlaces(files[..i]), rendered)
    {
      assert files[..i + 1][..i] == files[..i] && files[..i + 1] == files[..i] + [files[i]];
      var f := files[i];
      if f.lines.None? {
        assert f in files;
        CodeMeans(files, decls, rendered);
        return EXIT_RED;
      }
      sw := SweepFile(sw, decls, i, f.base, f.lines.value, rendered, AllPlaces(files[..i]));
    }
    assert files[..|files|] == files;
    CodeMeans(files, decls, rendered);
    return Verdict(sw);
  }
}
