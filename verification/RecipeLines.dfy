/**
 Joining the continued recipe lines of a Makefile (checks/makefile_tooling.py): every
 recipe line belongs to exactly one logical command, in order, and the physical count is
 the number of recipe lines.
 */
module RecipeLines {

  predicate IsRecipe(line: string) { line != "" && line[0] == '\t' }

  /** `line.lstrip("\t")` */
  function Stripped(line: string): string
  {
    if IsRecipe(line) then Stripped(line[1..]) else line
  }

  predicate EndsWithOneBackslash(s: string)
  {
    s != "" && s[|s| - 1] == '\\' && !(|s| >= 2 && s[|s| - 2] == '\\')
  }

  /** Line i is continued by the next line, which must be a recipe line as well. */
  predicate Continues(lines: seq<string>, i: nat)
    requires i < |lines|
  {
    EndsWithOneBackslash(Stripped(lines[i])) && i + 1 < |lines| && IsRecipe(lines[i + 1])
  }

  /** A logical command: `count` physical lines from index `start`, and their joined text. */
  datatype Logical = Logical(start: nat, count: nat, text: string)

  function Part(lines: seq<string>, i: nat): string
    requires i < |lines|
  {
    var s := Stripped(lines[i]);
    if Continues(lines, i) then s[..|s| - 1] else s
  }

  function Joined(lines: seq<string>, start: nat, count: nat): string
    requires 0 < count && start + count <= |lines|
  {
    if count == 1 then Part(lines, start) else Joined(lines, start, count - 1) + " " + Part(lines, start + count - 1)
  }

  /** A maximal run of continued recipe lines with its joined text. */
  predicate IsCommand(lines: seq<string>, c: Logical)
  {
    && 0 < c.count && c.start + c.count <= |lines| && c.text == Joined(lines, c.start, c.count)
    && (forall i :: c.start <= i < c.start + c.count ==> IsRecipe(lines[i]))
    && (forall i :: c.start <= i < c.start + c.count - 1 ==> Continues(lines, i))
    && !Continues(lines, c.start + c.count - 1)
  }

  // ----- the same, read from the characters -----

  predicate AllTabs(s: string) { forall k :: 0 <= k < |s| ==> s[k] == '\t' }

  /** The line is tabs, then `body`, then a backslash if another line continues it; the rest has no leading tab. */
  ghost predicate LineReads(line: string, body: string, continued: bool)
  {
    var rest := if continued then body + "\\" else body;
    (rest == "" || rest[0] != '\t') && exists tabs :: AllTabs(tabs) && line == tabs + rest
  }

  /** A line is continued by a recipe line when it ends with one backslash, not with two. */
  ghost predicate IsContinued(lines: seq<string>, i: nat)
    requires i < |lines|
  {
    && i + 1 < |lines| && lines[i + 1] != "" && lines[i + 1][0] == '\t'
    && ContinuedLine(lines[i])
  }

  ghost predicate ContinuedLine(line: string)
  {
    exists body {:trigger LineReads(line, body, true)} ::
      LineReads(line, body, true) && (body == "" || body[|body| - 1] != '\\')
  }

  lemma {:induction false} ContinuedIff(line: string)
    ensures EndsWithOneBackslash(Stripped(line)) <==> ContinuedLine(line)
  {
    var s := Stripped(line);
    if EndsWithOneBackslash(s) {
      var body := s[..|s| - 1];
      assert s == body + "\\";
      LineReadsIff(line, body, true);
    }
    if ContinuedLine(line) {
      var body :| LineReads(line, body, true) && (body == "" || body[|body| - 1] != '\\');
      LineReadsIff(line, body, true);
    }
  }

  /** `parts`, with one space between. */
  function Spaced(parts: seq<string>): string
  {
    if parts == [] then ""
    else if |parts| == 1 then parts[0]
    else Spaced(parts[..|parts| - 1]) + " " + parts[|parts| - 1]
  }

  /** The parts of the lines from `start` on, all but the last one continued. */
  ghost predicate PartsRead(lines: seq<string>, start: nat, parts: seq<string>)
  {
    start + |parts| <= |lines| &&
    forall k {:trigger PartAt(lines, start, parts, k)} :: 0 <= k < |parts| ==> PartAt(lines, start, parts, k)
  }

  ghost predicate PartAt(lines: seq<string>, start: nat, parts: seq<string>, k: nat)
    requires k < |parts| && start + |parts| <= |lines|
  {
    LineReads(lines[start + k], parts[k], k < |parts| - 1)
  }

  lemma {:induction false} StrippedReads(line: string) returns (tabs: string)
    ensures AllTabs(tabs) && line == tabs + Stripped(line) && (Stripped(line) == "" || Stripped(line)[0] != '\t')
  {
    tabs := "";
    if IsRecipe(line) {
      var t := StrippedReads(line[1..]);
      tabs := "\t" + t;
    }
  }

  lemma {:induction false} StrippedOnce(line: string, tabs: string, rest: string)
    requires AllTabs(tabs) && line == tabs + rest && (rest == "" || rest[0] != '\t')
    ensures Stripped(line) == rest
    decreases |tabs|
  {
    if tabs != "" {
      assert line[1..] == tabs[1..] + rest;
      StrippedOnce(line[1..], tabs[1..], rest);
    }
  }

  lemma {:induction false} LineReadsIff(line: string, body: string, continued: bool)
    ensures LineReads(line, body, continued) <==> Stripped(line) == if continued then body + "\\" else body
  {
    var rest := if continued then body + "\\" else body;
    if LineReads(line, body, continued) {
      var tabs :| AllTabs(tabs) && line == tabs + rest;
      StrippedOnce(line, tabs, rest);
    }
    if Stripped(line) == rest { var tabs := StrippedReads(line); }
  }

  lemma {:induction false} ContinuesIff(lines: seq<string>, i: nat)
    requires i < |lines|
    ensures Continues(lines, i) <==> IsContinued(lines, i)
  {
    ContinuedIff(lines[i]);
  }

  lemma {:induction false} PartReads(lines: seq<string>, i: nat)
    requires i < |lines|
    ensures LineReads(lines[i], Part(lines, i), Continues(lines, i))
  {
    var s := Stripped(lines[i]);
    if Continues(lines, i) { assert s == s[..|s| - 1] + "\\"; }
    LineReadsIff(lines[i], Part(lines, i), Continues(lines, i));
  }

  function PartsOf(lines: seq<string>, start: nat, count: nat): seq<string>
    requires start + count <= |lines|
  {
    seq(count, k requires 0 <= k < count => Part(lines, start + k))
  }

  lemma {:induction false} JoinedIsSpaced(lines: seq<string>, start: nat, count: nat)
    requires 0 < count && start + count <= |lines|
    ensures Joined(lines, start, count) == Spaced(PartsOf(lines, start, count))
    decreases count
  {
    if count > 1 {
      JoinedIsSpaced(lines, start, count - 1);
      assert PartsOf(lines, start, count)[..count - 1] == PartsOf(lines, start, count - 1);
    }
  }

  /** Recipe lines, each but the last continued. */
  ghost predicate RunReads(lines: seq<string>, start: nat, count: nat)
  {
    && 0 < count && start + count <= |lines|
    && (forall i :: start <= i < start + count ==> lines[i] != "" && lines[i][0] == '\t')
    && (forall i {:trigger IsContinued(lines, i)} :: start <= i < start + count ==>
          (IsContinued(lines, i) <==> i < start + count - 1))
  }

  /** Their contents, with one space between. */
  ghost predicate TextReads(lines: seq<string>, start: nat, count: nat, text: string)
  {
    exists parts {:trigger PartsRead(lines, start, parts)} ::
      PartsRead(lines, start, parts) && |parts| == count && text == Spaced(parts)
  }

  /** The command, read from the characters. */
  ghost predicate CommandReads(lines: seq<string>, c: Logical)
  {
    RunReads(lines, c.start, c.count) && TextReads(lines, c.start, c.count, c.text)
  }

  lemma {:induction false} RunIsRead(lines: seq<string>, c: Logical)
    requires IsCommand(lines, c)
    ensures RunReads(lines, c.start, c.count)
  {
    forall i | c.start <= i < c.start + c.count ensures IsContinued(lines, i) <==> i < c.start + c.count - 1 {
      ContinuedAt(lines, c, i);
    }
  }

  lemma {:induction false} ContinuedAt(lines: seq<string>, c: Logical, i: nat)
    requires IsCommand(lines, c) && c.start <= i < c.start + c.count
    ensures IsContinued(lines, i) <==> i < c.start + c.count - 1
  {
    ContinuesIff(lines, i);
  }

  lemma {:induction false} TextIsRead(lines: seq<string>, c: Logical)
    requires IsCommand(lines, c)
    ensures TextReads(lines, c.start, c.count, c.text)
  {
    var parts := PartsOf(lines, c.start, c.count);
    JoinedIsSpaced(lines, c.start, c.count);
    forall k | 0 <= k < c.count ensures PartAt(lines, c.start, parts, k) { PartReads(lines, c.start + k); }
    assert PartsRead(lines, c.start, parts);
  }

  function RecipeIndices(lines: seq<string>, n: nat): seq<nat>
    requires n <= |lines|
  {
    if n == 0 then [] else RecipeIndices(lines, n - 1) + (if IsRecipe(lines[n - 1]) then [n - 1] else [])
  }

  function Range(start: nat, count: nat): seq<nat>
  {
    if count == 0 then [] else Range(start, count - 1) + [start + count - 1]
  }

  /** The line indices the commands cover, in the order they cover them. */
  function Covered(cs: seq<Logical>): seq<nat>
  {
    if cs == [] then [] else Covered(cs[..|cs| - 1]) + Range(cs[|cs| - 1].start, cs[|cs| - 1].count)
  }

  lemma {:induction false} CoveredPush(cs: seq<Logical>, c: Logical)
    ensures Covered(cs + [c]) == Covered(cs) + Range(c.start, c.count)
  {
    assert (cs + [c])[..|cs|] == cs;
  }

  /** The lines from `start` up to i are recipe lines, each continued by the next, and read `text`. */
  predicate Taken(lines: seq<string>, start: nat, i: nat, text: string)
  {
    && start < i <= |lines|
    && (forall k :: start <= k < i ==> IsRecipe(lines[k]))
    && (forall k :: start <= k < i - 1 ==> Continues(lines, k))
    && text == Joined(lines, start, i - start)
  }

  lemma {:induction false} TakeNext(lines: seq<string>, start: nat, i: nat, text: string)
    requires Taken(lines, start, i, text) && Continues(lines, i - 1)
    ensures Taken(lines, start, i + 1, text + " " + Part(lines, i))
  {
  }

  lemma {:induction false} TakeFirst(lines: seq<string>, start: nat)
    requires start < |lines| && IsRecipe(lines[start])
    ensures Taken(lines, start, start + 1, Part(lines, start))
  {
  }

  /** The inner loop: the command that starts at a recipe line, and the lines it takes. */
  method ReadCommand(lines: seq<string>, start: nat) returns (c: Logical)
    requires start < |lines| && IsRecipe(lines[start])
    ensures IsCommand(lines, c) && c.start == start && CommandReads(lines, c)
  {
    var i, text := start + 1, Part(lines, start);
    TakeFirst(lines, start);
    while Continues(lines, i - 1)
      invariant Taken(lines, start, i, text)
      decreases |lines| - i
    {
      TakeNext(lines, start, i, text);
      text := text + " " + Part(lines, i);
      i := i + 1;
    }
    c := Logical(start, i - start, text);
    RunIsRead(lines, c);
    TextIsRead(lines, c);
  }

  /** A run of recipe lines adds its range to the recipe lines before it. */
  lemma {:induction false} IndicesOfRun(lines: seq<string>, start: nat, count: nat)
    requires start + count <= |lines| && forall k :: start <= k < start + count ==> IsRecipe(lines[k])
    ensures RecipeIndices(lines, start + count) == RecipeIndices(lines, start) + Range(start, count)
    decreases count
  {
    if count > 0 {
      IndicesOfRun(lines, start, count - 1);
      var before, last := RecipeIndices(lines, start), [start + count - 1];
      assert before + Range(start, count - 1) + last == before + (Range(start, count - 1) + last);
    }
  }

  lemma {:induction false} RangeLength(start: nat, count: nat)
    ensures |Range(start, count)| == count
  {
    if count > 0 { RangeLength(start, count - 1); }
  }

  method LogicalRecipeLines(lines: seq<string>) returns (out: seq<Logical>, physical: nat)
    ensures forall c :: c in out ==> IsCommand(lines, c) && CommandReads(lines, c)
    ensures Covered(out) == RecipeIndices(lines, |lines|)
    ensures physical == |RecipeIndices(lines, |lines|)|
  {
    out, physical := [], 0;
    var i := 0;
    while i < |lines|
      invariant 0 <= i <= |lines|
      invariant forall c :: c in out ==> IsCommand(lines, c) && CommandReads(lines, c)
      invariant Covered(out) == RecipeIndices(lines, i) && physical == |RecipeIndices(lines, i)|
    {
      if !IsRecipe(lines[i]) {
        i := i + 1;
      } else {
        var c := ReadCommand(lines, i);
        CoveredPush(out, c);
        IndicesOfRun(lines, i, c.count);
        RangeLength(i, c.count);
        out := out + [c];
        physical := physical + c.count;
        i := i + c.count;
      }
    }
  }

  /** The covered indices are the recipe lines, each once and in order. */
  lemma {:induction false} IndicesAreRecipeLines(lines: seq<string>, n: nat)
    requires n <= |lines|
    ensures var r := RecipeIndices(lines, n);
      && (forall k :: k in r ==> k < n && IsRecipe(lines[k]))
      && (forall k :: 0 <= k < n && IsRecipe(lines[k]) ==> k in r)
      && (forall a, b :: 0 <= a < b < |r| ==> r[a] < r[b])
  {
    if n > 0 {
      IndicesAreRecipeLines(lines, n - 1);
      var before, r := RecipeIndices(lines, n - 1), RecipeIndices(lines, n);
      assert r == before || r == before + [n - 1];
      forall a, b | 0 <= a < b < |r| ensures r[a] < r[b] { assert before[a] in before; }
    }
  }
}
