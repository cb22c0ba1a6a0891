/**
 The quote-aware scanners of checks/bash_lc_sweep.py: where a trailing comment begins, what
 the source handed to `bash -lc` is, and which expansions in it the outer shell performs.
 */
module BashScan {
  import opened QuotedText

  datatype Option<+T> = None | Some(value: T)

  // ----- comments -----

  predicate Blank(c: char) { c == ' ' || c == '\t' }

  /** A `#` at the start of a word. */
  predicate HashAt(line: string, i: nat)
    requires i < |line|
  {
    line[i] == '#' && (i == 0 || Blank(line[i - 1]))
  }

  datatype Quoting = Quoting(single: bool, double: bool)

  const PLAIN: Quoting := Quoting(false, false)

  function Toggle(q: Quoting, c: char): Quoting
  {
    if c == '\'' && !q.double then q.(single := !q.single)
    else if c == '"' && !q.single then q.(double := !q.double)
    else q
  }

  predicate Escapes(q: Quoting, c: char) { c == '\\' && !q.single }

  /** The quoting in force at k, or None where k is the second half of an escape. */
  function QuotingAt(line: string, i: nat, q: Quoting, k: nat): Option<Quoting>
    requires k < |line|
    decreases |line| - i
  {
    if i == k then Some(q)
    else if i > k then None
    else if Escapes(q, line[i]) then QuotingAt(line, i + 2, q, k)
    else QuotingAt(line, i + 1, Toggle(q, line[i]), k)
  }

  /** An unquoted, unescaped `#` at the start of a word opens a comment. */
  predicate OpensComment(line: string, i: nat, q: Quoting, k: nat)
    requires k < |line|
  {
    HashAt(line, k) && QuotingAt(line, i, q, k) == Some(PLAIN)
  }

  // The same, read from the characters of the line.

  /** What stands at a, outside quotes: an escaped character, a closed quoted run, or one character. */
  ghost predicate UnitAt(line: string, a: nat, b: nat)
    requires a < |line|
  {
    if line[a] == '\\' then b == a + 2
    else if line[a] == '\'' || line[a] == '"' then RunEnds(line, a, b)
    else b == a + 1
  }

  ghost predicate RunEnds(line: string, a: nat, b: nat)
    requires a < |line|
  {
    0 < b <= |line| && ClosesRun(line, a, b - 1)
  }

  /** Reading unit by unit from a on, one comes to k. */
  ghost predicate Unquoted(line: string, a: nat, k: nat)
    requires k < |line|
    decreases k - a
  {
    || a == k
    || (a < k && exists b {:trigger UnitAt(line, a, b)} ::
          a < b <= k && UnitAt(line, a, b) && Unquoted(line, b, k))
  }

  const SINGLE: Quoting := Quoting(true, false)

  const DOUBLE: Quoting := Quoting(false, true)

  ghost predicate PlainAt(line: string, i: nat, q: Quoting, k: nat)
    requires k < |line|
  {
    QuotingAt(line, i, q, k) == Some(PLAIN)
  }

  /** Behind a run that closes before k the line is read on from there. */
  ghost predicate PlainBehindRun(line: string, a: nat, k: nat)
    requires a < |line| && k < |line|
  {
    exists b {:trigger RunEnds(line, a, b)} :: a < b <= k && RunEnds(line, a, b) && PlainAt(line, b, PLAIN, k)
  }

  lemma {:induction false} SingleRunIff(line: string, a: nat, m: nat, k: nat)
    requires a < m <= k < |line| && line[a] == '\'' && forall i :: a < i < m ==> line[i] != '\''
    ensures PlainAt(line, m, SINGLE, k) <==> PlainBehindRun(line, a, k)
    decreases k - m
  {
    if m < k {
      if line[m] == '\'' {
        assert RunEnds(line, a, m + 1);
      } else {
        SingleRunIff(line, a, m + 1, k);
      }
    }
  }

  lemma {:induction false} DoubleRunIff(line: string, a: nat, m: nat, k: nat)
    requires a < m <= |line| && k < |line| && line[a] == '"' && Unescaped(line, a + 1, m)
    requires forall i :: a < i < m && line[i] == '"' ==> !Unescaped(line, a + 1, i)
    ensures PlainAt(line, m, DOUBLE, k) <==> PlainBehindRun(line, a, k)
    decreases |line| - m
  {
    if m < k {
      NextUnescaped(line, a + 1, m);
      if line[m] == '\\' {
        if m + 2 <= k { DoubleRunIff(line, a, m + 2, k); } else { assert QuotingAt(line, m + 2, DOUBLE, k) == None; }
      } else if line[m] == '"' {
        assert RunEnds(line, a, m + 1);
      } else {
        DoubleRunIff(line, a, m + 1, k);
      }
    }
  }

  /** The scanner is outside quotes exactly where the reading is. */
  lemma {:induction false} PlainIff(line: string, a: nat, k: nat)
    requires a <= k < |line|
    ensures PlainAt(line, a, PLAIN, k) <==> Unquoted(line, a, k)
    decreases k - a
  {
    if a < k {
      if line[a] == '\\' {
        if a + 2 <= k { PlainIff(line, a + 2, k); } else { assert QuotingAt(line, a + 2, PLAIN, k) == None; }
        assert UnitAt(line, a, a + 2);
      } else if line[a] == '\'' || line[a] == '"' {
        PlainRunIff(line, a, k);
      } else {
        PlainIff(line, a + 1, k);
        assert UnitAt(line, a, a + 1);
      }
    }
  }

  lemma {:induction false} PlainRunIff(line: string, a: nat, k: nat)
    requires a < k < |line| && (line[a] == '\'' || line[a] == '"')
    ensures PlainAt(line, a, PLAIN, k) <==> Unquoted(line, a, k)
    decreases k - a, 0
  {
    if line[a] == '\'' { SingleRunIff(line, a, a + 1, k); } else { DoubleRunIff(line, a, a + 1, k); }
    forall b | a < b <= k && RunEnds(line, a, b) ensures PlainAt(line, b, PLAIN, k) <==> Unquoted(line, b, k) {
      PlainIff(line, b, k);
    }
    assert forall b :: RunEnds(line, a, b) <==> UnitAt(line, a, b);
  }

  /** A `#` at the start of a word, outside quotes. */
  ghost predicate CommentAt(line: string, k: nat)
    requires k < |line|
  {
    line[k] == '#' && (k == 0 || line[k - 1] == ' ' || line[k - 1] == '\t') && Unquoted(line, 0, k)
  }

  lemma {:induction false} CommentIff(line: string, k: nat)
    requires k < |line|
    ensures OpensComment(line, 0, PLAIN, k) <==> CommentAt(line, k)
  {
    PlainIff(line, 0, k);
  }

  lemma {:induction false} CommentsAre(line: string)
    ensures forall k {:trigger CommentAt(line, k)} ::
      0 <= k < |line| ==> (OpensComment(line, 0, PLAIN, k) <==> CommentAt(line, k))
  {
    forall k | 0 <= k < |line| ensures OpensComment(line, 0, PLAIN, k) <==> CommentAt(line, k) {
      CommentIff(line, k);
    }
  }

  /** `_comment_start`: the first place that opens a comment, or -1. */
  method CommentStart(line: string) returns (at: int)
    ensures -1 <= at < |line|
    ensures at >= 0 ==> OpensComment(line, 0, PLAIN, at)
    ensures forall k :: 0 <= k < (if at >= 0 then at else |line|) ==> !OpensComment(line, 0, PLAIN, k)
    ensures at >= 0 ==> CommentAt(line, at)
    ensures forall k :: 0 <= k < (if at >= 0 then at else |line|) ==> !CommentAt(line, k)
  {
    CommentsAre(line);
    var q, i := PLAIN, 0;
    while i < |line|
      invariant 0 <= i
      invariant forall k :: i <= k < |line| ==> QuotingAt(line, 0, PLAIN, k) == QuotingAt(line, i, q, k)
      invariant forall k :: 0 <= k < i && k < |line| ==> !OpensComment(line, 0, PLAIN, k)
    {
      var c := line[i];
      assert QuotingAt(line, 0, PLAIN, i) == Some(q);
      if Escapes(q, c) {
        if i + 1 < |line| { assert QuotingAt(line, 0, PLAIN, i + 1) == None; }
        i := i + 2;
      } else {
        if c == '\'' && !q.double {
          q := q.(single := !q.single);
        } else if c == '"' && !q.single {
          q := q.(double := !q.double);
        } else if c == '#' && !q.single && !q.double && (i == 0 || Blank(line[i - 1])) {
          return i;
        }
        i := i + 1;
      }
    }
    return -1;
  }

  // ----- the argument of bash -lc -----

  const BASH_LC: string := "bash -lc"

  datatype Inner = NonLiteral | SingleQuoted | DoubleQuoted(body: string)

  /** The contents of a double-quoted run from k on; an escaped character is dropped with its backslash. */
  function DoubleBody(line: string, k: nat): string
    decreases |line| - k
  {
    if k >= |line| || line[k] == '"' then ""
    else if line[k] == '\\' then DoubleBody(line, k + 2)
    else [line[k]] + DoubleBody(line, k + 1)
  }

  function SkipBlanks(line: string, j: nat): (r: nat)
    ensures j <= r && (j <= |line| ==> r <= |line|)
    decreases |line| - j
  {
    if j < |line| && Blank(line[j]) then SkipBlanks(line, j + 1) else j
  }

  function InnerAt(line: string, at: nat): Inner
  {
    var j := SkipBlanks(line, at + |BASH_LC|);
    if j >= |line| || (line[j] != '\'' && line[j] != '"') then NonLiteral
    else if line[j] == '\'' then SingleQuoted
    else DoubleQuoted(DoubleBody(line, j + 1))
  }

  // The same, read from the characters of the line.

  predicate BlankAt(line: string, m: nat) { m < |line| && (line[m] == ' ' || line[m] == '\t') }

  /** j is the first place from `from` on that holds no blank. */
  ghost predicate FirstBehind(line: string, from: nat, j: nat)
  {
    from <= j && (forall m :: from <= m < j ==> BlankAt(line, m)) && !BlankAt(line, j)
  }

  /** What the body keeps: no backslash, and nothing a backslash escapes. */
  function KeptTo(line: string, from: nat, n: nat): string
    requires from <= n <= |line|
  {
    if n == from then ""
    else KeptTo(line, from, n - 1) + if line[n - 1] != '\\' && Unescaped(line, from, n - 1) then [line[n - 1]] else ""
  }

  /** The argument that starts at j. */
  ghost predicate ReadsFrom(line: string, j: nat, inner: Inner)
  {
    match inner
    case NonLiteral => j >= |line| || (line[j] != '\'' && line[j] != '"')
    case SingleQuoted => j < |line| && line[j] == '\''
    case DoubleQuoted(body) =>
      && j < |line| && line[j] == '"'
      && exists c {:trigger ClosesAt(line, j + 1, c)} :: ClosesAt(line, j + 1, c) && body == KeptTo(line, j + 1, c)
  }

  /** `bash -lc` stands at `at`, and its argument begins at the first character behind it that is no blank. */
  ghost predicate ReadsInner(line: string, at: nat, inner: Inner)
  {
    exists j {:trigger FirstBehind(line, at + 8, j)} :: FirstBehind(line, at + 8, j) && ReadsFrom(line, j, inner)
  }

  lemma {:induction false} SkipBlanksFirst(line: string, from: nat, j: nat)
    requires from <= j && forall m :: from <= m < j ==> BlankAt(line, m)
    ensures FirstBehind(line, from, SkipBlanks(line, j))
    decreases |line| - j
  {
    if j < |line| && Blank(line[j]) { SkipBlanksFirst(line, from, j + 1); }
  }

  /** The contents from k on, behind what has been kept so far. */
  lemma {:induction false} BodyReads(line: string, from: nat, k: nat) returns (c: nat)
    requires from <= k <= |line| && Unescaped(line, from, k)
    requires forall m :: from <= m < k && line[m] == '"' ==> !Unescaped(line, from, m)
    ensures ClosesAt(line, from, c) && KeptTo(line, from, c) == KeptTo(line, from, k) + DoubleBody(line, k)
    decreases |line| - k
  {
    if k == |line| || line[k] == '"' {
      c := k;
      assert KeptTo(line, from, k) + "" == KeptTo(line, from, k);
    } else {
      NextUnescaped(line, from, k);
      var next := if line[k] == '\\' then k + 2 else k + 1;
      if next > |line| {
        c := |line|;
        assert KeptTo(line, from, k + 1) == KeptTo(line, from, k) + "" == KeptTo(line, from, k);
      } else {
        c := BodyReads(line, from, next);
        KeptNext(line, from, k);
      }
    }
  }

  lemma {:induction false} KeptNext(line: string, from: nat, k: nat)
    requires from <= k < |line| && Unescaped(line, from, k)
    ensures line[k] != '\\' ==>
      KeptTo(line, from, k + 1) + DoubleBody(line, k + 1)
      == KeptTo(line, from, k) + ([line[k]] + DoubleBody(line, k + 1))
    ensures line[k] == '\\' && k + 2 <= |line| ==> KeptTo(line, from, k + 2) == KeptTo(line, from, k)
  {
    NextUnescaped(line, from, k);
    if line[k] != '\\' {
      assert KeptTo(line, from, k + 1) == KeptTo(line, from, k) + [line[k]];
      assert KeptTo(line, from, k) + [line[k]] + DoubleBody(line, k + 1)
        == KeptTo(line, from, k) + ([line[k]] + DoubleBody(line, k + 1));
    } else if k + 2 <= |line| {
      assert KeptTo(line, from, k + 1) == KeptTo(line, from, k) + "" == KeptTo(line, from, k);
      assert KeptTo(line, from, k + 2) == KeptTo(line, from, k + 1) + "" == KeptTo(line, from, k + 1);
    }
  }

  /** Every argument is read in one way. */
  lemma {:induction false} InnerIff(line: string, at: nat, inner: Inner)
    ensures ReadsInner(line, at, inner) <==> inner == InnerAt(line, at)
  {
    var j := SkipBlanks(line, at + 8);
    SkipBlanksFirst(line, at + 8, at + 8);
    InnerReads(line, at, j);
    if ReadsInner(line, at, inner) {
      var i :| FirstBehind(line, at + 8, i) && ReadsFrom(line, i, inner);
      assert i == j;
      ReadsOnce(line, j, inner, InnerAt(line, at));
    }
  }

  lemma {:induction false} InnerReads(line: string, at: nat, j: nat)
    requires j == SkipBlanks(line, at + 8)
    ensures ReadsFrom(line, j, InnerAt(line, at))
  {
    if j < |line| && line[j] == '"' {
      var c := BodyReads(line, j + 1, j + 1);
      assert "" + DoubleBody(line, j + 1) == DoubleBody(line, j + 1);
      assert ClosesAt(line, j + 1, c);
    }
  }

  lemma {:induction false} ReadsOnce(line: string, j: nat, a: Inner, b: Inner)
    requires ReadsFrom(line, j, a) && ReadsFrom(line, j, b)
    ensures a == b
  {
    if a.DoubleQuoted? && b.DoubleQuoted? {
      var c :| ClosesAt(line, j + 1, c) && a.body == KeptTo(line, j + 1, c);
      var d :| ClosesAt(line, j + 1, d) && b.body == KeptTo(line, j + 1, d);
      ClosesOnce(line, j + 1, c, d);
    }
  }

  method InnerSource(line: string, at: nat) returns (inner: Inner)
    ensures inner == InnerAt(line, at) && ReadsInner(line, at, inner)
  {
    InnerIff(line, at, InnerAt(line, at));
    var j := at + |BASH_LC|;
    while j < |line| && Blank(line[j])
      invariant SkipBlanks(line, j) == SkipBlanks(line, at + |BASH_LC|)
    {
      j := j + 1;
    }
    if j >= |line| || (line[j] != '\'' && line[j] != '"') { return NonLiteral; }
    if line[j] == '\'' { return SingleQuoted; }
    var k, body := j + 1, "";
    while k < |line| && line[k] != '"'
      invariant body + DoubleBody(line, k) == DoubleBody(line, j + 1)
    {
      if line[k] == '\\' {
        k := k + 2;
      } else {
        assert body + ([line[k]] + DoubleBody(line, k + 1)) == body + [line[k]] + DoubleBody(line, k + 1);
        body := body + [line[k]];
        k := k + 1;
      }
    }
    assert body + "" == body;
    return DoubleQuoted(body);
  }

  // ----- expansions -----

  predicate NameStart(c: char) { 'A' <= c <= 'Z' || 'a' <= c <= 'z' || c == '_' }

  predicate NameChar(c: char) { NameStart(c) || '0' <= c <= '9' }

  function NameEnd(s: string, j: nat): (e: nat)
    requires j <= |s|
    ensures j <= e <= |s| && (e < |s| ==> !NameChar(s[e])) && forall m :: j <= m < e ==> NameChar(s[m])
    decreases |s| - j
  {
    if j < |s| && NameChar(s[j]) then NameEnd(s, j + 1) else j
  }

  /** `\$\{?[A-Za-z_][A-Za-z_0-9]*\}?` matched at i: where the match ends. */
  function VarEnd(s: string, i: nat): (e: Option<nat>)
    requires i < |s|
    ensures e.Some? ==> i + 1 < e.value <= |s|
  {
    if s[i] != '$' then None
    else
      var j := if i + 1 < |s| && s[i + 1] == '{' then i + 2 else i + 1;
      if j < |s| && NameStart(s[j]) then
        var e := NameEnd(s, j + 1);
        Some(if e < |s| && s[e] == '}' then e + 1 else e)
      else None
  }

  predicate SubstitutionAt(s: string, i: nat)
  {
    i + 1 < |s| && s[i] == '$' && s[i + 1] == '('
  }

  /** The parenthesis that closes, seen from j at this depth. */
  function CloseParen(s: string, j: nat, depth: int): (c: Option<nat>)
    ensures c.Some? ==> j <= c.value < |s|
    decreases |s| - j
  {
    if j >= |s| then None
    else if s[j] == '(' then CloseParen(s, j + 1, depth + 1)
    else if s[j] == ')' then if depth == 1 then Some(j) else CloseParen(s, j + 1, depth - 1)
    else CloseParen(s, j + 1, depth)
  }

  // The same, by counting.

  /** How many parentheses are open between a and e. */
  function Depth(s: string, a: nat, e: nat): int
    requires a <= e <= |s|
  {
    if e == a then 0
    else Depth(s, a, e - 1) + if s[e - 1] == '(' then 1 else if s[e - 1] == ')' then -1 else 0
  }

  predicate DeepTo(s: string, a: nat, e: nat)
    requires a <= e <= |s|
  {
    forall m {:trigger Depth(s, a, m)} :: a < m <= e ==> Depth(s, a, m) > 0
  }

  /** c is the parenthesis that closes the one at a. */
  predicate Closes(s: string, a: nat, c: nat)
  {
    a < c < |s| && DeepTo(s, a, c) && Depth(s, a, c + 1) == 0
  }

  /** Nothing closes the parenthesis at a. */
  ghost predicate StaysOpen(s: string, a: nat) { forall c: nat :: !Closes(s, a, c) }

  lemma {:induction false} CloseParenFrom(s: string, a: nat, j: nat, depth: int, c: nat)
    requires a < j <= |s| && depth == Depth(s, a, j) && DeepTo(s, a, j)
    ensures CloseParen(s, j, depth) == Some(c) <==> j <= c && Closes(s, a, c)
    decreases |s| - j
  {
    if j < |s| {
      var next := Depth(s, a, j + 1);
      if next > 0 {
        CloseParenFrom(s, a, j + 1, next, c);
      } else {
        assert Closes(s, a, j);
      }
    }
  }

  lemma {:induction false} CloseParenIff(s: string, a: nat, c: nat)
    requires a < |s| && s[a] == '('
    ensures CloseParen(s, a, 0) == Some(c) <==> Closes(s, a, c)
  {
    assert Depth(s, a, a + 1) == 1;
    CloseParenFrom(s, a, a + 1, 1, c);
  }

  /** The text between the parentheses of the substitution at i, or all the rest if none closes it. */
  ghost predicate SpanReads(s: string, i: nat, text: string, close: nat)
    requires SubstitutionAt(s, i)
  {
    && i < close < |s|
    && if Closes(s, i + 1, close) then text == s[i + 2..close]
       else StaysOpen(s, i + 1) && text == s[i + 2..] && close == |s| - 1
  }

  datatype Kind = Variable | Substitution | Rendered

  datatype Hit = Hit(token: string, kind: Kind)

  /** A hit with the span of the body it takes up. */
  datatype Found = Found(start: nat, end: nat, hit: Hit)

  /** The text of a substitution, between its parentheses, or all the rest if none closes it. */
  function SubText(s: string, i: nat): string
    requires SubstitutionAt(s, i)
  {
    assert CloseParen(s, i + 1, 0) == CloseParen(s, i + 2, 1);
    match CloseParen(s, i + 1, 0)
    case Some(c) => s[i + 2..c]
    case None => s[i + 2..]
  }

  /** The last character of a substitution. */
  function SubClose(s: string, i: nat): (c: nat)
    requires SubstitutionAt(s, i)
    ensures i < c < |s|
  {
    match CloseParen(s, i + 1, 0)
    case Some(c) => c
    case None => |s| - 1
  }

  lemma {:induction false} SubReads(s: string, i: nat)
    requires SubstitutionAt(s, i)
    ensures SpanReads(s, i, SubText(s, i), SubClose(s, i))
  {
    match CloseParen(s, i + 1, 0)
    case Some(c) => CloseParenIff(s, i + 1, c);
    case None => NeverCloses(s, i + 1);
  }

  lemma {:induction false} NeverCloses(s: string, a: nat)
    requires a < |s| && s[a] == '(' && CloseParen(s, a, 0) == None
    ensures StaysOpen(s, a)
  {
    forall c: nat ensures !Closes(s, a, c) { CloseParenIff(s, a, c); }
  }

  /** The expansion that starts at i, if one does; `rendered` recognises `printf %q` forms. */
  function ExpansionAt(s: string, i: nat, rendered: string -> bool): (f: Option<Found>)
    requires i < |s|
    ensures f.Some? ==> f.value.start == i && i < f.value.end <= |s|
  {
    if SubstitutionAt(s, i) then
      Some(Found(i, SubClose(s, i) + 1,
                 if rendered(SubText(s, i)) then Hit("$(printf '%q ' ...)", Rendered) else Hit("$(...)", Substitution)))
    else
      match VarEnd(s, i)
      case Some(e) => Some(Found(i, e, Hit(s[i..e], Variable)))
      case None => None
  }

  /** A dollar sign, perhaps a brace, the longest name, perhaps a brace. */
  ghost predicate VarReads(s: string, i: nat, e: nat)
    requires i < |s|
  {
    s[i] == '$' && BracedName(s, if i + 1 < |s| && s[i + 1] == '{' then i + 2 else i + 1, e)
  }

  /** The longest name from j on, and the brace behind it if there is one, end at e. */
  ghost predicate BracedName(s: string, j: nat, e: nat)
  {
    exists n: nat {:trigger NameReads(s, j, n)} ::
      NameReads(s, j, n) && e == if n < |s| && s[n] == '}' then n + 1 else n
  }

  /** The longest name that starts at j ends at n. */
  ghost predicate NameReads(s: string, j: nat, n: nat)
  {
    && j < n <= |s| && ('A' <= s[j] <= 'Z' || 'a' <= s[j] <= 'z' || s[j] == '_')
    && (forall m :: j < m < n ==> NameChar(s[m])) && (n < |s| ==> !NameChar(s[n]))
  }

  lemma {:induction false} NameOnce(s: string, j: nat, n: nat, m: nat)
    requires NameReads(s, j, n) && NameReads(s, j, m)
    ensures n == m
  {
  }

  lemma {:induction false} VarEndIff(s: string, i: nat, e: nat)
    requires i < |s|
    ensures VarEnd(s, i) == Some(e) <==> VarReads(s, i, e)
  {
    var j := if i + 1 < |s| && s[i + 1] == '{' then i + 2 else i + 1;
    if s[i] == '$' && j < |s| && NameStart(s[j]) {
      var end := NameEnd(s, j + 1);
      assert NameReads(s, j, end);
      if VarReads(s, i, e) {
        var n: nat :| NameReads(s, j, n) && e == if n < |s| && s[n] == '}' then n + 1 else n;
        NameOnce(s, j, n, end);
      }
    }
  }

  /** How a substitution is reported: safe if its text renders what it prints, and a splice otherwise. */
  function SubHit(text: string, rendered: string -> bool): (h: Hit)
    ensures h.kind == Rendered <==> rendered(text)
    ensures h.kind == Substitution <==> !rendered(text)
  {
    if rendered(text) then Hit("$(printf '%q ' ...)", Rendered) else Hit("$(...)", Substitution)
  }

  ghost predicate SubIs(s: string, i: nat, text: string, rendered: string -> bool, f: Found)
    requires SubstitutionAt(s, i)
  {
    f.end > 0 && SpanReads(s, i, text, f.end - 1) && f.hit == SubHit(text, rendered)
  }

  /** What an expansion at i is: a substitution, rendered or not, or else a variable, with its text. */
  ghost predicate ExpansionReads(s: string, i: nat, rendered: string -> bool, f: Found)
    requires i < |s|
  {
    f.start == i &&
    if i + 1 < |s| && s[i] == '$' && s[i + 1] == '(' then
      exists text {:trigger SubIs(s, i, text, rendered, f)} :: SubIs(s, i, text, rendered, f)
    else VarReads(s, i, f.end) && f.end <= |s| && f.hit == Hit(s[i..f.end], Variable)
  }

  lemma {:induction false} SpanOnce(s: string, i: nat, a: string, c: nat, b: string, d: nat)
    requires SubstitutionAt(s, i) && SpanReads(s, i, a, c) && SpanReads(s, i, b, d)
    ensures a == b && c == d
  {
    if Closes(s, i + 1, c) && Closes(s, i + 1, d) {
      CloseOnce(s, i + 1, c, d);
      CloseOnce(s, i + 1, d, c);
    }
  }

  lemma {:induction false} CloseOnce(s: string, a: nat, c: nat, d: nat)
    requires Closes(s, a, c) && Closes(s, a, d)
    ensures c <= d
  {
  }

  lemma {:induction false} ExpansionIff(s: string, i: nat, rendered: string -> bool, f: Found)
    requires i < |s|
    ensures ExpansionAt(s, i, rendered) == Some(f) <==> ExpansionReads(s, i, rendered, f)
  {
    if SubstitutionAt(s, i) {
      SubReads(s, i);
      var text, close := SubText(s, i), SubClose(s, i);
      assert ExpansionAt(s, i, rendered) == Some(Found(i, close + 1, SubHit(text, rendered)));
      if ExpansionAt(s, i, rendered) == Some(f) { assert SubIs(s, i, text, rendered, f); }
      if ExpansionReads(s, i, rendered, f) {
        var t :| SubIs(s, i, t, rendered, f);
        SpanOnce(s, i, t, f.end - 1, text, close);
        assert f == Found(i, close + 1, SubHit(text, rendered));
      }
    } else {
      VarEndIff(s, i, f.end);
    }
  }

  /** The scan from i on, with the parity of inner single quotes so far. */
  function FoundFrom(s: string, i: nat, quoted: bool, rendered: string -> bool): seq<Found>
    requires i <= |s|
    decreases |s| - i
  {
    if i == |s| then []
    else if s[i] == '\'' then FoundFrom(s, i + 1, !quoted, rendered)
    else if s[i] == '$' && !quoted then
      match ExpansionAt(s, i, rendered)
      case Some(f) => [f] + FoundFrom(s, f.end, quoted, rendered)
      case None => FoundFrom(s, i + 1, quoted, rendered)
    else FoundFrom(s, i + 1, quoted, rendered)
  }

  function HitsOf(fs: seq<Found>): (r: seq<Hit>)
    ensures |r| == |fs| && forall i :: 0 <= i < |fs| ==> r[i] == fs[i].hit
  {
    if fs == [] then [] else [fs[0].hit] + HitsOf(fs[1..])
  }

  function HitsFrom(s: string, i: nat, quoted: bool, rendered: string -> bool): seq<Hit>
    requires i <= |s|
  {
    HitsOf(FoundFrom(s, i, quoted, rendered))
  }

  function Hits(s: string, rendered: string -> bool): seq<Hit>
  {
    HitsFrom(s, 0, false, rendered)
  }

  /** What one position contributes. */
  lemma {:induction false} HitsStep(s: string, i: nat, quoted: bool, rendered: string -> bool)
    requires i < |s|
    ensures s[i] == '\'' ==> HitsFrom(s, i, quoted, rendered) == HitsFrom(s, i + 1, !quoted, rendered)
    ensures s[i] == '$' && !quoted && ExpansionAt(s, i, rendered).Some? ==>
              var f := ExpansionAt(s, i, rendered).value;
              HitsFrom(s, i, quoted, rendered) == [f.hit] + HitsFrom(s, f.end, quoted, rendered)
    ensures s[i] != '\'' && !(s[i] == '$' && !quoted && ExpansionAt(s, i, rendered).Some?) ==>
              HitsFrom(s, i, quoted, rendered) == HitsFrom(s, i + 1, quoted, rendered)
  {
    if s[i] == '$' && !quoted && ExpansionAt(s, i, rendered).Some? {
      var f := ExpansionAt(s, i, rendered).value;
      var rest := FoundFrom(s, f.end, quoted, rendered);
      assert ([f] + rest)[1..] == rest;
    }
  }

  /** `_cmdsub_span`: the text between the parentheses, and the index of the closing one. */
  method CmdSubSpan(s: string, i: nat) returns (text: string, close: nat)
    requires SubstitutionAt(s, i)
    ensures text == SubText(s, i) && close == SubClose(s, i) && SpanReads(s, i, text, close)
  {
    SubReads(s, i);
    var depth, j := 0, i + 1;
    while j < |s|
      invariant i + 1 <= j <= |s| && (j == i + 1 ==> depth == 0) && (j > i + 1 ==> depth >= 1)
      invariant CloseParen(s, j, depth) == CloseParen(s, i + 1, 0)
    {
      if s[j] == '(' {
        depth := depth + 1;
      } else if s[j] == ')' {
        depth := depth - 1;
        if depth == 0 { return s[i + 2..j], j; }
      }
      j := j + 1;
    }
    return s[i + 2..], |s| - 1;
  }

  /** The branch of `_scan` at a `$` outside quotes. */
  method ReadExpansion(s: string, i: nat, rendered: string -> bool) returns (f: Option<Found>)
    requires i < |s|
    ensures f == ExpansionAt(s, i, rendered)
  {
    if SubstitutionAt(s, i) {
      var sub, close := CmdSubSpan(s, i);
      return Some(Found(i, close + 1,
                        if rendered(sub) then Hit("$(printf '%q ' ...)", Rendered) else Hit("$(...)", Substitution)));
    }
    var e := VarEnd(s, i);
    return if e.Some? then Some(Found(i, e.value, Hit(s[i..e.value], Variable))) else None;
  }

  /** What has been reported is followed by what is still to come. */
  predicate Splits(whole: seq<Hit>, done: seq<Hit>, rest: seq<Hit>)
  {
    if done == [] then whole == rest
    else whole != [] && whole[0] == done[0] && Splits(whole[1..], done[1..], rest)
  }

  lemma {:induction false} SplitsNext(whole: seq<Hit>, done: seq<Hit>, h: Hit, rest: seq<Hit>)
    requires Splits(whole, done, [h] + rest)
    ensures Splits(whole, done + [h], rest)
    decreases |done|
  {
    if done == [] {
      assert whole[1..] == rest;
    } else {
      SplitsNext(whole[1..], done[1..], h, rest);
      assert (done + [h])[1..] == done[1..] + [h];
    }
  }

  lemma {:induction false} SplitsEnd(whole: seq<Hit>, done: seq<Hit>)
    requires Splits(whole, done, [])
    ensures done == whole
    decreases |done|
  {
    if done != [] {
      SplitsEnd(whole[1..], done[1..]);
      assert done == [done[0]] + done[1..] && whole == [whole[0]] + whole[1..];
    }
  }

  /** One round of the scan: where it goes on, whether inside quotes, and what it reports. */
  method ScanAt(s: string, i: nat, quoted: bool, rendered: string -> bool)
    returns (next: nat, inside: bool, hit: Option<Hit>)
    requires i < |s|
    ensures i < next <= |s|
    ensures hit.Some? ==> HitsFrom(s, i, quoted, rendered) == [hit.value] + HitsFrom(s, next, inside, rendered)
    ensures hit.None? ==> HitsFrom(s, i, quoted, rendered) == HitsFrom(s, next, inside, rendered)
  {
    HitsStep(s, i, quoted, rendered);
    next, inside, hit := i + 1, quoted, None;
    if s[i] == '\'' {
      inside := !quoted;
    } else if s[i] == '$' && !quoted {
      var f := ReadExpansion(s, i, rendered);
      if f.Some? { next, hit := f.value.end, Some(f.value.hit); }
    }
  }

  /** `_scan` */
  method ScanBody(s: string, rendered: string -> bool) returns (hits: seq<Hit>)
    ensures hits == Hits(s, rendered)
  {
    hits := [];
    var quoted, i := false, 0;
    while i < |s|
      invariant 0 <= i <= |s|
      invariant Splits(Hits(s, rendered), hits, HitsFrom(s, i, quoted, rendered))
      decreases |s| - i
    {
      var next, inside, hit := ScanAt(s, i, quoted, rendered);
      if hit.Some? {
        SplitsNext(Hits(s, rendered), hits, hit.value, HitsFrom(s, next, inside, rendered));
        hits := hits + [hit.value];
      }
      i, quoted := next, inside;
    }
    SplitsEnd(Hits(s, rendered), hits);
  }

  // ----- exactly the expansions outside quotes and outside skipped spans -----

  predicate Inside(fs: seq<Found>, k: nat)
  {
    exists f :: f in fs && f.start < k < f.end
  }

  predicate Spanned(fs: seq<Found>, k: nat)
  {
    exists f :: f in fs && f.start <= k < f.end
  }

  /** The single quotes from lo up to k that stand outside every found span. */
  function Quotes(s: string, fs: seq<Found>, lo: nat, k: nat): nat
    requires lo <= k <= |s|
    decreases k - lo
  {
    if lo == k then 0
    else (if s[lo] == '\'' && !Spanned(fs, lo) then 1 else 0) + Quotes(s, fs, lo + 1, k)
  }

  /** The declarative reading: an expansion at even quote parity, not inside another one. */
  predicate Reported(s: string, fs: seq<Found>, lo: nat, quoted: bool, k: nat, rendered: string -> bool)
    requires lo <= k < |s|
  {
    ExpansionAt(s, k, rendered).Some? && !Inside(fs, k) && (Quotes(s, fs, lo, k) % 2 == 0 <==> !quoted)
  }

  /** Spans in order, one behind the other, from i on. */
  predicate InOrder(s: string, fs: seq<Found>, i: nat)
  {
    && (forall a :: 0 <= a < |fs| ==> i <= fs[a].start < fs[a].end <= |s|)
    && (forall a, b :: 0 <= a < b < |fs| ==> fs[a].end <= fs[b].start)
  }

  lemma {:induction false} OrderFrom(s: string, fs: seq<Found>, i: nat, j: nat)
    requires InOrder(s, fs, j) && i <= j
    ensures InOrder(s, fs, i)
  {}

  lemma {:induction false} OrderCons(s: string, f: Found, rest: seq<Found>, i: nat)
    requires i <= f.start < f.end <= |s| && InOrder(s, rest, f.end)
    ensures InOrder(s, [f] + rest, i)
  {}

  lemma {:induction false} FoundInOrder(s: string, i: nat, quoted: bool, rendered: string -> bool)
    requires i <= |s|
    ensures InOrder(s, FoundFrom(s, i, quoted, rendered), i)
    decreases |s| - i
  {
    if i < |s| {
      if s[i] == '$' && !quoted && ExpansionAt(s, i, rendered).Some? {
        var f := ExpansionAt(s, i, rendered).value;
        FoundInOrder(s, f.end, quoted, rendered);
        OrderCons(s, f, FoundFrom(s, f.end, quoted, rendered), i);
      } else {
        var quoted' := if s[i] == '\'' then !quoted else quoted;
        FoundInOrder(s, i + 1, quoted', rendered);
        OrderFrom(s, FoundFrom(s, i + 1, quoted', rendered), i, i + 1);
      }
    }
  }

  lemma {:induction false} QuotesInSpan(s: string, fs: seq<Found>, f: Found, lo: nat, k: nat)
    requires f in fs && f.start <= lo <= f.end <= k <= |s|
    ensures Quotes(s, fs, lo, k) == Quotes(s, fs, f.end, k)
    decreases f.end - lo
  {
    if lo < f.end { QuotesInSpan(s, fs, f, lo + 1, k); }
  }

  lemma {:induction false} QuotesBehind(s: string, f: Found, rest: seq<Found>, lo: nat, k: nat)
    requires f.end <= lo <= k <= |s|
    ensures Quotes(s, [f] + rest, lo, k) == Quotes(s, rest, lo, k)
    decreases k - lo
  {
    if lo < k {
      assert Spanned([f] + rest, lo) <==> Spanned(rest, lo) by { SpannedCons(f, rest, lo); }
      QuotesBehind(s, f, rest, lo + 1, k);
    }
  }

  lemma {:induction false} SpannedCons(f: Found, rest: seq<Found>, k: nat)
    ensures Spanned([f] + rest, k) <==> (f.start <= k < f.end) || Spanned(rest, k)
    ensures Inside([f] + rest, k) <==> (f.start < k < f.end) || Inside(rest, k)
  {
    assert ([f] + rest)[0] == f && f in [f] + rest;
    assert forall g :: g in [f] + rest <==> g == f || g in rest;
  }

  predicate StartsOne(fs: seq<Found>, k: nat)
  {
    exists f :: f in fs && f.start == k
  }

  lemma {:induction false} NotBefore(s: string, fs: seq<Found>, i: nat, k: nat)
    requires InOrder(s, fs, i) && k < i
    ensures !Spanned(fs, k) && !Inside(fs, k) && !StartsOne(fs, k)
  {
  }

  /** Nothing starts inside an earlier span. */
  lemma {:induction false} StartIsOutside(s: string, fs: seq<Found>, i: nat, k: nat)
    requires InOrder(s, fs, i) && StartsOne(fs, k)
    ensures !Inside(fs, k)
  {
    var f :| f in fs && f.start == k;
    var a :| 0 <= a < |fs| && fs[a] == f;
    forall g | g in fs ensures !(g.start < k < g.end) {
      var b :| 0 <= b < |fs| && fs[b] == g;
    }
  }

  /** One character further on, the parity turns with a quote and stays otherwise. */
  lemma {:induction false} ParityStep(s: string, fs: seq<Found>, i: nat, quoted: bool, k: nat)
    requires i < k < |s| && InOrder(s, fs, i + 1)
    ensures (Quotes(s, fs, i, k) % 2 == 0 <==> !quoted)
      <==> (Quotes(s, fs, i + 1, k) % 2 == 0 <==> !(if s[i] == '\'' then !quoted else quoted))
  {
    NotBefore(s, fs, i + 1, i);
    var q := Quotes(s, fs, i + 1, k);
    assert Quotes(s, fs, i, k) == (if s[i] == '\'' then 1 else 0) + q;
    assert (1 + q) % 2 == 0 <==> q % 2 != 0;
  }

  /** The step over one character that is not part of a found expansion. */
  lemma {:induction false} OneCharacter(s: string, i: nat, quoted: bool, quoted': bool, rendered: string -> bool,
                                        k: nat)
    requires i < |s| && i <= k < |s|
    requires quoted' == (if s[i] == '\'' then !quoted else quoted)
    requires !(s[i] == '$' && !quoted && ExpansionAt(s, i, rendered).Some?)
    requires i < k ==> var fs := FoundFrom(s, i + 1, quoted', rendered);
      StartsOne(fs, k) <==> Reported(s, fs, i + 1, quoted', k, rendered)
    ensures var fs := FoundFrom(s, i, quoted, rendered);
      StartsOne(fs, k) <==> Reported(s, fs, i, quoted, k, rendered)
  {
    var fs := FoundFrom(s, i + 1, quoted', rendered);
    assert FoundFrom(s, i, quoted, rendered) == fs;
    FoundInOrder(s, i + 1, quoted', rendered);
    if k > i {
      ParityStep(s, fs, i, quoted, k);
    } else {
      NotBefore(s, fs, i + 1, i);
      ExpansionsHaveDollar(s, i, rendered);
      assert Quotes(s, fs, i, i) == 0;
    }
  }

  lemma {:induction false} ExpansionsHaveDollar(s: string, i: nat, rendered: string -> bool)
    requires i < |s|
    ensures ExpansionAt(s, i, rendered).Some? ==> s[i] == '$'
  {
  }

  /** The step over a found expansion. */
  lemma {:induction false} OneExpansion(s: string, i: nat, rendered: string -> bool, k: nat)
    requires i < |s| && i <= k < |s| && s[i] == '$' && ExpansionAt(s, i, rendered).Some?
    requires var f := ExpansionAt(s, i, rendered).value;
      f.end <= k ==> var rest := FoundFrom(s, f.end, false, rendered);
        StartsOne(rest, k) <==> Reported(s, rest, f.end, false, k, rendered)
    ensures var fs := FoundFrom(s, i, false, rendered);
      StartsOne(fs, k) <==> Reported(s, fs, i, false, k, rendered)
  {
    var f := ExpansionAt(s, i, rendered).value;
    var rest := FoundFrom(s, f.end, false, rendered);
    var fs := [f] + rest;
    assert FoundFrom(s, i, false, rendered) == fs && fs[0] == f && f in fs;
    FoundInOrder(s, i, false, rendered);
    FoundInOrder(s, f.end, false, rendered);
    SpannedCons(f, rest, k);
    assert StartsOne(fs, k) <==> k == i || StartsOne(rest, k) by {
      assert forall g :: g in fs <==> g == f || g in rest;
    }
    if k == i {
      StartIsOutside(s, fs, i, i);
      assert Quotes(s, fs, i, i) == 0;
    } else if k < f.end {
      NotBefore(s, rest, f.end, k);
    } else {
      QuotesInSpan(s, fs, f, i, k);
      QuotesBehind(s, f, rest, f.end, k);
    }
  }

  lemma {:induction false} FoundExactlyFrom(s: string, i: nat, quoted: bool, rendered: string -> bool, k: nat)
    requires i <= k < |s|
    ensures var fs := FoundFrom(s, i, quoted, rendered);
      StartsOne(fs, k) <==> Reported(s, fs, i, quoted, k, rendered)
    decreases |s| - i
  {
    if s[i] == '$' && !quoted && ExpansionAt(s, i, rendered).Some? {
      var f := ExpansionAt(s, i, rendered).value;
      if f.end <= k { FoundExactlyFrom(s, f.end, quoted, rendered, k); }
      OneExpansion(s, i, rendered, k);
    } else {
      var quoted' := if s[i] == '\'' then !quoted else quoted;
      if i < k { FoundExactlyFrom(s, i + 1, quoted', rendered, k); }
      OneCharacter(s, i, quoted, quoted', rendered, k);
    }
  }

  /** Every found expansion is the one its place has. */
  lemma {:induction false} FoundAreExpansions(s: string, i: nat, quoted: bool, rendered: string -> bool)
    requires i <= |s|
    ensures forall f :: f in FoundFrom(s, i, quoted, rendered) ==>
      f.start < |s| && ExpansionAt(s, f.start, rendered) == Some(f)
    decreases |s| - i
  {
    if i < |s| {
      if s[i] == '\'' {
        FoundAreExpansions(s, i + 1, !quoted, rendered);
      } else if s[i] == '$' && !quoted && ExpansionAt(s, i, rendered).Some? {
        FoundAreExpansions(s, ExpansionAt(s, i, rendered).value.end, quoted, rendered);
      } else {
        FoundAreExpansions(s, i + 1, quoted, rendered);
      }
    }
  }

  /**
   `_scan` reports, from left to right, exactly the expansions that stand at even quote parity
   and outside the spans of the others, each with its own token and kind.
   */
  lemma {:induction false} ScanReportsExactly(s: string, rendered: string -> bool)
    ensures var fs := FoundFrom(s, 0, false, rendered);
      && InOrder(s, fs, 0) && Hits(s, rendered) == HitsOf(fs)
      && (forall f :: f in fs ==> f.start < |s| && ExpansionReads(s, f.start, rendered, f))
      && (forall k :: 0 <= k < |s| ==> (StartsOne(fs, k) <==> Reported(s, fs, 0, false, k, rendered)))
  {
    FoundInOrder(s, 0, false, rendered);
    FoundAreExpansions(s, 0, false, rendered);
    forall f | f in FoundFrom(s, 0, false, rendered)
      ensures f.start < |s| && ExpansionReads(s, f.start, rendered, f)
    {
      ExpansionIff(s, f.start, rendered, f);
    }
    forall k | 0 <= k < |s|
      ensures StartsOne(FoundFrom(s, 0, false, rendered), k)
        <==> Reported(s, FoundFrom(s, 0, false, rendered), 0, false, k, rendered)
    {
      FoundExactlyFrom(s, 0, false, rendered, k);
    }
  }
}
