/**
 The shell lexer of checks/makefile_tooling.py: which tokens of a recipe line stand in
 command position (sections 2.2 and 2.3 of the POSIX.1-2017 Shell Command Language, as far
 as the scanner follows them).
 */
module CommandWords {
  import opened QuotedText

  predicate StartsAt(s: string, i: nat, p: string)
  {
    i + |p| <= |s| && s[i..i + |p|] == p
  }

  predicate Blank(c: char) { c == ' ' || c == '\t' }

  predicate Space(c: char) { c == ' ' || ('\t' <= c <= '\r') || ('\U{1C}' <= c <= '\U{1F}') }

  // ----- the skips -----

  /** The index of the first single quote at or after j, or the length. */
  function CloseSingle(s: string, j: nat): (c: nat)
    requires j <= |s|
    ensures j <= c <= |s| && (c < |s| ==> s[c] == '\'') && forall m :: j <= m < c ==> s[m] != '\''
    decreases |s| - j
  {
    if j == |s| || s[j] == '\'' then j else CloseSingle(s, j + 1)
  }

  /** The index of the double quote that closes a run whose contents start at j, or the length. */
  function CloseDouble(s: string, j: nat): (c: nat)
    ensures j <= |s| ==> j <= c
    ensures c <= |s| && (c < |s| ==> s[c] == '"')
    decreases |s| - j
  {
    if j >= |s| then |s|
    else if s[j] == '\\' then CloseDouble(s, j + 2)
    else if s[j] == '"' then j
    else CloseDouble(s, j + 1)
  }

  predicate Quote(c: char) { c == '\'' || c == '"' }

  function CloseOf(s: string, i: nat): (c: nat)
    requires i < |s| && Quote(s[i])
    ensures i < c <= |s| && (c < |s| ==> s[c] == s[i])
  {
    if s[i] == '\'' then CloseSingle(s, i + 1) else CloseDouble(s, i + 1)
  }

  /** The index just past the quoted run that starts at i. */
  function SkipQuoted(s: string, i: nat): (e: nat)
    requires i < |s| && Quote(s[i])
    ensures i < e <= |s|
  {
    if CloseOf(s, i) < |s| then CloseOf(s, i) + 1 else |s|
  }

  /** The index just past a `$(...)` make expansion, `depth` parentheses deep at j. */
  function SkipVar(s: string, j: nat, depth: int): (e: nat)
    requires j <= |s|
    ensures j <= e <= |s|
    decreases |s| - j
  {
    if j == |s| then j
    else if StartsAt(s, j, "$(") then SkipVar(s, j + 2, depth + 1)
    else if s[j] == ')' then if depth == 1 then j + 1 else SkipVar(s, j + 1, depth - 1)
    else SkipVar(s, j + 1, depth)
  }

  method SkipSingleQuoted(s: string, i: nat) returns (e: nat)
    requires i < |s| && s[i] == '\''
    ensures e == SkipQuoted(s, i)
  {
    var j := i + 1;
    while j < |s| && s[j] != '\''
      invariant i < j <= |s| && CloseSingle(s, j) == CloseSingle(s, i + 1)
    {
      j := j + 1;
    }
    e := if j < |s| then j + 1 else |s|;
  }

  method SkipDoubleQuoted(s: string, i: nat) returns (e: nat)
    requires i < |s| && s[i] == '"'
    ensures e == SkipQuoted(s, i)
  {
    var j := i + 1;
    while j < |s|
      invariant CloseDouble(s, j) == CloseDouble(s, i + 1)
    {
      if s[j] == '\\' {
        j := j + 2;
      } else if s[j] == '"' {
        return j + 1;
      } else {
        j := j + 1;
      }
    }
    e := |s|;
  }

  method SkipMakeVar(s: string, i: nat) returns (e: nat)
    requires StartsAt(s, i, "$(")
    ensures e == SkipVar(s, i, 0)
  {
    var depth, j := 0, i;
    while j < |s|
      invariant i <= j <= |s| && SkipVar(s, j, depth) == SkipVar(s, i, 0)
    {
      if StartsAt(s, j, "$(") {
        depth := depth + 1;
        j := j + 2;
      } else if s[j] == ')' {
        depth := depth - 1;
        j := j + 1;
        if depth == 0 { return j; }
      } else {
        j := j + 1;
      }
    }
    e := |s|;
  }

  // ----- words -----

  predicate Stops(c: char)
  {
    c in " \t;|&`()"
  }

  predicate TokenStops(s: string, i: nat)
    requires i < |s|
  {
    Stops(s[i]) || StartsAt(s, i, "$$(")
  }

  /** The end of the part of a token that starts at i: a quoted run, an expansion, or one character. */
  function NextPart(s: string, i: nat): (e: nat)
    requires i < |s|
    ensures i < e <= |s|
  {
    if Quote(s[i]) then SkipQuoted(s, i)
    else if StartsAt(s, i, "$(") then
      assert SkipVar(s, i, 0) == SkipVar(s, i + 2, 1);
      SkipVar(s, i, 0)
    else i + 1
  }

  /** Where the token being read at i ends. */
  function TokenEnd(s: string, i: nat): (e: nat)
    requires i <= |s|
    ensures i <= e <= |s|
    ensures i < |s| && !TokenStops(s, i) ==> i < e
    decreases |s| - i
  {
    if i == |s| || TokenStops(s, i) then i else TokenEnd(s, NextPart(s, i))
  }

  predicate NameStart(c: char) { 'A' <= c <= 'Z' || 'a' <= c <= 'z' || c == '_' }

  predicate NameChar(c: char) { NameStart(c) || '0' <= c <= '9' }

  /** `^[A-Za-z_][A-Za-z0-9_]*=` */
  predicate IsAssignment(w: string)
  {
    exists k :: 0 < k < |w| && w[k] == '=' && NameStart(w[0]) && forall j :: 0 < j < k ==> NameChar(w[j])
  }

  /** One matching pair of quotes around a single word is dropped. */
  function Unquote(w: string): string
  {
    if |w| >= 2 && w[0] == w[|w| - 1] && Quote(w[0]) && |w| > 2 && (forall j :: 0 < j < |w| - 1 ==> !Space(w[j]))
    then w[1..|w| - 1] else w
  }

  /** `word.lstrip("@-+")` */
  function StripPrefix(w: string): string
  {
    if w != "" && w[0] in "@-+" then StripPrefix(w[1..]) else w
  }

  const TRANSPARENT: set<string> := {
    "if", "then", "elif", "else", "fi", "while", "until", "do", "done", "for", "case", "esac", "{", "}", "!",
    "time", "nohup", "exec", "env", "command", "builtin", "xargs", "sudo" }

  function AsCommand(w: string, first: bool): string
  {
    if first then StripPrefix(w) else w
  }

  /** An `&` after `>`, `<` or `&` is part of a redirection; the empty text before the line counts as such. */
  predicate OpensCommand(s: string, i: nat)
    requires i < |s|
  {
    i > 0 && s[i - 1] !in "><&"
  }

  /** What the outer loop finds at i; an opener of n characters starts a new command. */
  datatype Lexeme = Gap | Run | Opener(n: nat) | Ampersand | Word

  function LexemeAt(s: string, i: nat, atCmd: bool): (x: Lexeme)
    requires i < |s|
    ensures x.Run? ==> Quote(s[i])
    ensures x.Opener? ==> 0 < x.n && i + x.n <= |s|
    ensures x.Word? ==> !TokenStops(s, i)
  {
    if Blank(s[i]) then Gap
    else if Quote(s[i]) && !atCmd then Run
    else if StartsAt(s, i, "$$(") then Opener(3)
    else if s[i] in "`()" then Opener(1)
    else if StartsAt(s, i, "&&") || StartsAt(s, i, "||") then Opener(2)
    else if s[i] in ";|" then Opener(1)
    else if s[i] == '&' then Ampersand
    else Word
  }

  /** What one step of the outer loop does: how far it moves, the new flags, the words it adds. */
  datatype Step = Step(next: nat, atCmd: bool, first: bool, words: seq<string>)

  /** A token is kept only in command position; an assignment keeps the position open. */
  function WordStep(w: string, e: nat, atCmd: bool, first: bool): (r: Step)
    ensures r.next == e
  {
    if !atCmd || IsAssignment(w) then Step(e, atCmd, false, [])
    else Step(e, Unquote(AsCommand(w, first)) in TRANSPARENT, false, [AsCommand(w, first)])
  }

  function StepAt(s: string, i: nat, atCmd: bool, first: bool): (r: Step)
    requires i < |s|
    ensures i < r.next <= |s|
  {
    match LexemeAt(s, i, atCmd)
    case Gap => Step(i + 1, atCmd, first, [])
    case Run => Step(SkipQuoted(s, i), atCmd, first, [])
    case Opener(n) => Step(i + n, true, first, [])
    case Ampersand => Step(i + 1, atCmd || OpensCommand(s, i), first, [])
    case Word => WordStep(s[i..TokenEnd(s, i)], TokenEnd(s, i), atCmd, first)
  }

  function Scan(s: string, i: nat, atCmd: bool, first: bool): seq<string>
    requires i <= |s|
    decreases |s| - i
  {
    if i == |s| then []
    else
      var r := StepAt(s, i, atCmd, first);
      r.words + Scan(s, r.next, r.atCmd, r.first)
  }

  lemma {:induction false} ScanStep(words: seq<string>, s: string, i: nat, atCmd: bool, first: bool)
    requires i < |s|
    ensures var r := StepAt(s, i, atCmd, first);
      words + Scan(s, i, atCmd, first) == words + r.words + Scan(s, r.next, r.atCmd, r.first)
  {
    var r := StepAt(s, i, atCmd, first);
    Assoc(words, r.words, Scan(s, r.next, r.atCmd, r.first));
  }

  // ----- the same, read from the characters of the line -----

  /** A blank, a quoted argument, something that opens a command, another `&`, or a token of three sorts. */
  datatype Kind = White | Quoted | Opens | Stray | Assigns | Command | Argument

  datatype Piece = Piece(kind: Kind, start: nat, end: nat)

  const OPENERS: set<string> := {"$$(", "`", "(", ")", "&&", "||", ";", "|", "&"}

  function TextOf(s: string, x: Piece): string { if x.start <= x.end <= |s| then s[x.start..x.end] else "" }

  predicate IsToken(x: Piece) { x.kind.Assigns? || x.kind.Command? || x.kind.Argument? }

  // A token, from its characters: parts that lie end to end, up to something that stops it.

  predicate StopAt(s: string, i: nat)
    requires i < |s|
  {
    s[i] in " \t;|&`()" || (i + 2 < |s| && s[i] == '$' && s[i + 1] == '$' && s[i + 2] == '(')
  }

  /** A quoted run from its opening quote at a: up to the quote that closes it, or to the end. */
  ghost predicate RunStands(s: string, a: nat, b: nat)
    requires a < |s|
  {
    exists c: nat {:trigger ClosesRun(s, a, c)} :: ClosesRun(s, a, c) && b == if c < |s| then c + 1 else |s|
  }

  /** How many `$(` are open between a and e. */
  function Nesting(s: string, a: nat, e: nat): int
    requires e <= |s|
  {
    if e <= a then 0
    else
      Nesting(s, a, e - 1)
      + if s[e - 1] == ')' then -1 else if s[e - 1] == '(' && e - 2 >= a && s[e - 2] == '$' then 1 else 0
  }

  predicate Open(s: string, a: nat, m: nat) { m <= |s| && Nesting(s, a, m) > 0 }

  predicate StaysOpen(s: string, a: nat, b: nat)
  {
    forall m {:trigger Open(s, a, m)} :: a + 2 <= m < b ==> Open(s, a, m)
  }

  /** A make expansion from its `$(` at a: up to the parenthesis that closes it, or to the end. */
  ghost predicate VarStands(s: string, a: nat, b: nat)
  {
    && a + 2 <= b <= |s| && s[a] == '$' && s[a + 1] == '('
    && StaysOpen(s, a, b)
    && (Nesting(s, a, b) == 0 || (b == |s| && Nesting(s, a, b) > 0))
  }

  ghost predicate PartStands(s: string, a: nat, b: nat)
  {
    && a < b <= |s| && !StopAt(s, a)
    && if s[a] in "'\"" then RunStands(s, a, b)
       else if a + 1 < |s| && s[a] == '$' && s[a + 1] == '(' then VarStands(s, a, b)
       else b == a + 1
  }

  ghost predicate PartsStand(s: string, a: nat, e: nat)
    decreases |s| - a
  {
    if a >= |s| || StopAt(s, a) then e == a
    else exists b {:trigger PartStands(s, a, b)} :: PartStands(s, a, b) && PartsStand(s, b, e)
  }

  ghost predicate TokenStands(s: string, x: Piece, expecting: bool)
    requires x.start < |s|
  {
    !StopAt(s, x.start) && (s[x.start] in "'\"" ==> expecting) && PartsStand(s, x.start, x.end)
  }

  /** The piece stands in the line; `expecting`: a command is expected where it starts. */
  ghost predicate Stands(s: string, x: Piece, expecting: bool)
  {
    && x.start < x.end <= |s|
    && match x.kind
       case White => s[x.start] in " \t" && x.end == x.start + 1
       case Quoted => s[x.start] in "'\"" && !expecting && RunStands(s, x.start, x.end)
       case Opens =>
         && TextOf(s, x) in OPENERS
         && (TextOf(s, x) == "|" ==> !StartsAt(s, x.start, "||"))
         && (TextOf(s, x) == "&" ==> !StartsAt(s, x.start, "&&") && x.start > 0 && s[x.start - 1] !in "><&")
       case Stray =>
         && s[x.start] == '&' && x.end == x.start + 1 && !StartsAt(s, x.start, "&&")
         && (x.start == 0 || s[x.start - 1] in "><&")
       case Assigns => TokenStands(s, x, expecting) && IsAssignment(TextOf(s, x))
       case Command => TokenStands(s, x, expecting) && !IsAssignment(TextOf(s, x)) && expecting
       case Argument => TokenStands(s, x, expecting) && !IsAssignment(TextOf(s, x)) && !expecting
  }

  /**
   A command is expected at the i-th piece: no command and no argument lies between it and
   a place where a command starts.
   */
  ghost predicate Expecting(s: string, ps: seq<Piece>, i: nat)
    requires i <= |ps|
  {
    exists j {:trigger StartsCommand(s, ps, j)} :: 0 <= j <= i && StartsCommand(s, ps, j) && Bare(ps, j, i)
  }

  /** A transparent word, bare or in quotes. */
  ghost predicate IsTransparent(w: string)
  {
    exists t {:trigger Spells(w, t)} :: Spells(w, t)
  }

  predicate Spells(w: string, t: string)
  {
    t in TRANSPARENT && (w == t || w == "'" + t + "'" || w == "\"" + t + "\"")
  }

  /** The line starts here, or an opener or a transparent command word stands before. */
  ghost predicate StartsCommand(s: string, ps: seq<Piece>, j: nat)
    requires j <= |ps|
  {
    || j == 0
    || ps[j - 1].kind.Opens?
    || (ps[j - 1].kind.Command? && IsTransparent(WordOf(s, ps, j - 1)))
  }

  predicate Bare(ps: seq<Piece>, j: nat, i: nat)
    requires j <= i <= |ps|
  {
    forall m {:trigger Passes(ps, m)} :: j <= m < i ==> Passes(ps, m)
  }

  predicate Passes(ps: seq<Piece>, m: nat)
    requires m < |ps|
  {
    !ps[m].kind.Command? && !ps[m].kind.Argument?
  }

  predicate NoToken(ps: seq<Piece>, i: nat)
    requires i <= |ps|
  {
    forall m :: 0 <= m < i ==> !IsToken(ps[m])
  }

  /** Only the first token of a line loses the prefix of a recipe. */
  function WordOf(s: string, ps: seq<Piece>, i: nat): string
    requires i < |ps|
  {
    if NoToken(ps, i) then StripPrefix(TextOf(s, ps[i])) else TextOf(s, ps[i])
  }

  function EndOf(ps: seq<Piece>, i: nat): nat
    requires i <= |ps|
  {
    if i == 0 then 0 else ps[i - 1].end
  }

  ghost predicate Placed(s: string, ps: seq<Piece>, i: nat)
    requires i < |ps|
  {
    ps[i].start == EndOf(ps, i) && Stands(s, ps[i], Expecting(s, ps, i))
  }

  /** The pieces lie end to end up to n. */
  ghost predicate ReadTo(s: string, ps: seq<Piece>, n: nat)
  {
    && EndOf(ps, |ps|) == n <= |s|
    && forall i {:trigger Placed(s, ps, i)} :: 0 <= i < |ps| ==> Placed(s, ps, i)
  }

  ghost predicate IsReading(s: string, ps: seq<Piece>) { ReadTo(s, ps, |s|) }

  /** The command words among the first n pieces. */
  ghost function WordsOf(s: string, ps: seq<Piece>, n: nat): seq<string>
    requires n <= |ps|
  {
    if n == 0 then []
    else WordsOf(s, ps, n - 1) + if ps[n - 1].kind.Command? then [WordOf(s, ps, n - 1)] else []
  }

  /** The longest prefix of recipe characters is dropped. */
  lemma {:induction false} StripPrefixIs(w: string, k: nat)
    requires k <= |w| && (forall j :: 0 <= j < k ==> w[j] in "@-+") && (k < |w| ==> w[k] !in "@-+")
    ensures StripPrefix(w) == w[k..]
  {
    if k > 0 {
      assert w[1..][k - 1..] == w[k..];
      StripPrefixIs(w[1..], k - 1);
    }
  }

  predicate Plain(w: string) { w != "" && !Quote(w[0]) && forall j :: 0 <= j < |w| ==> !Space(w[j]) }

  lemma {:induction false} TransparentArePlain(w: string)
    requires w in TRANSPARENT
    ensures Plain(w)
  {
  }

  lemma {:induction false} TransparentIff(w: string)
    ensures Unquote(w) in TRANSPARENT <==> IsTransparent(w)
  {
    if Unquote(w) in TRANSPARENT {
      if Unquote(w) != w { assert w == [w[0]] + Unquote(w) + [w[0]]; }
      assert Spells(w, Unquote(w));
    }
    if t :| Spells(w, t) {
      TransparentArePlain(t);
      if w != t { assert w[1..|w| - 1] == t; }
    }
  }

  // ----- every line has one reading, and the scanner follows it -----

  /** What is expected at a piece depends on those before it. */
  lemma {:induction false} SameExpecting(s: string, ps: seq<Piece>, qs: seq<Piece>, i: nat)
    requires i <= |ps| && i <= |qs| && ps[..i] == qs[..i]
    ensures Expecting(s, ps, i) == Expecting(s, qs, i)
  {
    forall j | 0 <= j <= i
      ensures StartsCommand(s, ps, j) == StartsCommand(s, qs, j) && Bare(ps, j, i) == Bare(qs, j, i)
    {
      SameStart(s, ps, qs, i, j);
      SameBare(ps, qs, j, i);
    }
  }

  lemma {:induction false} SameStart(s: string, ps: seq<Piece>, qs: seq<Piece>, i: nat, j: nat)
    requires j <= i <= |ps| && i <= |qs| && ps[..i] == qs[..i]
    ensures StartsCommand(s, ps, j) == StartsCommand(s, qs, j)
  {
    if j > 0 { SameWord(s, ps, qs, i, j - 1); }
  }

  lemma {:induction false} SameBare(ps: seq<Piece>, qs: seq<Piece>, j: nat, i: nat)
    requires j <= i <= |ps| && i <= |qs| && ps[..i] == qs[..i]
    ensures Bare(ps, j, i) == Bare(qs, j, i)
  {
    forall m | 0 <= m < i ensures Passes(ps, m) == Passes(qs, m) {
      assert ps[m] == ps[..i][m] == qs[..i][m] == qs[m];
    }
  }

  lemma {:induction false} SameWord(s: string, ps: seq<Piece>, qs: seq<Piece>, n: nat, i: nat)
    requires i < n <= |ps| && n <= |qs| && ps[..n] == qs[..n]
    ensures ps[i] == qs[i] && NoToken(ps, i) == NoToken(qs, i) && WordOf(s, ps, i) == WordOf(s, qs, i)
  {
    assert forall m :: 0 <= m < n ==> ps[m] == ps[..n][m] == qs[..n][m] == qs[m];
  }

  lemma {:induction false} SameWords(s: string, ps: seq<Piece>, qs: seq<Piece>, n: nat)
    requires n <= |ps| && n <= |qs| && ps[..n] == qs[..n]
    ensures WordsOf(s, ps, n) == WordsOf(s, qs, n)
  {
    if n > 0 {
      assert ps[..n - 1] == ps[..n][..n - 1] == qs[..n - 1];
      SameWords(s, ps, qs, n - 1);
      SameWord(s, ps, qs, n, n - 1);
    }
  }

  /** From some marked place on there is nothing that ends a command position. */
  ghost predicate BareFrom(ps: seq<Piece>, marks: seq<bool>, i: nat)
    requires i <= |ps| && i < |marks|
  {
    exists j :: 0 <= j <= i && marks[j] && Bare(ps, j, i)
  }

  lemma {:induction false} BareNext(ps: seq<Piece>, marks: seq<bool>, i: nat)
    requires i < |ps| && i + 1 < |marks|
    ensures BareFrom(ps, marks, i + 1) <==> marks[i + 1] || (BareFrom(ps, marks, i) && Passes(ps, i))
  {
    if BareFrom(ps, marks, i + 1) {
      var j :| 0 <= j <= i + 1 && marks[j] && Bare(ps, j, i + 1);
      if j <= i { assert Bare(ps, j, i) && Passes(ps, i); }
    }
    if BareFrom(ps, marks, i) && Passes(ps, i) {
      var j :| 0 <= j <= i && marks[j] && Bare(ps, j, i);
      assert Bare(ps, j, i + 1);
    }
    assert Bare(ps, i + 1, i + 1);
  }

  ghost function Starts(s: string, ps: seq<Piece>): seq<bool>
  {
    seq(|ps| + 1, j requires 0 <= j <= |ps| => StartsCommand(s, ps, j))
  }

  lemma {:induction false} ExpectingFrom(s: string, ps: seq<Piece>, i: nat)
    requires i <= |ps|
    ensures Expecting(s, ps, i) == BareFrom(ps, Starts(s, ps), i)
  {
    var marks := Starts(s, ps);
    if Expecting(s, ps, i) {
      var j :| 0 <= j <= i && StartsCommand(s, ps, j) && Bare(ps, j, i);
      assert marks[j];
    }
    if BareFrom(ps, marks, i) {
      var j :| 0 <= j <= i && marks[j] && Bare(ps, j, i);
      assert StartsCommand(s, ps, j);
    }
  }

  lemma {:induction false} ExpectingNext(s: string, ps: seq<Piece>, i: nat)
    requires i < |ps|
    ensures Expecting(s, ps, i + 1) <==> StartsCommand(s, ps, i + 1) || (Expecting(s, ps, i) && Passes(ps, i))
  {
    ExpectingFrom(s, ps, i);
    ExpectingFrom(s, ps, i + 1);
    BareNext(ps, Starts(s, ps), i);
  }

  lemma {:induction false} PatternHead(s: string, i: nat, p: string)
    requires p != "" && StartsAt(s, i, p)
    ensures s[i] == p[0] && (|p| > 1 ==> s[i + 1] == p[1])
  {
    assert s[i..i + |p|][0] == s[i];
    if |p| > 1 { assert s[i..i + |p|][1] == s[i + 1]; }
  }

  /** The kind of the piece a step of the scanner passes over. */
  function KindAt(s: string, i: nat, atCmd: bool): Kind
    requires i < |s|
  {
    match LexemeAt(s, i, atCmd)
    case Gap => White
    case Run => Quoted
    case Opener(_) => Opens
    case Ampersand => if OpensCommand(s, i) then Opens else Stray
    case Word =>
      if IsAssignment(s[i..TokenEnd(s, i)]) then Assigns else if atCmd then Command else Argument
  }

  function PieceAt(s: string, i: nat, atCmd: bool, first: bool): Piece
    requires i < |s|
  {
    Piece(KindAt(s, i, atCmd), i, StepAt(s, i, atCmd, first).next)
  }

  lemma {:induction false} StepStands(s: string, i: nat, atCmd: bool, first: bool)
    requires i < |s|
    ensures Stands(s, PieceAt(s, i, atCmd, first), atCmd)
  {
    var x := PieceAt(s, i, atCmd, first);
    match LexemeAt(s, i, atCmd)
    case Opener(n) => OpenerStands(s, i, atCmd, n);
    case Ampersand => assert TextOf(s, x) == "&";
    case Run => SkipQuotedStands(s, i);
    case Word =>
      StopsAlike(s, i);
      TokenEndStands(s, i);
    case Gap =>
  }

  lemma {:induction false} OpenerStands(s: string, i: nat, atCmd: bool, n: nat)
    requires i < |s| && LexemeAt(s, i, atCmd) == Opener(n)
    ensures Stands(s, Piece(Opens, i, i + n), atCmd)
  {
    var text := s[i..i + n];
    if n == 1 {
      assert text == [s[i]];
      assert s[i] in "`();|";
      assert text != "&";
    }
  }

  lemma {:induction false} CloseDoubleCloses(s: string, from: nat, j: nat)
    requires from <= j <= |s| && Unescaped(s, from, j)
    requires forall m :: from <= m < j && s[m] == '"' ==> !Unescaped(s, from, m)
    ensures ClosesAt(s, from, CloseDouble(s, j))
    decreases |s| - j
  {
    if j < |s| && s[j] != '"' {
      NextUnescaped(s, from, j);
      if s[j] != '\\' { CloseDoubleCloses(s, from, j + 1); }
      else if j + 2 <= |s| { CloseDoubleCloses(s, from, j + 2); }
    }
  }

  lemma {:induction false} SkipQuotedStands(s: string, i: nat)
    requires i < |s| && Quote(s[i])
    ensures RunStands(s, i, SkipQuoted(s, i))
  {
    if s[i] == '"' { CloseDoubleCloses(s, i + 1, i + 1); }
    assert ClosesRun(s, i, CloseOf(s, i));
  }

  lemma {:induction false} RunOnce(s: string, a: nat, b: nat, c: nat)
    requires a < |s| && RunStands(s, a, b) && RunStands(s, a, c)
    ensures b == c
  {
    var x: nat :| ClosesRun(s, a, x) && b == if x < |s| then x + 1 else |s|;
    var y: nat :| ClosesRun(s, a, y) && c == if y < |s| then y + 1 else |s|;
    if s[a] == '"' { ClosesOnce(s, a + 1, x, y); }
  }

  lemma {:induction false} PatternIff(s: string, j: nat)
    requires j < |s|
    ensures StartsAt(s, j, "$(") <==> j + 1 < |s| && s[j] == '$' && s[j + 1] == '('
  {
    if StartsAt(s, j, "$(") { PatternHead(s, j, "$("); }
    if j + 1 < |s| && s[j] == '$' && s[j + 1] == '(' { assert s[j..j + 2] == "$("; }
  }

  /** The scanner's depth at j, which is not the second half of a `$(`. */
  ghost predicate DeepAt(s: string, i: nat, j: nat, depth: int)
  {
    && i + 2 <= j <= |s| && s[i] == '$' && s[i + 1] == '(' && depth == Nesting(s, i, j) && StaysOpen(s, i, j)
    && (s[j - 1] != '$' || j == |s| || s[j] != '(')
  }

  lemma {:induction false} DeepNext(s: string, i: nat, j: nat, depth: int)
    requires DeepAt(s, i, j, depth) && depth > 0 && j < |s|
    ensures StartsAt(s, j, "$(") ==> DeepAt(s, i, j + 2, depth + 1)
    ensures !StartsAt(s, j, "$(") ==> DeepAt(s, i, j + 1, if s[j] == ')' then depth - 1 else depth)
  {
    PatternIff(s, j);
    assert Open(s, i, j);
    if StartsAt(s, j, "$(") {
      assert Nesting(s, i, j + 1) == depth;
      assert Open(s, i, j + 1);
    }
  }

  lemma {:induction false} SkipVarStands(s: string, i: nat, j: nat, depth: int)
    requires DeepAt(s, i, j, depth) && depth > 0
    ensures VarStands(s, i, SkipVar(s, j, depth))
    decreases |s| - j
  {
    if j < |s| {
      DeepNext(s, i, j, depth);
      if StartsAt(s, j, "$(") {
        SkipVarStands(s, i, j + 2, depth + 1);
      } else if s[j] != ')' {
        SkipVarStands(s, i, j + 1, depth);
      } else if depth > 1 {
        SkipVarStands(s, i, j + 1, depth - 1);
      }
    }
  }

  lemma {:induction false} StopsAlike(s: string, i: nat)
    requires i < |s|
    ensures StopAt(s, i) == TokenStops(s, i)
    ensures StartsAt(s, i, "$(") <==> i + 1 < |s| && s[i] == '$' && s[i + 1] == '('
  {
    if StartsAt(s, i, "$$(") {
      assert s[i..i + 3][0] == s[i] && s[i..i + 3][1] == s[i + 1] && s[i..i + 3][2] == s[i + 2];
    }
    if i + 2 < |s| && s[i] == '$' && s[i + 1] == '$' && s[i + 2] == '(' { assert s[i..i + 3] == "$$("; }
    PatternIff(s, i);
  }

  lemma {:induction false} NextPartStands(s: string, i: nat)
    requires i < |s| && !TokenStops(s, i)
    ensures PartStands(s, i, NextPart(s, i))
  {
    StopsAlike(s, i);
    if Quote(s[i]) {
      SkipQuotedStands(s, i);
    } else if StartsAt(s, i, "$(") {
      assert Nesting(s, i, i) == 0 && Nesting(s, i, i + 1) == 0 && Nesting(s, i, i + 2) == 1;
      SkipVarStands(s, i, i + 2, 1);
      assert NextPart(s, i) == SkipVar(s, i + 2, 1);
    }
  }

  lemma {:induction false} VarOnce(s: string, a: nat, b: nat, c: nat)
    requires VarStands(s, a, b) && VarStands(s, a, c)
    ensures b <= c
  {
    assert c < b ==> Open(s, a, c);
  }

  lemma {:induction false} PartOnce(s: string, a: nat, b: nat, c: nat)
    requires PartStands(s, a, b) && PartStands(s, a, c)
    ensures b == c
  {
    if s[a] in "'\"" {
      RunOnce(s, a, b, c);
    } else if a + 1 < |s| && s[a] == '$' && s[a + 1] == '(' {
      VarOnce(s, a, b, c);
      VarOnce(s, a, c, b);
    }
  }

  lemma {:induction false} TokenEndStands(s: string, i: nat)
    requires i <= |s|
    ensures PartsStand(s, i, TokenEnd(s, i))
    decreases |s| - i
  {
    if i < |s| {
      StopsAlike(s, i);
      if !TokenStops(s, i) {
        NextPartStands(s, i);
        TokenEndStands(s, NextPart(s, i));
      }
    }
  }

  lemma {:induction false} PartsOnce(s: string, a: nat, d: nat, e: nat)
    requires PartsStand(s, a, d) && PartsStand(s, a, e)
    ensures d == e
    decreases |s| - a
  {
    if a < |s| && !StopAt(s, a) {
      var b :| PartStands(s, a, b) && PartsStand(s, b, d);
      var c :| PartStands(s, a, c) && PartsStand(s, c, e);
      PartOnce(s, a, b, c);
      PartsOnce(s, b, d, e);
    }
  }

  /** Two pieces at one place are the same. */
  lemma {:induction false} StandsOnce(s: string, x: Piece, y: Piece, expecting: bool)
    requires Stands(s, x, expecting) && Stands(s, y, expecting) && x.start == y.start
    ensures x == y
  {
    if x.kind.Opens? { OpensWith(s, x, expecting); }
    if y.kind.Opens? { OpensWith(s, y, expecting); }
    if IsToken(x) && IsToken(y) { PartsOnce(s, x.start, x.end, y.end); }
    if x.kind.Quoted? && y.kind.Quoted? { RunOnce(s, x.start, x.end, y.end); }
    StopsAlike(s, x.start);
  }

  lemma {:induction false} OpensWith(s: string, x: Piece, expecting: bool)
    requires Stands(s, x, expecting) && x.kind.Opens?
    ensures s[x.start] in "$`()&|;" && (s[x.start] == '$' ==> StartsAt(s, x.start, "$$("))
    ensures x.end == x.start + if StartsAt(s, x.start, "$$(") then 3
                               else if StartsAt(s, x.start, "&&") || StartsAt(s, x.start, "||") then 2 else 1
    ensures s[x.start] == '&' && !StartsAt(s, x.start, "&&") ==> x.start > 0 && s[x.start - 1] !in "><&"
  {
    var text, i := TextOf(s, x), x.start;
    assert StartsAt(s, i, text);
    PatternHead(s, i, text);
    if StartsAt(s, i, "$$(") { PatternHead(s, i, "$$("); }
    if StartsAt(s, i, "&&") { PatternHead(s, i, "&&"); }
    if StartsAt(s, i, "||") { PatternHead(s, i, "||"); }
  }

  lemma {:induction false} OneReading(s: string, ps: seq<Piece>, qs: seq<Piece>, i: nat)
    requires IsReading(s, ps) && IsReading(s, qs) && i <= |ps| && i <= |qs|
    ensures ps[..i] == qs[..i]
  {
    if i > 0 {
      OneReading(s, ps, qs, i - 1);
      NextPiece(s, ps, qs, i - 1);
      assert ps[..i] == ps[..i - 1] + [ps[i - 1]] && qs[..i] == qs[..i - 1] + [qs[i - 1]];
    }
  }

  lemma {:induction false} SameEnd(ps: seq<Piece>, qs: seq<Piece>, i: nat)
    requires i <= |ps| && i <= |qs| && ps[..i] == qs[..i]
    ensures EndOf(ps, i) == EndOf(qs, i)
  {
    if i > 0 { assert ps[i - 1] == ps[..i][i - 1] == qs[..i][i - 1] == qs[i - 1]; }
  }

  lemma {:induction false} NextPiece(s: string, ps: seq<Piece>, qs: seq<Piece>, i: nat)
    requires IsReading(s, ps) && IsReading(s, qs) && i < |ps| && i < |qs| && ps[..i] == qs[..i]
    ensures ps[i] == qs[i]
  {
    SameExpecting(s, ps, qs, i);
    SameEnd(ps, qs, i);
    assert Placed(s, ps, i) && Placed(s, qs, i);
    StandsOnce(s, ps[i], qs[i], Expecting(s, ps, i));
  }

  lemma {:induction false} StartsBefore(s: string, ps: seq<Piece>, i: nat)
    requires IsReading(s, ps) && i < |ps|
    ensures EndOf(ps, i) < |s|
  {
    assert Placed(s, ps, i);
  }

  /** A reading does not go on behind another one. */
  lemma {:induction false} NotLonger(s: string, ps: seq<Piece>, qs: seq<Piece>)
    requires IsReading(s, ps) && IsReading(s, qs)
    ensures |qs| <= |ps|
  {
    if |ps| < |qs| {
      OneReading(s, ps, qs, |ps|);
      SameEnd(ps, qs, |ps|);
      StartsBefore(s, qs, |ps|);
    }
  }

  /** A line is read in one way. */
  lemma {:induction false} ReadingIsUnique(s: string, ps: seq<Piece>, qs: seq<Piece>)
    requires IsReading(s, ps) && IsReading(s, qs)
    ensures ps == qs
  {
    NotLonger(s, ps, qs);
    NotLonger(s, qs, ps);
    OneReading(s, ps, qs, |ps|);
    assert ps[..|ps|] == ps && qs[..|qs|] == qs;
  }

  /** The scanner has come to i behind these pieces. */
  ghost predicate ReadSoFar(s: string, ps: seq<Piece>, i: nat, atCmd: bool, first: bool)
  {
    ReadTo(s, ps, i) && atCmd == Expecting(s, ps, |ps|) && first == NoToken(ps, |ps|)
  }

  lemma {:induction false} ReadsOn(s: string, ps: seq<Piece>, i: nat, atCmd: bool, first: bool)
    requires i < |s| && ReadSoFar(s, ps, i, atCmd, first)
    ensures var (x, r) := (PieceAt(s, i, atCmd, first), StepAt(s, i, atCmd, first));
      && ReadSoFar(s, ps + [x], r.next, r.atCmd, r.first)
      && WordsOf(s, ps + [x], |ps| + 1) == WordsOf(s, ps, |ps|) + r.words
  {
    var x, qs := PieceAt(s, i, atCmd, first), ps + [PieceAt(s, i, atCmd, first)];
    PiecesStand(s, ps, i, atCmd, first);
    Added(s, ps, x);
    ExpectingNext(s, qs, |ps|);
    StartsNext(s, qs, |ps|);
  }

  lemma {:induction false} StartsNext(s: string, ps: seq<Piece>, i: nat)
    requires i < |ps|
    ensures StartsCommand(s, ps, i + 1)
      <==> ps[i].kind.Opens? || (ps[i].kind.Command? && Unquote(WordOf(s, ps, i)) in TRANSPARENT)
  {
    TransparentIff(WordOf(s, ps, i));
  }

  /** What a further piece leaves as it is. */
  lemma {:induction false} Added(s: string, ps: seq<Piece>, x: Piece)
    ensures var (qs, n) := (ps + [x], |ps|);
      && qs[n] == x && WordsOf(s, qs, n) == WordsOf(s, ps, n) && NoToken(qs, n) == NoToken(ps, n)
      && NoToken(qs, n + 1) == (NoToken(ps, n) && !IsToken(x)) && Expecting(s, qs, n) == Expecting(s, ps, n)
  {
    var qs, n := ps + [x], |ps|;
    assert qs[..n] == ps[..n];
    SameWords(s, ps, qs, n);
    SameExpecting(s, ps, qs, n);
  }

  lemma {:induction false} PiecesStand(s: string, ps: seq<Piece>, i: nat, atCmd: bool, first: bool)
    requires i < |s| && ReadSoFar(s, ps, i, atCmd, first)
    ensures ReadTo(s, ps + [PieceAt(s, i, atCmd, first)], StepAt(s, i, atCmd, first).next)
  {
    var qs := ps + [PieceAt(s, i, atCmd, first)];
    StepStands(s, i, atCmd, first);
    forall m | 0 <= m < |qs| ensures Placed(s, qs, m) {
      assert qs[..m] == ps[..m] && (m < |ps| ==> Placed(s, ps, m));
      SameExpecting(s, ps, qs, m);
      SameEnd(ps, qs, m);
    }
  }

  lemma {:induction false} ReadsAll(s: string, ps: seq<Piece>, i: nat, atCmd: bool, first: bool)
    returns (qs: seq<Piece>)
    requires i <= |s| && ReadSoFar(s, ps, i, atCmd, first)
    ensures IsReading(s, qs) && WordsOf(s, qs, |qs|) == WordsOf(s, ps, |ps|) + Scan(s, i, atCmd, first)
    decreases |s| - i
  {
    if i == |s| {
      qs := ps;
    } else {
      var x, r := PieceAt(s, i, atCmd, first), StepAt(s, i, atCmd, first);
      ReadsOn(s, ps, i, atCmd, first);
      qs := ReadsAll(s, ps + [x], r.next, r.atCmd, r.first);
      Assoc(WordsOf(s, ps, |ps|), r.words, Scan(s, r.next, r.atCmd, r.first));
    }
  }

  /** Every line has a reading, and the scanner returns its command words. */
  ghost predicate Reads(s: string, words: seq<string>)
  {
    exists ps :: IsReading(s, ps) && words == WordsOf(s, ps, |ps|)
  }

  lemma {:induction false} ScanReads(s: string)
    ensures Reads(s, Scan(s, 0, true, true))
  {
    assert StartsCommand(s, [], 0) && Bare([], 0, 0);
    var ps := ReadsAll(s, [], 0, true, true);
    assert [] + Scan(s, 0, true, true) == Scan(s, 0, true, true);
  }

  lemma {:induction false} ReadsOnce(s: string, ps: seq<Piece>, words: seq<string>)
    requires Reads(s, words) && IsReading(s, ps)
    ensures words == WordsOf(s, ps, |ps|)
  {
    var qs :| IsReading(s, qs) && words == WordsOf(s, qs, |qs|);
    ReadingIsUnique(s, ps, qs);
  }

  lemma {:induction false} Assoc(a: seq<string>, b: seq<string>, c: seq<string>)
    ensures a + (b + c) == a + b + c
  {
  }

  /** `command_words`, as the source writes it. */
  method CommandWords(s: string) returns (words: seq<string>)
    ensures words == Scan(s, 0, true, true) && Reads(s, words)
  {
    words := [];
    var i, n := 0, |s|;
    var atCmd, first := true, true;
    while i < n
      invariant 0 <= i <= n && words + Scan(s, i, atCmd, first) == Scan(s, 0, true, true)
    {
      ghost var r := StepAt(s, i, atCmd, first);
      ghost var goal := words + r.words;
      ScanStep(words, s, i, atCmd, first);
      assert words + [] == words;
      var ch := s[i];
      if Blank(ch) {
        i := i + 1;
      } else if Quote(ch) && !atCmd {
        if ch == '\'' { i := SkipSingleQuoted(s, i); } else { i := SkipDoubleQuoted(s, i); }
      } else if StartsAt(s, i, "$$(") {
        i := i + 3;
        atCmd := true;
      } else if ch in "`()" {
        i := i + 1;
        atCmd := true;
      } else if StartsAt(s, i, "&&") || StartsAt(s, i, "||") {
        i := i + 2;
        atCmd := true;
      } else if ch in ";|" {
        i := i + 1;
        atCmd := true;
      } else if ch == '&' {
        var opens := OpensCommand(s, i);
        i := i + 1;
        if opens { atCmd := true; }
      } else {
        var word;
        word, i := ReadToken(s, i);
        if atCmd && IsAssignment(word) {
          first := false;
        } else {
          if atCmd {
            word := AsCommand(word, first);
            words := words + [word];
            atCmd := Unquote(word) in TRANSPARENT;
          }
          first := false;
        }
      }
      assert words == goal && i == r.next && atCmd == r.atCmd && first == r.first;
    }
    ScanReads(s);
  }

  lemma {:induction false} JoinSlices(s: string, a: nat, b: nat, c: nat)
    requires a <= b <= c <= |s|
    ensures s[a..b] + s[b..c] == s[a..c]
  {}

  /** The inner loop: quoted runs and `$(...)` expansions are absorbed into the token. */
  method ReadToken(s: string, start: nat) returns (word: string, e: nat)
    requires start <= |s|
    ensures e == TokenEnd(s, start) && word == s[start..e]
  {
    word, e := "", start;
    while e < |s| && !TokenStops(s, e)
      invariant start <= e <= |s| && word == s[start..e] && TokenEnd(s, e) == TokenEnd(s, start)
      decreases |s| - e
    {
      var next;
      if s[e] == '\'' {
        next := SkipSingleQuoted(s, e);
      } else if s[e] == '"' {
        next := SkipDoubleQuoted(s, e);
      } else if StartsAt(s, e, "$(") {
        next := SkipMakeVar(s, e);
      } else {
        next := e + 1;
      }
      assert next == NextPart(s, e);
      JoinSlices(s, start, e, next);
      word := word + s[e..next];
      e := next;
    }
  }
}
