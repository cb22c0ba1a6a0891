/**
 Nothing behind an opener is missed: the words of a line are those of the part before a `;`,
 `&&`, `||`, `|`, `$$(`, backquote, parenthesis or `&` that stands open, and then those of the
 part behind it, read from command position.
 */
module Sequencing {
  import opened CommandWords
  import opened QuotedArguments

  /** The outer loop, from this state, arrives at k with these flags: command expected, no token read. */
  predicate ArrivesAt(s: string, i: nat, atCmd: bool, first: bool, k: nat, c: bool, f: bool)
    requires i <= |s|
    decreases |s| - i
  {
    if i < k then
      i < |s| && var r := StepAt(s, i, atCmd, first); ArrivesAt(s, r.next, r.atCmd, r.first, k, c, f)
    else i == k && c == atCmd && f == first
  }

  /** What stands between k and e puts the scanner into command position. */
  predicate OpensAt(s: string, k: nat, atCmd: bool, e: nat)
    requires k < |s|
  {
    match LexemeAt(s, k, atCmd)
    case Opener(n) => e == k + n
    case Ampersand => e == k + 1 && (atCmd || OpensCommand(s, k))
    case _ => false
  }

  // ----- what is read before k is read alike in the text that ends at k -----

  /** The pattern stands at i and reaches beyond k. */
  predicate Crosses(s: string, i: nat, p: string, k: nat)
  {
    i < k < i + |p| && StartsAt(s, i, p)
  }

  lemma {:induction false} CutPattern(s: string, k: nat, i: nat, p: string)
    requires i < k <= |s| && !Crosses(s, i, p, k)
    ensures StartsAt(s[..k], i, p) == StartsAt(s, i, p)
  {
    if i + |p| <= k { assert s[..k][i..i + |p|] == s[i..i + |p|]; }
  }

  lemma {:induction false} CutCloseSingle(s: string, k: nat, j: nat)
    requires k <= |s| && j <= |s| && CloseSingle(s, j) < k
    ensures j <= |s[..k]| && CloseSingle(s[..k], j) == CloseSingle(s, j)
    decreases |s| - j
  {
    if s[j] != '\'' { CutCloseSingle(s, k, j + 1); }
  }

  lemma {:induction false} CutCloseDouble(s: string, k: nat, j: nat)
    requires k <= |s| && CloseDouble(s, j) < k
    ensures CloseDouble(s[..k], j) == CloseDouble(s, j)
    decreases |s| - j
  {
    if s[j] == '\\' { CutCloseDouble(s, k, j + 2); } else if s[j] != '"' { CutCloseDouble(s, k, j + 1); }
  }

  lemma {:induction false} CutSkipQuoted(s: string, k: nat, i: nat)
    requires k < |s| && i < |s| && Quote(s[i]) && SkipQuoted(s, i) <= k
    ensures i < k && SkipQuoted(s[..k], i) == SkipQuoted(s, i)
  {
    if s[i] == '\'' { CutCloseSingle(s, k, i + 1); } else { CutCloseDouble(s, k, i + 1); }
  }

  lemma {:induction false} CutSkipVar(s: string, k: nat, j: nat, depth: int)
    requires k < |s| && j <= |s| && SkipVar(s, j, depth) <= k
    ensures j <= |s[..k]| && SkipVar(s[..k], j, depth) == SkipVar(s, j, depth)
    decreases |s| - j
  {
    CutPattern(s, k, j, "$(");
    if StartsAt(s, j, "$(") {
      CutSkipVar(s, k, j + 2, depth + 1);
    } else if s[j] == ')' {
      if depth != 1 { CutSkipVar(s, k, j + 1, depth - 1); }
    } else {
      CutSkipVar(s, k, j + 1, depth);
    }
  }

  lemma {:induction false} CutNextPart(s: string, k: nat, i: nat)
    requires k < |s| && i < |s| && NextPart(s, i) <= k
    ensures i < k && NextPart(s[..k], i) == NextPart(s, i)
  {
    if Quote(s[i]) {
      CutSkipQuoted(s, k, i);
    } else {
      if StartsAt(s, i, "$(") { CutSkipVar(s, k, i, 0); }
      CutPattern(s, k, i, "$(");
    }
  }

  lemma {:induction false} CutTokenEnd(s: string, k: nat, i: nat)
    requires k < |s| && i <= |s| && TokenEnd(s, i) <= k && !Crosses(s, TokenEnd(s, i), "$$(", k)
    ensures i <= |s[..k]| && TokenEnd(s[..k], i) == TokenEnd(s, i)
    decreases |s| - i
  {
    if i < k {
      CutPattern(s, k, i, "$$(");
      assert TokenStops(s[..k], i) == TokenStops(s, i);
      if !TokenStops(s, i) {
        CutNextPart(s, k, i);
        CutTokenEnd(s, k, NextPart(s, i));
      }
    }
  }

  /** A pattern that opens a command and crosses k takes the scanner beyond k. */
  lemma {:induction false} OpenersDoNotCross(s: string, k: nat, i: nat, atCmd: bool, first: bool)
    requires i < k < |s| && StepAt(s, i, atCmd, first).next <= k
    ensures !Crosses(s, i, "$$(", k) && !Crosses(s, i, "&&", k) && !Crosses(s, i, "||", k)
  {
    PatternAt(s, i, "$$(", 0);
    PatternAt(s, i, "&&", 0);
    PatternAt(s, i, "||", 0);
  }

  lemma {:induction false} CutLexeme(s: string, k: nat, i: nat, atCmd: bool, first: bool)
    requires i < k < |s| && StepAt(s, i, atCmd, first).next <= k
    ensures LexemeAt(s[..k], i, atCmd) == LexemeAt(s, i, atCmd)
  {
    OpenersDoNotCross(s, k, i, atCmd, first);
    CutPattern(s, k, i, "$$(");
    CutPattern(s, k, i, "&&");
    CutPattern(s, k, i, "||");
  }

  lemma {:induction false} CutStep(s: string, k: nat, i: nat, atCmd: bool, first: bool)
    requires i < k < |s| && StepAt(s, i, atCmd, first).next <= k
    requires !Crosses(s, StepAt(s, i, atCmd, first).next, "$$(", k)
    ensures StepAt(s[..k], i, atCmd, first) == StepAt(s, i, atCmd, first)
  {
    CutLexeme(s, k, i, atCmd, first);
    match LexemeAt(s, i, atCmd)
    case Run => CutSkipQuoted(s, k, i);
    case Word =>
      CutTokenEnd(s, k, i);
      assert s[i..TokenEnd(s, i)] == s[..k][i..TokenEnd(s, i)];
    case _ =>
  }

  lemma {:induction false} ArrivesWithin(s: string, i: nat, atCmd: bool, first: bool, k: nat, c: bool, f: bool)
    requires i <= |s| && ArrivesAt(s, i, atCmd, first, k, c, f)
    ensures i <= k && (i < k ==> i < |s| && StepAt(s, i, atCmd, first).next <= k)
  {
    if i < k {
      var r := StepAt(s, i, atCmd, first);
      assert ArrivesAt(s, r.next, r.atCmd, r.first, k, c, f);
    }
  }

  /** A step on the way to k is the same step of the text that ends at k. */
  lemma {:induction false} StepOnTheWay(s: string, k: nat, i: nat, atCmd: bool, first: bool, c: bool, f: bool)
    requires i < k < |s| && ArrivesAt(s, i, atCmd, first, k, c, f)
    ensures var r := StepAt(s, i, atCmd, first);
      r.next <= k && ArrivesAt(s, r.next, r.atCmd, r.first, k, c, f) && StepAt(s[..k], i, atCmd, first) == r
  {
    var r := StepAt(s, i, atCmd, first);
    ArrivesWithin(s, i, atCmd, first, k, c, f);
    ArrivesWithin(s, r.next, r.atCmd, r.first, k, c, f);
    if r.next < k { OpenersDoNotCross(s, k, r.next, r.atCmd, r.first); }
    CutStep(s, k, i, atCmd, first);
  }

  lemma {:induction false} OpenerStep(s: string, k: nat, e: nat, atCmd: bool, first: bool)
    requires k < |s| && OpensAt(s, k, atCmd, e)
    ensures k < e <= |s| && StepAt(s, k, atCmd, first) == Step(e, true, first, [])
  {
  }

  /** The words of the line are those of the part before k, and then those read from k on. */
  lemma {:induction false} PrefixWords(s: string, k: nat, i: nat, atCmd: bool, first: bool, c: bool, f: bool)
    requires k < |s| && i <= |s| && ArrivesAt(s, i, atCmd, first, k, c, f)
    ensures i <= |s[..k]| && Scan(s, i, atCmd, first) == Scan(s[..k], i, atCmd, first) + Scan(s, k, c, f)
    decreases |s| - i
  {
    ArrivesWithin(s, i, atCmd, first, k, c, f);
    if i < k {
      var r := StepAt(s, i, atCmd, first);
      StepOnTheWay(s, k, i, atCmd, first, c, f);
      PrefixWords(s, k, r.next, r.atCmd, r.first, c, f);
      Assoc(r.words, Scan(s[..k], r.next, r.atCmd, r.first), Scan(s, k, c, f));
    }
  }

  // ----- what is read behind the opener -----

  lemma {:induction false} CommandStep(s: string, i: nat, t: string, first: bool)
    requires SameTail(s, i, t, 0) && i < |s|
    ensures |t| > 0
    ensures var a := StepAt(s, i, true, first); StepAt(t, 0, true, first) == Step(a.next - i, a.atCmd, a.first, a.words)
  {
    TailLexeme(s, i, t, 0, true);
    if LexemeAt(s, i, true).Word? {
      TailWord(s, i, t, 0);
      TailTokenEnd(s, i, t, 0);
    }
  }

  lemma {:induction false} TailBehind(s: string, i: nat, t: string, d: nat)
    requires SameTail(s, i, t, 0) && 0 < d && i + d <= |s|
    ensures SameTail(s, i + d, t, d) && SameBefore(s, i + d, t, d)
  {
    TailAt(s, i, t, 0, d);
    TailAt(s, i, t, 0, d - 1);
  }

  /** In command position the character before makes no difference. */
  lemma {:induction false} CommandTail(s: string, i: nat, t: string, first: bool)
    requires SameTail(s, i, t, 0)
    ensures Scan(s, i, true, first) == Scan(t, 0, true, first)
  {
    if i < |s| {
      var a := StepAt(s, i, true, first);
      CommandStep(s, i, t, first);
      TailBehind(s, i, t, a.next - i);
      TailScan(s, a.next, t, a.next - i, a.atCmd, a.first);
    } else {
      assert |s[i..]| == |t[0..]|;
    }
  }

  /** A step that adds no words and leads into command position. */
  lemma {:induction false} StepWords(s: string, k: nat, e: nat, atCmd: bool, first: bool)
    requires k < |s| && e <= |s| && StepAt(s, k, atCmd, first) == Step(e, true, first, [])
    ensures Scan(s, k, atCmd, first) == Scan(s[e..], 0, true, first)
  {
    NoWords(s, k, atCmd, first, StepAt(s, k, atCmd, first));
    WordsFrom(s, e, first);
  }

  lemma {:induction false} NoWords(s: string, k: nat, atCmd: bool, first: bool, r: Step)
    requires k < |s| && StepAt(s, k, atCmd, first) == r && r.words == []
    ensures Scan(s, k, atCmd, first) == Scan(s, r.next, r.atCmd, r.first)
  {
  }

  lemma {:induction false} WordsFrom(s: string, i: nat, first: bool)
    requires i <= |s|
    ensures Scan(s, i, true, first) == Scan(s[i..], 0, true, first)
  {
    var t := s[i..];
    assert SameTail(s, i, t, 0) by { assert t[0..] == t; }
    CommandTail(s, i, t, first);
  }

  /**
   When the scanner comes to something that opens a command, the words of the line are those of
   the part before it and then those of the part behind it, read from command position.
   */
  lemma {:induction false} OpenerSequences(s: string, k: nat, e: nat, c: bool, f: bool)
    requires k < |s| && ArrivesAt(s, 0, true, true, k, c, f) && OpensAt(s, k, c, e)
    ensures k < e <= |s|
    ensures Scan(s, 0, true, true) == Scan(s[..k], 0, true, true) + Scan(s[e..], 0, true, f)
  {
    OpenerStep(s, k, e, c, f);
    StepSequences(s, k, e, c, f);
  }

  lemma {:induction false} StepSequences(s: string, k: nat, e: nat, c: bool, f: bool)
    requires k < |s| && e <= |s| && ArrivesAt(s, 0, true, true, k, c, f)
    requires StepAt(s, k, c, f) == Step(e, true, f, [])
    ensures Scan(s, 0, true, true) == Scan(s[..k], 0, true, true) + Scan(s[e..], 0, true, f)
  {
    PrefixWords(s, k, 0, true, true, c, f);
    StepWords(s, k, e, c, f);
  }

  /** The openers are the seven of the table, and `&` where it does not belong to a redirection. */
  lemma {:induction false} OpenersAre(s: string, k: nat, atCmd: bool)
    requires k < |s|
    ensures (exists e :: OpensAt(s, k, atCmd, e)) <==>
      || StartsAt(s, k, "$$(") || StartsAt(s, k, "&&") || StartsAt(s, k, "||") || s[k] in ";|`()"
      || (s[k] == '&' && (atCmd || OpensCommand(s, k)))
  {
    PatternAt(s, k, "$$(", 0);
    PatternAt(s, k, "&&", 0);
    PatternAt(s, k, "||", 0);
    match LexemeAt(s, k, atCmd)
    case Opener(n) => assert OpensAt(s, k, atCmd, k + n);
    case Ampersand => assert OpensAt(s, k, atCmd, k + 1) <==> (atCmd || OpensCommand(s, k));
    case _ => assert forall e :: !OpensAt(s, k, atCmd, e);
  }
}
