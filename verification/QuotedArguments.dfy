/**
 The contents of a quoted argument are never read as code: replacing what stands inside a
 quoted run that is not in command position does not change the words `command_words`
 returns.
 */
module QuotedArguments {
  import opened CommandWords

  /** Text that neither closes nor escapes anything in a run opened by q. */
  predicate Inert(y: string, q: char)
  {
    q !in y && (q == '"' ==> '\\' !in y)
  }

  /** `s` with the contents of the run at k replaced by y. */
  function Refill(s: string, k: nat, y: string): (t: string)
    requires k < |s| && Quote(s[k])
    ensures |t| > k && t[..k + 1] == s[..k + 1]
  {
    s[..k + 1] + y + s[CloseOf(s, k)..]
  }

  /** The token being read at i passes through k between its parts. */
  predicate InToken(s: string, i: nat, k: nat)
    requires i <= |s|
    decreases |s| - i
  {
    i <= k && (i < k ==>
      i < |s| && !TokenStops(s, i) && InToken(s, NextPart(s, i), k))
  }

  /** From this state the scanner comes to the quote at k with no command expected there. */
  predicate NotCommandAt(s: string, i: nat, atCmd: bool, first: bool, k: nat)
    requires i <= |s| && k < |s|
    decreases |s| - i
  {
    i <= k &&
    if i == k && !atCmd then true
    else if i < |s| && LexemeAt(s, i, atCmd).Word? && k < TokenEnd(s, i) then !atCmd && InToken(s, i, k)
    else
      var r := StepAt(s, i, atCmd, first);
      NotCommandAt(s, r.next, r.atCmd, r.first, k)
  }

  // ----- what lies before a barrier is read alike -----

  /** t agrees with s up to k, where both hold the same quote: no pattern of the scanner reaches across it. */
  predicate AgreeTo(s: string, t: string, k: nat)
  {
    k < |s| && k < |t| && (forall m :: 0 <= m <= k ==> s[m] == t[m]) && Quote(s[k])
  }

  lemma {:induction false} PatternAt(s: string, i: nat, p: string, m: nat)
    requires m < |p|
    ensures StartsAt(s, i, p) ==> s[i + m] == p[m]
  {
    if StartsAt(s, i, p) { assert s[i..i + |p|][m] == s[i + m]; }
  }

  /** A pattern without quotes cannot lie across the quote. */
  lemma {:induction false} SamePattern(s: string, t: string, k: nat, i: nat, p: string)
    requires AgreeTo(s, t, k) && i < k && forall m :: 0 <= m < |p| ==> !Quote(p[m])
    ensures StartsAt(s, i, p) == StartsAt(t, i, p)
  {
    if i + |p| <= k {
      assert s[i..i + |p|] == t[i..i + |p|];
    } else {
      PatternAt(s, i, p, k - i);
      PatternAt(t, i, p, k - i);
    }
  }

  lemma {:induction false} SameCloseSingle(s: string, t: string, k: nat, j: nat)
    requires AgreeTo(s, t, k) && j <= |s| && CloseSingle(s, j) < k
    ensures j <= |t| && CloseSingle(t, j) == CloseSingle(s, j)
    decreases |s| - j
  {
    if s[j] != '\'' { SameCloseSingle(s, t, k, j + 1); }
  }

  lemma {:induction false} SameCloseDouble(s: string, t: string, k: nat, j: nat)
    requires AgreeTo(s, t, k) && CloseDouble(s, j) < k
    ensures CloseDouble(t, j) == CloseDouble(s, j)
    decreases |s| - j
  {
    if s[j] == '\\' { SameCloseDouble(s, t, k, j + 2); } else if s[j] != '"' { SameCloseDouble(s, t, k, j + 1); }
  }

  lemma {:induction false} SameSkipQuoted(s: string, t: string, k: nat, i: nat)
    requires AgreeTo(s, t, k) && i < |s| && Quote(s[i]) && SkipQuoted(s, i) <= k
    ensures i < |t| && t[i] == s[i] && SkipQuoted(t, i) == SkipQuoted(s, i)
  {
    if s[i] == '\'' { SameCloseSingle(s, t, k, i + 1); } else { SameCloseDouble(s, t, k, i + 1); }
  }

  lemma {:induction false} SameSkipVar(s: string, t: string, k: nat, j: nat, depth: int)
    requires AgreeTo(s, t, k) && j <= |s| && SkipVar(s, j, depth) <= k
    ensures j <= |t| && SkipVar(t, j, depth) == SkipVar(s, j, depth)
    decreases |s| - j
  {
    SamePattern(s, t, k, j, "$(");
    if StartsAt(s, j, "$(") {
      SameSkipVar(s, t, k, j + 2, depth + 1);
    } else if s[j] == ')' {
      if depth != 1 { SameSkipVar(s, t, k, j + 1, depth - 1); }
    } else {
      SameSkipVar(s, t, k, j + 1, depth);
    }
  }

  lemma {:induction false} SameNextPart(s: string, t: string, k: nat, i: nat)
    requires AgreeTo(s, t, k) && i < |s| && NextPart(s, i) <= k
    ensures i < |t| && NextPart(t, i) == NextPart(s, i)
  {
    SamePattern(s, t, k, i, "$(");
    if Quote(s[i]) { SameSkipQuoted(s, t, k, i); }
    else if StartsAt(s, i, "$(") { SameSkipVar(s, t, k, i, 0); }
  }

  lemma {:induction false} SameStops(s: string, t: string, k: nat, i: nat)
    requires AgreeTo(s, t, k) && i < k
    ensures TokenStops(s, i) == TokenStops(t, i)
  {
    SamePattern(s, t, k, i, "$$(");
  }

  lemma {:induction false} SameTokenEnd(s: string, t: string, k: nat, i: nat)
    requires AgreeTo(s, t, k) && i <= |s| && TokenEnd(s, i) <= k
    ensures i <= |t| && TokenEnd(t, i) == TokenEnd(s, i)
    decreases |s| - i
  {
    if i < k {
      SameStops(s, t, k, i);
      if !TokenStops(s, i) {
        SameNextPart(s, t, k, i);
        SameTokenEnd(s, t, k, NextPart(s, i));
      }
    } else {
      PatternAt(s, k, "$$(", 0);
    }
  }

  lemma {:induction false} SameInToken(s: string, t: string, k: nat, i: nat)
    requires AgreeTo(s, t, k) && i <= |s| && InToken(s, i, k)
    ensures i <= |t| && InToken(t, i, k) && TokenEnd(s, i) == TokenEnd(s, k) && TokenEnd(t, i) == TokenEnd(t, k)
    decreases |s| - i
  {
    if i < k {
      SameStops(s, t, k, i);
      PartWithin(s, NextPart(s, i), k);
      SameNextPart(s, t, k, i);
      SameInToken(s, t, k, NextPart(s, i));
    }
  }

  lemma {:induction false} PartWithin(s: string, e: nat, k: nat)
    requires e <= |s| && InToken(s, e, k)
    ensures e <= k
  {
  }

  /** The patterns the outer loop looks for. */
  lemma {:induction false} SamePatterns(s: string, t: string, k: nat, i: nat)
    requires AgreeTo(s, t, k) && i < k
    ensures StartsAt(s, i, "$$(") == StartsAt(t, i, "$$(")
    ensures StartsAt(s, i, "&&") == StartsAt(t, i, "&&") && StartsAt(s, i, "||") == StartsAt(t, i, "||")
  {
    SamePattern(s, t, k, i, "$$(");
    SamePattern(s, t, k, i, "&&");
    SamePattern(s, t, k, i, "||");
  }

  lemma {:induction false} SameLexeme(s: string, t: string, k: nat, i: nat, atCmd: bool)
    requires AgreeTo(s, t, k) && i < k
    ensures LexemeAt(s, i, atCmd) == LexemeAt(t, i, atCmd)
  {
    SamePatterns(s, t, k, i);
  }

  lemma {:induction false} SameStep(s: string, t: string, k: nat, i: nat, atCmd: bool, first: bool)
    requires AgreeTo(s, t, k) && i <= k && StepAt(s, i, atCmd, first).next <= k
    ensures StepAt(t, i, atCmd, first) == StepAt(s, i, atCmd, first)
  {
    SameLexeme(s, t, k, i, atCmd);
    match LexemeAt(s, i, atCmd)
    case Run =>
      SameSkipQuoted(s, t, k, i);
    case Word => SameWord(s, t, k, i);
    case _ =>
  }

  lemma {:induction false} SameWord(s: string, t: string, k: nat, i: nat)
    requires AgreeTo(s, t, k) && i <= k && i < |s| && i < |t| && TokenEnd(s, i) <= k
    ensures TokenEnd(t, i) == TokenEnd(s, i) && s[i..TokenEnd(s, i)] == t[i..TokenEnd(t, i)]
  {
    SameTokenEnd(s, t, k, i);
  }

  // ----- what lies behind the run is read alike -----

  /** From i on, s reads as t does from j on. */
  predicate SameTail(s: string, i: nat, t: string, j: nat)
  {
    i <= |s| && j <= |t| && s[i..] == t[j..]
  }

  lemma {:induction false} TailAt(s: string, i: nat, t: string, j: nat, d: nat)
    requires SameTail(s, i, t, j)
    ensures i + d < |s| <==> j + d < |t|
    ensures i + d <= |s| <==> j + d <= |t|
    ensures i + d < |s| ==> s[i + d] == t[j + d]
    ensures i + d <= |s| ==> SameTail(s, i + d, t, j + d)
  {
    assert |s[i..]| == |t[j..]|;
    if i + d < |s| { assert s[i + d] == s[i..][d] == t[j..][d] == t[j + d]; }
    if i + d <= |s| { assert s[i + d..] == s[i..][d..] == t[j..][d..] == t[j + d..]; }
  }

  lemma {:induction false} TailSlice(s: string, i: nat, t: string, j: nat, d: nat)
    requires SameTail(s, i, t, j) && i + d <= |s|
    ensures j + d <= |t| && s[i..i + d] == t[j..j + d]
  {
    assert |s[i..]| == |t[j..]|;
    assert s[i..i + d] == s[i..][..d] == t[j..][..d] == t[j..j + d];
  }

  lemma {:induction false} TailPattern(s: string, i: nat, t: string, j: nat, p: string)
    requires SameTail(s, i, t, j)
    ensures StartsAt(s, i, p) == StartsAt(t, j, p)
  {
    if i + |p| <= |s| { TailSlice(s, i, t, j, |p|); }
  }

  lemma {:induction false} TailCloseSingle(s: string, i: nat, t: string, j: nat)
    requires SameTail(s, i, t, j)
    ensures CloseSingle(s, i) - i == CloseSingle(t, j) - j
    decreases |s| - i
  {
    TailAt(s, i, t, j, 0);
    TailAt(s, i, t, j, 1);
    if i < |s| && s[i] != '\'' { TailCloseSingle(s, i + 1, t, j + 1); }
  }

  lemma {:induction false} TailCloseDouble(s: string, i: nat, t: string, j: nat)
    requires SameTail(s, i, t, j)
    ensures CloseDouble(s, i) - i == CloseDouble(t, j) - j
    decreases |s| - i
  {
    TailAt(s, i, t, j, 0);
    TailAt(s, i, t, j, 1);
    TailAt(s, i, t, j, 2);
    if i < |s| {
      if s[i] == '\\' {
        if i + 2 <= |s| { TailCloseDouble(s, i + 2, t, j + 2); }
      } else if s[i] != '"' {
        TailCloseDouble(s, i + 1, t, j + 1);
      }
    }
  }

  lemma {:induction false} TailSkipQuoted(s: string, i: nat, t: string, j: nat)
    requires SameTail(s, i, t, j) && i < |s| && Quote(s[i])
    ensures j < |t| && t[j] == s[i] && SkipQuoted(s, i) - i == SkipQuoted(t, j) - j
  {
    TailAt(s, i, t, j, 0);
    TailAt(s, i, t, j, 1);
    if s[i] == '\'' { TailCloseSingle(s, i + 1, t, j + 1); } else { TailCloseDouble(s, i + 1, t, j + 1); }
  }

  lemma {:induction false} TailSkipVar(s: string, i: nat, t: string, j: nat, depth: int)
    requires SameTail(s, i, t, j)
    ensures SkipVar(s, i, depth) - i == SkipVar(t, j, depth) - j
    decreases |s| - i
  {
    TailAt(s, i, t, j, 0);
    TailAt(s, i, t, j, 1);
    TailAt(s, i, t, j, 2);
    TailPattern(s, i, t, j, "$(");
    if i < |s| {
      if StartsAt(s, i, "$(") { TailSkipVar(s, i + 2, t, j + 2, depth + 1); }
      else if s[i] == ')' { if depth != 1 { TailSkipVar(s, i + 1, t, j + 1, depth - 1); } }
      else { TailSkipVar(s, i + 1, t, j + 1, depth); }
    }
  }

  lemma {:induction false} TailNextPart(s: string, i: nat, t: string, j: nat)
    requires SameTail(s, i, t, j) && i < |s|
    ensures j < |t| && NextPart(s, i) - i == NextPart(t, j) - j
  {
    TailAt(s, i, t, j, 0);
    TailPattern(s, i, t, j, "$(");
    if Quote(s[i]) { TailSkipQuoted(s, i, t, j); }
    else if StartsAt(s, i, "$(") { TailSkipVar(s, i, t, j, 0); }
  }

  lemma {:induction false} TailStops(s: string, i: nat, t: string, j: nat)
    requires SameTail(s, i, t, j) && i < |s|
    ensures j < |t| && s[i] == t[j] && TokenStops(s, i) == TokenStops(t, j)
  {
    TailAt(s, i, t, j, 0);
    TailPattern(s, i, t, j, "$$(");
  }

  lemma {:induction false} TailPart(s: string, i: nat, t: string, j: nat)
    requires SameTail(s, i, t, j) && i < |s|
    ensures j < |t| && NextPart(s, i) - i == NextPart(t, j) - j && TokenStops(s, i) == TokenStops(t, j)
    ensures SameTail(s, NextPart(s, i), t, NextPart(t, j))
  {
    TailStops(s, i, t, j);
    TailNextPart(s, i, t, j);
    TailAt(s, i, t, j, NextPart(s, i) - i);
  }

  lemma {:induction false} TailTokenEnd(s: string, i: nat, t: string, j: nat)
    requires SameTail(s, i, t, j)
    ensures TokenEnd(s, i) - i == TokenEnd(t, j) - j
    decreases |s| - i
  {
    if i < |s| {
      TailPart(s, i, t, j);
      if !TokenStops(s, i) { TailTokenEnd(s, NextPart(s, i), t, NextPart(t, j)); }
    } else {
      assert |s[i..]| == |t[j..]|;
    }
  }

  /** The text of a token. */
  lemma {:induction false} TailWord(s: string, i: nat, t: string, j: nat)
    requires SameTail(s, i, t, j)
    ensures s[i..TokenEnd(s, i)] == t[j..TokenEnd(t, j)]
  {
    TailTokenEnd(s, i, t, j);
    var d := TokenEnd(s, i) - i;
    TailSlice(s, i, t, j, d);
  }

  /** The character before is the same as well: `&` looks back one place. */
  predicate SameBefore(s: string, i: nat, t: string, j: nat)
  {
    0 < i <= |s| && 0 < j <= |t| && s[i - 1] == t[j - 1]
  }

  lemma {:induction false} TailPatterns(s: string, i: nat, t: string, j: nat)
    requires SameTail(s, i, t, j)
    ensures StartsAt(s, i, "$$(") == StartsAt(t, j, "$$(")
    ensures StartsAt(s, i, "&&") == StartsAt(t, j, "&&") && StartsAt(s, i, "||") == StartsAt(t, j, "||")
  {
    TailPattern(s, i, t, j, "$$(");
    TailPattern(s, i, t, j, "&&");
    TailPattern(s, i, t, j, "||");
  }

  lemma {:induction false} TailLexeme(s: string, i: nat, t: string, j: nat, atCmd: bool)
    requires SameTail(s, i, t, j) && i < |s|
    ensures j < |t| && LexemeAt(s, i, atCmd) == LexemeAt(t, j, atCmd)
  {
    TailAt(s, i, t, j, 0);
    TailPatterns(s, i, t, j);
  }

  lemma {:induction false} TailStep(s: string, i: nat, t: string, j: nat, atCmd: bool, first: bool)
    requires SameTail(s, i, t, j) && SameBefore(s, i, t, j) && i < |s|
    ensures j < |t|
    ensures var (a, b) := (StepAt(s, i, atCmd, first), StepAt(t, j, atCmd, first));
      b == Step(j + (a.next - i), a.atCmd, a.first, a.words)
  {
    TailLexeme(s, i, t, j, atCmd);
    match LexemeAt(s, i, atCmd)
    case Run => TailSkipQuoted(s, i, t, j);
    case Word =>
      TailWord(s, i, t, j);
      TailTokenEnd(s, i, t, j);
    case _ =>
  }

  /** Steps from a common tail lead to a common tail. */
  lemma {:induction false} TailMoves(s: string, i: nat, t: string, j: nat, atCmd: bool, first: bool)
    requires SameTail(s, i, t, j) && SameBefore(s, i, t, j) && i < |s|
    ensures j < |t|
    ensures var a := StepAt(s, i, atCmd, first);
      && StepAt(t, j, atCmd, first) == Step(j + a.next - i, a.atCmd, a.first, a.words)
      && SameTail(s, a.next, t, j + a.next - i) && SameBefore(s, a.next, t, j + a.next - i)
  {
    TailAt(s, i, t, j, 0);
    var a := StepAt(s, i, atCmd, first);
    var d := a.next - i;
    assert StepAt(t, j, atCmd, first) == Step(j + d, a.atCmd, a.first, a.words) by {
      TailStep(s, i, t, j, atCmd, first);
    }
    assert SameTail(s, i + d, t, j + d) && SameBefore(s, i + d, t, j + d) by {
      TailAt(s, i, t, j, d);
      TailAt(s, i, t, j, d - 1);
    }
  }

  lemma {:induction false} TailScan(s: string, i: nat, t: string, j: nat, atCmd: bool, first: bool)
    requires SameTail(s, i, t, j) && SameBefore(s, i, t, j)
    ensures Scan(s, i, atCmd, first) == Scan(t, j, atCmd, first)
    decreases |s| - i
  {
    if i < |s| {
      TailMoves(s, i, t, j, atCmd, first);
      var a, b := StepAt(s, i, atCmd, first), StepAt(t, j, atCmd, first);
      TailScan(s, a.next, t, b.next, a.atCmd, a.first);
    } else {
      assert |s[i..]| == |t[j..]|;
    }
  }

  // ----- the run itself -----

  lemma {:induction false} InertSingle(t: string, j: nat, n: nat)
    requires j <= n <= |t| && (forall m :: j <= m < n ==> t[m] != '\'') && (n < |t| ==> t[n] == '\'')
    ensures CloseSingle(t, j) == n
    decreases n - j
  {
    if j < n { InertSingle(t, j + 1, n); }
  }

  lemma {:induction false} InertDouble(t: string, j: nat, n: nat)
    requires j <= n <= |t| && (forall m :: j <= m < n ==> t[m] != '"' && t[m] != '\\') && (n < |t| ==> t[n] == '"')
    ensures CloseDouble(t, j) == n
    decreases n - j
  {
    if j < n { InertDouble(t, j + 1, n); }
  }

  /** Past the refilled run the two texts read alike, and the character before is the same. */
  lemma {:induction false} RunRefilled(s: string, k: nat, y: string)
    requires k < |s| && Quote(s[k]) && Inert(y, s[k])
    ensures var t := Refill(s, k, y);
      && AgreeTo(s, t, k) && t[k] == s[k]
      && SameTail(s, SkipQuoted(s, k), t, SkipQuoted(t, k))
      && (SkipQuoted(s, k) < |s| ==> SameBefore(s, SkipQuoted(s, k), t, SkipQuoted(t, k)))
  {
    var t, c := Refill(s, k, y), CloseOf(s, k);
    var n := k + 1 + |y|;
    forall m | 0 <= m <= k ensures s[m] == t[m] { assert t[m] == t[..k + 1][m] == s[..k + 1][m]; }
    assert |t| == n + |s| - c && t[n..] == s[c..];
    forall m | k + 1 <= m < n ensures t[m] == y[m - k - 1] && t[m] in y {}
    if c < |s| { assert t[n] == t[n..][0] == s[c..][0]; }
    if s[k] == '\'' { InertSingle(t, k + 1, n); } else { InertDouble(t, k + 1, n); }
    assert CloseOf(t, k) == n;
    forall m | c <= m < |s| ensures s[m] == t[m - c + n] {
      assert s[m] == s[c..][m - c] && t[m - c + n] == t[n..][m - c];
    }
  }

  lemma {:induction false} EndsAlike(s: string, i: nat, t: string, j: nat, atCmd: bool, first: bool)
    requires SameTail(s, i, t, j) && (i < |s| ==> SameBefore(s, i, t, j))
    ensures Scan(s, i, atCmd, first) == Scan(t, j, atCmd, first)
  {
    assert |s| - i == |t| - j;
    if i < |s| { TailScan(s, i, t, j, atCmd, first); }
  }

  lemma {:induction false} QuotesDoNotStop(s: string, k: nat)
    requires k < |s| && Quote(s[k])
    ensures !TokenStops(s, k) && TokenEnd(s, k) == TokenEnd(s, SkipQuoted(s, k))
  {
    PatternAt(s, k, "$$(", 0);
  }

  /** A token that reaches the run at k ends, in both texts, where the text behind the run ends it. */
  lemma {:induction false} TokenReachesRun(s: string, k: nat, y: string, i: nat)
    requires k < |s| && Quote(s[k]) && Inert(y, s[k]) && i <= k && InToken(s, i, k)
    ensures var t := Refill(s, k, y);
      && TokenEnd(s, i) == TokenEnd(s, SkipQuoted(s, k)) && TokenEnd(t, i) == TokenEnd(t, SkipQuoted(t, k))
      && SameTail(s, SkipQuoted(s, k), t, SkipQuoted(t, k))
      && (SkipQuoted(s, k) < |s| ==> SameBefore(s, SkipQuoted(s, k), t, SkipQuoted(t, k)))
  {
    var t := Refill(s, k, y);
    RunRefilled(s, k, y);
    SameInToken(s, t, k, i);
    QuotesDoNotStop(s, k);
    QuotesDoNotStop(t, k);
  }

  lemma {:induction false} TailEnds(s: string, e: nat, t: string, e': nat)
    requires SameTail(s, e, t, e') && (e < |s| ==> SameBefore(s, e, t, e'))
    ensures SameTail(s, TokenEnd(s, e), t, TokenEnd(t, e'))
    ensures TokenEnd(s, e) < |s| ==> SameBefore(s, TokenEnd(s, e), t, TokenEnd(t, e'))
  {
    TailTokenEnd(s, e, t, e');
    var d := TokenEnd(s, e) - e;
    TailAt(s, e, t, e', d);
    if d > 0 { TailAt(s, e, t, e', d - 1); }
  }

  /** How far a token goes that passes through the run at k, in both texts. */
  lemma {:induction false} TokenThroughRun(s: string, k: nat, y: string, i: nat)
    requires k < |s| && Quote(s[k]) && Inert(y, s[k]) && i <= k && InToken(s, i, k)
    ensures var t := Refill(s, k, y);
      && SameTail(s, TokenEnd(s, i), t, TokenEnd(t, i))
      && (TokenEnd(s, i) < |s| ==> SameBefore(s, TokenEnd(s, i), t, TokenEnd(t, i)))
  {
    TokenReachesRun(s, k, y, i);
    TailEnds(s, SkipQuoted(s, k), Refill(s, k, y), SkipQuoted(Refill(s, k, y), k));
  }

  /** A token outside command position that passes through the run at k. */
  lemma {:induction false} StepThroughToken(s: string, k: nat, y: string, i: nat, first: bool)
    requires k < |s| && Quote(s[k]) && Inert(y, s[k]) && i <= k
    requires LexemeAt(s, i, false).Word? && InToken(s, i, k)
    ensures Scan(Refill(s, k, y), i, false, first) == Scan(s, i, false, first)
  {
    var t := Refill(s, k, y);
    RunRefilled(s, k, y);
    SameLexeme(s, t, k, i, false);
    TokenThroughRun(s, k, y, i);
    assert StepAt(s, i, false, first) == Step(TokenEnd(s, i), false, false, []);
    assert StepAt(t, i, false, first) == Step(TokenEnd(t, i), false, false, []);
    EndsAlike(s, TokenEnd(s, i), t, TokenEnd(t, i), false, false);
  }

  /** The step that reads the quote at k. */
  lemma {:induction false} StepOverRun(s: string, k: nat, y: string, i: nat, first: bool)
    requires k < |s| && Quote(s[k]) && Inert(y, s[k]) && i <= k
    requires i == k || (LexemeAt(s, i, false).Word? && InToken(s, i, k))
    ensures Scan(Refill(s, k, y), i, false, first) == Scan(s, i, false, first)
  {
    if i == k {
      var t := Refill(s, k, y);
      var e, e' := SkipQuoted(s, k), SkipQuoted(t, k);
      RunRefilled(s, k, y);
      assert StepAt(s, i, false, first) == Step(e, false, first, []);
      assert StepAt(t, i, false, first) == Step(e', false, first, []);
      EndsAlike(s, e, t, e', false, first);
    } else {
      StepThroughToken(s, k, y, i, first);
    }
  }

  lemma {:induction false} RefillFrom(s: string, k: nat, y: string, i: nat, atCmd: bool, first: bool)
    requires k < |s| && Quote(s[k]) && Inert(y, s[k]) && i <= |s| && NotCommandAt(s, i, atCmd, first, k)
    ensures i <= k && Scan(Refill(s, k, y), i, atCmd, first) == Scan(s, i, atCmd, first)
    decreases |s| - i
  {
    var t := Refill(s, k, y);
    RunRefilled(s, k, y);
    if i == k && !atCmd {
      StepOverRun(s, k, y, i, first);
    } else if LexemeAt(s, i, atCmd).Word? && k < TokenEnd(s, i) {
      StepOverRun(s, k, y, i, first);
    } else {
      var r := StepAt(s, i, atCmd, first);
      RefillFrom(s, k, y, r.next, r.atCmd, r.first);
      SameStep(s, t, k, i, atCmd, first);
    }
  }

  /** Non-interference: the contents of a quoted argument do not reach the verdict. */
  lemma {:induction false} QuotedContentsAreInert(s: string, k: nat, y: string)
    requires k < |s| && Quote(s[k]) && NotCommandAt(s, 0, true, true, k) && Inert(y, s[k])
    ensures Scan(Refill(s, k, y), 0, true, true) == Scan(s, 0, true, true)
  {
    RefillFrom(s, k, y, 0, true, true);
  }
}
