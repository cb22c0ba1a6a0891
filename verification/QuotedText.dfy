/** Quoted text read from its characters: what a backslash escapes, and which quote closes a run. */
module QuotedText {

  /** How many backslashes stand in a row just before m, none of them before `from`. */
  function Backslashes(s: string, from: nat, m: nat): nat
    requires m <= |s|
  {
    if m > from && s[m - 1] == '\\' then 1 + Backslashes(s, from, m - 1) else 0
  }

  predicate Unescaped(s: string, from: nat, m: nat)
    requires m <= |s|
  {
    Backslashes(s, from, m) % 2 == 0
  }

  /** c is the first unescaped double quote at or after `from`, or the end of the text. */
  ghost predicate ClosesAt(s: string, from: nat, c: nat)
  {
    && from <= c <= |s|
    && (forall m :: from <= m < c && s[m] == '"' ==> !Unescaped(s, from, m))
    && (c < |s| ==> s[c] == '"' && Unescaped(s, from, c))
  }

  lemma {:induction false} ClosesOnce(s: string, from: nat, c: nat, d: nat)
    requires ClosesAt(s, from, c) && ClosesAt(s, from, d)
    ensures c == d
  {
  }

  /** A scanner that passes over a backslash and what it escapes keeps to unescaped places. */
  lemma {:induction false} NextUnescaped(s: string, from: nat, j: nat)
    requires from <= j < |s| && Unescaped(s, from, j)
    ensures s[j] != '\\' ==> Unescaped(s, from, j + 1)
    ensures s[j] == '\\' ==> !Unescaped(s, from, j + 1)
    ensures s[j] == '\\' && j + 2 <= |s| ==> Unescaped(s, from, j + 2)
  {
    if s[j] == '\\' {
      assert Backslashes(s, from, j + 1) == 1 + Backslashes(s, from, j);
    }
  }

  /** c closes the quoted run that starts at a, or is the end of the text if nothing closes it. */
  ghost predicate ClosesRun(s: string, a: nat, c: nat)
    requires a < |s|
  {
    if s[a] == '"' then ClosesAt(s, a + 1, c)
    else
      && s[a] == '\'' && a < c <= |s|
      && (forall m :: a < m < c ==> s[m] != '\'') && (c < |s| ==> s[c] == '\'')
  }
}
