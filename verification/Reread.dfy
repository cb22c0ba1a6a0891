/**
 Reading a rewritten document again: every token of a drifted site states its census value
 at its shifted place, everything else is untouched, and a second plan is empty.
 */
module Reread {
  import opened Numerals
  import opened Rewriting

  /** How far a place moves: each edit to its left lengthens or shortens the text. */
  function Shift(es: seq<Edit>, pos: nat): int
  {
    if es == [] then 0
    else
      var e := es[|es| - 1];
      (if e.end <= pos then |e.text| - (e.end - e.start) else 0) + Shift(es[..|es| - 1], pos)
  }

  lemma {:induction false} LeftmostFirst(n: nat, es: seq<Edit>)
    requires Descending(n, es) && es != []
    ensures Descending(n, es[..|es| - 1])
    ensures forall x :: x in es[..|es| - 1] ==> es[|es| - 1].end <= x.start
  {
  }

  lemma {:induction false} ShiftNone(n: nat, es: seq<Edit>, pos: nat)
    requires Descending(n, es) && forall x :: x in es ==> pos <= x.start
    ensures Shift(es, pos) == 0
    decreases |es|
  {
    if es != [] {
      LeftmostFirst(n, es);
      assert es[|es| - 1] in es;
      ShiftNone(n, es[..|es| - 1], pos);
    }
  }

  /** A place right of `low`, with only edits right of `low`, stays right of `low`. */
  lemma {:induction false} ShiftRoom(n: nat, es: seq<Edit>, pos: nat, low: nat)
    requires Descending(n, es) && low <= pos
    requires forall x :: x in es ==> low <= x.start && (x.end <= pos || pos <= x.start)
    ensures low <= pos + Shift(es, pos)
    decreases |es|
  {
    if es != [] {
      var e, rest := es[|es| - 1], es[..|es| - 1];
      LeftmostFirst(n, es);
      assert e in es;
      if e.end <= pos {
        ShiftRoom(n, rest, pos, e.end);
      } else {
        ShiftNone(n, rest, pos);
      }
    }
  }

  /** The slice of a splice that lies right of the edit. */
  lemma {:induction false} RightOfSplice(t: string, e: Edit, lo: nat, hi: nat)
    requires e.start <= e.end <= |t| && e.end <= lo <= hi <= |t|
    ensures var d := |e.text| - (e.end - e.start);
      0 <= lo + d && hi + d <= |Splice(t, e)| && Splice(t, e)[lo + d..hi + d] == t[lo..hi]
  {
    var d := |e.text| - (e.end - e.start);
    var r := Splice(t, e);
    assert |r| == |t| + d;
    forall i | 0 <= i < hi - lo ensures r[lo + d..hi + d][i] == t[lo..hi][i] {
      assert r[lo + d + i] == t[e.end..][lo + d + i - e.start - |e.text|];
    }
  }

  lemma {:induction false} EditsAround(n: nat, es: seq<Edit>, e: Edit)
    requires Descending(n, es) && e in es
    ensures forall x :: x in es ==> x.end <= e.start || e.start <= x.start
  {
    forall x | x in es ensures x.end <= e.start || e.start <= x.start {
      var i :| 0 <= i < |es| && es[i] == x;
      var j :| 0 <= j < |es| && es[j] == e;
    }
  }

  lemma {:induction false} OwnSpan(t: string, e: Edit)
    requires e.start <= e.end <= |t|
    ensures |Splice(t, e)| >= e.start + |e.text| && Splice(t, e)[e.start..e.start + |e.text|] == e.text
  {
  }

  /** `text` stands in `t` at p. */
  predicate StandsAt(t: string, p: int, text: string)
  {
    0 <= p && p + |text| <= |t| && t[p..p + |text|] == text
  }

  lemma {:induction false} StandsAfterSplice(t: string, e: Edit, p: int, text: string)
    requires e.start <= e.end <= |t| && e.end <= p && StandsAt(t, p, text)
    ensures StandsAt(Splice(t, e), p + |e.text| - (e.end - e.start), text)
  {
    RightOfSplice(t, e, p, p + |text|);
  }

  lemma {:induction false} OneSplice(text: string, es: seq<Edit>)
    requires Descending(|text|, es) && es != []
    ensures var (rest, e) := (es[..|es| - 1], es[|es| - 1]);
      && Descending(|text|, rest) && e.start <= e.end <= |Spliced(text, rest)|
      && Spliced(text, es) == Splice(Spliced(text, rest), e)
  {
    LeftmostFirst(|text|, es);
    SplicedLeft(text, es);
  }

  /** Where an edit right of the leftmost one moves to. */
  lemma {:induction false} ShiftStep(n: nat, es: seq<Edit>, e: Edit)
    requires Descending(n, es) && es != [] && e in es[..|es| - 1]
    ensures var (l, rest) := (es[|es| - 1], es[..|es| - 1]);
      && Shift(es, e.start) == Shift(rest, e.start) + |l.text| - (l.end - l.start)
      && l.end <= e.start + Shift(rest, e.start)
  {
    var l, rest := es[|es| - 1], es[..|es| - 1];
    LeftmostFirst(n, es);
    EditsAround(n, rest, e);
    ShiftRoom(n, rest, e.start, l.end);
  }

  lemma {:induction false} EditedLeftmost(text: string, es: seq<Edit>)
    requires Descending(|text|, es) && es != []
    ensures var l := es[|es| - 1]; StandsAt(Spliced(text, es), l.start + Shift(es, l.start), l.text)
  {
    var l, rest := es[|es| - 1], es[..|es| - 1];
    LeftmostFirst(|text|, es);
    OneSplice(text, es);
    ShiftNone(|text|, rest, l.start);
    OwnSpan(Spliced(text, rest), l);
  }

  lemma {:induction false} StandsMoved(before: string, after: string, l: Edit, p: int, q: int, text: string)
    requires l.start <= l.end <= |before| && after == Splice(before, l) && StandsAt(before, p, text)
    requires l.end <= p && q == p + |l.text| - (l.end - l.start)
    ensures StandsAt(after, q, text)
  {
    StandsAfterSplice(before, l, p, text);
  }

  lemma {:induction false} StandsBefore(t: string, u: string, n: nat, p: nat, x: string)
    requires n <= |t| && n <= |u| && t[..n] == u[..n]
    requires StandsAt(t, p, x) && p + |x| <= n
    ensures StandsAt(u, p, x)
  {
    assert t[p..p + |x|] == t[..n][p..p + |x|];
    assert u[p..p + |x|] == u[..n][p..p + |x|];
  }

  /** Left of the leftmost edit the text is the original. */
  lemma {:induction false} StandsLeft(text: string, es: seq<Edit>, p: nat, x: string)
    requires Descending(|text|, es) && es != [] && StandsAt(text, p, x) && p + |x| <= es[|es| - 1].start
    ensures StandsAt(Spliced(text, es), p, x)
  {
    SplicedLeft(text, es);
    StandsBefore(text, Spliced(text, es), es[|es| - 1].start, p, x);
  }

  lemma {:induction false} StandsShifted(text: string, es: seq<Edit>, a: nat, x: string)
    requires Descending(|text|, es) && es != [] && Descending(|text|, es[..|es| - 1])
    requires var rest := es[..|es| - 1];
      && es[|es| - 1].end <= a && es[|es| - 1].end <= a + Shift(rest, a)
      && StandsAt(Spliced(text, rest), a + Shift(rest, a), x)
    ensures StandsAt(Spliced(text, es), a + Shift(es, a), x)
  {
    var e, rest := es[|es| - 1], es[..|es| - 1];
    var before, after := Spliced(text, rest), Spliced(text, es);
    assert e.start <= e.end <= |before| && after == Splice(before, e) by { OneSplice(text, es); }
    StandsMoved(before, after, e, a + Shift(rest, a), a + Shift(es, a), x);
  }

  predicate Untouched(es: seq<Edit>, a: nat, b: nat)
  {
    forall e :: e in es ==> e.end <= a || b <= e.start
  }

  lemma {:induction false} UntouchedRest(n: nat, es: seq<Edit>, a: nat, b: nat)
    requires Descending(n, es) && es != [] && a < b && Untouched(es, a, b)
    ensures var (e, rest) := (es[|es| - 1], es[..|es| - 1]);
      && Descending(n, rest) && Untouched(rest, a, b) && (e.end <= a || b <= e.start)
      && (e.end <= a ==> e.end <= a + Shift(rest, a))
      && (b <= e.start ==> Shift(es, a) == 0)
  {
    var e, rest := es[|es| - 1], es[..|es| - 1];
    LeftmostFirst(n, es);
    assert e in es;
    if e.end <= a { ShiftRoom(n, rest, a, e.end); } else { ShiftNone(n, es, a); }
  }

  /** Text that no edit touches is found again, shifted. */
  lemma {:induction false} KeptSpan(text: string, es: seq<Edit>, a: nat, x: string)
    requires Descending(|text|, es) && StandsAt(text, a, x) && x != "" && Untouched(es, a, a + |x|)
    ensures StandsAt(Spliced(text, es), a + Shift(es, a), x)
    decreases |es|
  {
    if es != [] {
      UntouchedRest(|text|, es, a, a + |x|);
      if es[|es| - 1].end <= a {
        KeptSpan(text, es[..|es| - 1], a, x);
        StandsShifted(text, es, a, x);
      } else {
        StandsLeft(text, es, a, x);
      }
    }
  }

  /** Every edit's text stands at its shifted place. */
  lemma {:induction false} EditedSpan(text: string, es: seq<Edit>, e: Edit)
    requires Descending(|text|, es) && e in es
    ensures StandsAt(Spliced(text, es), e.start + Shift(es, e.start), e.text)
    decreases |es|
  {
    if e == es[|es| - 1] {
      EditedLeftmost(text, es);
    } else {
      var rest := es[..|es| - 1];
      assert Descending(|text|, rest) && e in rest by { LeftmostFirst(|text|, es); }
      EditedSpan(text, rest, e);
      EditedStep(text, es, e);
    }
  }

  lemma {:induction false} EditedStep(text: string, es: seq<Edit>, e: Edit)
    requires Descending(|text|, es) && es != [] && e in es[..|es| - 1]
    requires StandsAt(Spliced(text, es[..|es| - 1]), e.start + Shift(es[..|es| - 1], e.start), e.text)
    ensures StandsAt(Spliced(text, es), e.start + Shift(es, e.start), e.text)
  {
    var l, rest := es[|es| - 1], es[..|es| - 1];
    OneSplice(text, es);
    ShiftStep(|text|, es, e);
    StandsMoved(Spliced(text, rest), Spliced(text, es), l, e.start + Shift(rest, e.start), e.start + Shift(es, e.start),
                e.text);
  }

  // ----- an edit that is planned twice -----

  /** What is printed is as long as the span it replaces. */
  predicate Fits(e: Edit)
  {
    |e.text| == e.end - e.start
  }

  predicate RepeatsFit(plan: seq<Edit>)
  {
    forall i, j :: 0 <= i < j < |plan| && plan[i] == plan[j] ==> Fits(plan[i])
  }

  /**
   The same edit spliced in twice leaves what one leaves exactly when it fits its span, or is
   shorter and stands at the very end of the text.
   */
  lemma {:induction false} TwiceIff(t: string, e: Edit)
    requires e.start < e.end <= |t|
    ensures Splice(Splice(t, e), e) == Splice(t, e) <==> Fits(e) || (|e.text| < e.end - e.start && e.end == |t|)
  {
    var pre, tail, r := t[..e.start], t[e.end..], Splice(t, e);
    assert r == (pre + e.text) + tail;
    var hi := Min(e.end, |r|);
    assert Splice(r, e) == (pre + e.text) + r[hi..];
    if Splice(r, e) == r {
      assert |r[hi..]| == |tail|;
    }
    if Fits(e) { assert r[hi..] == tail; }
    if |e.text| < e.end - e.start && e.end == |t| { assert r[hi..] == tail; }
  }

  /** The edits, each once. */
  function Thin(es: seq<Edit>): seq<Edit>
  {
    if |es| < 2 then es
    else if es[|es| - 1] == es[|es| - 2] then Thin(es[..|es| - 1])
    else Thin(es[..|es| - 1]) + [es[|es| - 1]]
  }

  lemma {:induction false} LooseInit(n: nat, es: seq<Edit>)
    requires Loose(n, es) && es != []
    ensures Loose(n, es[..|es| - 1])
    ensures forall e :: e in es <==> e in es[..|es| - 1] || e == es[|es| - 1]
  {
    assert es == es[..|es| - 1] + [es[|es| - 1]];
  }

  predicate LastIs(es: seq<Edit>, e: Edit) { es != [] && es[|es| - 1] == e }

  lemma {:induction false} ThinIsDescending(n: nat, es: seq<Edit>)
    requires Loose(n, es)
    ensures Descending(n, Thin(es)) && forall e :: e in Thin(es) <==> e in es
    ensures es != [] ==> LastIs(Thin(es), es[|es| - 1])
    decreases |es|
  {
    if |es| >= 2 {
      var init, last := es[..|es| - 1], es[|es| - 1];
      LooseInit(n, es);
      ThinIsDescending(n, init);
      assert init[|init| - 1] == es[|es| - 2];
      if last != es[|es| - 2] {
        LastIsLeft(n, es);
        SnocDescending(n, Thin(init), last);
        assert Thin(es) == Thin(init) + [last];
      } else {
        assert Thin(es) == Thin(init);
      }
    }
  }

  /** An edit other than the one before it is left of all those before it. */
  lemma {:induction false} LastIsLeft(n: nat, es: seq<Edit>)
    requires Loose(n, es) && |es| >= 2 && es[|es| - 1] != es[|es| - 2]
    ensures forall x :: x in es[..|es| - 1] ==> es[|es| - 1].end <= x.start
  {
    var last, before := es[|es| - 1], es[|es| - 2];
    assert last.end <= before.start;
    forall i | 0 <= i < |es| - 1 ensures last.end <= es[i].start {
      assert i == |es| - 2 || before == es[i] || before.end <= es[i].start;
    }
  }

  lemma {:induction false} SnocDescending(n: nat, es: seq<Edit>, e: Edit)
    requires Descending(n, es) && e.start < e.end <= n && forall x :: x in es ==> e.end <= x.start
    ensures Descending(n, es + [e])
  {
    var r := es + [e];
    forall i, j | 0 <= i < j < |r| ensures r[j].end <= r[i].start { assert r[i] in es; }
  }

  lemma {:induction false} TwiceFits(text: string, thin: seq<Edit>, e: Edit)
    requires Descending(|text|, thin) && LastIs(thin, e) && Fits(e)
    ensures Splice(Spliced(text, thin), e) == Spliced(text, thin)
  {
    SplicedLeft(text, thin);
    TwiceIff(Spliced(text, thin[..|thin| - 1]), e);
  }

  lemma {:induction false} SplicedSnoc(text: string, es: seq<Edit>, e: Edit)
    ensures Spliced(text, es + [e]) == Splice(Spliced(text, es), e)
  {
    assert (es + [e])[..|es|] == es;
  }

  lemma {:induction false} FitsInit(es: seq<Edit>)
    requires RepeatsFit(es) && |es| >= 2
    ensures RepeatsFit(es[..|es| - 1])
    ensures es[|es| - 1] == es[|es| - 2] ==> Fits(es[|es| - 1])
  {
  }

  lemma {:induction false} ThinSplices(text: string, es: seq<Edit>)
    requires Loose(|text|, es) && RepeatsFit(es)
    ensures Spliced(text, Thin(es)) == Spliced(text, es)
    decreases |es|
  {
    if |es| >= 2 {
      var init, last := es[..|es| - 1], es[|es| - 1];
      LooseInit(|text|, es);
      FitsInit(es);
      ThinSplices(text, init);
      ThinIsDescending(|text|, init);
      if last == es[|es| - 2] { TwiceFits(text, Thin(init), last); } else { SplicedSnoc(text, Thin(init), last); }
    }
  }

  // ----- the plan of tokens that are apart, or coincide -----

  function AllTokens(sites: seq<Site>): seq<Token>
  {
    if sites == [] then [] else AllTokens(sites[..|sites| - 1]) + sites[|sites| - 1].tokens
  }

  predicate TokenApart(a: Token, b: Token)
  {
    a.end <= b.start || b.end <= a.start
  }

  /** Two patterns match one number of the text and expect the same of it. */
  predicate SameToken(a: Token, b: Token)
  {
    a.start == b.start && a.end == b.end && a.raw == b.raw && a.expected == b.expected
  }

  /** Apart; or, where `same` allows it, one number whose planned edit fits its span. */
  predicate Meet(plan: seq<Edit>, same: bool, a: Token, b: Token)
  {
    TokenApart(a, b) || (same && SameToken(a, b) && (EditOf(a) in plan ==> Fits(EditOf(a))))
  }

  predicate TokensMeet(plan: seq<Edit>, same: bool, ts: seq<Token>)
  {
    forall i, j :: 0 <= i < j < |ts| ==> Meet(plan, same, ts[i], ts[j])
  }

  predicate TokensApart(ts: seq<Token>)
  {
    forall i, j :: 0 <= i < j < |ts| ==> TokenApart(ts[i], ts[j])
  }

  predicate Stated(text: string, sites: seq<Site>)
  {
    AllNumbers(sites) && forall s, t :: s in sites && t in s.tokens ==> TokenOk(text, t)
  }

  lemma {:induction false} TokensOfSites(sites: seq<Site>, t: Token)
    ensures t in AllTokens(sites) <==> exists s :: s in sites && t in s.tokens
    decreases |sites|
  {
    if sites != [] {
      var init, last := sites[..|sites| - 1], sites[|sites| - 1];
      TokensOfSites(init, t);
      assert last in sites;
      if s :| s in sites && t in s.tokens { assert s == last || s in init; }
      if t in AllTokens(init) { var s :| s in init && t in s.tokens; assert s in sites; }
    }
  }

  lemma {:induction false} ConcatMeets(plan: seq<Edit>, same: bool, a: seq<Token>, b: seq<Token>)
    requires TokensMeet(plan, same, a + b)
    ensures TokensMeet(plan, same, a) && TokensMeet(plan, same, b)
    ensures forall x, y :: x in a && y in b ==> Meet(plan, same, x, y)
  {
    var all := a + b;
    forall i, j | 0 <= i < j < |b| ensures Meet(plan, same, b[i], b[j]) {
      assert b[i] == all[|a| + i] && b[j] == all[|a| + j];
    }
    forall x, y | x in a && y in b ensures Meet(plan, same, x, y) {
      var i :| 0 <= i < |a| && a[i] == x;
      var j :| 0 <= j < |b| && b[j] == y;
      assert x == all[i] && y == all[|a| + j];
    }
    forall i, j | 0 <= i < j < |a| ensures Meet(plan, same, a[i], a[j]) {
      assert a[i] == all[i] && a[j] == all[j];
    }
  }

  lemma {:induction false} SplitMeets(plan: seq<Edit>, same: bool, sites: seq<Site>)
    requires sites != [] && TokensMeet(plan, same, AllTokens(sites))
    ensures var (init, last) := (sites[..|sites| - 1], sites[|sites| - 1]);
      && TokensMeet(plan, same, AllTokens(init)) && TokensMeet(plan, same, last.tokens)
      && forall a, b :: a in AllTokens(init) && b in last.tokens ==> Meet(plan, same, a, b)
  {
    ConcatMeets(plan, same, AllTokens(sites[..|sites| - 1]), sites[|sites| - 1].tokens);
  }

  /** The edits of two tokens that meet. */
  predicate EditsMeet(plan: seq<Edit>, same: bool, x: Edit, y: Edit)
  {
    Apart(x, y) || (same && x == y && (x in plan ==> Fits(x)))
  }

  predicate AllMeet(n: nat, plan: seq<Edit>, same: bool, es: seq<Edit>)
  {
    Inside(n, es) && forall i, j :: 0 <= i < j < |es| ==> EditsMeet(plan, same, es[i], es[j])
  }

  lemma {:induction false} PlanMeets(text: string, plan: seq<Edit>, same: bool, sites: seq<Site>)
    requires Stated(text, sites) && TokensMeet(plan, same, AllTokens(sites))
    ensures AllMeet(|text|, plan, same, Plan(sites))
    decreases |sites|
  {
    if sites != [] {
      var init, last := sites[..|sites| - 1], sites[|sites| - 1];
      assert last in sites;
      SplitMeets(plan, same, sites);
      PlanMeets(text, plan, same, init);
      if Drifted(last) {
        OwnMeet(text, plan, same, last);
        CrossMeets(plan, same, init, last);
        JoinMeets(|text|, plan, same, Plan(init), EditsOf(last.tokens));
      }
    }
  }

  lemma {:induction false} CrossMeets(plan: seq<Edit>, same: bool, init: seq<Site>, last: Site)
    requires AllNumbers(init) && forall t :: t in last.tokens ==> IsNumber(t.raw)
    requires forall a, b :: a in AllTokens(init) && b in last.tokens ==> Meet(plan, same, a, b)
    ensures forall i, j :: 0 <= i < |Plan(init)| && 0 <= j < |last.tokens| ==>
      EditsMeet(plan, same, Plan(init)[i], EditsOf(last.tokens)[j])
  {
    forall i, j | 0 <= i < |Plan(init)| && 0 <= j < |last.tokens|
      ensures EditsMeet(plan, same, Plan(init)[i], EditsOf(last.tokens)[j])
    {
      var s, t := PlanOnlyDrifted(init, Plan(init)[i]);
      TokensOfSites(init, t);
      assert Meet(plan, same, t, last.tokens[j]);
    }
  }

  lemma {:induction false} OwnMeet(text: string, plan: seq<Edit>, same: bool, s: Site)
    requires TokensMeet(plan, same, s.tokens) && forall t :: t in s.tokens ==> IsNumber(t.raw) && TokenOk(text, t)
    ensures AllMeet(|text|, plan, same, EditsOf(s.tokens))
  {
    forall i | 0 <= i < |s.tokens| ensures EditsOf(s.tokens)[i].start < EditsOf(s.tokens)[i].end <= |text| {
      assert s.tokens[i] in s.tokens;
    }
    forall i, j | 0 <= i < j < |s.tokens|
      ensures EditsMeet(plan, same, EditsOf(s.tokens)[i], EditsOf(s.tokens)[j])
    {
      assert Meet(plan, same, s.tokens[i], s.tokens[j]);
    }
  }

  lemma {:induction false} JoinMeets(n: nat, plan: seq<Edit>, same: bool, a: seq<Edit>, b: seq<Edit>)
    requires AllMeet(n, plan, same, a) && AllMeet(n, plan, same, b)
    requires forall i, j :: 0 <= i < |a| && 0 <= j < |b| ==> EditsMeet(plan, same, a[i], b[j])
    ensures AllMeet(n, plan, same, a + b)
  {
  }

  /** Tokens apart give a plan of disjoint spans. */
  lemma {:induction false} PlanIsDisjoint(text: string, sites: seq<Site>)
    requires Stated(text, sites) && TokensApart(AllTokens(sites))
    ensures Disjoint(|text|, Plan(sites))
  {
    PlanMeets(text, [], false, sites);
  }

  /** The edits of a document, from right to left, each once. */
  function Edits(sites: seq<Site>): seq<Edit>
    requires AllNumbers(sites)
  {
    Thin(SortDesc(Plan(sites)))
  }

  /** Every site is read in the text, and two of its tokens are apart or one number. */
  predicate Clean(text: string, sites: seq<Site>)
  {
    Stated(text, sites) && TokensMeet(Plan(sites), true, AllTokens(sites))
  }

  /** Sorting keeps what is planned twice, and only that. */
  lemma {:induction false} SortFits(plan: seq<Edit>)
    requires RepeatsFit(plan)
    ensures RepeatsFit(SortDesc(plan))
  {
    var es := SortDesc(plan);
    forall i, j | 0 <= i < j < |es| && es[i] == es[j] ensures Fits(es[i]) {
      var e := es[i];
      TimesAt(es, e);
      SortTimes(plan, e);
      TimesAt(plan, e);
      var k, l :| 0 <= k < l < |plan| && plan[k] == e && plan[l] == e;
    }
  }

  /** The splices of a clean document come out as the simultaneous substitution of its edits. */
  lemma {:induction false} CleanSplices(text: string, sites: seq<Site>)
    requires Clean(text, sites)
    ensures Descending(|text|, Edits(sites)) && forall e :: e in Edits(sites) <==> e in Plan(sites)
    ensures Spliced(text, SortDesc(Plan(sites))) == Spliced(text, Edits(sites))
    ensures Spliced(text, Edits(sites)) == Substituted(text, Edits(sites), 0)
  {
    var plan := Plan(sites);
    PlanMeets(text, plan, true, sites);
    assert ApartOrSame(|text|, plan);
    forall i, j | 0 <= i < j < |plan| && plan[i] == plan[j] ensures Fits(plan[i]) {
      assert EditsMeet(plan, true, plan[i], plan[j]);
    }
    SortIsLoose(|text|, plan);
    SortFits(plan);
    ThinIsDescending(|text|, SortDesc(plan));
    ThinSplices(text, SortDesc(plan));
    SpliceIsSubstitution(text, Edits(sites), 0);
  }

  // ----- the second reading -----

  /** Where and what a token is after the rewrite. */
  function TokenAfter(out: string, es: seq<Edit>, s: Site, t: Token): Token
    requires forall t :: t in s.tokens ==> IsNumber(t.raw)
  {
    var p := t.start + Shift(es, t.start);
    var q := p + (if Drifted(s) then |EditOf(t).text| else t.end - t.start);
    if 0 <= p <= q <= |out| then Token(t.key, p, q, out[p..q], t.expected) else t
  }

  function TokensAfter(out: string, es: seq<Edit>, s: Site, ts: seq<Token>): (r: seq<Token>)
    requires forall t :: t in s.tokens ==> IsNumber(t.raw)
    ensures |r| == |ts| && forall i :: 0 <= i < |ts| ==> r[i] == TokenAfter(out, es, s, ts[i])
  {
    if ts == [] then [] else TokensAfter(out, es, s, ts[..|ts| - 1]) + [TokenAfter(out, es, s, ts[|ts| - 1])]
  }

  function SiteAfter(out: string, es: seq<Edit>, s: Site): Site
    requires forall t :: t in s.tokens ==> IsNumber(t.raw)
  {
    s.(tokens := TokensAfter(out, es, s, s.tokens))
  }

  function SitesAfter(out: string, es: seq<Edit>, sites: seq<Site>): (r: seq<Site>)
    requires AllNumbers(sites)
    ensures |r| == |sites| && forall i :: 0 <= i < |sites| ==> sites[i] in sites && r[i] == SiteAfter(out, es, sites[i])
  {
    if sites == [] then []
    else
      assert sites[|sites| - 1] in sites;
      SitesAfter(out, es, sites[..|sites| - 1]) + [SiteAfter(out, es, sites[|sites| - 1])]
  }

  /** Tokens of two different sites meet. */
  lemma {:induction false} SitesMeet(plan: seq<Edit>, sites: seq<Site>, a: Site, b: Site, t: Token, u: Token)
    requires TokensMeet(plan, true, AllTokens(sites)) && a in sites && b in sites && a != b
    requires t in a.tokens && u in b.tokens
    ensures Meet(plan, true, t, u)
    decreases |sites|
  {
    var init, last := sites[..|sites| - 1], sites[|sites| - 1];
    SplitMeets(plan, true, sites);
    TokensOfSites(init, t);
    TokensOfSites(init, u);
    if a in init && b in init { SitesMeet(plan, init, a, b, t, u); }
  }

  /** A token reads back as the census value; where no edit stands it reads as before. */
  ghost predicate Settled(out: string, es: seq<Edit>, s: Site, t: Token)
    requires forall t :: t in s.tokens ==> IsNumber(t.raw)
  {
    var t' := TokenAfter(out, es, s, t);
    && t'.start == t.start + Shift(es, t.start)
    && TokenOk(out, t') && ParseNumber(t'.raw) == t.expected == t'.expected
    && (EditOf(t) !in es ==> t'.raw == t.raw)
  }

  lemma {:induction false} EditReads(t: Token)
    ensures IsNumber(EditOf(t).text) && ParseNumber(EditOf(t).text) == t.expected
  {
    StyleRoundTrip(t.raw, t.expected);
  }

  /** A token whose edit is made. */
  lemma {:induction false} EditedSettles(text: string, es: seq<Edit>, s: Site, t: Token)
    requires Descending(|text|, es) && EditOf(t) in es && t in s.tokens
    requires (forall t :: t in s.tokens ==> IsNumber(t.raw)) && (Drifted(s) || Fits(EditOf(t)))
    ensures Settled(Spliced(text, es), es, s, t)
  {
    EditedSpan(text, es, EditOf(t));
    EditReads(t);
    StandingToken(Spliced(text, es), es, s, t, EditOf(t).text);
  }

  lemma {:induction false} AgreeingSettles(text: string, es: seq<Edit>, s: Site, t: Token)
    requires Descending(|text|, es) && t in s.tokens && TokenOk(text, t)
    requires (forall t :: t in s.tokens ==> IsNumber(t.raw)) && !Drifted(s)
    requires forall x :: x in es ==> x.end <= t.start || t.end <= x.start
    ensures Settled(Spliced(text, es), es, s, t)
  {
    KeptSpan(text, es, t.start, t.raw);
    StandingToken(Spliced(text, es), es, s, t, t.raw);
  }

  /** A token whose new text is known to stand at its shifted place. */
  lemma {:induction false} StandingToken(out: string, es: seq<Edit>, s: Site, t: Token, raw: string)
    requires (forall t :: t in s.tokens ==> IsNumber(t.raw)) && t in s.tokens
    requires |raw| == (if Drifted(s) then |EditOf(t).text| else t.end - t.start)
    requires StandsAt(out, t.start + Shift(es, t.start), raw) && (EditOf(t) !in es ==> raw == t.raw)
    requires IsNumber(raw) && ParseNumber(raw) == t.expected
    ensures Settled(out, es, s, t)
  {
    TokenPlaced(out, es, s, t, raw);
    PlacedOk(out, t.start + Shift(es, t.start), t, raw);
  }

  lemma {:induction false} PlacedOk(out: string, p: int, t: Token, raw: string)
    requires StandsAt(out, p, raw) && IsNumber(raw)
    ensures TokenOk(out, Token(t.key, p, p + |raw|, raw, t.expected))
  {
  }

  lemma {:induction false} TokenPlaced(out: string, es: seq<Edit>, s: Site, t: Token, raw: string)
    requires forall t :: t in s.tokens ==> IsNumber(t.raw)
    requires |raw| == (if Drifted(s) then |EditOf(t).text| else t.end - t.start)
    requires StandsAt(out, t.start + Shift(es, t.start), raw)
    ensures var p := t.start + Shift(es, t.start);
      TokenAfter(out, es, s, t) == Token(t.key, p, p + |raw|, raw, t.expected)
  {
  }

  /** A planned edit that stands on a token of an agreeing site is the token's own, and fits; others stand apart. */
  lemma {:induction false} AgreeingMeets(text: string, sites: seq<Site>, s: Site, t: Token, x: Edit)
    requires Clean(text, sites) && s in sites && t in s.tokens && !Drifted(s) && x in Plan(sites)
    ensures x.end <= t.start || t.end <= x.start || (x == EditOf(t) && Fits(x))
  {
    var s2, t2 := PlanOnlyDrifted(sites, x);
    SitesMeet(Plan(sites), sites, s2, s, t2, t);
  }

  lemma {:induction false} TokenSettles(text: string, sites: seq<Site>, s: Site, t: Token)
    requires Clean(text, sites) && s in sites && t in s.tokens
    requires Descending(|text|, Edits(sites)) && forall e :: e in Edits(sites) <==> e in Plan(sites)
    ensures Settled(Spliced(text, Edits(sites)), Edits(sites), s, t)
  {
    var es := Edits(sites);
    assert TokenOk(text, t);
    if Drifted(s) {
      PlanHolds(sites, s, t);
      EditedSettles(text, es, s, t);
    } else if EditOf(t) in es {
      AgreeingMeets(text, sites, s, t, EditOf(t));
      EditedSettles(text, es, s, t);
    } else {
      forall x | x in es ensures x.end <= t.start || t.end <= x.start { AgreeingMeets(text, sites, s, t, x); }
      AgreeingSettles(text, es, s, t);
    }
  }

  lemma {:induction false} EmptyPlan(sites: seq<Site>)
    requires AllNumbers(sites)
    requires forall s :: s in sites ==> !Drifted(s)
    ensures Plan(sites) == []
    decreases |sites|
  {
    if sites != [] {
      assert sites[|sites| - 1] in sites;
      EmptyPlan(sites[..|sites| - 1]);
    }
  }

  /**
   The rewrite settles: it is the simultaneous substitution of the planned edits, every site
   then states its census values, and planning again over the document plans nothing.
   */
  lemma {:induction false} RewriteSettles(text: string, sites: seq<Site>)
    requires Clean(text, sites)
    ensures Descending(|text|, Edits(sites))
    ensures var out := Spliced(text, SortDesc(Plan(sites)));
      var after := SitesAfter(out, Edits(sites), sites);
      out == Substituted(text, Edits(sites), 0) && Stated(out, after) && Plan(after) == []
  {
    CleanSplices(text, sites);
    var es := Edits(sites);
    var out := Spliced(text, es);
    var after := SitesAfter(out, es, sites);
    forall s', t' | s' in after && t' in s'.tokens ensures TokenOk(out, t') && ParseNumber(t'.raw) == t'.expected {
      var i :| 0 <= i < |after| && after[i] == s';
      var s := sites[i];
      var j :| 0 <= j < |s'.tokens| && s'.tokens[j] == t';
      TokenSettles(text, sites, s, s.tokens[j]);
    }
    EmptyPlan(after);
  }

  // ----- numbers stated as history -----

  /** The tokens are read in the masked text, as the scan reads them. */
  predicate FoundIn(masked: string, sites: seq<Site>)
  {
    forall s, t :: s in sites && t in s.tokens ==>
      t.start <= t.end <= |masked| && masked[t.start..t.end] == t.raw && IsNumber(t.raw)
  }

  /**
   A number stated as history is not rewritten: every historical clause stands in the rewritten
   document word for word.
   */
  lemma {:induction false} HistorySurvives(text: string, spans: seq<Span>, masked: string, sites: seq<Site>, s: Span)
    requires Masks(text, spans, masked) && FoundIn(masked, sites) && s in spans && s.start < s.end <= |text|
    requires Clean(text, sites)
    ensures var out := Spliced(text, SortDesc(Plan(sites)));
      StandsAt(out, s.start + Shift(Edits(sites), s.start), text[s.start..s.end])
  {
    CleanSplices(text, sites);
    forall e | e in Edits(sites) ensures e.end <= s.start || s.end <= e.start {
      var site, t := PlanOnlyDrifted(sites, e);
      TokenMissesHistory(text, spans, masked, t.start, t.end, s);
    }
    KeptSpan(text, Edits(sites), s.start, text[s.start..s.end]);
  }

  // ----- two patterns on one number -----

  lemma {:induction false} PlanTwo(a: Site, b: Site, t: Token, u: Token)
    requires a.tokens == [t] && b.tokens == [u] && SameToken(t, u) && IsNumber(t.raw)
    requires ParseNumber(t.raw) != t.expected
    ensures AllNumbers([a, b]) && Plan([a, b]) == [EditOf(t), EditOf(t)]
    ensures SortDesc(Plan([a, b])) == [EditOf(t), EditOf(t)]
  {
    PlanOne(a, t);
    PlanOne(b, u);
    NumbersOfTwo(a, b);
    PlanBehind(a, b);
    OneEdit(u);
    SortTwice(EditOf(t));
  }

  lemma {:induction false} NumbersOfTwo(a: Site, b: Site)
    requires AllNumbers([a]) && AllNumbers([b])
    ensures AllNumbers([a, b])
  {
    assert a in [a] && b in [b];
  }

  lemma {:induction false} PlanBehind(a: Site, b: Site)
    requires AllNumbers([a]) && AllNumbers([b]) && AllNumbers([a, b]) && Drifted(b)
    ensures Plan([a, b]) == Plan([a]) + EditsOf(b.tokens)
  {
    assert [a, b][..1] == [a];
  }

  lemma {:induction false} OneEdit(t: Token)
    ensures EditsOf([t]) == [EditOf(t)]
  {
    assert [t][..0] == [];
  }

  lemma {:induction false} PlanOne(a: Site, t: Token)
    requires a.tokens == [t] && IsNumber(t.raw) && ParseNumber(t.raw) != t.expected
    ensures AllNumbers([a]) && Drifted(a) && Plan([a]) == [EditOf(t)]
  {
    assert t in a.tokens && [a][0] == a;
    assert AllNumbers([a]) by { forall s, x | s in [a] && x in s.tokens ensures IsNumber(x.raw) {} }
    var none: seq<Site> := [a][..0];
    assert none == [] && Plan(none) == [];
    OneEdit(t);
    assert Plan([a]) == Plan(none) + EditsOf(a.tokens);
  }

  lemma {:induction false} SortTwice(e: Edit)
    ensures SortDesc([e, e]) == [e, e]
  {
    assert [e, e][..1] == [e] && [e][..0] == [] && [e][1..] == [];
    assert SortDesc([e]) == InsertDesc(e, []) == [e];
    assert SortDesc([e, e]) == InsertDesc(e, [e]) == [e] + InsertDesc(e, [e][1..]);
  }

  /**
   Two drifted sites on one number: the document comes out as one rewrite of the number exactly
   when what is printed fits its span, or is shorter and ends the document.
   */
  lemma {:induction false} CoincidentIff(text: string, a: Site, b: Site, t: Token, u: Token)
    requires a.tokens == [t] && b.tokens == [u] && SameToken(t, u) && TokenOk(text, t)
    requires ParseNumber(t.raw) != t.expected && AllNumbers([a, b])
    ensures var (out, e) := (Spliced(text, SortDesc(Plan([a, b]))), EditOf(t));
      out == Splice(text, e) <==> Fits(e) || (|e.text| < e.end - e.start && e.end == |text|)
  {
    var e := EditOf(t);
    PlanTwo(a, b, t, u);
    SplicedTwice(text, e);
    TwiceIff(text, e);
  }

  // ----- one edit of many that is planned more than once and does not fit -----

  /** The edits in front of the first `e`: those that are spliced in before it. */
  function Ahead(es: seq<Edit>, e: Edit): seq<Edit>
    decreases |es|
  {
    if e !in es then es else Ahead(es[..|es| - 1], e)
  }

  /** `e` alone is planned more than once without fitting its span. */
  predicate OnlyMisfit(es: seq<Edit>, e: Edit)
  {
    !Fits(e) && forall i, j :: 0 <= i < j < |es| && es[i] == es[j] ==> es[i] == e || Fits(es[i])
  }

  predicate Repeated(es: seq<Edit>, e: Edit)
  {
    exists i, j :: 0 <= i < j < |es| && es[i] == e && es[j] == e
  }

  /** Left of the last edit the text is the original, however often edits are repeated. */
  lemma {:induction false} LooseLeft(text: string, es: seq<Edit>)
    requires Loose(|text|, es) && es != []
    ensures var (e, before) := (es[|es| - 1], Spliced(text, es[..|es| - 1]));
      && |before| >= e.start && before[..e.start] == text[..e.start]
      && |Spliced(text, es)| >= e.start && Spliced(text, es)[..e.start] == text[..e.start]
    decreases |es|
  {
    var init, e := es[..|es| - 1], es[|es| - 1];
    if init != [] {
      LooseInit(|text|, es);
      LooseLeft(text, init);
      var last := init[|init| - 1];
      assert last == e || e.end <= last.start;
      SlicesAgree(Spliced(text, init), text, last.start, e.start);
    }
  }

  /** An edit that fits and has just been made changes nothing when it is made again. */
  lemma {:induction false} MadeAgain(t: string, e: Edit)
    requires e.start <= |t| && Fits(e)
    ensures Splice(Splice(t, e), e) == Splice(t, e)
  {
    var r := Splice(t, e);
    assert r[..e.start] == t[..e.start] && r[e.start..e.end] == e.text;
    assert r == r[..e.start] + r[e.start..e.end] + r[e.end..];
  }

  /** Left of everything else, an edit tells two texts apart exactly if they were different. */
  lemma {:induction false} SpliceTells(t: string, u: string, e: Edit, n: nat)
    requires e.start <= e.end <= n <= |t| && n <= |u| && t[..n] == u[..n]
    ensures Splice(t, e) == Splice(u, e) <==> t == u
  {
    SlicesAgree(t, u, n, e.end);
    var a := t[..e.start] + e.text;
    assert t[..e.start] == u[..e.start] by { SlicesAgree(t, u, n, e.start); }
    assert Splice(t, e) == a + t[e.end..] && Splice(u, e) == a + u[e.end..];
    assert (a + t[e.end..])[|a|..] == t[e.end..] && (a + u[e.end..])[|a|..] == u[e.end..];
    assert t == t[..e.end] + t[e.end..] && u == u[..e.end] + u[e.end..];
  }

  /** `out` begins as one splice of `e` into `t` does. */
  predicate BeginsAs(t: string, out: string, e: Edit)
  {
    e.start <= |t| && |out| >= e.start + |e.text| && out[..e.start + |e.text|] == t[..e.start] + e.text
  }

  /** Against one splice: not shorter for a longer text, not longer for a shorter one; `again`, strictly so. */
  predicate Outgrows(t: string, out: string, e: Edit, again: bool)
    requires e.start <= e.end <= |t|
  {
    var one := |Splice(t, e)|;
    && (|e.text| > e.end - e.start ==> |out| >= one && (again ==> |out| > one))
    && (|e.text| < e.end - e.start ==> |out| <= one && (again ==> (|out| == one <==> e.end == |t|)))
  }

  /** One more splice of a misfit: longer, or eating up what is behind it. */
  lemma {:induction false} OnceMore(t: string, r: string, e: Edit, again: bool)
    requires e.start < e.end <= |t| && !Fits(e) && BeginsAs(t, r, e) && Outgrows(t, r, e, again)
    ensures BeginsAs(t, Splice(r, e), e) && Outgrows(t, Splice(r, e), e, true)
  {
    assert r[..e.start] == t[..e.start] by {
      assert r[..e.start + |e.text|][..e.start] == r[..e.start];
      assert (t[..e.start] + e.text)[..e.start] == t[..e.start];
    }
  }

  /** What repetitions of a misfit leave of `t`: `thin` after one splice, `out` after all of them. */
  predicate Misfits(t: string, thin: string, out: string, e: Edit, again: bool)
  {
    && e.start < e.end <= |t| && thin == Splice(t, e)
    && BeginsAs(t, out, e) && Outgrows(t, out, e, again)
  }

  /** A text that ends with repetitions of a misfit. */
  lemma {:induction false} MisfitLast(text: string, es: seq<Edit>, e: Edit)
    requires Loose(|text|, es) && LastIs(es, e) && OnlyMisfit(es, e)
    ensures Misfits(Spliced(text, Ahead(es, e)), Spliced(text, Thin(es)), Spliced(text, es), e, Repeated(es, e))
    decreases |es|
  {
    var init := es[..|es| - 1];
    LooseInit(|text|, es);
    if LastIs(init, e) {
      MisfitLast(text, init, e);
      TwiceLast(text, es, init, e);
      OnceMore(Spliced(text, Ahead(init, e)), Spliced(text, init), e, Repeated(init, e));
    } else {
      FirstMisfit(text, es, init, e);
    }
  }

  lemma {:induction false} TwiceLast(text: string, es: seq<Edit>, init: seq<Edit>, e: Edit)
    requires LastIs(es, e) && init == es[..|es| - 1] && LastIs(init, e)
    ensures Ahead(es, e) == Ahead(init, e) && Thin(es) == Thin(init) && Repeated(es, e)
    ensures Spliced(text, es) == Splice(Spliced(text, init), e)
  {
    AheadInit(es, e);
    assert es[|es| - 2] == e && es[|es| - 1] == e;
  }

  lemma {:induction false} AheadInit(es: seq<Edit>, e: Edit)
    requires es != [] && e in es
    ensures Ahead(es, e) == Ahead(es[..|es| - 1], e)
  {
  }

  /** The first time: all in front of it is different and lies to the right. */
  lemma {:induction false} FirstMisfit(text: string, es: seq<Edit>, init: seq<Edit>, e: Edit)
    requires Loose(|text|, es) && LastIs(es, e) && init == es[..|es| - 1] && !LastIs(init, e) && OnlyMisfit(es, e)
    ensures !Repeated(es, e) && Ahead(es, e) == init
    ensures var t := Spliced(text, init);
      e.start <= e.end <= |t| && Spliced(text, es) == Splice(t, e) && Spliced(text, Thin(es)) == Splice(t, e)
  {
    LooseInit(|text|, es);
    NotBefore(|text|, es, init, e);
    assert RepeatsFit(init) by { assert forall i :: 0 <= i < |init| ==> init[i] in init; }
    ThinSplices(text, init);
    if init == [] {
      assert es == [e];
    } else {
      LastIsLeft(|text|, es);
      ThinIsDescending(|text|, init);
      SplicedSnoc(text, Thin(init), e);
      LooseLeft(text, init);
    }
  }

  lemma {:induction false} NotBefore(n: nat, es: seq<Edit>, init: seq<Edit>, e: Edit)
    requires Loose(n, es) && LastIs(es, e) && init == es[..|es| - 1] && !LastIs(init, e)
    ensures e !in init && !Repeated(es, e)
  {
    if init != [] { LastIsLeft(n, es); }
  }

  /** The edits of a text, of which only `e` is planned more than once and does not fit. */
  lemma {:induction false} MisfitIff(text: string, es: seq<Edit>, e: Edit)
    requires Loose(|text|, es) && Repeated(es, e) && OnlyMisfit(es, e)
    ensures Spliced(text, es) == Spliced(text, Thin(es)) <==>
      |e.text| < e.end - e.start && e.end == |Spliced(text, Ahead(es, e))|
    decreases |es|
  {
    var init, last := es[..|es| - 1], es[|es| - 1];
    LooseInit(|text|, es);
    if last == e {
      MisfitLast(text, es, e);
      EqualLengths(Spliced(text, Ahead(es, e)), Spliced(text, es), e);
    } else {
      RepeatedInit(es, e);
      MisfitIff(text, init, e);
      AheadInit(es, e);
      OtherLast(text, es, init, last, e);
    }
  }

  /** Whether the texts differ is not changed by another edit behind. */
  lemma {:induction false} OtherLast(text: string, es: seq<Edit>, init: seq<Edit>, last: Edit, e: Edit)
    requires Loose(|text|, es) && |es| >= 2 && init == es[..|es| - 1] && LastIs(es, last) && last != e
    requires OnlyMisfit(es, e)
    ensures Spliced(text, es) == Spliced(text, Thin(es)) <==> Spliced(text, init) == Spliced(text, Thin(init))
  {
    LooseInit(|text|, es);
    if last == es[|es| - 2] {
      assert es[|es| - 2] == es[|es| - 1];
      LooseLeft(text, init);
      MadeAgain(Spliced(text, init[..|init| - 1]), last);
    } else {
      SplicedSnoc(text, Thin(init), last);
      BothAgree(text, es, init, last);
    }
  }

  lemma {:induction false} RepeatedInit(es: seq<Edit>, e: Edit)
    requires Repeated(es, e) && es[|es| - 1] != e
    ensures Repeated(es[..|es| - 1], e)
  {
    var i, j :| 0 <= i < j < |es| && es[i] == e && es[j] == e;
    var init := es[..|es| - 1];
    assert init[i] == e && init[j] == e;
  }

  /** Spliced with repetitions or without, the text left of a new edit is the original. */
  lemma {:induction false} BothAgree(text: string, es: seq<Edit>, init: seq<Edit>, last: Edit)
    requires Loose(|text|, es) && |es| >= 2 && init == es[..|es| - 1] && LastIs(es, last) && last != es[|es| - 2]
    ensures Splice(Spliced(text, init), last) == Splice(Spliced(text, Thin(init)), last)
      <==> Spliced(text, init) == Spliced(text, Thin(init))
  {
    var n := init[|init| - 1].start;
    LooseInit(|text|, es);
    LooseLeft(text, init);
    ThinIsDescending(|text|, init);
    SplicedLeft(text, Thin(init));
    SpliceTells(Spliced(text, init), Spliced(text, Thin(init)), last, n);
  }

  lemma {:induction false} EqualLengths(t: string, out: string, e: Edit)
    requires e.start < e.end <= |t| && !Fits(e) && BeginsAs(t, out, e) && Outgrows(t, out, e, true)
    ensures out == Splice(t, e) <==> |e.text| < e.end - e.start && e.end == |t|
  {
    if e.end == |t| && |out| == |Splice(t, e)| {
      assert t[e.end..] == "" && Splice(t, e) == t[..e.start] + e.text;
      assert out == out[..e.start + |e.text|];
    }
  }

  /** With no edit that only deletes, nothing is left behind a span exactly if it ends the document. */
  lemma {:induction false} NothingBehind(text: string, es: seq<Edit>, e: Edit)
    requires Loose(|text|, es) && e in es && RepeatsFit(Ahead(es, e)) && forall x :: x in es ==> x.text != ""
    ensures e.end == |Spliced(text, Ahead(es, e))| <==> e.end == |text|
    decreases |es|
  {
    var init := es[..|es| - 1];
    LooseInit(|text|, es);
    AheadInit(es, e);
    if e in init {
      NothingBehind(text, init, e);
    } else {
      NoneBehind(text, es, init, e);
    }
  }

  lemma {:induction false} NoneBehind(text: string, es: seq<Edit>, init: seq<Edit>, e: Edit)
    requires Loose(|text|, es) && LastIs(es, e) && init == es[..|es| - 1] && e !in init && RepeatsFit(init)
    requires forall x :: x in es ==> x.text != ""
    ensures e.end == |Spliced(text, init)| <==> e.end == |text|
  {
    if init != [] {
      LooseInit(|text|, es);
      var last := init[|init| - 1];
      assert last in init && es[|es| - 2] == last && last != e;
      assert e.end <= last.start < last.end <= |text|;
      LooseLeft(text, init);
      assert |Spliced(text, init)| >= last.start + |last.text|;
    }
  }

  /**
   Any plan whose spans are apart or planned more than once, where one edit alone is repeated
   without fitting its span: the document comes out as the simultaneous substitution exactly
   when what that edit prints is shorter than its span and ends the document.
   */
  lemma {:induction false} OneRepeatIff(text: string, plan: seq<Edit>, e: Edit)
    requires ApartOrSame(|text|, plan) && forall x :: x in plan ==> x.text != ""
    requires Times(plan, e) > 1 && !Fits(e) && forall x :: x != e && Times(plan, x) > 1 ==> Fits(x)
    ensures var es := SortDesc(plan);
      && Descending(|text|, Thin(es))
      && (Spliced(text, es) == Substituted(text, Thin(es), 0) <==> |e.text| < e.end - e.start && e.end == |text|)
  {
    var es := SortDesc(plan);
    SortIsLoose(|text|, plan);
    ThinIsDescending(|text|, es);
    SpliceIsSubstitution(text, Thin(es), 0);
    SortTimes(plan, e);
    TimesAt(es, e);
    forall i, j | 0 <= i < j < |es| && es[i] == es[j] ensures es[i] == e || Fits(es[i]) {
      TimesAt(es, es[i]);
      SortTimes(plan, es[i]);
    }
    MisfitIff(text, es, e);
    AheadFits(es, es, e);
    NothingBehind(text, es, e);
  }

  lemma {:induction false} AheadFits(es: seq<Edit>, some: seq<Edit>, e: Edit)
    requires OnlyMisfit(es, e) && some <= es
    ensures RepeatsFit(Ahead(some, e))
    decreases |some|
  {
    if e in some {
      AheadFits(es, some[..|some| - 1], e);
    } else {
      forall i, j | 0 <= i < j < |some| && some[i] == some[j] ensures Fits(some[i]) {
        assert es[i] == some[i] && es[j] == some[j] && some[i] in some;
      }
    }
  }

  /** The same for a document: one number alone is stated by several drifted sites and does not fit. */
  lemma {:induction false} DocumentIff(text: string, sites: seq<Site>, e: Edit)
    requires AllNumbers(sites) && ApartOrSame(|text|, Plan(sites)) && Times(Plan(sites), e) > 1 && !Fits(e)
    requires forall x :: x != e && Times(Plan(sites), x) > 1 ==> Fits(x)
    ensures Descending(|text|, Edits(sites))
    ensures Spliced(text, SortDesc(Plan(sites))) == Substituted(text, Edits(sites), 0)
      <==> |e.text| < e.end - e.start && e.end == |text|
  {
    forall x | x in Plan(sites) ensures x.text != "" {
      var s, t := PlanOnlyDrifted(sites, x);
      EditReads(t);
    }
    OneRepeatIff(text, Plan(sites), e);
  }

  /** With two such edits there is no such condition: here both are repeated, neither fits, and they cancel out. */
  lemma {:induction false} RepeatsCancel()
    ensures var (a, b) := (Edit(0, 2, "9"), Edit(2, 3, "11"));
      && !Fits(a) && !Fits(b) && SortDesc([a, a, b, b]) == [b, b, a, a]
      && Spliced("105", [b, b, a, a]) == "911" == Spliced("105", [b, a])
  {
    var a, b := Edit(0, 2, "9"), Edit(2, 3, "11");
    SortFour(a, b);
    SplicedTwice("105", b);
    SplicedSnoc("105", [b, b], a);
    SplicedSnoc("105", [b, b] + [a], a);
    assert [b, b] + [a] + [a] == [b, b, a, a];
    SplicedSnoc("105", [b], a);
    assert [b][..0] == [] && [b] + [a] == [b, a] && Spliced("105", [b]) == Splice("105", b);
    assert "105"[..2] == "10" && "105"[3..] == "" && "10" + "11" + "" == "1011";
    assert "1011"[..2] == "10" && "1011"[3..] == "1" && "10" + "11" + "1" == "10111";
    assert "10111"[..0] == "" && "10111"[2..] == "111" && "" + "9" + "111" == "9111";
    assert "9111"[..0] == "" && "9111"[2..] == "11" && "" + "9" + "11" == "911";
    assert "1011"[..0] == "" && "1011"[2..] == "11";
  }

  lemma {:induction false} SortFour(a: Edit, b: Edit)
    requires a.start < b.start
    ensures SortDesc([a, a, b, b]) == [b, b, a, a]
  {
    var p := [a, a, b, b];
    assert p[..3] == [a, a, b] && [a, a, b][..2] == [a, a];
    SortTwice(a);
    assert InsertDesc(b, [a, a]) == [b, a, a];
    assert [b, a, a][1..] == [a, a];
    assert InsertDesc(b, [b, a, a]) == [b] + InsertDesc(b, [a, a]);
  }

  /**
   "Repo-wide: 5 git-tracked .py/.sh/.md lines repo-wide" is matched by two patterns of the
   table at the same number.  A census of 10 is written as 100.
   */
  lemma {:induction false} OverlapCorrupts()
    ensures var (before, behind) := ("Repo-wide: ", " git-tracked .py/.sh/.md lines repo-wide");
      var t := Token("tracked_py_sh_md_loc", |before|, |before| + 1, "5", 10);
      var a := Site("doc", "N git-tracked lines repo-wide", [t]);
      var b := Site("doc", "Repo-wide: N git-tracked lines", [t]);
      var text := before + "5" + behind;
      && SiteOk(text, a) && SiteOk(text, b) && AllNumbers([a, b])
      && Spliced(text, SortDesc(Plan([a, b]))) == before + "100" + behind
  {
    OverlapAt("Repo-wide: ", " git-tracked .py/.sh/.md lines repo-wide", "tracked_py_sh_md_loc", "doc",
              "N git-tracked lines repo-wide", "Repo-wide: N git-tracked lines");
  }

  lemma {:induction false} OverlapAt(before: string, behind: string, key: string, path: Path, p1: string, p2: string)
    ensures var t := Token(key, |before|, |before| + 1, "5", 10);
      var (a, b, text) := (Site(path, p1, [t]), Site(path, p2, [t]), before + "5" + behind);
      && SiteOk(text, a) && SiteOk(text, b) && AllNumbers([a, b])
      && Spliced(text, SortDesc(Plan([a, b]))) == before + "100" + behind
  {
    var t := Token(key, |before|, |before| + 1, "5", 10);
    var a, b := Site(path, p1, [t]), Site(path, p2, [t]);
    FiveToTen();
    FiveIsRead(before, behind, t, a);
    FiveIsRead(before, behind, t, b);
    PlanTwo(a, b, t, t);
    DoubledDigit(before, behind);
    SplicedTwice(before + "5" + behind, EditOf(t));
  }

  lemma {:induction false} FiveIsRead(before: string, behind: string, t: Token, s: Site)
    requires t.start == |before| && t.end == |before| + 1 && t.raw == "5" && IsNumber("5") && s.tokens == [t]
    ensures SiteOk(before + "5" + behind, s)
  {
    var text := before + "5" + behind;
    assert text[t.start..t.end] == "5";
    assert TokenOk(text, t);
  }

  lemma {:induction false} SplicedTwice(text: string, e: Edit)
    ensures Spliced(text, [e, e]) == Splice(Splice(text, e), e)
  {
    var es := [e, e];
    assert es[..1] == [e] && [e][..0] == [];
    assert Spliced(text, [e]) == Splice(text, e);
  }

  lemma {:induction false} FiveToTen()
    ensures IsNumber("5") && ParseNumber("5") == 5 && StyleLike("5", 10) == "10"
  {
    var five := "5";
    assert five[..0] == "" && WithoutCommas("") == "";
    assert WithoutCommas(five) == five && ReadDigits("") == 0;
    assert Decimal(1) == "1" && Decimal(10) == Decimal(1) + "0" == "10";
  }

  lemma {:induction false} DoubledDigit(before: string, behind: string)
    ensures var e := Edit(|before|, |before| + 1, "10");
      Splice(Splice(before + "5" + behind, e), e) == before + "100" + behind
  {
    var e, text := Edit(|before|, |before| + 1, "10"), before + "5" + behind;
    assert text[..|before|] == before && text[|before| + 1..] == behind;
    var once := before + "10" + behind;
    assert Splice(text, e) == once;
    assert once[..|before|] == before && once[|before| + 1..] == "0" + behind;
    assert before + "10" + ("0" + behind) == before + "100" + behind;
  }
}
