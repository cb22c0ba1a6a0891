/**
 The rewriter of checks/countables_drift.py: drifted sites are planned as token edits, and
 the edits of a document are spliced in from right to left.
 */
module Rewriting {
  import opened Numerals

  // ----- sites and the plan -----

  type Path = string

  /** One number of a site: its census key, where it stands, what it says, what was measured. */
  datatype Token = Token(key: string, start: nat, end: nat, raw: string, expected: nat)

  datatype Site = Site(path: Path, pattern: string, tokens: seq<Token>)

  datatype Edit = Edit(start: nat, end: nat, text: string)

  predicate TokenOk(text: string, t: Token)
  {
    t.start <= t.end <= |text| && text[t.start..t.end] == t.raw && IsNumber(t.raw)
  }

  predicate SiteOk(text: string, s: Site)
  {
    forall t :: t in s.tokens ==> TokenOk(text, t)
  }

  /** A pair site drifts as one site even if only one of its tokens moved. */
  predicate Drifted(s: Site)
    requires forall t :: t in s.tokens ==> IsNumber(t.raw)
  {
    exists t :: t in s.tokens && ParseNumber(t.raw) != t.expected
  }

  function EditOf(t: Token): Edit
  {
    Edit(t.start, t.end, StyleLike(t.raw, t.expected))
  }

  function EditsOf(ts: seq<Token>): (r: seq<Edit>)
    ensures |r| == |ts| && forall i :: 0 <= i < |ts| ==> r[i] == EditOf(ts[i])
  {
    if ts == [] then [] else EditsOf(ts[..|ts| - 1]) + [EditOf(ts[|ts| - 1])]
  }

  predicate AllNumbers(sites: seq<Site>)
  {
    forall s, t :: s in sites && t in s.tokens ==> IsNumber(t.raw)
  }

  /** `plan_rewrites`, for the sites of one document. */
  function Plan(sites: seq<Site>): seq<Edit>
    requires AllNumbers(sites)
  {
    if sites == [] then []
    else
      var last := sites[|sites| - 1];
      assert last in sites;
      Plan(sites[..|sites| - 1]) + (if Drifted(last) then EditsOf(last.tokens) else [])
  }

  method PlanRewrites(sites: seq<Site>) returns (plan: seq<Edit>)
    requires AllNumbers(sites)
    ensures plan == Plan(sites)
  {
    plan := [];
    for i := 0 to |sites|
      invariant plan == Plan(sites[..i])
    {
      var s := sites[i];
      assert s in sites && sites[..i + 1][..i] == sites[..i];
      if Drifted(s) { plan := PlanSite(s.tokens, plan); }
    }
    assert sites[..|sites|] == sites;
  }

  /** Both halves of a drifted site are planned, the agreeing one included. */
  method PlanSite(tokens: seq<Token>, plan: seq<Edit>) returns (r: seq<Edit>)
    requires forall t :: t in tokens ==> IsNumber(t.raw)
    ensures r == plan + EditsOf(tokens)
  {
    r := plan;
    for j := 0 to |tokens|
      invariant r == plan + EditsOf(tokens[..j])
    {
      assert tokens[..j + 1][..j] == tokens[..j];
      assert tokens[j] in tokens;
      r := r + [EditOf(tokens[j])];
    }
    assert tokens[..|tokens|] == tokens;
  }

  lemma {:induction false} PlanHolds(sites: seq<Site>, s: Site, t: Token)
    requires AllNumbers(sites)
    requires s in sites && t in s.tokens && Drifted(s)
    ensures EditOf(t) in Plan(sites)
    decreases |sites|
  {
    var last := sites[|sites| - 1];
    if s == last {
      var i :| 0 <= i < |s.tokens| && s.tokens[i] == t;
      assert EditsOf(s.tokens)[i] == EditOf(t);
    } else {
      assert s in sites[..|sites| - 1];
      PlanHolds(sites[..|sites| - 1], s, t);
    }
  }

  lemma {:induction false} PlanOnlyDrifted(sites: seq<Site>, e: Edit) returns (s: Site, t: Token)
    requires AllNumbers(sites)
    requires e in Plan(sites)
    ensures s in sites && t in s.tokens && Drifted(s) && e == EditOf(t)
    decreases |sites|
  {
    var last := sites[|sites| - 1];
    assert last in sites;
    if e in Plan(sites[..|sites| - 1]) {
      s, t := PlanOnlyDrifted(sites[..|sites| - 1], e);
    } else {
      var i :| 0 <= i < |last.tokens| && EditsOf(last.tokens)[i] == e;
      s, t := last, last.tokens[i];
    }
  }

  // ----- the splice loop -----

  function Min(a: nat, b: nat): nat { if a <= b then a else b }

  /** `text[:start] + new + text[end:]`; a slice bound beyond the text stands for its end. */
  function Splice(text: string, e: Edit): string
  {
    text[..Min(e.start, |text|)] + e.text + text[Min(e.end, |text|)..]
  }

  /** `sorted(plan, key=start, reverse=True)`: insertion keeps equal starts in their order. */
  function InsertDesc(e: Edit, sorted: seq<Edit>): seq<Edit>
  {
    if sorted == [] then [e]
    else if sorted[0].start < e.start then [e] + sorted
    else [sorted[0]] + InsertDesc(e, sorted[1..])
  }

  function SortDesc(plan: seq<Edit>): seq<Edit>
  {
    if plan == [] then [] else InsertDesc(plan[|plan| - 1], SortDesc(plan[..|plan| - 1]))
  }

  /** Edits from right to left, none touching another, all inside the text. */
  predicate Descending(n: nat, es: seq<Edit>)
  {
    && (forall i :: 0 <= i < |es| ==> es[i].start < es[i].end <= n)
    && (forall i, j :: 0 <= i < j < |es| ==> es[j].end <= es[i].start)
  }

  predicate Apart(a: Edit, b: Edit)
  {
    a.end <= b.start || b.end <= a.start
  }

  /** Each planned span is a non-empty span of the text. */
  predicate Inside(n: nat, plan: seq<Edit>)
  {
    forall i :: 0 <= i < |plan| ==> plan[i].start < plan[i].end <= n
  }

  /** No two planned spans overlap. */
  predicate Disjoint(n: nat, plan: seq<Edit>)
  {
    Inside(n, plan) && forall i, j :: 0 <= i < j < |plan| ==> Apart(plan[i], plan[j])
  }

  /** Two planned spans overlap only where one edit is planned twice. */
  predicate ApartOrSame(n: nat, plan: seq<Edit>)
  {
    Inside(n, plan) && forall i, j :: 0 <= i < j < |plan| ==> plan[i] == plan[j] || Apart(plan[i], plan[j])
  }

  /** Edits from right to left, repetitions side by side. */
  predicate Loose(n: nat, es: seq<Edit>)
  {
    Inside(n, es) && forall i, j :: 0 <= i < j < |es| ==> es[j] == es[i] || es[j].end <= es[i].start
  }

  lemma {:induction false} InsertMembers(e: Edit, sorted: seq<Edit>)
    ensures |InsertDesc(e, sorted)| == |sorted| + 1
    ensures forall x :: x in InsertDesc(e, sorted) <==> x == e || x in sorted
    decreases |sorted|
  {
    if sorted != [] && sorted[0].start >= e.start { InsertMembers(e, sorted[1..]); }
  }

  /** A rightmost edit in front of the others. */
  lemma {:induction false} ConsLoose(n: nat, e: Edit, es: seq<Edit>)
    requires Loose(n, es) && e.start < e.end <= n && forall x :: x in es ==> x == e || x.end <= e.start
    ensures Loose(n, [e] + es)
  {
    var r := [e] + es;
    forall i, j | 0 <= i < j < |r| ensures r[j] == r[i] || r[j].end <= r[i].start {
      assert r[j] == es[j - 1] && es[j - 1] in es;
      if i > 0 { assert r[i] == es[i - 1]; }
    }
  }

  lemma {:induction false} InsertKeeps(n: nat, e: Edit, sorted: seq<Edit>)
    requires Loose(n, sorted) && e.start < e.end <= n
    requires forall x :: x in sorted ==> x == e || Apart(e, x)
    ensures Loose(n, InsertDesc(e, sorted))
    decreases |sorted|
  {
    if sorted == [] {
    } else if sorted[0].start < e.start {
      forall x | x in sorted ensures x == e || x.end <= e.start {
        var i :| 0 <= i < |sorted| && sorted[i] == x;
        assert sorted[0] in sorted;
      }
      ConsLoose(n, e, sorted);
    } else {
      var tail := sorted[1..];
      assert sorted[0] in sorted && Loose(n, tail);
      InsertKeeps(n, e, tail);
      InsertMembers(e, tail);
      forall x | x in InsertDesc(e, tail) ensures x == sorted[0] || x.end <= sorted[0].start {
        if x != e {
          var i :| 0 <= i < |tail| && tail[i] == x;
          assert sorted[i + 1] == x;
        }
      }
      ConsLoose(n, sorted[0], InsertDesc(e, tail));
    }
  }

  /** Sorting lists the same edits from right to left. */
  lemma {:induction false} SortIsLoose(n: nat, plan: seq<Edit>)
    requires ApartOrSame(n, plan)
    ensures Loose(n, SortDesc(plan)) && |SortDesc(plan)| == |plan|
    ensures forall e :: e in SortDesc(plan) <==> e in plan
    decreases |plan|
  {
    if plan != [] {
      var init, last := plan[..|plan| - 1], plan[|plan| - 1];
      SortIsLoose(n, init);
      assert plan == init + [last];
      forall x | x in SortDesc(init) ensures x == last || Apart(last, x) {
        var i :| 0 <= i < |init| && init[i] == x;
        assert plan[i] == plan[|plan| - 1] || Apart(plan[i], plan[|plan| - 1]);
      }
      InsertKeeps(n, last, SortDesc(init));
      InsertMembers(last, SortDesc(init));
    }
  }

  /** How often an edit is planned. */
  function Times(es: seq<Edit>, e: Edit): nat
  {
    if es == [] then 0 else Times(es[1..], e) + if es[0] == e then 1 else 0
  }

  lemma {:induction false} TimesAt(es: seq<Edit>, e: Edit)
    ensures Times(es, e) > 0 <==> e in es
    ensures Times(es, e) > 1 <==> exists i, j :: 0 <= i < j < |es| && es[i] == e && es[j] == e
    decreases |es|
  {
    if es != [] {
      var tail := es[1..];
      TimesAt(tail, e);
      if i, j :| 0 <= i < j < |es| && es[i] == e && es[j] == e {
        assert tail[j - 1] == e;
        if i > 0 { assert tail[i - 1] == e; }
      }
      if i, j :| 0 <= i < j < |tail| && tail[i] == e && tail[j] == e { assert es[i + 1] == e && es[j + 1] == e; }
      if es[0] == e && e in tail {
        var j :| 0 <= j < |tail| && tail[j] == e;
        assert es[j + 1] == e;
      }
    }
  }

  lemma {:induction false} InsertTimes(e: Edit, sorted: seq<Edit>, x: Edit)
    ensures Times(InsertDesc(e, sorted), x) == Times(sorted, x) + if e == x then 1 else 0
    decreases |sorted|
  {
    if sorted != [] {
      if sorted[0].start < e.start {
        assert ([e] + sorted)[1..] == sorted;
      } else {
        InsertTimes(e, sorted[1..], x);
        assert ([sorted[0]] + InsertDesc(e, sorted[1..]))[1..] == InsertDesc(e, sorted[1..]);
      }
    } else {
      assert [e][1..] == [];
    }
  }

  lemma {:induction false} TimesSnoc(es: seq<Edit>, e: Edit, x: Edit)
    ensures Times(es + [e], x) == Times(es, x) + if e == x then 1 else 0
    decreases |es|
  {
    if es == [] {
      assert [e][1..] == [];
      assert es + [e] == [e];
    } else {
      assert (es + [e])[1..] == es[1..] + [e];
      TimesSnoc(es[1..], e, x);
    }
  }

  /** Sorting keeps every edit as often as it is planned. */
  lemma {:induction false} SortTimes(plan: seq<Edit>, x: Edit)
    ensures Times(SortDesc(plan), x) == Times(plan, x)
    decreases |plan|
  {
    if plan != [] {
      var init, last := plan[..|plan| - 1], plan[|plan| - 1];
      SortTimes(init, x);
      InsertTimes(last, SortDesc(init), x);
      TimesSnoc(init, last, x);
      assert plan == init + [last];
    }
  }

  /** Sorting a plan of disjoint spans lists the same edits from right to left. */
  lemma {:induction false} SortIsDescending(n: nat, plan: seq<Edit>)
    requires Disjoint(n, plan)
    ensures Descending(n, SortDesc(plan)) && |SortDesc(plan)| == |plan|
    ensures forall e :: e in SortDesc(plan) <==> e in plan
  {
    var es := SortDesc(plan);
    SortIsLoose(n, plan);
    forall i, j | 0 <= i < j < |es| ensures es[j].end <= es[i].start {
      OnceEach(n, plan, es[i]);
      SortTimes(plan, es[i]);
      TimesAt(es, es[i]);
    }
  }

  lemma {:induction false} OnceEach(n: nat, plan: seq<Edit>, e: Edit)
    requires Disjoint(n, plan)
    ensures Times(plan, e) <= 1
  {
    TimesAt(plan, e);
  }

  /** The text after the splices, one after the other. */
  function Spliced(text: string, es: seq<Edit>): string
  {
    if es == [] then text else Splice(Spliced(text, es[..|es| - 1]), es[|es| - 1])
  }

  /** Left of the leftmost edit the text is the original, so each splice finds its span in place. */
  lemma {:induction false} SplicedLeft(text: string, es: seq<Edit>)
    requires Descending(|text|, es) && es != []
    ensures var (e, before) := (es[|es| - 1], Spliced(text, es[..|es| - 1]));
      && |before| >= e.end && before[..e.end] == text[..e.end]
      && |Spliced(text, es)| >= e.start && Spliced(text, es)[..e.start] == text[..e.start]
    decreases |es|
  {
    var init, e := es[..|es| - 1], es[|es| - 1];
    var before := Spliced(text, init);
    if init != [] {
      SplicedLeft(text, init);
      SlicesAgree(before, text, init[|init| - 1].start, e.end);
    }
    SpliceLeft(before, text, e);
  }

  lemma {:induction false} SlicesAgree(a: string, b: string, m: nat, n: nat)
    requires n <= m <= |a| && m <= |b| && a[..m] == b[..m]
    ensures a[..n] == b[..n]
  {
    assert a[..n] == a[..m][..n] && b[..n] == b[..m][..n];
  }

  lemma {:induction false} SpliceLeft(before: string, text: string, e: Edit)
    requires e.start <= e.end <= |before| && e.end <= |text| && before[..e.end] == text[..e.end]
    ensures |Splice(before, e)| >= e.start && Splice(before, e)[..e.start] == text[..e.start]
  {
    SlicesAgree(before, text, e.end, e.start);
  }

  /**
   The simultaneous substitution, read from left to right: between edits the text stands,
   each planned span is replaced, all at once.
   */
  function Substituted(text: string, es: seq<Edit>, pos: nat): string
    requires Descending(|text|, es) && pos <= |text|
    requires es != [] ==> pos <= es[|es| - 1].start
    decreases |es|
  {
    if es == [] then text[pos..]
    else
      var e, rest := es[|es| - 1], es[..|es| - 1];
      assert rest != [] ==> e.end <= rest[|rest| - 1].start;
      text[pos..e.start] + e.text + Substituted(text, rest, e.end)
  }

  lemma {:induction false} SpliceIsSubstitution(text: string, es: seq<Edit>, pos: nat)
    requires Descending(|text|, es) && pos <= |text| && (es != [] ==> pos <= es[|es| - 1].start)
    ensures Spliced(text, es) == text[..pos] + Substituted(text, es, pos)
    decreases |es|
  {
    if es == [] {
      assert text == text[..pos] + text[pos..];
    } else {
      var e, rest := es[|es| - 1], es[..|es| - 1];
      assert rest != [] ==> e.end <= rest[|rest| - 1].start;
      SpliceIsSubstitution(text, rest, e.end);
      SpliceHead(text, e, Substituted(text, rest, e.end), pos);
      assert Spliced(text, es) == Splice(Spliced(text, rest), e);
    }
  }

  lemma {:induction false} SpliceHead(text: string, e: Edit, tail: string, pos: nat)
    requires pos <= e.start <= e.end <= |text|
    ensures Splice(text[..e.end] + tail, e) == text[..pos] + (text[pos..e.start] + e.text + tail)
  {
    var before := text[..e.end] + tail;
    assert before[e.end..] == tail && before[..e.start] == text[..e.start];
    assert text[..pos] + text[pos..e.start] == text[..e.start];
    assert text[..pos] + (text[pos..e.start] + e.text + tail) == text[..pos] + text[pos..e.start] + e.text + tail;
  }

  /**
   `apply_rewrites` on one document.  Every plan is spliced from right to left; one whose spans
   do not overlap comes out as the simultaneous substitution.
   */
  method ApplyRewrites(text: string, plan: seq<Edit>) returns (out: string, rewrites: nat)
    ensures rewrites == |plan| && out == Spliced(text, SortDesc(plan))
    ensures Disjoint(|text|, plan) ==>
      Descending(|text|, SortDesc(plan)) && out == Substituted(text, SortDesc(plan), 0)
  {
    var es := SortDesc(plan);
    SortLength(plan);
    out, rewrites := text, 0;
    for i := 0 to |es|
      invariant out == Spliced(text, es[..i]) && rewrites == i
    {
      assert es[..i + 1][..i] == es[..i];
      var lo, hi := Min(es[i].start, |out|), Min(es[i].end, |out|);
      out := out[..lo] + es[i].text + out[hi..];
      rewrites := rewrites + 1;
    }
    assert es[..|es|] == es;
    if Disjoint(|text|, plan) {
      SortIsDescending(|text|, plan);
      SpliceIsSubstitution(text, es, 0);
    }
  }

  lemma {:induction false} SortLength(plan: seq<Edit>)
    ensures |SortDesc(plan)| == |plan|
    decreases |plan|
  {
    if plan != [] {
      SortLength(plan[..|plan| - 1]);
      InsertMembers(plan[|plan| - 1], SortDesc(plan[..|plan| - 1]));
    }
  }

  datatype DocPlan = DocPlan(path: Path, edits: seq<Edit>)

  function TotalEdits(plans: seq<DocPlan>): nat
  {
    if plans == [] then 0 else TotalEdits(plans[..|plans| - 1]) + |plans[|plans| - 1].edits|
  }

  predicate Written(text: string, edits: seq<Edit>, out: string)
  {
    && out == Spliced(text, SortDesc(edits))
    && (Disjoint(|text|, edits) ==>
          Descending(|text|, SortDesc(edits)) && out == Substituted(text, SortDesc(edits), 0))
  }

  /** The first i plans are carried out, and the documents of the others are as they were. */
  ghost predicate WrittenTo(plans: seq<DocPlan>, i: nat, texts: map<Path, string>, out: map<Path, string>)
    requires i <= |plans|
  {
    && out.Keys == texts.Keys && (forall k :: 0 <= k < i ==> plans[k].path in texts)
    && (forall k :: 0 <= k < i ==> Written(texts[plans[k].path], plans[k].edits, out[plans[k].path]))
    && (forall p :: p in texts && (forall k :: 0 <= k < i ==> plans[k].path != p) ==> out[p] == texts[p])
  }

  lemma {:induction false} WrittenNext(plans: seq<DocPlan>, i: nat, texts: map<Path, string>, out: map<Path, string>,
                                       text: string)
    requires i < |plans| && WrittenTo(plans, i, texts, out) && plans[i].path in texts
    requires forall j, k :: 0 <= j < k < |plans| ==> plans[j].path != plans[k].path
    requires Written(texts[plans[i].path], plans[i].edits, text)
    ensures WrittenTo(plans, i + 1, texts, out[plans[i].path := text])
  {
  }

  lemma {:induction false} Untouched(plans: seq<DocPlan>, i: nat, texts: map<Path, string>, out: map<Path, string>)
    requires i < |plans| && WrittenTo(plans, i, texts, out) && plans[i].path in texts
    requires forall j, k :: 0 <= j < k < |plans| ==> plans[j].path != plans[k].path
    ensures out[plans[i].path] == texts[plans[i].path]
  {
  }

  /** The document loop: each planned document is spliced, every other one stays. */
  method ApplyAll(plans: seq<DocPlan>, texts: map<Path, string>) returns (out: map<Path, string>, rewrites: nat)
    requires forall i, j :: 0 <= i < j < |plans| ==> plans[i].path != plans[j].path
    requires forall d :: d in plans ==> d.path in texts
    ensures rewrites == TotalEdits(plans) && out.Keys == texts.Keys
    ensures forall d :: d in plans ==> Written(texts[d.path], d.edits, out[d.path])
    ensures forall p :: p in texts && (forall d :: d in plans ==> d.path != p) ==> out[p] == texts[p]
  {
    out, rewrites := texts, 0;
    for i := 0 to |plans|
      invariant rewrites == TotalEdits(plans[..i]) && WrittenTo(plans, i, texts, out)
    {
      assert plans[..i + 1][..i] == plans[..i] && plans[i] in plans;
      Untouched(plans, i, texts, out);
      var text, n := ApplyRewrites(out[plans[i].path], plans[i].edits);
      WrittenNext(plans, i, texts, out, text);
      out := out[plans[i].path := text];
      rewrites := rewrites + n;
    }
    assert plans[..|plans|] == plans;
    forall p | p in texts && (forall d :: d in plans ==> d.path != p) ensures out[p] == texts[p] {
      assert forall k :: 0 <= k < |plans| ==> plans[k] in plans;
    }
  }
}
