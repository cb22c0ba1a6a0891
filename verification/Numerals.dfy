/**
 The number tokens of checks/countables_drift.py: printing, with or without thousands
 separators, and reading back.
 */
module Numerals {

  predicate IsDigit(c: char)
  {
    '0' <= c <= '9'
  }

  predicate AllDigits(s: string)
  {
    forall i :: 0 <= i < |s| ==> IsDigit(s[i])
  }

  /** `[0-9][0-9,]*` */
  predicate IsNumber(s: string)
  {
    s != "" && IsDigit(s[0]) && forall i :: 0 <= i < |s| ==> IsDigit(s[i]) || s[i] == ','
  }

  function DigitOf(d: nat): char
    requires d < 10
  {
    '0' + d as char
  }

  /** `str(value)` */
  function Decimal(n: nat): string
  {
    if n < 10 then [DigitOf(n)] else Decimal(n / 10) + [DigitOf(n % 10)]
  }

  function ThreeDigits(n: nat): string
    requires n < 1000
  {
    [DigitOf(n / 100), DigitOf(n / 10 % 10), DigitOf(n % 10)]
  }

  /** `f"{value:,}"` */
  function Grouped(n: nat): string
  {
    if n < 1000 then Decimal(n) else Grouped(n / 1000) + [','] + ThreeDigits(n % 1000)
  }

  /** `token.replace(",", "")` */
  function WithoutCommas(s: string): string
  {
    if s == "" then ""
    else WithoutCommas(s[..|s| - 1]) + (if s[|s| - 1] == ',' then "" else [s[|s| - 1]])
  }

  /** `int(digits)` on a string of digits. */
  function ReadDigits(s: string): nat
    requires AllDigits(s)
  {
    if s == "" then 0
    else
      var last := s[|s| - 1];
      assert IsDigit(last);
      10 * ReadDigits(s[..|s| - 1]) + (last as int - '0' as int)
  }

  lemma {:induction false} StrippedIsDigits(s: string)
    requires forall i :: 0 <= i < |s| ==> IsDigit(s[i]) || s[i] == ','
    ensures AllDigits(WithoutCommas(s))
    decreases |s|
  {
    if s != "" { StrippedIsDigits(s[..|s| - 1]); }
  }

  function ParseNumber(token: string): nat
    requires IsNumber(token)
  {
    StrippedIsDigits(token);
    ReadDigits(WithoutCommas(token))
  }

  /** `style_like`: the separator style already used at the site is kept. */
  function StyleLike(token: string, value: nat): string
  {
    if ',' in token then Grouped(value) else Decimal(value)
  }

  lemma {:induction false} StripJoin(a: string, b: string)
    ensures WithoutCommas(a + b) == WithoutCommas(a) + WithoutCommas(b)
    decreases |b|
  {
    if b == "" {
      assert a + b == a;
    } else {
      StripJoin(a, b[..|b| - 1]);
      assert (a + b)[..|a + b| - 1] == a + b[..|b| - 1];
    }
  }

  lemma {:induction false} StripNone(s: string)
    requires ',' !in s
    ensures WithoutCommas(s) == s
    decreases |s|
  {
    if s != "" {
      StripNone(s[..|s| - 1]);
      assert s == s[..|s| - 1] + [s[|s| - 1]];
    }
  }

  lemma {:induction false} DecimalShape(n: nat)
    ensures Decimal(n) != "" && AllDigits(Decimal(n))
    ensures n < 1000 ==> |Decimal(n)| <= 3
    decreases n
  {
    if n >= 10 { DecimalShape(n / 10); }
  }

  lemma {:induction false} DecimalReads(n: nat)
    ensures IsNumber(Decimal(n)) && AllDigits(Decimal(n)) && ReadDigits(Decimal(n)) == n
    decreases n
  {
    DecimalShape(n);
    if n >= 10 {
      DecimalReads(n / 10);
      assert Decimal(n)[..|Decimal(n)| - 1] == Decimal(n / 10);
    } else {
      assert Decimal(n)[..0] == "";
    }
  }

  lemma {:induction false} LastThree(n: nat)
    ensures n / 10 / 10 == n / 100 && n / 100 / 10 == n / 1000
    ensures n % 1000 / 100 == n / 100 % 10 && n % 1000 / 10 % 10 == n / 10 % 10 && n % 1000 % 10 == n % 10
  {
    var a := n / 10;
    var b := a / 10;
    assert n == 10 * a + n % 10 && a == 10 * b + a % 10;
    assert n / 100 == b;
    var c := b / 10;
    assert b == 10 * c + b % 10;
    assert n == 1000 * c + (100 * (b % 10) + 10 * (a % 10) + n % 10);
    assert n / 1000 == c;
    var r := 100 * (b % 10) + 10 * (a % 10) + n % 10;
    assert n % 1000 == r;
    assert r / 10 == 10 * (b % 10) + a % 10;
  }

  /** Padding shifts a decimal by three places. */
  lemma {:induction false} DecimalAppend(n: nat)
    requires n >= 1000
    ensures Decimal(n) == Decimal(n / 1000) + ThreeDigits(n % 1000)
  {
    LastThree(n);
    var a, b, c := n / 10, n / 100, n / 1000;
    var x, y, z := DigitOf(b % 10), DigitOf(a % 10), DigitOf(n % 10);
    assert Decimal(n) == Decimal(a) + [z];
    assert Decimal(a) == Decimal(b) + [y];
    assert Decimal(b) == Decimal(c) + [x];
    assert ThreeDigits(n % 1000) == [x, y, z];
    assert Decimal(c) + [x] + [y] + [z] == Decimal(c) + [x, y, z];
  }

  /** Where the commas of a grouped numeral stand: every fourth place from the right. */
  predicate GroupedInThrees(s: string)
  {
    forall i :: 0 <= i < |s| ==> (s[i] == ',' <==> (|s| - i) % 4 == 0)
  }

  lemma {:induction false} CommaStrips()
    ensures WithoutCommas([',']) == []
  {
    assert [','][..0] == [];
  }

  lemma {:induction false} JoinStrips(g: string, c: string, t: string)
    requires ',' !in t && WithoutCommas(c) == []
    ensures WithoutCommas(g + c + t) == WithoutCommas(g) + t
  {
    StripJoin(g + c, t);
    StripJoin(g, c);
    StripNone(t);
    assert WithoutCommas(g) + [] == WithoutCommas(g);
  }

  lemma {:induction false} JoinIsGrouped(g: string, t: string)
    requires GroupedInThrees(g) && |t| == 3 && AllDigits(t)
    ensures GroupedInThrees(g + [','] + t)
  {
    var s := g + [','] + t;
    assert |s| == |g| + 4;
    forall i | 0 <= i < |s| ensures s[i] == ',' <==> (|s| - i) % 4 == 0 {
      if i < |g| {
        assert s[i] == g[i];
        assert (|g| + 4 - i) % 4 == (|g| - i) % 4;
      } else if i > |g| {
        assert s[i] == t[i - |g| - 1] && IsDigit(s[i]);
      }
    }
  }

  lemma {:induction false} JoinIsNumber(g: string, t: string)
    requires IsNumber(g) && AllDigits(t)
    ensures IsNumber(g + [','] + t)
  {
  }

  lemma {:induction false} SmallIsGrouped(s: string)
    requires AllDigits(s) && 0 < |s| <= 3
    ensures IsNumber(s) && GroupedInThrees(s)
  {
    forall i | 0 <= i < |s| ensures s[i] != ',' && (|s| - i) % 4 != 0 { assert IsDigit(s[i]); }
  }

  lemma {:induction false} GroupedShape(n: nat)
    ensures IsNumber(Grouped(n)) && GroupedInThrees(Grouped(n)) && WithoutCommas(Grouped(n)) == Decimal(n)
    decreases n
  {
    if n < 1000 {
      DecimalShape(n);
      StripNone(Decimal(n));
      SmallIsGrouped(Decimal(n));
    } else {
      var g, t := Grouped(n / 1000), ThreeDigits(n % 1000);
      GroupedShape(n / 1000);
      CommaStrips();
      JoinStrips(g, [','], t);
      JoinIsGrouped(g, t);
      JoinIsNumber(g, t);
      DecimalAppend(n);
    }
  }

  /** A printed value reads back, whichever style it is printed in. */
  lemma {:induction false} PrintedReads(n: nat)
    ensures IsNumber(Decimal(n)) && ParseNumber(Decimal(n)) == n && ',' !in Decimal(n)
    ensures IsNumber(Grouped(n)) && ParseNumber(Grouped(n)) == n
  {
    DecimalReads(n);
    StripNone(Decimal(n));
    GroupedShape(n);
  }

  /** Nothing but 0 itself begins with a 0. */
  lemma {:induction false} DecimalLeads(n: nat)
    ensures Decimal(n) != "" && (n > 0 ==> Decimal(n)[0] != '0') && (n == 0 ==> Decimal(n) == "0")
    decreases n
  {
    if n >= 10 { DecimalLeads(n / 10); }
  }

  lemma {:induction false} GroupedLeads(n: nat)
    ensures Grouped(n) != "" && Grouped(n)[0] == Decimal(n)[0]
    decreases n
  {
    DecimalShape(n);
    if n >= 1000 {
      GroupedLeads(n / 1000);
      DecimalShape(n / 1000);
      DecimalAppend(n);
    }
  }

  /**
   Round trip: what is written at a site reads back as the value, is a number token, keeps
   the site's style, carries commas exactly between groups of three digits, and has no
   leading zero.
   */
  lemma {:induction false} StyleRoundTrip(token: string, value: nat)
    ensures var s := StyleLike(token, value);
      && IsNumber(s) && ParseNumber(s) == value
      && (',' in s ==> ',' in token)
      && (',' in token ==> GroupedInThrees(s))
      && (s[0] == '0' ==> s == "0")
  {
    PrintedReads(value);
    DecimalLeads(value);
    GroupedLeads(value);
    if ',' in token { GroupedShape(value); }
  }

  // ----- the historical mask -----

  datatype Span = Span(start: nat, end: nat)

  predicate Covers(spans: seq<Span>, i: int)
  {
    exists s :: s in spans && s.start <= i < s.end
  }

  /** `chars` is overwritten in place: each matched clause becomes spaces, line ends are kept. */
  method MaskInPlace(chars: array<char>, spans: seq<Span>)
    requires forall s :: s in spans ==> s.start <= s.end <= chars.Length
    modifies chars
    ensures forall i :: 0 <= i < chars.Length ==>
      chars[i] == if Covers(spans, i) && old(chars[i]) != '\n' then ' ' else old(chars[i])
  {
    for k := 0 to |spans|
      invariant forall i :: 0 <= i < chars.Length ==>
        chars[i] == if Covers(spans[..k], i) && old(chars[i]) != '\n' then ' ' else old(chars[i])
    {
      var s := spans[k];
      assert s in spans;
      for i := s.start to s.end
        invariant forall j :: 0 <= j < chars.Length ==>
          chars[j] ==
            if (Covers(spans[..k], j) || s.start <= j < i) && old(chars[j]) != '\n' then ' ' else old(chars[j])
      {
        if chars[i] != '\n' { chars[i] := ' '; }
      }
      forall i | 0 <= i < chars.Length
        ensures Covers(spans[..k + 1], i) <==> Covers(spans[..k], i) || s.start <= i < s.end
      {
        assert spans[..k + 1] == spans[..k] + [s];
        if s.start <= i < s.end { assert s in spans[..k + 1]; }
      }
    }
    assert spans[..|spans|] == spans;
  }

  /** `masked` is `text` with the spans blanked, but for the line ends in them. */
  predicate Masks(text: string, spans: seq<Span>, masked: string)
  {
    && |masked| == |text|
    && forall i :: 0 <= i < |text| ==> masked[i] == if Covers(spans, i) && text[i] != '\n' then ' ' else text[i]
  }

  method MaskHistorical(text: string, spans: seq<Span>) returns (masked: string)
    requires forall s :: s in spans ==> s.start <= s.end <= |text|
    ensures Masks(text, spans, masked)
  {
    var chars := new char[|text|](i requires 0 <= i < |text| => text[i]);
    MaskInPlace(chars, spans);
    masked := chars[..];
  }

  /** `masked` is `text` with some characters blanked. */
  predicate Blanked(text: string, masked: string)
  {
    |masked| == |text| && forall i :: 0 <= i < |text| ==> masked[i] == text[i] || masked[i] == ' '
  }

  /** A number token found in the masked text stands, byte for byte, in the original. */
  lemma {:induction false} TokenIsOriginal(text: string, masked: string, start: nat, end: nat)
    requires Blanked(text, masked) && start <= end <= |text| && IsNumber(masked[start..end])
    ensures text[start..end] == masked[start..end]
  {
    forall i | start <= i < end ensures text[i] == masked[i] { assert masked[i] == masked[start..end][i - start]; }
  }

  /** A number token found in the masked text has no character in common with a historical clause. */
  lemma {:induction false} TokenMissesHistory(text: string, spans: seq<Span>, masked: string, start: nat, end: nat,
                                              s: Span)
    requires Masks(text, spans, masked) && start <= end <= |text| && IsNumber(masked[start..end])
    requires s in spans && s.start < s.end <= |text|
    ensures end <= s.start || s.end <= start
  {
    if s.start < end && start < s.end {
      var i := if start < s.start then s.start else start;
      assert masked[i] == masked[start..end][i - start];
      assert Covers(spans, i);
    }
  }
}
