/** String primitives shared by the parsers and the key builders. */
module Text {
  import opened Wrappers

  /** `pat` occurs in `s` at index `i`. */
  predicate OccursAt(s: string, pat: string, i: nat) {
    i + |pat| <= |s| && s[i..i + |pat|] == pat
  }

  predicate Occurs(s: string, pat: string) {
    exists i: nat | i <= |s| :: OccursAt(s, pat, i)
  }

  /** Rust's `str::find`: the first occurrence of `pat` at or after `from`. */
  function FindFrom(s: string, pat: string, from: nat): (r: Option<nat>)
    requires from <= |s|
    ensures r.Some? ==> from <= r.value && OccursAt(s, pat, r.value)
    ensures r.Some? ==> forall j: nat :: from <= j < r.value ==> !OccursAt(s, pat, j)
    ensures r.None? ==> forall j: nat :: from <= j ==> !OccursAt(s, pat, j)
    decreases |s| - from
  {
    if OccursAt(s, pat, from) then Some(from)
    else if from == |s| then None
    else FindFrom(s, pat, from + 1)
  }

  function Find(s: string, pat: string): (r: Option<nat>)
    ensures r.Some? ==> OccursAt(s, pat, r.value)
    ensures r.Some? ==> forall j: nat :: j < r.value ==> !OccursAt(s, pat, j)
    ensures r.None? <==> !Occurs(s, pat)
  {
    FindFrom(s, pat, 0)
  }

  /** A first occurrence is unique, so `Find` is pinned down by it. */
  lemma FindIs(s: string, pat: string, i: nat)
    requires OccursAt(s, pat, i)
    requires forall j: nat :: j < i ==> !OccursAt(s, pat, j)
    ensures Find(s, pat) == Some(i)
  {
  }

  predicate IsDigit(c: char) { '0' <= c <= '9' }

  predicate AllDigits(s: string) { forall i :: 0 <= i < |s| ==> IsDigit(s[i]) }

  function DigitChar(d: nat): (c: char)
    requires d < 10
    ensures IsDigit(c) && c as int == '0' as int + d
  {
    (d + '0' as int) as char
  }

  /** Decimal rendering of a number, as `format!("{n}")` writes it. */
  function Decimal(n: nat): (s: string)
    ensures |s| > 0 && AllDigits(s)
  {
    if n < 10 then [DigitChar(n)] else Decimal(n / 10) + [DigitChar(n % 10)]
  }

  function DecimalValue(s: string): nat
    requires AllDigits(s)
  {
    if s == [] then 0
    else 10 * DecimalValue(s[..|s| - 1]) + (s[|s| - 1] as int - '0' as int)
  }

  lemma {:induction false} ValueOfDecimal(n: nat)
    ensures DecimalValue(Decimal(n)) == n
  {
    if n >= 10 {
      ValueOfDecimal(n / 10);
      assert Decimal(n)[..|Decimal(n)| - 1] == Decimal(n / 10);
    }
  }

  predicate EndsInNonDigit(s: string) { |s| > 0 && !IsDigit(s[|s| - 1]) }

  lemma DecimalSuffixShape(p: string, n: nat)
    requires EndsInNonDigit(p)
    ensures !IsDigit((p + Decimal(n))[|p| - 1])
    ensures forall i :: |p| <= i < |p + Decimal(n)| ==> IsDigit((p + Decimal(n))[i])
  {
  }

  /** A decimal suffix behind a non-digit can be read back: both parts are determined by the whole string. */
  lemma DecimalSuffixUnique(p: string, n: nat, q: string, m: nat)
    requires EndsInNonDigit(p) && EndsInNonDigit(q)
    requires p + Decimal(n) == q + Decimal(m)
    ensures p == q && n == m
  {
    var s := p + Decimal(n);
    DecimalSuffixShape(p, n);
    DecimalSuffixShape(q, m);
    assert |p| == |q|;
    assert p == s[..|p|] == q;
    assert Decimal(n) == s[|p|..] == Decimal(m);
    ValueOfDecimal(n);
    ValueOfDecimal(m);
  }

  /** Text around an occurrence. */
  lemma SplitAtOccurrence(s: string, pat: string, i: nat)
    requires OccursAt(s, pat, i)
    ensures s == s[..i] + (pat + s[i + |pat|..])
  {
    assert s[i..] == s[i..i + |pat|] + s[i + |pat|..];
  }

  /** Unicode `White_Space`, which Rust's `trim` strips. */
  predicate IsWhiteSpace(c: char) {
    || '\t' <= c <= '\r' || c == ' ' || c == '\U{85}' || c == '\U{A0}' || c == '\U{1680}'
    || '\U{2000}' <= c <= '\U{200A}' || c == '\U{2028}' || c == '\U{2029}' || c == '\U{202F}'
    || c == '\U{205F}' || c == '\U{3000}'
  }

  function TrimStart(s: string): string {
    if s != [] && IsWhiteSpace(s[0]) then TrimStart(s[1..]) else s
  }

  function TrimEnd(s: string): string {
    if s != [] && IsWhiteSpace(s[|s| - 1]) then TrimEnd(s[..|s| - 1]) else s
  }

  function Trim(s: string): string { TrimEnd(TrimStart(s)) }

  /** No white space anywhere, so trimming does nothing. */
  predicate Compact(s: string) { forall i :: 0 <= i < |s| ==> !IsWhiteSpace(s[i]) }

  lemma TrimCompact(s: string)
    requires Compact(s)
    ensures Trim(s) == s
  {
  }

  predicate Blank(s: string) { forall i :: 0 <= i < |s| ==> IsWhiteSpace(s[i]) }

  lemma {:induction false} TrimStartAround(lead: string, s: string)
    requires Blank(lead) && s != "" && !IsWhiteSpace(s[0])
    ensures TrimStart(lead + s) == s
  {
    if lead == "" {
      assert lead + s == s;
    } else {
      assert (lead + s)[1..] == lead[1..] + s;
      TrimStartAround(lead[1..], s);
    }
  }

  lemma {:induction false} TrimStartBlank(s: string)
    requires Blank(s)
    ensures TrimStart(s) == ""
  {
    if s != "" { TrimStartBlank(s[1..]); }
  }

  lemma {:induction false} TrimEndAround(s: string, trail: string)
    requires Blank(trail) && s != "" && !IsWhiteSpace(s[|s| - 1])
    ensures TrimEnd(s + trail) == s
  {
    if trail == "" {
      assert s + trail == s;
    } else {
      assert (s + trail)[..|s + trail| - 1] == s + trail[..|trail| - 1];
      TrimEndAround(s, trail[..|trail| - 1]);
    }
  }

  /** Trimming takes off the white space around a text and nothing else. */
  lemma TrimAround(lead: string, s: string, trail: string)
    requires Blank(lead) && Blank(trail)
    requires s != "" && !IsWhiteSpace(s[0]) && !IsWhiteSpace(s[|s| - 1])
    ensures Trim(lead + (s + trail)) == s
  {
    TrimStartAround(lead, s + trail);
    TrimEndAround(s, trail);
  }
}
