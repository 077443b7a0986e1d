/** The handful of JavaScript string operations the front end relies on:
    `startsWith`, `endsWith`, `includes`/`indexOf`, `replace` with a string
    pattern, `trim`, ASCII `toLowerCase`, and decimal rendering of a
    non-negative integer. */
module Strings {
  import opened Wrappers

  predicate StartsWith(s: string, prefix: string) {
    |prefix| <= |s| && s[..|prefix|] == prefix
  }

  predicate EndsWith(s: string, suffix: string) {
    |suffix| <= |s| && s[|s| - |suffix|..] == suffix
  }

  /** `t` occurs in `s` starting at index `i`. */
  predicate OccursAt(s: string, t: string, i: nat) {
    i + |t| <= |s| && s[i..i + |t|] == t
  }

  /** The first index at or after `k` where `t` occurs in `s`. */
  function IndexFrom(s: string, t: string, k: nat): (r: Option<nat>)
    decreases |s| - k
    ensures r.Some? ==> k <= r.value && OccursAt(s, t, r.value)
    ensures r.Some? ==> forall j: nat | k <= j < r.value :: !OccursAt(s, t, j)
    ensures r.None? ==> forall j: nat | k <= j :: !OccursAt(s, t, j)
  {
    if k + |t| > |s| then None
    else if s[k..k + |t|] == t then Some(k)
    else IndexFrom(s, t, k + 1)
  }

  /** `s.indexOf(t)`, with -1 as `None`. */
  function IndexOf(s: string, t: string): (r: Option<nat>)
    ensures r.Some? ==> OccursAt(s, t, r.value)
    ensures r.Some? ==> forall j: nat | j < r.value :: !OccursAt(s, t, j)
    ensures r.None? ==> forall j: nat :: !OccursAt(s, t, j)
  {
    IndexFrom(s, t, 0)
  }

  /** `a || fallback` on strings: an empty string counts as missing. */
  function OrElse(a: string, fallback: string): (r: string)
    ensures a != [] ==> r == a
    ensures a == [] ==> r == fallback
  {
    if a != [] then a else fallback
  }

  /** `s.includes(t)`. */
  predicate Contains(s: string, t: string) {
    IndexOf(s, t).Some?
  }

  lemma ContainsAt(s: string, t: string, i: nat)
    requires OccursAt(s, t, i)
    ensures Contains(s, t)
  {
  }

  /** `s.replace(pattern, replacement)` with a string pattern and a
      replacement free of `$` patterns: only the first occurrence is replaced. */
  function ReplaceFirst(s: string, pattern: string, replacement: string): (r: string)
    ensures (forall j: nat :: !OccursAt(s, pattern, j)) ==> r == s
    ensures forall i: nat | OccursAt(s, pattern, i) && (forall j: nat | j < i :: !OccursAt(s, pattern, j)) ::
      r == s[..i] + replacement + s[i + |pattern|..]
  {
    match IndexOf(s, pattern)
    case None => s
    case Some(i) => s[..i] + replacement + s[i + |pattern|..]
  }

  /** ECMAScript WhiteSpace and LineTerminator code points, the set `trim` removes. */
  predicate IsSpace(c: char) {
    var n := c as int;
    n == 0x09 || n == 0x0A || n == 0x0B || n == 0x0C || n == 0x0D || n == 0x20
    || n == 0xA0 || n == 0x1680 || (0x2000 <= n <= 0x200A) || n == 0x2028
    || n == 0x2029 || n == 0x202F || n == 0x205F || n == 0x3000 || n == 0xFEFF
  }

  function TrimStart(s: string): (r: string)
    ensures |r| <= |s| && r == s[|s| - |r|..]
    ensures forall i | 0 <= i < |s| - |r| :: IsSpace(s[i])
    ensures r == [] || !IsSpace(r[0])
  {
    if s == [] || !IsSpace(s[0]) then s else TrimStart(s[1..])
  }

  function TrimEnd(s: string): (r: string)
    ensures |r| <= |s| && r == s[..|r|]
    ensures forall i | |r| <= i < |s| :: IsSpace(s[i])
    ensures r == [] || !IsSpace(r[|r| - 1])
  {
    if s == [] || !IsSpace(s[|s| - 1]) then s else TrimEnd(s[..|s| - 1])
  }

  /** `r` is the infix of `s` at `k`, and everything of `s` around it is white space. */
  predicate TrimmedAt(s: string, r: string, k: nat) {
    k + |r| <= |s| && r == s[k..k + |r|]
    && (forall i | 0 <= i < k :: IsSpace(s[i]))
    && (forall i | k + |r| <= i < |s| :: IsSpace(s[i]))
  }

  /** `s.trim()`: the longest infix of `s` that neither starts nor ends with white space. */
  function Trim(s: string): (r: string)
    ensures |r| <= |s|
    ensures exists k: nat :: TrimmedAt(s, r, k)
    ensures r == [] <==> forall i | 0 <= i < |s| :: IsSpace(s[i])
    ensures r != [] ==> !IsSpace(r[0]) && !IsSpace(r[|r| - 1])
  {
    TrimEmptyIffBlank(s);
    TrimIsInfix(s);
    TrimKeepsNoEdgeSpace(s);
    TrimEnd(TrimStart(s))
  }

  lemma TrimKeepsNoEdgeSpace(s: string)
    ensures |TrimEnd(TrimStart(s))| <= |s|
    ensures var r := TrimEnd(TrimStart(s)); r != [] ==> !IsSpace(r[0]) && !IsSpace(r[|r| - 1])
  {
    var a := TrimStart(s);
    var r := TrimEnd(a);
    assert r != [] ==> r[0] == a[0];
  }

  /** What `TrimStart` leaves begins at `|s| - |TrimStart(s)|`, and `TrimEnd` keeps a prefix of it. */
  lemma TrimIsInfix(s: string)
    ensures exists k: nat :: TrimmedAt(s, TrimEnd(TrimStart(s)), k)
  {
    var a := TrimStart(s);
    var r := TrimEnd(a);
    PrefixOfSuffixIsTrimmed(s, a, r, |s| - |a|);
  }

  /** A prefix `r` of the suffix `a = s[k..]`, with only white space of `s`
      before `k` and only white space of `a` after `r`, is trimmed out of `s` at `k`. */
  lemma PrefixOfSuffixIsTrimmed(s: string, a: string, r: string, k: nat)
    requires k <= |s| && a == s[k..]
    requires |r| <= |a| && r == a[..|r|]
    requires forall i | 0 <= i < k :: IsSpace(s[i])
    requires forall i | |r| <= i < |a| :: IsSpace(a[i])
    ensures TrimmedAt(s, r, k)
  {
    assert r == s[k..k + |r|];
    forall i | k + |r| <= i < |s|
      ensures IsSpace(s[i])
    {
      assert s[i] == a[i - k];
    }
  }

  lemma TrimEmptyIffBlank(s: string)
    ensures TrimEnd(TrimStart(s)) == [] <==> forall i | 0 <= i < |s| :: IsSpace(s[i])
  {
    var a := TrimStart(s);
    var r := TrimEnd(a);
    if r == [] {
      // all of `a` is trimmed from its end, yet `a` starts with a non-space
      assert |a| == 0;
    } else {
      assert a != [] && !IsSpace(a[0]);
      assert a[0] == s[|s| - |a|];
    }
  }

  /** A string that is empty or only white space: JavaScript's `!s.trim()`. */
  predicate Blank(s: string) {
    Trim(s) == []
  }

  /** ASCII case mapping of `toLowerCase`. */
  function LowerChar(c: char): char {
    if 'A' <= c <= 'Z' then (c as int + 32) as char else c
  }

  function ToLower(s: string): (r: string)
    ensures |r| == |s|
    ensures forall i | 0 <= i < |s| :: r[i] == LowerChar(s[i])
  {
    seq(|s|, i requires 0 <= i < |s| => LowerChar(s[i]))
  }

  lemma ToLowerIdempotent(s: string)
    ensures ToLower(ToLower(s)) == ToLower(s)
  {
  }

  /** Lowercasing both sides keeps an occurrence where it was. */
  lemma ToLowerKeepsOccurrence(s: string, t: string, i: nat)
    requires OccursAt(s, t, i)
    ensures OccursAt(ToLower(s), ToLower(t), i)
  {
    forall j | 0 <= j < |t|
      ensures ToLower(s)[i..i + |t|][j] == ToLower(t)[j]
    {
      assert s[i + j] == s[i..i + |t|][j] == t[j];
    }
  }

  function DigitChar(d: nat): (c: char)
    requires d < 10
    ensures '0' <= c <= '9'
  {
    ('0' as int + d) as char
  }

  function DigitValue(c: char): nat {
    if '0' <= c <= '9' then (c as int - '0' as int) as nat else 0
  }

  /** Value of a string of decimal digits. */
  function DecimalValue(s: string): nat {
    if s == [] then 0 else DecimalValue(s[..|s| - 1]) * 10 + DigitValue(s[|s| - 1])
  }

  /** JavaScript's rendering of a non-negative integer in a template literal. */
  function NatToString(n: nat): (r: string)
    ensures |r| >= 1
    ensures forall i | 0 <= i < |r| :: '0' <= r[i] <= '9'
    ensures |r| > 1 ==> r[0] != '0'
  {
    if n < 10 then [DigitChar(n)] else NatToString(n / 10) + [DigitChar(n % 10)]
  }

  /** Reading back a rendered number gives the number. */
  lemma {:induction false} NatToStringRoundTrip(n: nat)
    ensures DecimalValue(NatToString(n)) == n
  {
    if n >= 10 {
      var p := NatToString(n / 10);
      var r := p + [DigitChar(n % 10)];
      assert r[..|r| - 1] == p;
      assert DigitValue(r[|r| - 1]) == n % 10;
      NatToStringRoundTrip(n / 10);
      assert DecimalValue(r) == (n / 10) * 10 + n % 10;
    }
  }
}
