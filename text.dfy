/** The few Python string operations the core relies on, written out:
    `strip`, `lower`, `title`, `capitalize`, `replace`, `join`, `in`,
    `split(sep)[-1]`, `str(int)` and `int(digits)`. */
module Text {

  /** Python's `str.isspace()`: the characters `str.strip()` removes and the
      regular-expression class `\s` matches. */
  predicate IsSpace(c: char) {
    || c == ' '
    || ('\t' <= c <= '\r')
    || ('\U{1c}' <= c <= '\U{1f}')
    || c == '\U{85}' || c == '\U{a0}' || c == '\U{1680}'
    || ('\U{2000}' <= c <= '\U{200a}')
    || c == '\U{2028}' || c == '\U{2029}' || c == '\U{202f}'
    || c == '\U{205f}' || c == '\U{3000}'
  }

  /** `s.lstrip()`: what is left after dropping leading whitespace. */
  function TrimLeft(s: string): (r: string)
    ensures |r| <= |s| && r == s[|s| - |r|..]
    ensures forall i :: 0 <= i < |s| - |r| ==> IsSpace(s[i])
    ensures r == [] || !IsSpace(r[0])
  {
    if s != [] && IsSpace(s[0]) then TrimLeft(s[1..]) else s
  }

  /** `s.rstrip()`: what is left after dropping trailing whitespace. */
  function TrimRight(s: string): (r: string)
    ensures |r| <= |s| && r == s[..|r|]
    ensures forall i :: |r| <= i < |s| ==> IsSpace(s[i])
    ensures r == [] || !IsSpace(r[|r| - 1])
  {
    if s != [] && IsSpace(s[|s| - 1]) then TrimRight(s[..|s| - 1]) else s
  }

  /** `rstrip` keeps every character up to the last non-space one. */
  lemma TrimRightKeeps(s: string, k: nat)
    requires k < |s| && !IsSpace(s[k])
    ensures |TrimRight(s)| > k && TrimRight(s) == s[..|TrimRight(s)|]
  {
  }

  /** Every character of `s` is whitespace. */
  predicate AllSpace(s: string) {
    forall i :: 0 <= i < |s| ==> IsSpace(s[i])
  }

  /** `s.strip()`. */
  function Strip(s: string): (r: string)
    ensures |r| <= |s|
    ensures r == [] || (!IsSpace(r[0]) && !IsSpace(r[|r| - 1]))
  {
    TrimRight(TrimLeft(s))
  }

  /** `strip()` leaves the slice of `s` between a whitespace-only prefix and
      a whitespace-only suffix. */
  lemma {:induction false} StripSlice(s: string)
    ensures var r := Strip(s); var k := |s| - |TrimLeft(s)|;
      k + |r| <= |s| && r == s[k..k + |r|] && AllSpace(s[..k]) && AllSpace(s[k + |r|..])
  {
    StripMiddle(s);
    StripLeftSpace(s);
    StripRightSpace(s);
  }

  lemma {:induction false} StripMiddle(s: string)
    ensures var t := TrimLeft(s); var k := |s| - |t|;
      k + |TrimRight(t)| <= |s| && TrimRight(t) == s[k..k + |TrimRight(t)|]
  {
    SuffixPrefix(s, TrimLeft(s), TrimRight(TrimLeft(s)));
  }

  lemma StripLeftSpace(s: string)
    ensures AllSpace(s[..|s| - |TrimLeft(s)|])
  {
  }

  lemma {:induction false} StripRightSpace(s: string)
    ensures AllSpace(s[|s| - |TrimLeft(s)| + |Strip(s)|..])
  {
    var t := TrimLeft(s);
    SuffixPrefix(s, t, TrimRight(t));
    TrimRightSpace(t);
  }

  lemma TrimRightSpace(t: string)
    ensures AllSpace(t[|TrimRight(t)|..])
  {
  }

  /** A prefix `r` of a suffix `t` of `s` is a slice of `s`, and what
      follows `r` in `s` is what follows it in `t`. */
  lemma SuffixPrefix(s: string, t: string, r: string)
    requires |t| <= |s| && t == s[|s| - |t|..]
    requires |r| <= |t| && r == t[..|r|]
    ensures r == s[|s| - |t|..|s| - |t| + |r|]
    ensures s[|s| - |t| + |r|..] == t[|r|..]
  {
  }

  /** A string with no whitespace at either end is its own `strip()`. */
  lemma StripTrimmed(s: string)
    requires s == [] || (!IsSpace(s[0]) && !IsSpace(s[|s| - 1]))
    ensures Strip(s) == s
  {
  }

  /** Only the whitespace at the two ends goes: `strip()` of `a + b + c`, where
      `a` and `c` are whitespace and `b` has none at its ends, is `b`. */
  lemma {:induction false} StripSurrounded(a: string, b: string, c: string)
    requires forall i :: 0 <= i < |a| ==> IsSpace(a[i])
    requires forall i :: 0 <= i < |c| ==> IsSpace(c[i])
    requires b != [] && !IsSpace(b[0]) && !IsSpace(b[|b| - 1])
    ensures Strip(a + b + c) == b
  {
    LeftOf(a, b + c);
    assert a + b + c == a + (b + c);
    RightOf(b, c);
  }

  /** Leading whitespace before a non-space goes entirely. */
  lemma StripAfterIndent(a: string, t: string)
    requires forall i :: 0 <= i < |a| ==> IsSpace(a[i])
    requires t != [] && !IsSpace(t[0])
    ensures Strip(a + t) == TrimRight(t)
  {
    LeftOf(a, t);
  }

  lemma {:induction false} LeftOf(a: string, t: string)
    requires forall i :: 0 <= i < |a| ==> IsSpace(a[i])
    requires t != [] && !IsSpace(t[0])
    ensures TrimLeft(a + t) == t
  {
    if a != [] {
      assert (a + t)[1..] == a[1..] + t;
      LeftOf(a[1..], t);
    }
  }

  lemma {:induction false} RightOf(b: string, c: string)
    requires forall i :: 0 <= i < |c| ==> IsSpace(c[i])
    requires b != [] && !IsSpace(b[|b| - 1])
    ensures TrimRight(b + c) == b
  {
    if c != [] {
      assert (b + c)[..|b + c| - 1] == b + c[..|c| - 1];
      RightOf(b, c[..|c| - 1]);
    } else {
      assert b + c == b;
    }
  }

  /** The letters `str.lower()`, `str.title()` and `str.capitalize()` change. */
  predicate IsCased(c: char) {
    'A' <= c <= 'Z' || 'a' <= c <= 'z'
  }

  function LowerChar(c: char): char {
    if 'A' <= c <= 'Z' then (c as int + 32) as char else c
  }

  function UpperChar(c: char): char {
    if 'a' <= c <= 'z' then (c as int - 32) as char else c
  }

  /** `s.lower()`. */
  function Lower(s: string): (r: string)
    ensures |r| == |s|
    ensures forall i :: 0 <= i < |s| ==> r[i] == LowerChar(s[i])
  {
    if s == [] then [] else [LowerChar(s[0])] + Lower(s[1..])
  }

  /** One character of `str.title()`: lower case after a cased letter, title
      case anywhere else. */
  function TitleChar(c: char, afterCased: bool): char {
    if afterCased then LowerChar(c) else UpperChar(c)
  }

  function TitleFrom(s: string, afterCased: bool): (r: string)
    ensures |r| == |s|
    ensures forall i :: 0 <= i < |s| ==>
      r[i] == TitleChar(s[i], if i == 0 then afterCased else IsCased(s[i - 1]))
  {
    if s == [] then [] else [TitleChar(s[0], afterCased)] + TitleFrom(s[1..], IsCased(s[0]))
  }

  /** `s.title()`: every letter that follows a non-letter is upper case, every
      other letter lower case. */
  function Title(s: string): string {
    TitleFrom(s, false)
  }

  /** `s.capitalize()`: the first character upper case, the rest lower case. */
  function Capitalize(s: string): (r: string)
    ensures |r| == |s|
    ensures s != [] ==> r[0] == UpperChar(s[0]) && r[1..] == Lower(s[1..])
  {
    if s == [] then [] else [UpperChar(s[0])] + Lower(s[1..])
  }

  /** `s.replace(from, to)` for one-character `from` and `to`. */
  function Replace(s: string, from: char, to: char): (r: string)
    ensures |r| == |s|
    ensures forall i :: 0 <= i < |s| ==> r[i] == if s[i] == from then to else s[i]
  {
    if s == [] then [] else [if s[0] == from then to else s[0]] + Replace(s[1..], from, to)
  }

  /** `sep.join(parts)`. */
  function Join(parts: seq<string>, sep: string): string {
    if |parts| == 0 then ""
    else if |parts| == 1 then parts[0]
    else parts[0] + sep + Join(parts[1..], sep)
  }

  predicate StartsWith(s: string, p: string) {
    |p| <= |s| && s[..|p|] == p
  }

  /** `p` occurs in `s` starting at index `i`. */
  predicate OccursAt(s: string, p: string, i: int) {
    0 <= i && i + |p| <= |s| && s[i..i + |p|] == p
  }

  /** Python's `p in s` on strings. */
  predicate Contains(s: string, p: string) {
    exists i | 0 <= i <= |s| - |p| :: OccursAt(s, p, i)
  }

  /** A joined string begins with its first part. */
  lemma JoinStartsWith(parts: seq<string>, sep: string)
    requires parts != []
    ensures StartsWith(Join(parts, sep), parts[0])
  {
    if |parts| > 1 {
      assert Join(parts, sep) == parts[0] + (sep + Join(parts[1..], sep));
    }
  }

  lemma StartsWithTransitive(s: string, p: string, q: string)
    requires StartsWith(s, p) && StartsWith(p, q)
    ensures StartsWith(s, q)
  {
    assert s[..|q|] == s[..|p|][..|q|];
  }

  /** `w` framed by `a` and `b`: the whole begins with `a` and has `w` right
      after it. */
  lemma Framed(a: string, w: string, b: string)
    ensures StartsWith(a + w + b, a)
    ensures OccursAt(a + w + b, w, |a|)
  {
    assert (a + w + b)[..|a|] == a;
    assert (a + w + b)[|a|..|a| + |w|] == w;
  }

  /** What occurs in a prefix occurs in the whole. */
  lemma ContainsInPrefix(s: string, p: string, w: string)
    requires StartsWith(s, p)
    requires exists i :: 0 <= i <= |p| - |w| && OccursAt(p, w, i)
    ensures Contains(s, w)
  {
    var i :| 0 <= i <= |p| - |w| && OccursAt(p, w, i);
    assert s[i..i + |w|] == p[i..i + |w|];
    assert OccursAt(s, w, i);
  }

  /** The part of `s` after the last `c` (`s.split(c)[-1]`); all of `s` when
      `c` does not occur. */
  function AfterLast(s: string, c: char): (r: string)
    ensures |r| <= |s| && r == s[|s| - |r|..]
    ensures c !in r
    ensures |r| < |s| ==> s[|s| - |r| - 1] == c
  {
    if s == [] then []
    else if s[|s| - 1] == c then []
    else AfterLast(s[..|s| - 1], c) + [s[|s| - 1]]
  }

  predicate IsDigit(c: char) {
    '0' <= c <= '9'
  }

  predicate AllDigits(s: string) {
    forall i :: 0 <= i < |s| ==> IsDigit(s[i])
  }

  function DigitChar(d: nat): (c: char)
    requires d < 10
    ensures IsDigit(c)
  {
    ('0' as int + d) as char
  }

  /** `int(s)` for a string of ASCII digits (leading zeros allowed). */
  function DigitsValue(s: string): nat
    requires AllDigits(s)
  {
    if s == [] then 0 else 10 * DigitsValue(s[..|s| - 1]) + (s[|s| - 1] as int - '0' as int)
  }

  /** `str(n)` for a natural number: its decimal digits, read back by `int`. */
  function NatToString(n: nat): (r: string)
    ensures r != [] && AllDigits(r)
    ensures DigitsValue(r) == n
  {
    if n < 10 then [DigitChar(n)]
    else
      var prefix := NatToString(n / 10);
      var r := prefix + [DigitChar(n % 10)];
      assert r[..|r| - 1] == prefix;
      r
  }

  /** `str(i)` for any integer. */
  function IntToString(i: int): (r: string)
    ensures r != []
    ensures i >= 0 ==> AllDigits(r) && DigitsValue(r) == i
    ensures i < 0 ==> r[0] == '-' && AllDigits(r[1..]) && DigitsValue(r[1..]) == -i
  {
    if i < 0 then "-" + NatToString(-i) else NatToString(i)
  }

  /** `str` is one-to-one on integers, so distinct numeric ids give distinct
      string ids. */
  lemma IntToStringInjective(a: int, b: int)
    requires IntToString(a) == IntToString(b)
    ensures a == b
  {
  }

  /** The header the search tools put above their numbered results. */
  function FoundHeader(count: nat, query: string): string {
    "Found " + NatToString(count) + " result(s) for '" + query + "':\n"
  }

  /** `s[:n]` on a sequence. */
  function Take<T>(s: seq<T>, n: int): (r: seq<T>)
    ensures |r| == if n <= 0 then 0 else if n < |s| then n else |s|
    ensures r == s[..|r|]
  {
    if n <= 0 then [] else if n < |s| then s[..n] else s
  }
}
