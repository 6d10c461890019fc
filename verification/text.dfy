/** The string operations of the Java and JavaScript standard libraries that
    the certificate system relies on, over `string` (= `seq<char>`).
    Case folding is ASCII only. */
module Text {

  // ---------------------------------------------------------------------------
  // Digits and decimal rendering (Java's `%d`, `String.valueOf`, JS `String(n)`)
  // ---------------------------------------------------------------------------

  predicate IsDigit(c: char) {
    '0' <= c <= '9'
  }

  predicate AllDigits(s: string) {
    forall i :: 0 <= i < |s| ==> IsDigit(s[i])
  }

  function DigitValue(c: char): (d: nat)
    requires IsDigit(c)
    ensures d < 10
  {
    (c as int) - ('0' as int)
  }

  function DigitChar(d: nat): (c: char)
    requires d < 10
    ensures IsDigit(c) && DigitValue(c) == d
  {
    (('0' as int) + d) as char
  }

  /** Decimal rendering of a natural number, without leading zeros. */
  function NatToString(n: nat): (s: string)
    ensures |s| >= 1 && AllDigits(s)
    ensures s[0] == '0' ==> n == 0
    decreases n
  {
    if n < 10 then [DigitChar(n)] else NatToString(n / 10) + [DigitChar(n % 10)]
  }

  /** Appending a digit to a positive number appends its char to the text. */
  lemma AppendDigit(n: nat, d: nat)
    requires n > 0 && d < 10
    ensures NatToString(10 * n + d) == NatToString(n) + [DigitChar(d)]
  {
    assert (10 * n + d) / 10 == n && (10 * n + d) % 10 == d;
  }

  /** The value of a non-empty run of decimal digits. */
  function DigitsValue(s: string): nat
    requires AllDigits(s)
    decreases |s|
  {
    if |s| == 0 then 0 else 10 * DigitsValue(s[..|s| - 1]) + DigitValue(s[|s| - 1])
  }

  /** Reading back a rendered number gives the number. */
  lemma {:induction false} DigitsValueOfNatToString(n: nat)
    ensures DigitsValue(NatToString(n)) == n
    decreases n
  {
    if n >= 10 {
      var s := NatToString(n);
      assert s[..|s| - 1] == NatToString(n / 10);
      DigitsValueOfNatToString(n / 10);
    }
  }

  /** Rendering is injective: distinct numbers give distinct strings. */
  lemma NatToStringInjective(m: nat, n: nat)
    requires NatToString(m) == NatToString(n)
    ensures m == n
  {
    DigitsValueOfNatToString(m);
    DigitsValueOfNatToString(n);
  }

  /** Decimal rendering of an integer with a leading '-' when negative. */
  function IntToString(i: int): (s: string)
    ensures |s| >= 1
    ensures s[0] == '-' <==> i < 0
  {
    if i < 0 then "-" + NatToString(-i) else NatToString(i)
  }

  /** Distinct integers render differently. */
  lemma IntToStringInjective(a: int, b: int)
    requires IntToString(a) == IntToString(b)
    ensures a == b
  {
    var s := IntToString(a);
    if a < 0 {
      assert s[1..] == NatToString(-a) == NatToString(-b);
      NatToStringInjective(-a, -b);
    } else {
      NatToStringInjective(a, b);
    }
  }

  // ---------------------------------------------------------------------------
  // Blankness
  // ---------------------------------------------------------------------------

  /** Java's `s.trim().isEmpty()`: `trim` removes every char at or below U+0020
      from both ends, so the result is empty iff every char is at or below it. */
  predicate IsBlank(s: string) {
    forall i :: 0 <= i < |s| ==> s[i] <= ' '
  }

  /** Java's `Character.isWhitespace`. */
  predicate IsJavaWhitespace(c: char) {
    c == ' ' || c == '\t' || c == '\n' || c == '\U{000B}' || c == '\U{000C}' || c == '\r'
    || '\U{001C}' <= c <= '\U{001F}'
    || c == '\U{1680}' || '\U{2000}' <= c <= '\U{2006}' || '\U{2008}' <= c <= '\U{200A}'
    || c == '\U{2028}' || c == '\U{2029}' || c == '\U{205F}' || c == '\U{3000}'
  }

  /** Spring's `StringUtils.hasText` on a non-null string. */
  predicate HasText(s: string) {
    exists i :: 0 <= i < |s| && !IsJavaWhitespace(s[i])
  }

  // ---------------------------------------------------------------------------
  // ASCII case folding
  // ---------------------------------------------------------------------------

  function UpperChar(c: char): char {
    if 'a' <= c <= 'z' then (c as int - 32) as char else c
  }

  function LowerChar(c: char): char {
    if 'A' <= c <= 'Z' then (c as int + 32) as char else c
  }

  function ToUpper(s: string): (r: string)
    ensures |r| == |s|
    ensures forall i :: 0 <= i < |s| ==> r[i] == UpperChar(s[i])
  {
    seq(|s|, i requires 0 <= i < |s| => UpperChar(s[i]))
  }

  function ToLower(s: string): (r: string)
    ensures |r| == |s|
    ensures forall i :: 0 <= i < |s| ==> r[i] == LowerChar(s[i])
  {
    seq(|s|, i requires 0 <= i < |s| => LowerChar(s[i]))
  }

  /** Java's `equalsIgnoreCase` on two non-null strings. */
  predicate EqualsIgnoreCase(a: string, b: string) {
    ToUpper(a) == ToUpper(b)
  }

  // ---------------------------------------------------------------------------
  // Substrings
  // ---------------------------------------------------------------------------

  /** `sub` occurs in `s` starting at index `i`. */
  predicate OccursAt(s: string, sub: string, i: int) {
    0 <= i && i + |sub| <= |s| && s[i..i + |sub|] == sub
  }

  predicate Contains(s: string, sub: string) {
    exists i :: 0 <= i <= |s| - |sub| && OccursAt(s, sub, i)
  }

  /** The first occurrence of `sub` in `s` at or after `from`, or -1. */
  function IndexOfFrom(s: string, sub: string, from: nat): (r: int)
    ensures r == -1 || (from <= r && OccursAt(s, sub, r))
    ensures forall j :: from <= j && (r == -1 || j < r) ==> !OccursAt(s, sub, j)
    decreases |s| + 1 - from
  {
    if from + |sub| > |s| then -1
    else if s[from..from + |sub|] == sub then from
    else IndexOfFrom(s, sub, from + 1)
  }

  predicate StartsWith(s: string, prefix: string) {
    |prefix| <= |s| && s[..|prefix|] == prefix
  }

  predicate EndsWith(s: string, suffix: string) {
    |suffix| <= |s| && s[|s| - |suffix|..] == suffix
  }

  /** A string contains each of its infixes. */
  lemma ContainsInfix(a: string, b: string, c: string)
    ensures Contains(a + b + c, b)
  {
    assert OccursAt(a + b + c, b, |a|) by {
      assert (a + b + c)[|a|..|a| + |b|] == b;
    }
  }

  /** Text made of a head, a body, a marked part and a tail starts with the
      head, contains the marked part and ends with the tail. */
  lemma Framed(head: string, body: string, marked: string, tail: string)
    ensures StartsWith(head + body + marked + tail, head)
    ensures Contains(head + body + marked + tail, marked)
    ensures EndsWith(head + body + marked + tail, tail)
  {
    ContainsInfix(head + body, marked, tail);
    assert (head + body + marked + tail)[..|head|] == head;
  }

  /** As `Framed`, with a tail in two pieces: the text ends with the last. */
  lemma FramedSplitTail(head: string, body: string, marked: string, tail1: string, tail2: string)
    ensures StartsWith(head + body + marked + (tail1 + tail2), head)
    ensures Contains(head + body + marked + (tail1 + tail2), marked)
    ensures EndsWith(head + body + marked + (tail1 + tail2), tail2)
  {
    var t := head + body + marked + (tail1 + tail2);
    Framed(head, body, marked, tail1 + tail2);
    assert t == (head + body + marked + tail1) + tail2;
  }

  /** Text with two marked parts between a head and a two-piece tail. */
  lemma FramedTwo(head: string, a: string, mid: string, b: string, tail1: string, tail2: string)
    ensures StartsWith(head + a + mid + b + (tail1 + tail2), head)
    ensures Contains(head + a + mid + b + (tail1 + tail2), a)
    ensures Contains(head + a + mid + b + (tail1 + tail2), b)
    ensures EndsWith(head + a + mid + b + (tail1 + tail2), tail2)
  {
    var t := head + a + mid + b + (tail1 + tail2);
    FramedSplitTail(head + a, mid, b, tail1, tail2);
    assert t == head + a + (mid + b + (tail1 + tail2));
    ContainsInfix(head, a, mid + b + (tail1 + tail2));
    assert t[..|head|] == head;
  }

  /** The middle of a prefix made of three parts. */
  lemma PrefixPart(s: string, a: string, b: string, c: string)
    requires StartsWith(s, a + b + c)
    ensures |a| + |b| <= |s| && s[|a|..|a| + |b|] == b
  {
    assert s[|a|..|a| + |b|] == (a + b + c)[|a|..|a| + |b|];
  }

  /** The text made of `parts`, one after another. */
  function Concat(parts: seq<string>): string
    decreases |parts|
  {
    if |parts| == 0 then "" else parts[0] + Concat(parts[1..])
  }

  /** Each part of a concatenation is an infix of it. */
  lemma {:induction false} ConcatContains(parts: seq<string>, i: nat)
    requires i < |parts|
    ensures Contains(Concat(parts), parts[i])
    decreases |parts|
  {
    if i == 0 {
      ContainsInfix("", parts[0], Concat(parts[1..]));
      assert "" + parts[0] + Concat(parts[1..]) == Concat(parts);
    } else {
      ConcatContains(parts[1..], i - 1);
      var k :| 0 <= k <= |Concat(parts[1..])| - |parts[i]| && OccursAt(Concat(parts[1..]), parts[i], k);
      assert Concat(parts)[|parts[0]| + k..|parts[0]| + k + |parts[i]|] == Concat(parts[1..])[k..k + |parts[i]|];
      assert OccursAt(Concat(parts), parts[i], |parts[0]| + k);
    }
  }

  /** A concatenation starts with its first part. */
  lemma ConcatStartsWith(parts: seq<string>)
    requires |parts| > 0
    ensures StartsWith(Concat(parts), parts[0])
  {
    assert Concat(parts)[..|parts[0]|] == parts[0];
  }

  /** A concatenation of ten parts starts with the first and contains the
      second, fourth, sixth and eighth. */
  lemma TenParts(parts: seq<string>)
    requires |parts| == 10
    ensures StartsWith(Concat(parts), parts[0])
    ensures Contains(Concat(parts), parts[1]) && Contains(Concat(parts), parts[3])
    ensures Contains(Concat(parts), parts[5]) && Contains(Concat(parts), parts[7])
  {
    ConcatStartsWith(parts);
    ConcatContains(parts, 1);
    ConcatContains(parts, 3);
    ConcatContains(parts, 5);
    ConcatContains(parts, 7);
  }

  /** A concatenation ends with its last part. */
  lemma {:induction false} ConcatEndsWith(parts: seq<string>)
    requires |parts| > 0
    ensures EndsWith(Concat(parts), parts[|parts| - 1])
    decreases |parts|
  {
    if |parts| > 1 {
      ConcatEndsWith(parts[1..]);
      var c := Concat(parts);
      assert c[|c| - |parts[|parts| - 1]|..] == Concat(parts[1..])[|Concat(parts[1..])| - |parts[|parts| - 1]|..];
    } else {
      assert Concat(parts) == parts[0] + "";
    }
  }

  /** JavaScript's and Java's `indexOf`. */
  function IndexOf(s: string, sub: string): (r: int)
    ensures r == -1 <==> !Contains(s, sub)
    ensures r >= 0 ==> OccursAt(s, sub, r) && forall j :: 0 <= j < r ==> !OccursAt(s, sub, j)
  {
    IndexOfFrom(s, sub, 0)
  }

  /** Java's `String.replace(target, replacement)` for a non-empty target:
      occurrences are replaced left to right, without overlap. */
  function Replace(s: string, target: string, replacement: string): (r: string)
    requires |target| > 0
    decreases |s|
  {
    if |s| < |target| then s
    else if s[..|target|] == target then replacement + Replace(s[|target|..], target, replacement)
    else [s[0]] + Replace(s[1..], target, replacement)
  }

  /** With no occurrence of the target, `Replace` is the identity. */
  lemma {:induction false} ReplaceAbsent(s: string, target: string, replacement: string)
    requires |target| > 0
    requires !Contains(s, target)
    ensures Replace(s, target, replacement) == s
    decreases |s|
  {
    if |s| >= |target| {
      assert !OccursAt(s, target, 0);
      assert !Contains(s[1..], target) by {
        forall j | OccursAt(s[1..], target, j) ensures OccursAt(s, target, j + 1) {
          assert s[1..][j..j + |target|] == s[j + 1..j + 1 + |target|];
        }
      }
      ReplaceAbsent(s[1..], target, replacement);
    }
  }

  /** The first occurrence is replaced by the replacement when nothing before
      it could start an occurrence. */
  lemma {:induction false} ReplaceFirst(a: string, target: string, replacement: string, b: string)
    requires |target| > 0
    requires forall i :: 0 <= i < |a| ==> a[i] != target[0]
    ensures Replace(a + target + b, target, replacement) == a + replacement + Replace(b, target, replacement)
    decreases |a|
  {
    if |a| == 0 {
      var s := a + target + b;
      assert s[..|target|] == target && s[|target|..] == b;
    } else {
      ReplaceFirst(a[1..], target, replacement, b);
      ReplaceFirstStep(a, target, replacement, b);
    }
  }

  /** One step of `ReplaceFirst`: a first character that cannot start an
      occurrence is copied. */
  lemma ReplaceFirstStep(a: string, target: string, replacement: string, b: string)
    requires |target| > 0 && |a| > 0 && a[0] != target[0]
    requires Replace(a[1..] + target + b, target, replacement) == a[1..] + replacement + Replace(b, target, replacement)
    ensures Replace(a + target + b, target, replacement) == a + replacement + Replace(b, target, replacement)
  {
    var s := a + target + b;
    var rest := Replace(b, target, replacement);
    assert s[0] == a[0];
    assert s[1..] == a[1..] + target + b;
    assert Replace(s, target, replacement) == [a[0]] + Replace(s[1..], target, replacement);
    assert [a[0]] + (a[1..] + replacement + rest) == a + replacement + rest;
  }
}
