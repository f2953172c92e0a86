/**
 * String operations of the Kotlin standard library (and the few Python ones the server uses),
 * over `string` = `seq<char>`.
 */
module Strings {

  /** ASCII decimal digit. */
  predicate IsDigit(c: char) {
    '0' <= c <= '9'
  }

  /**
   * Kotlin `Char.isWhitespace`: Java's `isWhitespace` (U+0009..U+000D, U+001C..U+001F and the
   * space, line and paragraph separators) together with `isSpaceChar` (all space separators).
   */
  predicate IsWhitespace(c: char) {
    var n := c as int;
    (9 <= n <= 13) || (28 <= n <= 32) || n == 0xA0 || n == 0x1680 || (0x2000 <= n <= 0x200A)
    || n == 0x2028 || n == 0x2029 || n == 0x202F || n == 0x205F || n == 0x3000
  }

  /** Kotlin `isBlank()`: empty or whitespace only. */
  predicate IsBlank(s: string) {
    forall i :: 0 <= i < |s| ==> IsWhitespace(s[i])
  }

  predicate StartsWith(s: string, prefix: string) {
    |prefix| <= |s| && s[..|prefix|] == prefix
  }

  predicate EndsWith(s: string, suffix: string) {
    |suffix| <= |s| && s[|s| - |suffix|..] == suffix
  }

  /** `d` occurs in `s` starting at index `i`. */
  predicate OccursAt(s: string, d: string, i: int) {
    0 <= i && i + |d| <= |s| && s[i..i + |d|] == d
  }

  /** `indexOf(d, startIndex = k)`: the first occurrence of `d` at or after `k`, or -1. */
  function IndexOfFrom(s: string, d: string, k: nat): (r: int)
    requires k <= |s|
    decreases |s| - k
    ensures r == -1 || (k <= r && OccursAt(s, d, r))
  {
    if k + |d| > |s| then -1
    else if s[k..k + |d|] == d then k
    else IndexOfFrom(s, d, k + 1)
  }

  /** `IndexOfFrom` finds the first occurrence: none lies between `k` and the result. */
  lemma {:induction false} IndexOfFromNoEarlier(s: string, d: string, k: nat)
    requires k <= |s|
    decreases |s| - k
    ensures var r := IndexOfFrom(s, d, k);
      forall j :: k <= j && (r == -1 || j < r) ==> !OccursAt(s, d, j)
  {
    if k + |d| <= |s| && s[k..k + |d|] != d {
      IndexOfFromNoEarlier(s, d, k + 1);
    }
  }

  /** Kotlin `contains(sub)` / Python `sub in s`. */
  predicate Contains(s: string, sub: string) {
    IndexOfFrom(s, sub, 0) >= 0
  }

  lemma ContainsIff(s: string, sub: string)
    ensures Contains(s, sub) <==> exists i :: OccursAt(s, sub, i)
  {
    IndexOfFromNoEarlier(s, sub, 0);
  }

  /** Position of the last `c` in `s`, or -1. */
  function LastIndexOf(s: string, c: char): (r: int)
    ensures -1 <= r < |s|
    ensures r == -1 <==> c !in s
    ensures r >= 0 ==> s[r] == c
    ensures forall j :: r < j < |s| ==> s[j] != c
  {
    if s == [] then -1
    else if s[|s| - 1] == c then |s| - 1
    else
      assert s == s[..|s| - 1] + [s[|s| - 1]];
      LastIndexOf(s[..|s| - 1], c)
  }

  /** Kotlin `substringBeforeLast(c)`: the whole string when `c` does not occur. */
  function SubstringBeforeLast(s: string, c: char): string {
    var i := LastIndexOf(s, c);
    if i < 0 then s else s[..i]
  }

  /**
   * Kotlin `split(d)` for one non-empty delimiter: cut at each occurrence found left to right
   * (non-overlapping); the result is never empty.
   */
  function Split(s: string, d: string): (r: seq<string>)
    requires |d| > 0
    decreases |s|
    ensures |r| >= 1
  {
    var i := IndexOfFrom(s, d, 0);
    if i < 0 then [s] else [s[..i]] + Split(s[i + |d|..], d)
  }

  /** Kotlin `joinToString(d)` / Python `d.join(parts)`. */
  function Join(parts: seq<string>, d: string): string {
    if parts == [] then ""
    else if |parts| == 1 then parts[0]
    else parts[0] + d + Join(parts[1..], d)
  }

  /** Joining the pieces of a split gives back the original string. */
  lemma {:induction false} JoinSplit(s: string, d: string)
    requires |d| > 0
    ensures Join(Split(s, d), d) == s
    decreases |s|
  {
    var i := IndexOfFrom(s, d, 0);
    if i >= 0 {
      var rest := s[i + |d|..];
      JoinSplit(rest, d);
      JoinCons(s[..i], Split(rest, d), d);
      CutAround(s, d, i);
    }
  }

  /** Joining a head onto a non-empty list puts one delimiter between them. */
  lemma JoinCons(head: string, tail: seq<string>, d: string)
    requires |tail| >= 1
    ensures Join([head] + tail, d) == head + d + Join(tail, d)
  {
    assert ([head] + tail)[1..] == tail;
  }

  /** A string is what precedes an occurrence, the occurrence, and what follows it. */
  lemma CutAround(s: string, d: string, i: int)
    requires OccursAt(s, d, i)
    ensures s == s[..i] + d + s[i + |d|..]
  {
    assert s == s[..i] + s[i..i + |d|] + s[i + |d|..];
  }

  /** The first occurrence of `d` at or after `k` is at `m` when `m` is an occurrence and none precedes it. */
  lemma {:induction false} IndexOfFromFirst(s: string, d: string, k: nat, m: int)
    requires k <= m && k <= |s| && OccursAt(s, d, m)
    requires forall j :: k <= j < m ==> !OccursAt(s, d, j)
    ensures IndexOfFrom(s, d, k) == m
    decreases m - k
  {
    if k < m {
      assert !OccursAt(s, d, k);
      IndexOfFromFirst(s, d, k + 1, m);
    }
  }

  /** Splitting a join gives back the parts, when no part contains the delimiter's first character. */
  lemma {:induction false} SplitJoin(parts: seq<string>, d: string)
    requires |d| > 0 && |parts| >= 1
    requires forall p :: p in parts ==> d[0] !in p
    ensures Split(Join(parts, d), d) == parts
  {
    var s := Join(parts, d);
    var p := parts[0];
    if |parts| == 1 {
      assert s == p;
      NoOccurrenceInPart(s, p, d);
      assert IndexOfFrom(s, d, 0) == -1;
    } else {
      var rest := Join(parts[1..], d);
      assert s == p + d + rest;
      assert s[..|p|] == p;
      NoOccurrenceInPart(s, p, d);
      assert s[|p|..|p| + |d|] == d;
      IndexOfFromFirst(s, d, 0, |p|);
      assert s[|p| + |d|..] == rest;
      assert Split(s, d) == [p] + Split(rest, d);
      SplitJoin(parts[1..], d);
      assert parts == [p] + parts[1..];
    }
  }

  /** A delimiter cannot start inside a leading part that lacks its first character. */
  lemma NoOccurrenceInPart(s: string, p: string, d: string)
    requires |d| > 0 && |p| <= |s| && s[..|p|] == p && d[0] !in p
    ensures forall j :: 0 <= j < |p| ==> !OccursAt(s, d, j)
  {
    forall j | 0 <= j < |p|
      ensures !OccursAt(s, d, j)
    {
      assert s[j] == p[j] && p[j] in p;
    }
  }

  /** `LastIndexOf` is the one position holding `c` with no `c` after it. */
  lemma LastIndexOfUnique(s: string, c: char, m: int)
    requires 0 <= m < |s| && s[m] == c
    requires forall j :: m < j < |s| ==> s[j] != c
    ensures LastIndexOf(s, c) == m
  {
  }

  /** The first occurrence of a one-character delimiter is the first position holding it. */
  lemma IndexOfChar(s: string, c: char)
    ensures var i := IndexOfFrom(s, [c], 0);
      (i == -1 <==> c !in s) && (i >= 0 ==> s[i] == c && c !in s[..i])
  {
    var i := IndexOfFrom(s, [c], 0);
    IndexOfCharFound(s, c);
    if i >= 0 {
      IndexOfFromNoEarlier(s, [c], 0);
      if c in s[..i] {
        var k :| 0 <= k < i && s[..i][k] == c;
        assert s[k..k + 1] == [c];
        assert OccursAt(s, [c], k);
      }
    }
  }

  /** A one-character delimiter is found exactly when it occurs, and at a position holding it. */
  lemma IndexOfCharFound(s: string, c: char)
    ensures var i := IndexOfFrom(s, [c], 0); (i == -1 <==> c !in s) && (i >= 0 ==> s[i] == c)
  {
    var i := IndexOfFrom(s, [c], 0);
    if i == -1 && c in s {
      IndexOfFromNoEarlier(s, [c], 0);
      var k :| 0 <= k < |s| && s[k] == c;
      assert s[k..k + 1] == [c];
      assert OccursAt(s, [c], k);
    }
    if i >= 0 {
      assert s[i..i + 1][0] == s[i];
    }
  }

  /** Kotlin `substringAfterLast(c)`: the text after the last `c`, or all of `s` when there is none. */
  function AfterLast(s: string, c: char): string {
    if c in s then s[LastIndexOf(s, c) + 1..] else s
  }

  /** `AfterLast` is the longest suffix free of `c`: all of `s`, or a suffix preceded by a `c`. */
  lemma AfterLastSuffix(s: string, c: char)
    ensures var r := AfterLast(s, c);
      && c !in r && |r| <= |s|
      && (forall j :: 0 <= j < |r| ==> s[|s| - |r| + j] == r[j])
      && (|r| < |s| ==> s[|s| - |r| - 1] == c)
  {
    if c in s {
      var i := LastIndexOf(s, c);
      assert AfterLast(s, c) == s[i + 1..];
    }
  }

  /** The last piece of a split on one character is the text after the last occurrence of it. */
  lemma {:induction false} SplitLast(s: string, c: char)
    ensures var r := Split(s, [c]); r[|r| - 1] == AfterLast(s, c)
    decreases |s|
  {
    var i := IndexOfFrom(s, [c], 0);
    if i >= 0 {
      SplitLast(s[i + 1..], c);
      SplitLastStep(s, c, i);
    } else {
      SplitLastNone(s, c);
    }
  }

  /** Without a `c`, the split is `s` alone and so is the text after the last `c`. */
  lemma SplitLastNone(s: string, c: char)
    requires IndexOfFrom(s, [c], 0) < 0
    ensures var r := Split(s, [c]); r[|r| - 1] == AfterLast(s, c)
  {
    IndexOfCharFound(s, c);
    assert Split(s, [c]) == [s];
  }

  /** The step of `SplitLast`: past the first `c`, the claim for the rest gives the claim for `s`. */
  lemma SplitLastStep(s: string, c: char, i: nat)
    requires IndexOfFrom(s, [c], 0) == i
    requires var t := Split(s[i + 1..], [c]); t[|t| - 1] == AfterLast(s[i + 1..], c)
    ensures var r := Split(s, [c]); r[|r| - 1] == AfterLast(s, c)
  {
    SplitLastPiece(s, c, i);
    IndexOfCharFound(s, c);
    AfterLastAfterFirst(s, c, i);
  }

  /** After the first `c`, at `i`, the last piece of a split is the last piece of the split of the rest. */
  lemma SplitLastPiece(s: string, c: char, i: nat)
    requires IndexOfFrom(s, [c], 0) == i
    ensures var r := Split(s, [c]); var t := Split(s[i + 1..], [c]); r[|r| - 1] == t[|t| - 1]
  {
    var t := Split(s[i + 1..], [c]);
    assert Split(s, [c]) == [s[..i]] + t;
    LastOfCons(s[..i], t);
  }

  lemma LastOfCons(head: string, tail: seq<string>)
    requires |tail| >= 1
    ensures var r := [head] + tail; |r| == |tail| + 1 && r[|r| - 1] == tail[|tail| - 1]
  {
  }

  /** Past a `c` at `i`, the text after the last `c` is the same as in the rest. */
  lemma AfterLastAfterFirst(s: string, c: char, i: nat)
    requires i < |s| && s[i] == c
    ensures AfterLast(s, c) == AfterLast(s[i + 1..], c)
  {
    if c in s[i + 1..] {
      AfterLastLaterC(s, c, i);
    } else {
      AfterLastNoLaterC(s, c, i);
    }
  }

  /** With another `c` past `i`, the last `c` of `s` is the last `c` of the rest. */
  lemma AfterLastLaterC(s: string, c: char, i: nat)
    requires i < |s| && s[i] == c && c in s[i + 1..]
    ensures AfterLast(s, c) == AfterLast(s[i + 1..], c)
  {
    var rest := s[i + 1..];
    var li := LastIndexOf(rest, c);
    assert LastIndexOf(s, c) == i + 1 + li by {
      forall j | i + 1 + li < j < |s| ensures s[j] != c {
        assert s[j] == rest[j - i - 1];
      }
      LastIndexOfUnique(s, c, i + 1 + li);
    }
    assert AfterLast(rest, c) == rest[li + 1..];
    assert AfterLast(s, c) == s[i + 1 + li + 1..];
    assert s[i + 1 + li + 1..] == rest[li + 1..];
  }

  /** With no `c` past `i`, the text after the last `c` is all of the rest. */
  lemma AfterLastNoLaterC(s: string, c: char, i: nat)
    requires i < |s| && s[i] == c && c !in s[i + 1..]
    ensures AfterLast(s, c) == AfterLast(s[i + 1..], c)
  {
    var rest := s[i + 1..];
    assert LastIndexOf(s, c) == i by {
      forall j | i < j < |s| ensures s[j] != c {
        assert s[j] == rest[j - i - 1];
      }
      LastIndexOfUnique(s, c, i);
    }
    assert AfterLast(rest, c) == rest;
    assert AfterLast(s, c) == rest;
  }

  /** One step of `Split`: the text before the first occurrence, then the split of what follows it. */
  lemma SplitStep(s: string, d: string)
    requires |d| > 0
    ensures var i := IndexOfFrom(s, d, 0);
      && (i < 0 ==> Split(s, d) == [s])
      && (i >= 0 ==> Split(s, d) == [s[..i]] + Split(s[i + |d|..], d))
  {
  }

  /** Kotlin `replace(c.toString(), "")`: every `c` removed. */
  function RemoveChar(s: string, c: char): (r: string)
    ensures |r| <= |s|
    ensures forall x :: x in r <==> x in s && x != c
  {
    if s == [] then []
    else (if s[0] == c then [] else [s[0]]) + RemoveChar(s[1..], c)
  }

  /**
   * Removal works piece by piece: with the one-character cases above (a `c` gives nothing, any
   * other character stays), this fixes the order and the number of the characters kept.
   */
  lemma {:induction false} RemoveCharConcat(a: string, b: string, c: char)
    ensures RemoveChar(a + b, c) == RemoveChar(a, c) + RemoveChar(b, c)
    decreases |a|
  {
    if a == [] {
      assert a + b == b;
    } else {
      var ab := a + b;
      assert ab[0] == a[0] && ab[1..] == a[1..] + b;
      RemoveCharConcat(a[1..], b, c);
      var head := if a[0] == c then [] else [a[0]];
      var rest := RemoveChar(a[1..], c);
      var tail := RemoveChar(b, c);
      assert RemoveChar(ab, c) == head + (rest + tail);
      assert head + (rest + tail) == (head + rest) + tail;
    }
  }

  /** A string without `c` is left as it is. */
  lemma {:induction false} RemoveCharAbsent(s: string, c: char)
    requires c !in s
    ensures RemoveChar(s, c) == s
  {
    if s != [] {
      RemoveCharAbsent(s[1..], c);
      assert s == [s[0]] + s[1..];
    }
  }

  /** Kotlin `filter { it.isDigit() }` (ASCII digits), in order. */
  function Digits(s: string): (r: string)
    ensures |r| <= |s|
    ensures forall x :: x in r <==> x in s && IsDigit(x)
  {
    if s == [] then []
    else (if IsDigit(s[0]) then [s[0]] else []) + Digits(s[1..])
  }

  /** Filtering works piece by piece, so the digits kept appear in their order and number in `s`. */
  lemma {:induction false} DigitsConcat(a: string, b: string)
    ensures Digits(a + b) == Digits(a) + Digits(b)
    decreases |a|
  {
    if a == [] {
      assert a + b == b;
    } else {
      var ab := a + b;
      assert ab[0] == a[0] && ab[1..] == a[1..] + b;
      DigitsConcat(a[1..], b);
      var head := if IsDigit(a[0]) then [a[0]] else [];
      var rest := Digits(a[1..]);
      var tail := Digits(b);
      assert Digits(ab) == head + (rest + tail);
      assert head + (rest + tail) == (head + rest) + tail;
    }
  }

  /** A string of digits only is kept whole. */
  lemma {:induction false} DigitsOfDigits(s: string)
    requires forall i :: 0 <= i < |s| ==> IsDigit(s[i])
    ensures Digits(s) == s
  {
    if s != [] {
      DigitsOfDigits(s[1..]);
      assert s == [s[0]] + s[1..];
    }
  }

  /** The number of leading whitespace characters of `s`. */
  function LeadingBlanks(s: string): (n: nat)
    ensures n <= |s|
    ensures forall i :: 0 <= i < n ==> IsWhitespace(s[i])
    ensures n < |s| ==> !IsWhitespace(s[n])
  {
    if s == [] || !IsWhitespace(s[0]) then 0 else 1 + LeadingBlanks(s[1..])
  }

  /** Kotlin `trimStart()`: everything from the first non-whitespace character on. */
  function TrimStart(s: string): (r: string)
    ensures |r| <= |s| && (r == [] || !IsWhitespace(r[0]))
    ensures s == s[..|s| - |r|] + r && IsBlank(s[..|s| - |r|])
  {
    var n := LeadingBlanks(s);
    assert s == s[..n] + s[n..];
    s[n..]
  }

  function TrimEnd(s: string): (r: string)
    ensures |r| <= |s| && r == s[..|r|] && IsBlank(s[|r|..])
    ensures r == [] || !IsWhitespace(r[|r| - 1])
  {
    if s == [] || !IsWhitespace(s[|s| - 1]) then s
    else
      var r := TrimEnd(s[..|s| - 1]);
      assert s[|r|..] == s[..|s| - 1][|r|..] + [s[|s| - 1]];
      r
  }

  /** Kotlin `trim()`: leading and trailing whitespace removed. */
  function Trim(s: string): (r: string)
    ensures r == [] || (!IsWhitespace(r[0]) && !IsWhitespace(r[|r| - 1]))
    ensures exists i, j :: 0 <= i <= j <= |s| && r == s[i..j] && IsBlank(s[..i]) && IsBlank(s[j..])
  {
    var t := TrimStart(s);
    var r := TrimEnd(t);
    var i := |s| - |t|;
    var j := i + |r|;
    assert s[i..] == t;
    assert s[i..j] == t[..|r|];
    assert s[j..] == t[|r|..];
    r
  }

  function DigitChar(d: nat): (c: char)
    requires d < 10
    ensures IsDigit(c)
  {
    ('0' as int + d) as char
  }

  /** Decimal rendering of a natural number (Kotlin `toString()` / `%d`), no leading zeros. */
  function NatToString(n: nat): (r: string)
    ensures |r| >= 1
    ensures forall i :: 0 <= i < |r| ==> IsDigit(r[i])
  {
    if n < 10 then [DigitChar(n)] else NatToString(n / 10) + [DigitChar(n % 10)]
  }

  /** The number a string of decimal digits denotes. */
  function DigitsValue(s: string): nat
    requires forall i :: 0 <= i < |s| ==> IsDigit(s[i])
  {
    if s == [] then 0
    else
      assert IsDigit(s[|s| - 1]);
      DigitsValue(s[..|s| - 1]) * 10 + (s[|s| - 1] as int - '0' as int)
  }

  /** Reading a rendered number back gives the number. */
  lemma {:induction false} NatToStringValue(n: nat)
    ensures DigitsValue(NatToString(n)) == n
  {
    if n >= 10 {
      NatToStringValue(n / 10);
      var r := NatToString(n);
      assert r[..|r| - 1] == NatToString(n / 10);
    }
  }
}
