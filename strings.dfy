/**
  String primitives used by both the C# back end and the TypeScript front end:
  ASCII case folding, ordinal prefix/suffix/substring tests, joining and
  splitting on a separator, literal (non-regex) replacement and decimal
  rendering of naturals.
*/
module Strings {

  // ----- case folding (ASCII only) -----

  function LowerChar(c: char): char {
    if 'A' <= c <= 'Z' then (c as int + 32) as char else c
  }

  function Lower(s: string): (r: string)
    ensures |r| == |s|
    ensures forall i :: 0 <= i < |s| ==> r[i] == LowerChar(s[i])
  {
    seq(|s|, i requires 0 <= i < |s| => LowerChar(s[i]))
  }

  /** Folding twice changes nothing more than folding once. */
  lemma LowerIdempotent(s: string)
    ensures Lower(Lower(s)) == Lower(s)
  {
  }

  /** Text without capital letters is already folded. */
  lemma LowerNoCapitals(s: string)
    requires forall i :: 0 <= i < |s| ==> !('A' <= s[i] <= 'Z')
    ensures Lower(s) == s
  {
    assert forall i :: 0 <= i < |s| ==> Lower(s)[i] == s[i];
  }

  // ----- ordinal tests -----

  predicate StartsWith(s: string, prefix: string) {
    |prefix| <= |s| && s[..|prefix|] == prefix
  }

  predicate EndsWith(s: string, suffix: string) {
    |suffix| <= |s| && s[|s| - |suffix|..] == suffix
  }

  /** `s.EndsWith(suffix, StringComparison.OrdinalIgnoreCase)`, for ASCII letters. */
  predicate EndsWithIgnoreCase(s: string, suffix: string) {
    EndsWith(Lower(s), Lower(suffix))
  }

  /** `a.Equals(b, StringComparison.OrdinalIgnoreCase)`, for ASCII letters. */
  predicate EqualsIgnoreCase(a: string, b: string) {
    Lower(a) == Lower(b)
  }

  /** Ordinal substring test (`string.Contains`, `String.prototype.includes`). */
  predicate Contains(s: string, part: string) {
    exists i :: 0 <= i <= |s| - |part| && OccursAt(s, part, i)
  }

  predicate OccursAt(s: string, part: string, i: int)
    requires 0 <= i <= |s| - |part|
  {
    s[i..i + |part|] == part
  }

  lemma StartsWithContains(s: string, part: string)
    requires StartsWith(s, part)
    ensures Contains(s, part)
  {
    assert OccursAt(s, part, 0);
  }

  lemma ContainsInMiddle(a: string, b: string, c: string)
    ensures Contains(a + b + c, b)
  {
    var s := a + b + c;
    assert s[|a|..|a| + |b|] == b;
    assert OccursAt(s, b, |a|);
  }

  lemma ContainsExtended(prefix: string, s: string, suffix: string, part: string)
    requires Contains(s, part)
    ensures Contains(prefix + s + suffix, part)
  {
    var i :| 0 <= i <= |s| - |part| && OccursAt(s, part, i);
    var t := prefix + s + suffix;
    assert t[|prefix| + i..|prefix| + i + |part|] == s[i..i + |part|];
    assert OccursAt(t, part, |prefix| + i);
  }

  // ----- joining -----

  /** `string.Join(sep, parts)` / `parts.join(sep)`. */
  function Join(parts: seq<string>, sep: string): string
    decreases |parts|
  {
    if |parts| == 0 then ""
    else if |parts| == 1 then parts[0]
    else parts[0] + sep + Join(parts[1..], sep)
  }

  lemma {:induction false} JoinSnoc(parts: seq<string>, last: string, sep: string)
    requires |parts| >= 1
    ensures Join(parts + [last], sep) == Join(parts, sep) + sep + last
    decreases |parts|
  {
    if |parts| == 1 {
      assert parts + [last] == [parts[0], last];
      assert ([parts[0], last])[1..] == [last];
    } else {
      assert (parts + [last])[1..] == parts[1..] + [last];
      JoinSnoc(parts[1..], last, sep);
    }
  }

  /** Every part occurs, verbatim, in the joined text. */
  lemma {:induction false} JoinContainsPart(parts: seq<string>, sep: string, i: nat)
    requires i < |parts|
    ensures Contains(Join(parts, sep), parts[i])
    decreases |parts|
  {
    if |parts| == 1 {
      ContainsInMiddle("", parts[0], "");
      assert "" + parts[0] + "" == parts[0];
    } else if i == 0 {
      ContainsInMiddle("", parts[0], sep + Join(parts[1..], sep));
      assert "" + parts[0] + (sep + Join(parts[1..], sep)) == Join(parts, sep);
    } else {
      JoinContainsPart(parts[1..], sep, i - 1);
      ContainsExtended(parts[0] + sep, Join(parts[1..], sep), "", parts[i]);
      assert parts[0] + sep + Join(parts[1..], sep) + "" == Join(parts, sep);
    }
  }

  /** Concatenation of all parts, in order. */
  function Concat(parts: seq<string>): string
    decreases |parts|
  {
    if |parts| == 0 then "" else Concat(parts[..|parts| - 1]) + parts[|parts| - 1]
  }

  /** Every part occurs, verbatim, in the concatenation. */
  lemma {:induction false} ConcatContainsPart(parts: seq<string>, i: nat)
    requires i < |parts|
    ensures Contains(Concat(parts), parts[i])
    decreases |parts|
  {
    var init, last := parts[..|parts| - 1], parts[|parts| - 1];
    assert Concat(parts) == Concat(init) + last;
    if i == |parts| - 1 {
      ContainsInMiddle(Concat(init), last, "");
      assert Concat(init) + last + "" == Concat(parts);
    } else {
      assert init[i] == parts[i];
      ConcatContainsPart(init, i);
      ContainsExtended("", Concat(init), last, parts[i]);
      assert "" + Concat(init) + last == Concat(parts);
    }
  }

  // ----- splitting -----

  function IndexOf(s: string, c: char): (i: nat)
    requires c in s
    ensures i < |s| && s[i] == c && c !in s[..i]
  {
    if s[0] == c then 0 else 1 + IndexOf(s[1..], c)
  }

  /** `s.split(c)` in JavaScript: always at least one piece, none holding `c`. */
  function Split(s: string, c: char): (pieces: seq<string>)
    ensures |pieces| >= 1
    ensures forall k :: 0 <= k < |pieces| ==> c !in pieces[k]
    decreases |s|
  {
    if c in s then
      var i := IndexOf(s, c);
      [s[..i]] + Split(s[i + 1..], c)
    else [s]
  }

  /** Splitting and joining back on the same character is the identity. */
  lemma {:induction false} JoinSplit(s: string, c: char)
    ensures Join(Split(s, c), [c]) == s
    decreases |s|
  {
    if c in s {
      var i := IndexOf(s, c);
      var rest := Split(s[i + 1..], c);
      JoinSplit(s[i + 1..], c);
      var pieces := [s[..i]] + rest;
      assert Split(s, c) == pieces;
      assert pieces[0] == s[..i] && pieces[1..] == rest;
      assert Join(pieces, [c]) == s[..i] + [c] + Join(rest, [c]);
      assert s == s[..i] + [c] + s[i + 1..];
    }
  }

  /** Joining pieces free of `c` and splitting on `c` gives the pieces back. */
  lemma {:induction false} SplitJoin(parts: seq<string>, c: char)
    requires |parts| >= 1
    requires forall k :: 0 <= k < |parts| ==> c !in parts[k]
    ensures Split(Join(parts, [c]), c) == parts
    decreases |parts|
  {
    if |parts| == 1 {
    } else {
      var tail := Join(parts[1..], [c]);
      var s := parts[0] + [c] + tail;
      assert Join(parts, [c]) == s;
      assert c in s by { assert s[|parts[0]|] == c; }
      assert s[..|parts[0]|] == parts[0];
      assert IndexOf(s, c) == |parts[0]| by {
        var i := IndexOf(s, c);
        if i > |parts[0]| {
          assert false;
        }
      }
      assert s[|parts[0]| + 1..] == tail;
      SplitJoin(parts[1..], c);
    }
  }

  // ----- literal replacement -----

  /**
    `s.Replace(pattern, replacement)` of .NET: an ordinal, left-to-right scan
    that replaces every non-overlapping occurrence of the literal `pattern`.
  */
  function ReplaceAll(s: string, pattern: string, replacement: string): string
    requires |pattern| > 0
    decreases |s|
  {
    if |s| < |pattern| then s
    else if s[..|pattern|] == pattern then replacement + ReplaceAll(s[|pattern|..], pattern, replacement)
    else [s[0]] + ReplaceAll(s[1..], pattern, replacement)
  }

  /** Replacing a single character by text that lacks it removes it entirely. */
  lemma {:induction false} ReplaceCharRemoves(s: string, c: char, replacement: string)
    requires c !in replacement
    ensures c !in ReplaceAll(s, [c], replacement)
    decreases |s|
  {
    if |s| >= 1 {
      if s[..1] == [c] {
        ReplaceCharRemoves(s[1..], c, replacement);
      } else {
        assert s[0] != c by { assert s[..1][0] == s[0]; }
        ReplaceCharRemoves(s[1..], c, replacement);
      }
    }
  }

  /** Replacing one character by another is a pointwise substitution. */
  lemma {:induction false} ReplaceCharPointwise(s: string, c: char, d: char)
    ensures ReplaceAll(s, [c], [d]) == seq(|s|, i requires 0 <= i < |s| => if s[i] == c then d else s[i])
    decreases |s|
  {
    if |s| >= 1 {
      ReplaceCharPointwise(s[1..], c, d);
      var tail := seq(|s| - 1, i requires 0 <= i < |s| - 1 => if s[1..][i] == c then d else s[1..][i]);
      var whole := seq(|s|, i requires 0 <= i < |s| => if s[i] == c then d else s[i]);
      assert whole == [whole[0]] + tail;
      assert s[..1] == [s[0]];
    }
  }

  /** Text that lacks the pattern's first character passes through unchanged. */
  lemma {:induction false} ReplaceSkipsPrefix(s: string, tail: string, pattern: string, replacement: string)
    requires |pattern| > 0 && pattern[0] !in s
    ensures ReplaceAll(s + tail, pattern, replacement) == s + ReplaceAll(tail, pattern, replacement)
    decreases |s|
  {
    var t := s + tail;
    if |s| == 0 {
      assert t == tail;
    } else if |t| < |pattern| {
      assert ReplaceAll(tail, pattern, replacement) == tail;
    } else {
      assert t[..|pattern|] != pattern by {
        assert t[..|pattern|][0] == s[0];
      }
      assert t[1..] == s[1..] + tail;
      ReplaceSkipsPrefix(s[1..], tail, pattern, replacement);
      assert ReplaceAll(t, pattern, replacement) == [s[0]] + (s[1..] + ReplaceAll(tail, pattern, replacement));
      assert s == [s[0]] + s[1..];
    }
  }

  /** Characters that occur neither in `s` nor in `replacement` do not appear. */
  lemma {:induction false} ReplaceAllChars(s: string, pattern: string, replacement: string, c: char)
    requires |pattern| > 0
    requires c !in s && c !in replacement
    ensures c !in ReplaceAll(s, pattern, replacement)
    decreases |s|
  {
    if |s| >= |pattern| {
      if s[..|pattern|] == pattern {
        ReplaceAllChars(s[|pattern|..], pattern, replacement, c);
      } else {
        ReplaceAllChars(s[1..], pattern, replacement, c);
      }
    }
  }

  // ----- UTF-16 length (.NET `string.Length`) -----

  /** Code units of one character: two for a character outside the Basic Multilingual Plane (a surrogate pair). */
  function Utf16Units(c: char): nat {
    if c as int >= 0x1_0000 then 2 else 1
  }

  predicate InBmp(s: string) {
    forall i :: 0 <= i < |s| ==> s[i] as int < 0x1_0000
  }

  /** `s.Length` in .NET: the number of UTF-16 code units. */
  function Utf16Length(s: string): (n: nat)
    ensures |s| <= n <= 2 * |s|
  {
    Utf16Count(s, |s|)
  }

  /** Code units of the first `k` characters of `s`. */
  function Utf16Count(s: string, k: nat): (n: nat)
    requires k <= |s|
    ensures k <= n <= 2 * k
  {
    if k == 0 then 0 else Utf16Count(s, k - 1) + Utf16Units(s[k - 1])
  }

  /** The count only looks at the characters it covers. */
  lemma {:induction false} Utf16CountAgree(s: string, t: string, k: nat)
    requires k <= |s| && k <= |t| && s[..k] == t[..k]
    ensures Utf16Count(s, k) == Utf16Count(t, k)
  {
    if k > 0 {
      assert s[k - 1] == s[..k][k - 1] && t[k - 1] == t[..k][k - 1];
      assert s[..k - 1] == s[..k][..k - 1] && t[..k - 1] == t[..k][..k - 1];
      Utf16CountAgree(s, t, k - 1);
    }
  }

  /** Counting the first `k` characters is measuring the prefix of length `k`. */
  lemma Utf16CountPrefix(s: string, k: nat)
    requires k <= |s|
    ensures Utf16Count(s, k) == Utf16Length(s[..k])
  {
    Utf16CountAgree(s, s[..k], k);
  }

  /** Without surrogate pairs, code units and characters coincide. */
  lemma Utf16LengthBmp(s: string)
    requires InBmp(s)
    ensures Utf16Length(s) == |s|
  {
    Utf16CountBmp(s, |s|);
  }

  lemma {:induction false} Utf16CountBmp(s: string, k: nat)
    requires k <= |s| && InBmp(s)
    ensures Utf16Count(s, k) == k
  {
    if k > 0 {
      Utf16CountBmp(s, k - 1);
    }
  }

  lemma Utf16LengthAppend(a: string, b: string)
    ensures Utf16Length(a + b) == Utf16Length(a) + Utf16Length(b)
  {
    Utf16CountAppend(a, b, |b|);
  }

  lemma {:induction false} Utf16CountAppend(a: string, b: string, k: nat)
    requires k <= |b|
    ensures Utf16Count(a + b, |a| + k) == Utf16Length(a) + Utf16Count(b, k)
  {
    if k > 0 {
      assert (a + b)[|a| + k - 1] == b[k - 1];
      Utf16CountAppend(a, b, k - 1);
    } else {
      assert (a + b)[..|a|] == a[..|a|];
      Utf16CountAgree(a + b, a, |a|);
    }
  }

  /**
    How many whole characters fit in `units` code units: scanning from
    character `k`, with `used` units already taken by `s[..k]`.
  */
  function Utf16Fit(s: string, units: nat, k: nat, used: nat): (n: nat)
    requires k <= |s| && used == Utf16Count(s, k) && used <= units
    ensures k <= n <= |s| && Utf16Count(s, n) <= units
    ensures n < |s| ==> units < Utf16Count(s, n + 1)
    decreases |s| - k
  {
    if k == |s| then k
    else if used + Utf16Units(s[k]) > units then k
    else Utf16Fit(s, units, k + 1, used + Utf16Units(s[k]))
  }

  /**
    The longest prefix of whole characters that fits in `units` code units:
    `s.Substring(0, units)` when the cut falls between characters.
  */
  function Utf16Prefix(s: string, units: nat): (p: string)
    ensures |p| <= |s| && p == s[..|p|]
    ensures Utf16Length(p) <= units
    ensures |p| < |s| ==> units < Utf16Length(s[..|p| + 1])
  {
    var n := Utf16Fit(s, units, 0, 0);
    Utf16CountPrefix(s, n);
    if n < |s| then Utf16CountPrefix(s, n + 1); s[..n] else s[..n]
  }

  /** Text without surrogate pairs is cut after exactly `units` characters. */
  lemma Utf16PrefixBmp(s: string, units: nat)
    requires InBmp(s) && units <= |s|
    ensures Utf16Prefix(s, units) == s[..units]
  {
    var n := |Utf16Prefix(s, units)|;
    assert InBmp(s[..n]);
    Utf16LengthBmp(s[..n]);
    if n < |s| {
      assert InBmp(s[..n + 1]);
      Utf16LengthBmp(s[..n + 1]);
    }
  }

  // ----- decimal rendering -----

  function DigitChar(d: nat): (c: char)
    requires d < 10
    ensures '0' <= c <= '9'
  {
    ('0' as int + d) as char
  }

  predicate AllDigits(s: string) {
    forall k :: 0 <= k < |s| ==> '0' <= s[k] <= '9'
  }

  /** `String(n)` / `n.ToString()` for a natural number. */
  function DecimalString(n: nat): (s: string)
    ensures |s| >= 1 && AllDigits(s)
  {
    if n < 10 then [DigitChar(n)] else DecimalString(n / 10) + [DigitChar(n % 10)]
  }

  function DecimalValue(s: string): nat
    requires AllDigits(s)
  {
    if |s| == 0 then 0
    else DecimalValue(s[..|s| - 1]) * 10 + (s[|s| - 1] as int - '0' as int)
  }

  /** Reading back the decimal rendering of `n` gives `n`. */
  lemma {:induction false} DecimalRoundTrip(n: nat)
    ensures DecimalValue(DecimalString(n)) == n
  {
    if n >= 10 {
      var s := DecimalString(n);
      assert s[..|s| - 1] == DecimalString(n / 10);
      DecimalRoundTrip(n / 10);
    }
  }

  /** Distinct naturals have distinct decimal renderings. */
  lemma DecimalInjective(a: nat, b: nat)
    requires a != b
    ensures DecimalString(a) != DecimalString(b)
  {
    DecimalRoundTrip(a);
    DecimalRoundTrip(b);
  }
}
