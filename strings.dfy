/**
  The handful of Python string operations the scripts rely on, written out:
  `str.strip()`, `str.lower()`, `sub in s`, `s.startswith(p)`, the regular
  expressions `\d+` (`re.findall`) and `^(\d+)` (`re.search`), `int(digits)`
  and `str(n)` / f-string formatting of a non-negative integer.
*/
module Strings {

  // ---------------------------------------------------------------------
  // Whitespace and str.strip()
  // ---------------------------------------------------------------------

  /** The characters for which Python's `str.isspace()` holds; `strip()` removes these. */
  predicate IsSpace(c: char)
  {
    c == ' ' || c == '\t' || c == '\n' || c == '\r' || c == '\U{000B}' || c == '\U{000C}'
    || ('\U{001C}' <= c <= '\U{001F}') || c == '\U{0085}' || c == '\U{00A0}' || c == '\U{1680}'
    || ('\U{2000}' <= c <= '\U{200A}') || c == '\U{2028}' || c == '\U{2029}' || c == '\U{202F}'
    || c == '\U{205F}' || c == '\U{3000}'
  }

  /** The first index at or after `i` that does not hold whitespace (or `|s|`). */
  function SkipSpace(s: string, i: nat): (a: nat)
    requires i <= |s|
    ensures i <= a <= |s|
    ensures forall k :: i <= k < a ==> IsSpace(s[k])
    ensures a < |s| ==> !IsSpace(s[a])
    decreases |s| - i
  {
    if i < |s| && IsSpace(s[i]) then SkipSpace(s, i + 1) else i
  }

  /** The end of `s[lo..hi]` once trailing whitespace is dropped. */
  function SkipSpaceBack(s: string, lo: nat, hi: nat): (b: nat)
    requires lo <= hi <= |s|
    ensures lo <= b <= hi
    ensures forall k :: b <= k < hi ==> IsSpace(s[k])
    ensures b > lo ==> !IsSpace(s[b - 1])
    decreases hi
  {
    if hi > lo && IsSpace(s[hi - 1]) then SkipSpaceBack(s, lo, hi - 1) else hi
  }

  /** `s.strip()`: the slice of `s` left after removing whitespace at both ends. */
  function Strip(s: string): string
  {
    var a := SkipSpace(s, 0);
    s[a..SkipSpaceBack(s, a, |s|)]
  }

  /**
    `Strip(s)` is the slice `s[a..b]`: only whitespace lies outside it and
    neither of its ends is whitespace.
  */
  lemma StripFacts(s: string)
    ensures var a := SkipSpace(s, 0);
            var b := SkipSpaceBack(s, a, |s|);
              a <= b <= |s| && Strip(s) == s[a..b]
              && (forall i :: 0 <= i < a ==> IsSpace(s[i]))
              && (forall i :: b <= i < |s| ==> IsSpace(s[i]))
              && (b > a ==> !IsSpace(s[a]) && !IsSpace(s[b - 1]))
  {
  }

  /** `strip()` keeps only characters of its input, and leaves no whitespace at either end. */
  lemma StripEnds(s: string)
    ensures forall x :: x in Strip(s) ==> x in s
    ensures |Strip(s)| > 0 ==> !IsSpace(Strip(s)[0]) && !IsSpace(Strip(s)[|Strip(s)| - 1])
  {
    StripFacts(s);
    var a := SkipSpace(s, 0);
    var b := SkipSpaceBack(s, a, |s|);
    forall x | x in s[a..b] ensures x in s {
      var k :| 0 <= k < b - a && s[a..b][k] == x;
      assert s[a + k] == x;
    }
  }

  /** A string with no whitespace at either end is its own `strip()`. */
  lemma {:induction false} StripUnchanged(s: string)
    requires |s| > 0 ==> !IsSpace(s[0]) && !IsSpace(s[|s| - 1])
    ensures Strip(s) == s
  {
  }

  // ---------------------------------------------------------------------
  // str.lower()
  // ---------------------------------------------------------------------

  /** Lower-cases an ASCII capital letter; every other character is unchanged. */
  function LowerChar(c: char): (r: char)
    ensures 'A' <= c <= 'Z' ==> r as int == c as int + 32
    ensures !('A' <= c <= 'Z') ==> r == c
  {
    if 'A' <= c <= 'Z' then (c as int + 32) as char else c
  }

  /** `s.lower()`, character by character (ASCII letters only). */
  function Lower(s: string): (r: string)
    ensures |r| == |s|
    ensures forall i :: 0 <= i < |s| ==> r[i] == LowerChar(s[i])
  {
    seq(|s|, i requires 0 <= i < |s| => LowerChar(s[i]))
  }

  // ---------------------------------------------------------------------
  // startswith and `in`
  // ---------------------------------------------------------------------

  /** `s.startswith(p)`. */
  predicate StartsWith(s: string, p: string)
  {
    |p| <= |s| && s[..|p|] == p
  }

  /** `t` sits in `s` at offset `i`. */
  predicate OccursAt(s: string, t: string, i: int)
  {
    0 <= i <= |s| - |t| && s[i..i + |t|] == t
  }

  /** `t in s` for strings: `t` occurs in `s` at some offset (the empty string always does). */
  predicate Contains(s: string, t: string)
    decreases |s|
  {
    StartsWith(s, t) || (|s| > 0 && Contains(s[1..], t))
  }

  /** `t` does not occur in `s` when one of its characters never occurs in `s`. */
  lemma MissingCharNotContained(s: string, t: string, c: char)
    requires c in t && c !in s
    ensures !Contains(s, t)
  {
    var m :| 0 <= m < |t| && t[m] == c;
    forall i | 0 <= i <= |s| - |t| ensures !OccursAt(s, t, i) {
      assert s[i..i + |t|][m] == s[i + m];
    }
    ContainsAt(s, t);
  }

  /** `Contains` holds exactly when `t` sits in `s` at some offset `i`. */
  lemma {:induction false} ContainsAt(s: string, t: string)
    ensures Contains(s, t) <==> exists i :: OccursAt(s, t, i)
    decreases |s|
  {
    if StartsWith(s, t) {
      assert OccursAt(s, t, 0);
    }
    if |s| > 0 {
      ContainsAt(s[1..], t);
      if Contains(s[1..], t) {
        var i :| OccursAt(s[1..], t, i);
        assert s[i + 1..i + 1 + |t|] == s[1..][i..i + |t|];
        assert OccursAt(s, t, i + 1);
      }
      forall i | OccursAt(s, t, i) && i >= 1
        ensures Contains(s[1..], t)
      {
        assert s[1..][i - 1..i - 1 + |t|] == s[i..i + |t|];
        assert OccursAt(s[1..], t, i - 1);
      }
      forall i | OccursAt(s, t, i) && i == 0
        ensures StartsWith(s, t)
      {
      }
    } else {
      forall i | OccursAt(s, t, i) ensures StartsWith(s, t) { assert i == 0; }
    }
  }

  /** If `t` occurs in `s`, then `t` occurs in any string that has `s` as a factor. */
  lemma ContainsWithin(pre: string, s: string, post: string, t: string)
    requires Contains(s, t)
    ensures Contains(pre + s + post, t)
  {
    ContainsAt(s, t);
    var i :| OccursAt(s, t, i);
    var w := pre + s + post;
    assert w[|pre| + i..|pre| + i + |t|] == s[i..i + |t|];
    assert OccursAt(w, t, |pre| + i);
    ContainsAt(w, t);
  }

  /**
    When the first character of `t` occurs in `s` only at position `p`, then
    `t in s` can only be decided at `p`.
  */
  lemma AnchoredContains(s: string, t: string, p: nat)
    requires 0 < |t| && p < |s|
    requires forall i :: 0 <= i < |s| && s[i] == t[0] ==> i == p
    ensures Contains(s, t) <==> StartsWith(s[p..], t)
  {
    ContainsAt(s, t);
    if Contains(s, t) {
      var i :| OccursAt(s, t, i);
      assert s[i] == s[i..i + |t|][0] == t[0];
      assert i == p;
      assert s[p..][..|t|] == s[p..p + |t|];
    }
    if StartsWith(s[p..], t) {
      assert s[p..p + |t|] == s[p..][..|t|];
      assert OccursAt(s, t, p);
    }
  }

  /** A string lacking one of `t`'s characters does not contain `t`. */
  lemma MissingChar(s: string, t: string, m: nat)
    requires m < |t| && t[m] !in s
    ensures !Contains(s, t)
  {
    ContainsAt(s, t);
    forall i ensures !OccursAt(s, t, i) {
      if 0 <= i <= |s| - |t| {
        assert s[i + m] in s;
        assert s[i..i + |t|][m] == s[i + m];
      }
    }
  }

  /** `t` sitting at offset `i` of `s` is found by `t in s`. */
  lemma OccursContains(s: string, t: string, i: int)
    requires OccursAt(s, t, i)
    ensures Contains(s, t)
  {
    ContainsAt(s, t);
  }

  /** A string never contains a longer one. */
  lemma {:induction false} ContainsLonger(s: string, t: string)
    requires |t| > |s|
    ensures !Contains(s, t)
    decreases |s|
  {
    if |s| > 0 {
      ContainsLonger(s[1..], t);
    }
  }

  /** Lower-casing works character by character, so it distributes over concatenation. */
  lemma LowerConcat(a: string, b: string)
    ensures Lower(a + b) == Lower(a) + Lower(b)
  {
  }

  /** Lower-casing twice is lower-casing once. */
  lemma LowerIdempotent(s: string)
    ensures Lower(Lower(s)) == Lower(s)
  {
  }

  /** `s.replace(pat, rep)`: every occurrence of `pat`, scanning left to right, replaced by `rep`. */
  function ReplaceAll(s: string, pat: string, rep: string): string
    requires |pat| > 0
    decreases |s|
  {
    if |s| == 0 then []
    else if StartsWith(s, pat) then rep + ReplaceAll(s[|pat|..], pat, rep)
    else [s[0]] + ReplaceAll(s[1..], pat, rep)
  }

  /** A string lacking the pattern's first character is left alone. */
  lemma {:induction false} ReplaceAbsent(s: string, pat: string, rep: string)
    requires |pat| > 0 && pat[0] !in s
    ensures ReplaceAll(s, pat, rep) == s
    decreases |s|
  {
    if |s| > 0 {
      assert s[0] in s;
      assert s == [s[0]] + s[1..];
      ReplaceAbsent(s[1..], pat, rep);
    }
  }

  /** A prefix lacking the pattern's first character passes through unchanged. */
  lemma {:induction false} ReplaceAfterAbsent(a: string, t: string, pat: string, rep: string)
    requires |pat| > 0 && pat[0] !in a
    ensures ReplaceAll(a + t, pat, rep) == a + ReplaceAll(t, pat, rep)
    decreases |a|
  {
    if |a| == 0 {
      assert a + t == t;
    } else {
      assert a[0] in a;
      assert (a + t)[0] == a[0] && (a + t)[1..] == a[1..] + t;
      assert !StartsWith(a + t, pat);
      ReplaceAfterAbsent(a[1..], t, pat, rep);
      assert a == [a[0]] + a[1..];
    }
  }

  /** An occurrence at the front is replaced. */
  lemma ReplaceAtStart(t: string, pat: string, rep: string)
    requires |pat| > 0
    ensures ReplaceAll(pat + t, pat, rep) == rep + ReplaceAll(t, pat, rep)
  {
    assert StartsWith(pat + t, pat);
    assert (pat + t)[|pat|..] == t;
  }

  // ---------------------------------------------------------------------
  // Digits: `\d`, `int(...)`, `str(n)`
  // ---------------------------------------------------------------------

  /** A decimal digit (ASCII). */
  predicate IsDigit(c: char)
  {
    '0' <= c <= '9'
  }

  /** Every character of `s` is a digit. */
  predicate AllDigits(s: string)
  {
    forall i :: 0 <= i < |s| ==> IsDigit(s[i])
  }

  /** No character of `s` is a digit. */
  predicate NoDigits(s: string)
  {
    forall i :: 0 <= i < |s| ==> !IsDigit(s[i])
  }

  /** The digit character for `d`. */
  function DigitChar(d: nat): (c: char)
    requires d < 10
    ensures IsDigit(c) && c as int - '0' as int == d
  {
    ('0' as int + d) as char
  }

  /** `int(s)` for a string of decimal digits (leading zeros allowed). */
  function DigitsToNat(s: string): nat
    requires AllDigits(s)
  {
    if |s| == 0 then 0
    else DigitsToNat(s[..|s| - 1]) * 10 + (s[|s| - 1] as int - '0' as int)
  }

  /**
    `str(n)`: the decimal digits of `n`, without leading zeros; `int` reads them
    back as `n`.
  */
  function NatToString(n: nat): (r: string)
    ensures |r| > 0 && AllDigits(r)
    ensures DigitsToNat(r) == n
    ensures r[0] == '0' ==> n == 0
    decreases n
  {
    if n < 10 then [DigitChar(n)]
    else
      var p := NatToString(n / 10);
      var r := p + [DigitChar(n % 10)];
      assert r[..|r| - 1] == p;
      r
  }

  /** A digit string not starting with '0' is positive. */
  lemma {:induction false} DigitsToNatPositive(s: string)
    requires |s| > 0 && AllDigits(s) && s[0] != '0'
    ensures DigitsToNat(s) > 0
  {
    if |s| > 1 {
      DigitsToNatPositive(s[..|s| - 1]);
    }
  }

  /** `str(int(s))` gives `s` back when `s` has no leading zero. */
  lemma {:induction false} DigitsToNatCanonical(s: string)
    requires |s| > 0 && AllDigits(s) && s[0] != '0'
    ensures NatToString(DigitsToNat(s)) == s
  {
    var n := DigitsToNat(s);
    if |s| > 1 {
      var p := s[..|s| - 1];
      DigitsToNatPositive(p);
      DigitsToNatCanonical(p);
      assert n / 10 == DigitsToNat(p) && n % 10 == s[|s| - 1] as int - '0' as int;
      assert s == p + [s[|s| - 1]];
    }
  }

  /** `str` is injective on naturals. */
  lemma NatToStringInjective(m: nat, n: nat)
    requires NatToString(m) == NatToString(n)
    ensures m == n
  {
    assert DigitsToNat(NatToString(m)) == m;
  }

  /** f-string formatting of an `int`: a minus sign, then the digits of its absolute value. */
  function IntToString(i: int): (r: string)
    ensures i >= 0 ==> r == NatToString(i)
    ensures i < 0 ==> r == "-" + NatToString(-i)
  {
    if i < 0 then "-" + NatToString(-i) else NatToString(i)
  }

  /** The first index at or after `i` that does not hold a digit (or `|s|`). */
  function SkipDigits(s: string, i: nat): (e: nat)
    requires i <= |s|
    ensures i <= e <= |s|
    ensures forall k :: i <= k < e ==> IsDigit(s[k])
    ensures e < |s| ==> !IsDigit(s[e])
    decreases |s| - i
  {
    if i < |s| && IsDigit(s[i]) then SkipDigits(s, i + 1) else i
  }

  /** The longest prefix of `s` that is made of digits: the match of `^(\d+)`, or "" if none. */
  function LeadingDigits(s: string): (r: string)
    ensures AllDigits(r)
  {
    s[..SkipDigits(s, 0)]
  }

  /** A digit prefix followed by a non-digit (or the end) is the leading digit run. */
  lemma LeadingDigitsOf(ds: string, rest: string)
    requires AllDigits(ds)
    requires |rest| > 0 ==> !IsDigit(rest[0])
    ensures LeadingDigits(ds + rest) == ds
  {
    var s := ds + rest;
    SkipDigitsAt(s, 0, |ds|);
    assert s[..|ds|] == ds;
  }

  /** `SkipDigits` stops at the first non-digit. */
  lemma {:induction false} SkipDigitsAt(s: string, i: nat, e: nat)
    requires i <= e <= |s|
    requires forall k :: i <= k < e ==> IsDigit(s[k])
    requires e < |s| ==> !IsDigit(s[e])
    ensures SkipDigits(s, i) == e
    decreases e - i
  {
    if i < e {
      SkipDigitsAt(s, i + 1, e);
    }
  }

  /**
    `re.findall(r'\d+', s)`: the maximal runs of digits in `s`, left to right.
    The list is empty exactly when `s` has no digit at all.
  */
  function DigitRuns(s: string): (r: seq<string>)
    ensures forall k :: 0 <= k < |r| ==> |r[k]| > 0 && AllDigits(r[k])
    ensures |r| == 0 <==> NoDigits(s)
    decreases |s|
  {
    if |s| == 0 then []
    else if IsDigit(s[0]) then
      var e := SkipDigits(s, 0);
      [s[..e]] + DigitRuns(s[e..])
    else
      var r := DigitRuns(s[1..]);
      assert NoDigits(s[1..]) ==> NoDigits(s) by {
        if NoDigits(s[1..]) {
          forall i | 0 <= i < |s| ensures !IsDigit(s[i]) {
            if i > 0 { assert s[i] == s[1..][i - 1]; }
          }
        }
      }
      r
  }

  /** A string that contains a digit-bearing `t` has at least one digit run. */
  lemma DigitRunsOfContains(s: string, t: string, k: nat)
    requires Contains(s, t)
    requires k < |t| && IsDigit(t[k])
    ensures |DigitRuns(s)| > 0
  {
    ContainsAt(s, t);
    var i :| OccursAt(s, t, i);
    assert s[i + k] == s[i..i + |t|][k] == t[k];
  }

  /** Text without digits in front of a string adds no run. */
  lemma {:induction false} DigitRunsAfterText(p: string, s: string)
    requires NoDigits(p)
    ensures DigitRuns(p + s) == DigitRuns(s)
  {
    if |p| > 0 {
      assert (p + s)[1..] == p[1..] + s;
      DigitRunsAfterText(p[1..], s);
    } else {
      assert p + s == s;
    }
  }

  /**
    A run of digits followed by a non-digit (or the end) is the first run, and
    the rest are the runs after it; with `DigitRunsAfterText` this fixes the
    runs of every string as its maximal digit runs, left to right.
  */
  lemma DigitRunsCons(d: string, s: string)
    requires |d| > 0 && AllDigits(d)
    requires |s| == 0 || !IsDigit(s[0])
    ensures DigitRuns(d + s) == [d] + DigitRuns(s)
  {
    var t := d + s;
    SkipDigitsAt(t, 0, |d|);
    assert t[..|d|] == d;
    assert t[|d|..] == s;
  }

  /** A non-empty string of digits is a single run. */
  lemma DigitRunsOfDigits(d: string)
    requires |d| > 0 && AllDigits(d)
    ensures DigitRuns(d) == [d]
  {
    SkipDigitsAt(d, 0, |d|);
    assert d[..|d|] == d;
  }
}
