/**
 * String helpers shared by the model: ASCII digits, prefixes and suffixes,
 * substring search, PHP's str_replace and truthiness of strings, JavaScript/PHP trim, ASCII lower-casing,
 * decimal rendering and single-character split.
 */
module Strs {
  import opened Wrappers

  predicate IsDigit(c: char) { '0' <= c <= '9' }

  predicate AllDigits(s: string) { forall i :: 0 <= i < |s| ==> IsDigit(s[i]) }

  predicate StartsWith(s: string, p: string) { |p| <= |s| && s[..|p|] == p }

  predicate EndsWith(s: string, p: string) { |p| <= |s| && s[|s| - |p|..] == p }

  /** `sub` occurs in `s` starting at index `i`. */
  predicate OccursAt(s: string, sub: string, i: nat) { i + |sub| <= |s| && s[i..i + |sub|] == sub }

  predicate Contains(s: string, sub: string) { exists i :: 0 <= i <= |s| && OccursAt(s, sub, i) }

  /** First occurrence of `sub` in `s` at or after `from` (JavaScript indexOf, PHP strpos). */
  function FindFrom(s: string, sub: string, from: nat): (r: Option<nat>)
    ensures r.Some? ==> from <= r.value && OccursAt(s, sub, r.value)
    ensures r.Some? ==> forall j: nat :: from <= j < r.value ==> !OccursAt(s, sub, j)
    ensures r.None? ==> forall j: nat :: from <= j ==> !OccursAt(s, sub, j)
    decreases |s| - from
  {
    if from + |sub| > |s| then None
    else if OccursAt(s, sub, from) then Some(from)
    else FindFrom(s, sub, from + 1)
  }

  function IndexOf(s: string, sub: string): (r: Option<nat>)
    ensures r.Some? <==> Contains(s, sub)
    ensures r.Some? ==> OccursAt(s, sub, r.value)
  {
    FindFrom(s, sub, 0)
  }

  /** A character that occurs nowhere before `p` is absent from the prefix of length `p`. */
  lemma NoCharBefore(s: string, c: char, p: nat)
    requires p <= |s|
    requires forall j: nat :: j < p ==> !OccursAt(s, [c], j)
    ensures c !in s[..p]
  {
    forall j | 0 <= j < p ensures s[j] != c {
      assert !OccursAt(s, [c], j);
      assert s[j..j + 1] == [s[j]];
    }
  }

  /** The first occurrence of a character is where it stands when it is absent before. */
  lemma IndexOfFirstChar(s: string, c: char, p: nat)
    requires p < |s| && s[p] == c && c !in s[..p]
    ensures IndexOf(s, [c]) == Some(p)
  {
    assert OccursAt(s, [c], p) by {
      assert s[p..p + 1] == [c];
    }
    var r := FindFrom(s, [c], 0);
    assert r.Some?;
    assert r.value >= p by {
      assert forall j :: 0 <= j < p ==> s[..p][j] == s[j];
    }
  }

  /** Equal texts with the same prefix and suffix have the same middle. */
  lemma MiddleInjective(pre: string, a: string, b: string, suf: string)
    requires pre + a + suf == pre + b + suf
    ensures a == b
  {
    var x := pre + a + suf;
    assert |a| == |b|;
    assert a == x[|pre|..|pre| + |a|];
    assert b == (pre + b + suf)[|pre|..|pre| + |b|];
  }

  /**
   * PHP `str_replace($pat, $rep, $s)` for a non-empty search string: every
   * non-overlapping occurrence, found left to right, is replaced.
   */
  function ReplaceAll(s: string, pat: string, rep: string): (r: string)
    requires |pat| > 0
    ensures rep == pat ==> r == s
    ensures |rep| == |pat| ==> |r| == |s|
    decreases |s|
  {
    if |s| < |pat| then s
    else if s[..|pat|] == pat then
      assert s == s[..|pat|] + s[|pat|..];
      rep + ReplaceAll(s[|pat|..], pat, rep)
    else
      assert s == [s[0]] + s[1..];
      [s[0]] + ReplaceAll(s[1..], pat, rep)
  }

  /** A string without any occurrence of the pattern is left as it is. */
  lemma {:induction false} ReplaceAllAbsent(s: string, pat: string, rep: string)
    requires |pat| > 0 && !Contains(s, pat)
    ensures ReplaceAll(s, pat, rep) == s
    decreases |s|
  {
    if |s| >= |pat| {
      assert !OccursAt(s, pat, 0);
      assert s[..|pat|] != pat;
      forall i: nat ensures !OccursAt(s[1..], pat, i) {
        if OccursAt(s[1..], pat, i) {
          assert s[1..][i..i + |pat|] == s[i + 1..i + 1 + |pat|];
          assert OccursAt(s, pat, i + 1);
        }
      }
      ReplaceAllAbsent(s[1..], pat, rep);
      assert s == [s[0]] + s[1..];
    }
  }

  /** Text in which no occurrence of the pattern starts is copied through unchanged. */
  lemma {:induction false} ReplaceAllInertPrefix(u: string, rest: string, pat: string, rep: string)
    requires |pat| > 0
    requires forall i: nat :: i < |u| ==> !OccursAt(u + rest, pat, i)
    ensures ReplaceAll(u + rest, pat, rep) == u + ReplaceAll(rest, pat, rep)
    decreases |u|
  {
    if u == [] {
      assert u + rest == rest;
    } else {
      var s := u + rest;
      var t := u[1..] + rest;
      assert s[1..] == t;
      forall i: nat | i < |u[1..]| ensures !OccursAt(t, pat, i) {
        assert !OccursAt(s, pat, i + 1);
        if i + |pat| <= |t| {
          assert t[i..i + |pat|] == s[i + 1..i + 1 + |pat|];
        }
      }
      ReplaceAllInertPrefix(u[1..], rest, pat, rep);
      if |s| < |pat| {
        assert |rest| < |pat|;
        calc {
          ReplaceAll(s, pat, rep);
          s;
          u + rest;
          { assert ReplaceAll(rest, pat, rep) == rest; }
          u + ReplaceAll(rest, pat, rep);
        }
      } else {
        assert !OccursAt(s, pat, 0);
        assert s[..|pat|] != pat;
        calc {
          ReplaceAll(s, pat, rep);
          [s[0]] + ReplaceAll(t, pat, rep);
          [u[0]] + (u[1..] + ReplaceAll(rest, pat, rep));
          { assert [u[0]] + u[1..] == u; }
          u + ReplaceAll(rest, pat, rep);
        }
      }
    }
  }

  /** An occurrence of the pattern at the front is replaced by the replacement. */
  lemma ReplaceAllMatchFront(rest: string, pat: string, rep: string)
    requires |pat| > 0
    ensures ReplaceAll(pat + rest, pat, rep) == rep + ReplaceAll(rest, pat, rep)
  {
    var s := pat + rest;
    assert s[..|pat|] == pat;
    assert s[|pat|..] == rest;
  }

  /** JavaScript `String.prototype.trim` whitespace and line terminators. */
  predicate IsJsSpace(c: char)
  {
    c == ' ' || c == '\t' || c == '\n' || c == '\r' || c == '\U{B}' || c == '\U{C}' ||
    c == '\U{A0}' || c == '\U{1680}' || ('\U{2000}' <= c <= '\U{200A}') ||
    c == '\U{2028}' || c == '\U{2029}' || c == '\U{202F}' || c == '\U{205F}' ||
    c == '\U{3000}' || c == '\U{FEFF}'
  }

  /** The characters PHP's `trim` strips by default. */
  predicate IsPhpSpace(c: char)
  {
    c == ' ' || c == '\t' || c == '\n' || c == '\r' || c == '\U{0}' || c == '\U{B}'
  }

  datatype Flavour = Js | Php

  predicate IsSpace(c: char, f: Flavour)
  {
    match f
    case Js => IsJsSpace(c)
    case Php => IsPhpSpace(c)
  }

  function TrimStart(s: string, f: Flavour): (r: string)
    ensures |r| <= |s| && r == s[|s| - |r|..]
    ensures r == [] || !IsSpace(r[0], f)
    ensures forall i :: 0 <= i < |s| - |r| ==> IsSpace(s[i], f)
    decreases |s|
  {
    if |s| > 0 && IsSpace(s[0], f) then TrimStart(s[1..], f) else s
  }

  function TrimEnd(s: string, f: Flavour): (r: string)
    ensures |r| <= |s| && r == s[..|r|]
    ensures r == [] || !IsSpace(r[|r| - 1], f)
    ensures forall i :: |r| <= i < |s| ==> IsSpace(s[i], f)
    decreases |s|
  {
    if |s| > 0 && IsSpace(s[|s| - 1], f) then TrimEnd(s[..|s| - 1], f) else s
  }

  /** Leading and trailing spaces of the flavour are removed, and nothing else. */
  function Trim(s: string, f: Flavour): (r: string)
    ensures |r| <= |s|
    ensures r == [] || (!IsSpace(r[0], f) && !IsSpace(r[|r| - 1], f))
    ensures Contains(s, r)
  {
    var a := TrimStart(s, f);
    var r := TrimEnd(a, f);
    assert OccursAt(s, r, |s| - |a|);
    r
  }

  lemma {:induction false} TrimStartNoSpace(s: string, f: Flavour)
    requires s == [] || !IsSpace(s[0], f)
    ensures TrimStart(s, f) == s
  {
  }

  /** Trimming twice is trimming once. */
  lemma TrimIdempotent(s: string, f: Flavour)
    ensures Trim(Trim(s, f), f) == Trim(s, f)
  {
    var t := Trim(s, f);
    assert TrimStart(t, f) == t;
    if t != [] {
      assert TrimEnd(t, f) == t;
    }
  }

  /** A string with no space at either end is its own trim. */
  lemma TrimOfTrimmed(s: string, f: Flavour)
    requires s == [] || (!IsSpace(s[0], f) && !IsSpace(s[|s| - 1], f))
    ensures Trim(s, f) == s
  {
  }

  function LowerChar(c: char): (d: char)
    ensures 'A' <= c <= 'Z' ==> d as int == c as int + 32
    ensures !('A' <= c <= 'Z') ==> d == c
  {
    if 'A' <= c <= 'Z' then (c as int + 32) as char else c
  }

  /** ASCII lower-casing; letters outside A-Z are kept. */
  function Lower(s: string): (r: string)
    ensures |r| == |s|
    ensures forall i :: 0 <= i < |s| ==> r[i] == LowerChar(s[i])
  {
    seq(|s|, i requires 0 <= i < |s| => LowerChar(s[i]))
  }

  lemma LowerIdempotent(s: string)
    ensures Lower(Lower(s)) == Lower(s)
  {
  }

  function DigitChar(d: nat): (c: char)
    requires d < 10
    ensures IsDigit(c)
  {
    ('0' as int + d) as char
  }

  function DigitValue(c: char): (d: nat)
    requires IsDigit(c)
    ensures d < 10 && DigitChar(d) == c
  {
    c as int - '0' as int
  }

  /**
   * Byte-wise comparison of strings, as PHP's strcmp(a, b) <= 0 and PHP 8's
   * `<=` on non-numeric strings; on code points it agrees with UTF-8 byte order.
   */
  predicate StrLe(a: string, b: string)
  {
    a == [] || (b != [] && (a[0] < b[0] || (a[0] == b[0] && StrLe(a[1..], b[1..]))))
  }

  /** Any two strings are ordered one way or the other. */
  lemma {:induction false} StrLeTotal(a: string, b: string)
    ensures StrLe(a, b) || StrLe(b, a)
    decreases |a|
  {
    if a != [] && b != [] && a[0] == b[0] {
      StrLeTotal(a[1..], b[1..]);
    }
  }

  lemma {:induction false} StrLeTransitive(a: string, b: string, c: string)
    requires StrLe(a, b) && StrLe(b, c)
    ensures StrLe(a, c)
    decreases |a|
  {
    if a != [] && a[0] == b[0] && b[0] == c[0] {
      StrLeTransitive(a[1..], b[1..], c[1..]);
    }
  }

  /** PHP's `!$s` on a string: true for "" and "0". */
  predicate IsFalsy(s: string)
  {
    s == "" || s == "0"
  }

  /** `$v ?: ''` on a nullable string: the value when it is truthy, else "". */
  function OrEmpty(v: Option<string>): (r: string)
    ensures v.None? || IsFalsy(v.value) <==> r == ""
    ensures r != "" ==> v == Some(r)
  {
    if v.None? || IsFalsy(v.value) then "" else v.value
  }

  /** Decimal rendering without leading zeros (PHP string conversion, JavaScript toString). */
  function NatToString(n: nat): (s: string)
    ensures |s| > 0 && AllDigits(s)
    ensures n < 10 <==> |s| == 1
    ensures |s| == 1 || s[0] != '0'
  {
    if n < 10 then [DigitChar(n)] else NatToString(n / 10) + [DigitChar(n % 10)]
  }

  /** Decimal text of an integer, as Go's %v and JavaScript template strings print it. */
  function IntToString(n: int): (s: string)
    ensures |s| > 0
    ensures n >= 0 ==> s == NatToString(n)
    ensures n < 0 ==> s == "-" + NatToString(-n)
  {
    if n >= 0 then NatToString(n) else "-" + NatToString(-n)
  }

  /** The value of a string of decimal digits (leading zeros allowed). */
  function DigitsValue(s: string): (n: nat)
    requires AllDigits(s)
    decreases |s|
  {
    if s == [] then 0 else DigitsValue(s[..|s| - 1]) * 10 + DigitValue(s[|s| - 1])
  }

  /** Rendering and reading back give the same number. */
  lemma {:induction false} DigitsValueOfNatToString(n: nat)
    ensures DigitsValue(NatToString(n)) == n
  {
    if n >= 10 {
      DigitsValueOfNatToString(n / 10);
      var s := NatToString(n);
      assert s[..|s| - 1] == NatToString(n / 10);
    }
  }

  /** Digits without a leading zero are the rendering of their value. */
  lemma {:induction false} NatToStringOfDigits(s: string)
    requires |s| > 0 && AllDigits(s) && (|s| == 1 || s[0] != '0')
    ensures NatToString(DigitsValue(s)) == s
    decreases |s|
  {
    var n := DigitsValue(s);
    if |s| > 1 {
      var front := s[..|s| - 1];
      NatToStringOfDigits(front);
      DigitsNonZero(front);
      assert n / 10 == DigitsValue(front) && n % 10 == DigitValue(s[|s| - 1]);
    }
  }

  /** Digits that do not start with a zero have a positive value. */
  lemma {:induction false} DigitsNonZero(s: string)
    requires |s| > 0 && AllDigits(s) && s[0] != '0'
    ensures DigitsValue(s) > 0
    decreases |s|
  {
    if |s| > 1 {
      DigitsNonZero(s[..|s| - 1]);
    }
  }

  /** JavaScript `padStart(2, '0')` applied to a decimal rendering. */
  function Pad2(n: nat): (s: string)
    ensures |s| >= 2 && AllDigits(s)
    ensures n < 100 ==> |s| == 2
  {
    var d := NatToString(n);
    if |d| < 2 then "0" + d else d
  }

  /** Splitting on a single separator character, as JavaScript `split` and PHP `explode` do. */
  function Split(s: string, sep: char): (r: seq<string>)
    ensures |r| >= 1
    ensures forall k :: 0 <= k < |r| ==> sep !in r[k]
    decreases |s|
  {
    match IndexOf(s, [sep])
    case None =>
      assert forall i :: 0 <= i < |s| ==> s[i] != sep by {
        forall i | 0 <= i < |s| ensures s[i] != sep {
          assert !OccursAt(s, [sep], i);
          assert s[i..i + 1] == [s[i]];
        }
      }
      [s]
    case Some(i) =>
      assert forall j :: 0 <= j < i ==> s[j] != sep by {
        forall j | 0 <= j < i ensures s[j] != sep {
          assert !OccursAt(s, [sep], j);
          assert s[j..j + 1] == [s[j]];
        }
      }
      [s[..i]] + Split(s[i + 1..], sep)
  }

  /** Joining pieces with a separator; the inverse of Split. */
  function Join(parts: seq<string>, sep: char): (s: string)
    requires |parts| >= 1
    decreases |parts|
  {
    if |parts| == 1 then parts[0] else parts[0] + [sep] + Join(parts[1..], sep)
  }

  lemma {:induction false} JoinSplit(s: string, sep: char)
    ensures Join(Split(s, sep), sep) == s
    decreases |s|
  {
    match IndexOf(s, [sep])
    case None =>
    case Some(i) =>
      var rest := Split(s[i + 1..], sep);
      var parts := Split(s, sep);
      assert parts == [s[..i]] + rest;
      assert parts[0] == s[..i] && parts[1..] == rest;
      JoinSplit(s[i + 1..], sep);
      assert Join(parts, sep) == s[..i] + [sep] + s[i + 1..];
      assert s[i..i + 1] == [sep];
      assert s == s[..i] + [sep] + s[i + 1..];
  }

  /** A text whose first separator follows `a` splits into `a` and the pieces of the rest. */
  lemma SplitFirst(a: string, b: string, sep: char)
    requires sep !in a
    ensures Split(a + [sep] + b, sep) == [a] + Split(b, sep)
  {
    var s := a + [sep] + b;
    assert s[..|a|] == a;
    IndexOfFirstChar(s, sep, |a|);
    assert s[|a| + 1..] == b;
  }

  /** No piece of a split contains the separator, and a separator-free text splits into itself. */
  lemma SplitNoSeparator(s: string, sep: char)
    requires sep !in s
    ensures Split(s, sep) == [s]
  {
    forall i: nat | i < |s| ensures !OccursAt(s, [sep], i) {
      assert s[i..i + 1][0] == s[i];
    }
    assert !Contains(s, [sep]);
  }
}
