/**
 * The JavaScript string operations the manifest generator relies on:
 * `indexOf`, `replace` of a literal, `split` on one character, `join`,
 * `trim`, `parseInt` (leading decimal digits) and number-to-text conversion,
 * together with the repository helper `getStringBetweenStrings`.
 */
module Strings {
  import opened Wrappers

  /** `pat` occurs in `s` starting at index `i`. */
  predicate OccursAt(s: string, pat: string, i: nat) {
    i + |pat| <= |s| && s[i..i + |pat|] == pat
  }

  /** `s.indexOf(pat)`: the index of the first occurrence, or None for -1. */
  function IndexOf(s: string, pat: string): (r: Option<nat>)
    ensures r.Some? ==> OccursAt(s, pat, r.value)
    ensures r.Some? ==> forall j: nat :: j < r.value ==> !OccursAt(s, pat, j)
    ensures r.None? ==> forall j: nat :: !OccursAt(s, pat, j)
    decreases |s|
  {
    if |s| < |pat| then None
    else if s[..|pat|] == pat then Some(0)
    else
      var tail := IndexOf(s[1..], pat);
      OccursShift(s, pat);
      match tail
      case None => None
      case Some(k) => Some(k + 1)
  }

  /** An occurrence at j >= 1 in `s` is an occurrence at j - 1 in `s[1..]`. */
  lemma OccursShift(s: string, pat: string)
    requires |s| >= 1
    ensures forall j: nat :: j >= 1 ==> (OccursAt(s, pat, j) <==> OccursAt(s[1..], pat, j - 1))
  {
    forall j: nat | j >= 1 ensures OccursAt(s, pat, j) <==> OccursAt(s[1..], pat, j - 1) {
      if j + |pat| <= |s| {
        var a, b := s[j..j + |pat|], s[1..][j - 1..j - 1 + |pat|];
        assert |a| == |b| && forall t :: 0 <= t < |a| ==> a[t] == b[t];
      }
    }
  }

  predicate Contains(s: string, pat: string) {
    IndexOf(s, pat).Some?
  }

  /** A first occurrence found in a prefix is the first occurrence in any extension. */
  lemma IndexOfExtend(a: string, b: string, pat: string)
    requires IndexOf(a, pat).Some?
    ensures IndexOf(a + b, pat) == IndexOf(a, pat)
  {
    var i := IndexOf(a, pat).value;
    assert (a + b)[i..i + |pat|] == a[i..i + |pat|];
    forall j: nat | j < i ensures !OccursAt(a + b, pat, j) {
      assert (a + b)[j..j + |pat|] == a[j..j + |pat|];
      assert !OccursAt(a, pat, j);
    }
    OccursUnique(a + b, pat, i);
  }

  /** An occurrence with none before it is what IndexOf finds. */
  lemma OccursUnique(s: string, pat: string, i: nat)
    requires OccursAt(s, pat, i)
    requires forall j: nat :: j < i ==> !OccursAt(s, pat, j)
    ensures IndexOf(s, pat) == Some(i)
  {
  }

  /**
   * A marker whose first character does not recur inside it, and which does not
   * occur in `pre`, is first found right after `pre`.
   */
  lemma {:induction false} IndexOfAfter(pre: string, pat: string, post: string)
    requires |pat| >= 1 && pat[0] !in pat[1..]
    requires !Contains(pre, pat)
    ensures IndexOf(pre + pat + post, pat) == Some(|pre|)
  {
    var s := pre + pat + post;
    assert s[|pre|..|pre| + |pat|] == pat;
    forall j: nat | j < |pre| ensures !OccursAt(s, pat, j) {
      if j + |pat| <= |pre| {
        assert s[j..j + |pat|] == pre[j..j + |pat|];
        assert !OccursAt(pre, pat, j);
      } else if j + |pat| <= |s| {
        var k := |pre| - j;
        assert s[j..j + |pat|][k] == s[|pre|] == pat[0];
        assert pat[1..][k - 1] == pat[k];
      }
    }
    OccursUnique(s, pat, |pre|);
  }

  /** A marker whose first character is absent from `s` does not occur in `s`. */
  lemma AbsentHead(s: string, pat: string)
    requires |pat| >= 1 && pat[0] !in s
    ensures !Contains(s, pat)
  {
    forall i: nat ensures !OccursAt(s, pat, i) {
      if i + |pat| <= |s| {
        assert s[i..i + |pat|][0] == s[i];
      }
    }
  }

  /** `s.replace(pat, '')` for a literal pattern: removes the first occurrence only. */
  function RemoveFirst(s: string, pat: string): (r: string)
    ensures Contains(s, pat) ==> |r| == |s| - |pat|
    ensures !Contains(s, pat) ==> r == s
  {
    match IndexOf(s, pat)
    case None => s
    case Some(i) => s[..i] + s[i + |pat|..]
  }

  /** Removing a marker found right after `pre` leaves `pre` and what follows the marker. */
  lemma RemoveFirstAfter(pre: string, pat: string, post: string)
    requires |pat| >= 1 && pat[0] !in pat[1..]
    requires !Contains(pre, pat)
    ensures RemoveFirst(pre + pat + post, pat) == pre + post
  {
    IndexOfAfter(pre, pat, post);
    var s := pre + pat + post;
    assert s[..|pre|] == pre;
    assert s[|pre| + |pat|..] == post;
  }

  /**
   * `getStringBetweenStrings(s, start, end)`: the text between the first
   * occurrence of `start` and the first occurrence of `end` after it; None when
   * either marker is missing.
   */
  function Between(s: string, start: string, end: string): (r: Option<string>)
    ensures r.Some? ==> IndexOf(r.value + end, end) == Some(|r.value|)
    ensures !Contains(s, start) ==> r.None?
  {
    match IndexOf(s, start)
    case None => None
    case Some(i) =>
      var rest := s[i + |start|..];
      match IndexOf(rest, end)
      case None => None
      case Some(j) =>
        var mid := rest[..j];
        assert mid + end == rest[..j + |end|];
        forall k: nat | k < j ensures !OccursAt(mid + end, end, k) {
          assert (mid + end)[k..k + |end|] == rest[k..k + |end|];
          assert !OccursAt(rest, end, k);
        }
        OccursUnique(mid + end, end, j);
        Some(mid)
  }

  /** Text framed by two markers is exactly what Between extracts. */
  lemma BetweenFramed(pre: string, start: string, mid: string, end: string, post: string)
    requires |start| >= 1 && start[0] !in start[1..]
    requires |end| >= 1 && end[0] !in end[1..]
    requires !Contains(pre, start) && !Contains(mid, end)
    ensures Between(pre + start + mid + end + post, start, end) == Some(mid)
  {
    var s := pre + start + mid + end + post;
    assert s == pre + start + (mid + end + post);
    IndexOfAfter(pre, start, mid + end + post);
    assert s[|pre| + |start|..] == mid + end + post;
    IndexOfAfter(mid, end, post);
    assert (mid + end + post)[..|mid|] == mid;
  }

  /** Index of the first `c` in `s`. */
  function CharIndex(s: string, c: char): (r: nat)
    requires c in s
    ensures r < |s| && s[r] == c && c !in s[..r]
  {
    if s[0] == c then 0 else CharIndex(s[1..], c) + 1
  }

  /** `parts.join(sep)`. */
  function Join(parts: seq<string>, sep: char): string {
    if |parts| == 0 then ""
    else if |parts| == 1 then parts[0]
    else parts[0] + [sep] + Join(parts[1..], sep)
  }

  /** `s.split(sep)` for a one-character separator. */
  function Split(s: string, sep: char): (r: seq<string>)
    ensures |r| >= 1
    ensures forall i :: 0 <= i < |r| ==> sep !in r[i]
    ensures Join(r, sep) == s
    decreases |s|
  {
    if sep in s then
      var i := CharIndex(s, sep);
      var rest := Split(s[i + 1..], sep);
      assert s == s[..i] + [sep] + s[i + 1..];
      [s[..i]] + rest
    else [s]
  }

  /** The first part of a split is the text before the first separator. */
  lemma SplitHead(s: string, sep: char)
    ensures s[..|Split(s, sep)[0]|] == Split(s, sep)[0]
    ensures |Split(s, sep)[0]| < |s| ==> s[|Split(s, sep)[0]|] == sep
  {
  }

  /** Splitting a join gives back the parts when no part holds the separator. */
  lemma {:induction false} SplitJoin(parts: seq<string>, sep: char)
    requires |parts| >= 1
    requires forall i :: 0 <= i < |parts| ==> sep !in parts[i]
    ensures Split(Join(parts, sep), sep) == parts
  {
    if |parts| > 1 {
      var s := Join(parts, sep);
      assert s == parts[0] + [sep] + Join(parts[1..], sep);
      assert s[|parts[0]|] == sep;
      var i := CharIndex(s, sep);
      assert s[..|parts[0]|] == parts[0];
      assert i == |parts[0]|;
      assert s[i + 1..] == Join(parts[1..], sep);
      SplitJoin(parts[1..], sep);
    }
  }

  // ---------------------------------------------------------------------------
  // Whitespace and `trim`

  /** ECMAScript WhiteSpace and LineTerminator code points, which `trim` removes. */
  predicate IsSpace(c: char) {
    var k := c as int;
    k == 0x09 || k == 0x0A || k == 0x0B || k == 0x0C || k == 0x0D || k == 0x20 ||
    k == 0xA0 || k == 0x1680 || (0x2000 <= k <= 0x200A) || k == 0x2028 || k == 0x2029 ||
    k == 0x202F || k == 0x205F || k == 0x3000 || k == 0xFEFF
  }

  function TrimStart(s: string): (r: string)
    ensures |r| <= |s| && r == s[|s| - |r|..]
    ensures forall k :: 0 <= k < |s| - |r| ==> IsSpace(s[k])
    ensures r == [] || !IsSpace(r[0])
  {
    if s != [] && IsSpace(s[0]) then TrimStart(s[1..]) else s
  }

  function TrimEnd(s: string): (r: string)
    ensures |r| <= |s| && r == s[..|r|]
    ensures forall k :: |r| <= k < |s| ==> IsSpace(s[k])
    ensures r == [] || !IsSpace(r[|r| - 1])
  {
    if s != [] && IsSpace(s[|s| - 1]) then TrimEnd(s[..|s| - 1]) else s
  }

  /** `s.trim()`: the middle of `s` once leading and trailing white space is removed. */
  function Trim(s: string): (r: string)
    ensures r == [] || (!IsSpace(r[0]) && !IsSpace(r[|r| - 1]))
    ensures |r| <= |s|
    ensures forall k :: 0 <= k < |s| ==> !IsSpace(s[k]) ==> |r| > 0
  {
    TrimEnd(TrimStart(s))
  }

  /** `trim` gives a slice of `s`: what it cuts from either end is white space. */
  lemma TrimSlice(s: string)
    ensures exists i, j ::
      0 <= i <= j <= |s| && Trim(s) == s[i..j] &&
      (forall k :: 0 <= k < i ==> IsSpace(s[k])) && (forall k :: j <= k < |s| ==> IsSpace(s[k]))
  {
    var a := TrimStart(s);
    var r := TrimEnd(a);
    assert Trim(s) == r;
    var i := |s| - |a|;
    var j := i + |r|;
    assert a == s[i..];
    assert forall k :: 0 <= k < i ==> IsSpace(s[k]);
    assert r == s[i..j] by {
      assert r == a[..|r|];
    }
    assert forall k :: j <= k < |s| ==> IsSpace(s[k]) by {
      forall k | j <= k < |s| ensures IsSpace(s[k]) {
        assert s[k] == a[k - i];
      }
    }
    assert 0 <= i <= j <= |s| && Trim(s) == s[i..j];
  }

  /** Text with no white space at either end is left alone by `trim`. */
  lemma TrimKeeps(s: string)
    requires s == [] || (!IsSpace(s[0]) && !IsSpace(s[|s| - 1]))
    ensures Trim(s) == s
  {
  }

  // ---------------------------------------------------------------------------
  // Decimal numbers

  predicate IsDigit(c: char) {
    '0' <= c <= '9'
  }

  predicate AllDigits(s: string) {
    forall k :: 0 <= k < |s| ==> IsDigit(s[k])
  }

  function DigitChar(d: nat): char
    requires d < 10
  {
    ('0' as int + d) as char
  }

  function DigitValue(c: char): nat
    requires IsDigit(c)
  {
    c as int - '0' as int
  }

  /** The value of a run of decimal digits. */
  function DigitsValue(s: string): nat
    requires AllDigits(s)
  {
    if s == [] then 0 else DigitsValue(s[..|s| - 1]) * 10 + DigitValue(s[|s| - 1])
  }

  /** `${n}` for a non-negative integer: decimal digits without leading zeros. */
  function NatText(n: nat): (r: string)
    ensures |r| >= 1 && AllDigits(r)
    ensures |r| > 1 ==> r[0] != '0'
  {
    if n < 10 then [DigitChar(n)] else NatText(n / 10) + [DigitChar(n % 10)]
  }

  /** `${i}` for any integer. */
  function IntText(i: int): string {
    if i < 0 then "-" + NatText(-i) else NatText(i)
  }

  /** Reading back the digits of a number gives the number. */
  lemma {:induction false} NatTextValue(n: nat)
    ensures DigitsValue(NatText(n)) == n
  {
    if n >= 10 {
      NatTextValue(n / 10);
      var s := NatText(n);
      assert s[..|s| - 1] == NatText(n / 10);
    }
  }

  /** The longest prefix of `s` made of decimal digits. */
  function LeadingDigits(s: string): (r: string)
    ensures AllDigits(r) && |r| <= |s| && r == s[..|r|]
    ensures |r| < |s| ==> !IsDigit(s[|r|])
  {
    if s == [] || !IsDigit(s[0]) then [] else [s[0]] + LeadingDigits(s[1..])
  }

  lemma {:induction false} LeadingDigitsOf(d: string, rest: string)
    requires AllDigits(d)
    requires rest == [] || !IsDigit(rest[0])
    ensures LeadingDigits(d + rest) == d
  {
    if d != [] {
      assert (d + rest)[1..] == d[1..] + rest;
      LeadingDigitsOf(d[1..], rest);
    }
  }

  /** The number `parseInt` gives: an integer, or NaN when there is none. */
  datatype ParsedInt = Int(value: nat) | NaN

  /** `parseInt(s)`, read as the leading decimal digits of `s`. */
  function ParseInt(s: string): (r: ParsedInt)
    ensures r.NaN? <==> (s == [] || !IsDigit(s[0]))
  {
    var d := LeadingDigits(s);
    if d == [] then NaN else Int(DigitsValue(d))
  }

  /** `parseInt` reads back a number written in decimal, whatever non-digit follows it. */
  lemma ParseIntNatText(n: nat, rest: string)
    requires rest == [] || !IsDigit(rest[0])
    ensures ParseInt(NatText(n) + rest) == Int(n)
  {
    LeadingDigitsOf(NatText(n), rest);
    NatTextValue(n);
  }
}
