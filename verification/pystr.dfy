/**
  The few Python `str` operations the bot relies on: `isdigit`, `int` of a digit
  string, `lower`, `split` on a separator and `join`, and the Cyrillic test of the
  city-name regular expression.  Python's versions are Unicode-wide; this module
  states them for ASCII digits and letters only.
 */
module PyStr {
  import opened Wrappers

  predicate IsAsciiDigit(c: char) {
    '0' <= c <= '9'
  }

  /** `s.isdigit()`: non-empty and every character an ASCII digit. */
  predicate IsDigits(s: string) {
    |s| > 0 && AllDigits(s)
  }

  predicate AllDigits(s: string) {
    forall i :: 0 <= i < |s| ==> IsAsciiDigit(s[i])
  }

  function Pow10(k: nat): (p: nat)
    ensures p >= 1
  {
    if k == 0 then 1 else 10 * Pow10(k - 1)
  }

  /** `int(s)` for a string of ASCII digits (leading zeros allowed, as in Python). */
  function DigitsValue(s: string): (n: nat)
    requires AllDigits(s)
    ensures n < Pow10(|s|)
    decreases |s|
  {
    if s == [] then 0
    else DigitsValue(s[..|s| - 1]) * 10 + (s[|s| - 1] as int - '0' as int)
  }

  function DigitChar(d: nat): (c: char)
    requires d < 10
    ensures IsAsciiDigit(c)
  {
    ('0' as int + d) as char
  }

  /** Decimal rendering of a natural number, without leading zeros. */
  function ShowNat(n: nat): (s: string)
    ensures IsDigits(s)
    decreases n
  {
    if n < 10 then [DigitChar(n)] else ShowNat(n / 10) + [DigitChar(n % 10)]
  }

  /** Reading back the decimal rendering of a number gives the number. */
  lemma {:induction false} DigitsValueShowNat(n: nat)
    ensures DigitsValue(ShowNat(n)) == n
    decreases n
  {
    var s := ShowNat(n);
    if n >= 10 {
      DigitsValueShowNat(n / 10);
      assert s[..|s| - 1] == ShowNat(n / 10);
    }
  }

  /** `int(s)` for a string: an optional sign followed by ASCII digits, else `ValueError`. */
  function ParseInt(s: string): (r: Option<int>)
    ensures r.Some? <==> IsDigits(s) || (|s| > 1 && (s[0] == '-' || s[0] == '+') && IsDigits(s[1..]))
    ensures IsDigits(s) ==> r == Some(DigitsValue(s))
    ensures |s| > 1 && s[0] == '-' && IsDigits(s[1..]) ==> r == Some(-(DigitsValue(s[1..]) as int))
    ensures |s| > 1 && s[0] == '+' && IsDigits(s[1..]) ==> r == Some(DigitsValue(s[1..]))
  {
    if IsDigits(s) then Some(DigitsValue(s))
    else if |s| > 1 && s[0] == '-' && IsDigits(s[1..]) then Some(-(DigitsValue(s[1..]) as int))
    else if |s| > 1 && s[0] == '+' && IsDigits(s[1..]) then Some(DigitsValue(s[1..]))
    else None
  }

  function LowerChar(c: char): char {
    if 'A' <= c <= 'Z' then (c as int - 'A' as int + 'a' as int) as char else c
  }

  /** `s.lower()`, for the ASCII letters. */
  function Lower(s: string): (r: string)
    ensures |r| == |s|
    ensures forall i :: 0 <= i < |s| ==> r[i] == LowerChar(s[i])
  {
    seq(|s|, i requires 0 <= i < |s| => LowerChar(s[i]))
  }

  /** The regular expression `\b[а-я]\w*` matched at the start with IGNORECASE:
      the text begins with a letter of the range а..я or its upper-case range А..Я. */
  predicate StartsWithCyrillic(s: string) {
    |s| > 0 && ('а' <= s[0] <= 'я' || 'А' <= s[0] <= 'Я')
  }

  // ---------------------------------------------------------------------------
  // Splitting on a separator and joining with it.

  predicate OccursAt(s: string, sep: string, i: int) {
    0 <= i && i + |sep| <= |s| && s[i..i + |sep|] == sep
  }

  predicate Contains(s: string, sep: string) {
    exists i :: 0 <= i <= |s| && OccursAt(s, sep, i)
  }

  /** Index of the first occurrence of `sep` at or after `from`, scanning left to right. */
  function FindFrom(s: string, sep: string, from: nat): (r: Option<nat>)
    requires from <= |s|
    ensures r.Some? ==> from <= r.value && OccursAt(s, sep, r.value)
    ensures r.Some? ==> forall j :: from <= j < r.value ==> !OccursAt(s, sep, j)
    ensures r.None? ==> forall j :: from <= j ==> !OccursAt(s, sep, j)
    decreases |s| - from
  {
    if from + |sep| > |s| then None
    else if s[from..from + |sep|] == sep then Some(from)
    else if from == |s| then None
    else FindFrom(s, sep, from + 1)
  }

  /** `s.split(sep)` for a non-empty separator. */
  function Split(s: string, sep: string): (parts: seq<string>)
    requires |sep| > 0
    ensures |parts| >= 1
    decreases |s|
  {
    match FindFrom(s, sep, 0)
    case None => [s]
    case Some(i) => [s[..i]] + Split(s[i + |sep|..], sep)
  }

  /** `sep.join(parts)`; the empty list joins to the empty string. */
  function Join(parts: seq<string>, sep: string): string
    decreases |parts|
  {
    if |parts| == 0 then ""
    else if |parts| == 1 then parts[0]
    else parts[0] + sep + Join(parts[1..], sep)
  }

  /** Joining the pieces of a split with the same separator restores the string. */
  lemma {:induction false} JoinSplit(s: string, sep: string)
    requires |sep| > 0
    ensures Join(Split(s, sep), sep) == s
    decreases |s|
  {
    match FindFrom(s, sep, 0)
    case None =>
    case Some(i) =>
      var rest := s[i + |sep|..];
      var parts := Split(s, sep);
      JoinSplit(rest, sep);
      assert parts == [s[..i]] + Split(rest, sep);
      assert parts[1..] == Split(rest, sep);
      assert Join(parts, sep) == s[..i] + sep + Join(parts[1..], sep);
      assert s[i..i + |sep|] == sep;
      assert s == s[..i] + s[i..i + |sep|] + rest;
  }

  lemma OccursInPrefix(s: string, sep: string, i: nat, j: int)
    requires i <= |s|
    requires OccursAt(s[..i], sep, j)
    ensures OccursAt(s, sep, j) && j + |sep| <= i
  {
    assert s[..i][j..j + |sep|] == s[j..j + |sep|];
  }

  lemma OccursInSuffix(s: string, sep: string, i: nat, j: int)
    requires i <= |s|
    requires OccursAt(s[i..], sep, j)
    ensures OccursAt(s, sep, i + j)
  {
    assert s[i..][j..j + |sep|] == s[i + j..i + j + |sep|];
  }

  /** No piece of a split contains the separator. */
  lemma {:induction false} SplitPiecesAreFree(s: string, sep: string)
    requires |sep| > 0
    ensures forall k :: 0 <= k < |Split(s, sep)| ==> !Contains(Split(s, sep)[k], sep)
    decreases |s|
  {
    match FindFrom(s, sep, 0)
    case None =>
      assert Split(s, sep) == [s];
    case Some(i) =>
      var rest := s[i + |sep|..];
      SplitPiecesAreFree(rest, sep);
      assert Split(s, sep) == [s[..i]] + Split(rest, sep);
      if Contains(s[..i], sep) {
        var j :| OccursAt(s[..i], sep, j);
        OccursInPrefix(s, sep, i, j);
        assert false;
      }
  }

  function Last<T>(xs: seq<T>): T
    requires |xs| > 0
  {
    xs[|xs| - 1]
  }

  /** `s.split(sep)[-1]`: what follows the last occurrence of the separator. */
  function LastSegment(s: string, sep: string): string
    requires |sep| > 0
  {
    Last(Split(s, sep))
  }

  /** The separator occurs exactly when the left-to-right scan finds it. */
  lemma ContainsIffFound(s: string, sep: string)
    ensures Contains(s, sep) <==> FindFrom(s, sep, 0).Some?
  {
    if FindFrom(s, sep, 0).Some? {
      var i := FindFrom(s, sep, 0).value;
      assert 0 <= i <= |s| && OccursAt(s, sep, i);
    }
  }

  lemma LastSegmentStep(s: string, sep: string, i: nat)
    requires |sep| > 0
    requires FindFrom(s, sep, 0) == Some(i)
    ensures LastSegment(s, sep) == LastSegment(s[i + |sep|..], sep)
  {
    var rest := s[i + |sep|..];
    var tail := Split(rest, sep);
    assert Split(s, sep) == [s[..i]] + tail;
    assert Last([s[..i]] + tail) == tail[|tail| - 1];
  }

  /** The last segment is a suffix of the string, and the whole string when the
      separator does not occur. */
  lemma {:induction false} LastSegmentIsSuffix(s: string, sep: string)
    requires |sep| > 0
    ensures |LastSegment(s, sep)| <= |s|
    ensures s[|s| - |LastSegment(s, sep)|..] == LastSegment(s, sep)
    ensures !Contains(s, sep) ==> LastSegment(s, sep) == s
    decreases |s|
  {
    ContainsIffFound(s, sep);
    match FindFrom(s, sep, 0)
    case None =>
      assert Split(s, sep) == [s];
    case Some(i) =>
      var rest := s[i + |sep|..];
      LastSegmentIsSuffix(rest, sep);
      LastSegmentStep(s, sep, i);
      var t := LastSegment(rest, sep);
      assert s[|s| - |t|..] == rest[|rest| - |t|..];
  }

  /** When the separator occurs, the last segment is immediately preceded by it. */
  lemma {:induction false} LastSegmentFollowsSeparator(s: string, sep: string)
    requires |sep| > 0
    requires Contains(s, sep)
    ensures |LastSegment(s, sep)| + |sep| <= |s|
    ensures OccursAt(s, sep, |s| - |LastSegment(s, sep)| - |sep|)
    decreases |s|
  {
    ContainsIffFound(s, sep);
    var i := FindFrom(s, sep, 0).value;
    var rest := s[i + |sep|..];
    LastSegmentStep(s, sep, i);
    if Contains(rest, sep) {
      LastSegmentFollowsSeparator(rest, sep);
      SeparatorBeforeLater(s, sep, i);
    } else {
      SeparatorBeforeLast(s, sep, i);
    }
  }

  /** The separator found first is the last one: the rest of the string is the last segment. */
  lemma SeparatorBeforeLast(s: string, sep: string, i: nat)
    requires |sep| > 0 && i + |sep| <= |s| && OccursAt(s, sep, i)
    requires !Contains(s[i + |sep|..], sep)
    requires LastSegment(s, sep) == LastSegment(s[i + |sep|..], sep)
    ensures |LastSegment(s, sep)| + |sep| <= |s|
    ensures OccursAt(s, sep, |s| - |LastSegment(s, sep)| - |sep|)
  {
    LastSegmentIsSuffix(s[i + |sep|..], sep);
    assert |s| - |LastSegment(s, sep)| - |sep| == i;
  }

  /** A later separator precedes the last segment of the rest, and so of the whole string. */
  lemma SeparatorBeforeLater(s: string, sep: string, i: nat)
    requires |sep| > 0 && i + |sep| <= |s|
    requires LastSegment(s, sep) == LastSegment(s[i + |sep|..], sep)
    requires |LastSegment(s[i + |sep|..], sep)| + |sep| <= |s[i + |sep|..]|
    requires OccursAt(s[i + |sep|..], sep, |s[i + |sep|..]| - |LastSegment(s[i + |sep|..], sep)| - |sep|)
    ensures |LastSegment(s, sep)| + |sep| <= |s|
    ensures OccursAt(s, sep, |s| - |LastSegment(s, sep)| - |sep|)
  {
    var rest := s[i + |sep|..];
    var j := |rest| - |LastSegment(rest, sep)| - |sep|;
    OccursInSuffix(s, sep, i + |sep|, j);
    assert i + |sep| + j == |s| - |LastSegment(s, sep)| - |sep|;
  }

  /** The last segment never contains the separator. */
  lemma LastSegmentIsFree(s: string, sep: string)
    requires |sep| > 0
    ensures !Contains(LastSegment(s, sep), sep)
  {
    SplitPiecesAreFree(s, sep);
  }
}
