/**
 * The handful of Python `str` operations the bot relies on: whitespace and
 * character classes, substring search (`in`), `strip`, `split(sep)[-1]`,
 * `int()` of a digit string, `str()` of a count, `sep.join`, `capitalize`.
 * Python works on Unicode code points; so does Dafny's `char`.
 */
module Strings {

  /** `str.isspace()` for one code point: exactly the characters that
      Python's `str.strip()` with no argument removes. */
  predicate IsSpace(c: char)
  {
    || c == ' '
    || ('\t' <= c <= '\r')
    || ('\U{1c}' <= c <= '\U{1f}')
    || c == '\U{85}' || c == '\U{a0}' || c == '\U{1680}'
    || ('\U{2000}' <= c <= '\U{200a}')
    || c == '\U{2028}' || c == '\U{2029}' || c == '\U{202f}'
    || c == '\U{205f}' || c == '\U{3000}'
  }

  /** An ASCII decimal digit (the model's reading of `\d`). */
  predicate IsDigit(c: char)
  {
    '0' <= c <= '9'
  }

  /** An ASCII word character (the model's reading of `\w`). */
  predicate IsWordChar(c: char)
  {
    IsDigit(c) || ('a' <= c <= 'z') || ('A' <= c <= 'Z') || c == '_'
  }

  /** The character sets the model trims or scans by. */
  datatype CharClass = Space | Colon | Digit | NonWord

  predicate InClass(cls: CharClass, c: char)
  {
    match cls
    case Space => IsSpace(c)
    case Colon => c == ':'
    case Digit => IsDigit(c)
    case NonWord => !IsWordChar(c)
  }

  predicate AllDigits(s: string)
  {
    forall i :: 0 <= i < |s| ==> IsDigit(s[i])
  }

  // ---------------------------------------------------------------------
  // Substring search: Python's `pattern in s`

  /** `p` occurs in `s` starting at index `k`. */
  predicate OccursAt(s: string, p: string, k: int)
  {
    0 <= k && k + |p| <= |s| && s[k..k + |p|] == p
  }

  /** `p in s` for strings, scanning left to right. */
  function Contains(s: string, p: string): bool
    decreases |s|
  {
    if |p| > |s| then false
    else if s[..|p|] == p then true
    else Contains(s[1..], p)
  }

  /** `Contains` is substring search: it holds exactly when `p` occurs
      somewhere in `s`. */
  lemma {:induction false} ContainsSpec(s: string, p: string)
    ensures Contains(s, p) <==> exists k :: OccursAt(s, p, k)
    decreases |s|
  {
    if |p| > |s| {
    } else if s[..|p|] == p {
      assert OccursAt(s, p, 0);
    } else {
      ContainsSpec(s[1..], p);
      if Contains(s[1..], p) {
        var k :| OccursAt(s[1..], p, k);
        assert OccursAt(s, p, k + 1);
      } else {
        assert forall k :: OccursAt(s, p, k) ==> k > 0 && OccursAt(s[1..], p, k - 1);
      }
    }
  }

  /** A string without the pattern's first character does not contain it. */
  lemma {:induction false} NotContainsByFirstChar(s: string, p: string)
    requires |p| > 0 && forall k :: 0 <= k < |s| ==> s[k] != p[0]
    ensures !Contains(s, p)
    decreases |s|
  {
    if |p| <= |s| {
      assert s[..|p|][0] == s[0];
      NotContainsByFirstChar(s[1..], p);
    }
  }

  // ---------------------------------------------------------------------
  // Trimming: `str.strip()` and `str.strip(chars)`

  /** Every character of `s` outside `s[i..j]` is one that `drop` removes. */
  ghost predicate TrimmedAt(s: string, drop: CharClass, i: int, j: int)
  {
    && 0 <= i <= j <= |s|
    && (forall k :: 0 <= k < i ==> InClass(drop, s[k]))
    && (forall k :: j <= k < |s| ==> InClass(drop, s[k]))
  }

  /** End of the longest run of characters starting at `lo` that `p`
      accepts. */
  function SpanEnd(s: string, p: CharClass, lo: nat): (i: nat)
    requires lo <= |s|
    ensures lo <= i <= |s|
    ensures forall k :: lo <= k < i ==> InClass(p, s[k])
    ensures i == |s| || !InClass(p, s[i])
    decreases |s| - lo
  {
    if lo == |s| || !InClass(p, s[lo]) then lo else SpanEnd(s, p, lo + 1)
  }

  /** The run end is the only position that `p` accepts up to and rejects
      (or runs out) at. */
  lemma {:induction false} SpanEndUnique(s: string, p: CharClass, lo: nat, j: nat)
    requires lo <= j <= |s|
    requires forall k :: lo <= k < j ==> InClass(p, s[k])
    requires j == |s| || !InClass(p, s[j])
    ensures SpanEnd(s, p, lo) == j
    decreases j - lo
  {
    if lo < j {
      SpanEndUnique(s, p, lo + 1, j);
    }
  }

  /** A run of accepted characters up to `j` means the span reaches `j`. */
  lemma {:induction false} SpanEndAtLeast(s: string, p: CharClass, lo: nat, j: nat)
    requires lo <= j <= |s|
    requires forall k :: lo <= k < j ==> InClass(p, s[k])
    ensures SpanEnd(s, p, lo) >= j
    decreases j - lo
  {
    if lo < j {
      SpanEndAtLeast(s, p, lo + 1, j);
    }
  }

  /** The characters `drop` accepts removed from the front of `s`. */
  function TrimStart(s: string, drop: CharClass): string
  {
    if s != [] && InClass(drop, s[0]) then TrimStart(s[1..], drop) else s
  }

  /** The characters `drop` accepts removed from the back of `s`. */
  function TrimEnd(s: string, drop: CharClass): string
  {
    if s != [] && InClass(drop, s[|s| - 1]) then TrimEnd(s[..|s| - 1], drop) else s
  }

  /** `s.strip(chars)`: the longest prefix and then the longest suffix of
      characters in the class removed. */
  function Trim(s: string, drop: CharClass): string
  {
    TrimEnd(TrimStart(s, drop), drop)
  }

  /** `s.strip()` with no argument. */
  function StripSpace(s: string): string
  {
    Trim(s, Space)
  }

  lemma {:induction false} TrimStartSpec(s: string, drop: CharClass)
    ensures var r := TrimStart(s, drop);
      && |r| <= |s| && r == s[|s| - |r|..]
      && (forall k :: 0 <= k < |s| - |r| ==> InClass(drop, s[k]))
      && (r == [] || !InClass(drop, r[0]))
  {
    if s != [] && InClass(drop, s[0]) {
      TrimStartSpec(s[1..], drop);
      var r := TrimStart(s, drop);
      assert forall k :: 1 <= k < |s| - |r| ==> s[k] == s[1..][k - 1];
    }
  }

  lemma {:induction false} TrimEndSpec(s: string, drop: CharClass)
    ensures var r := TrimEnd(s, drop);
      && |r| <= |s| && r == s[..|r|]
      && (forall k :: |r| <= k < |s| ==> InClass(drop, s[k]))
      && (r == [] || !InClass(drop, r[|r| - 1]))
  {
    if s != [] && InClass(drop, s[|s| - 1]) {
      TrimEndSpec(s[..|s| - 1], drop);
    }
  }

  /** Trimming keeps an infix, removes only characters of the class, and
      leaves neither end on one: the maximal strip. */
  lemma TrimSpec(s: string, drop: CharClass)
    ensures exists i, j :: TrimmedAt(s, drop, i, j) && Trim(s, drop) == s[i..j]
    ensures var r := Trim(s, drop); r == [] || (!InClass(drop, r[0]) && !InClass(drop, r[|r| - 1]))
  {
    var m := TrimStart(s, drop);
    TrimStartSpec(s, drop);
    TrimEndSpec(m, drop);
    var r := Trim(s, drop);
    var i := |s| - |m|;
    var j := i + |r|;
    assert r == s[i..j];
    assert forall k :: j <= k < |s| ==> s[k] == m[k - i];
    assert TrimmedAt(s, drop, i, j);
    if r != [] {
      assert r[0] == m[0];
    }
  }

  /** A string that neither starts nor ends with a character of the class
      is left alone by trimming. */
  lemma TrimFixed(s: string, drop: CharClass)
    requires s == [] || (!InClass(drop, s[0]) && !InClass(drop, s[|s| - 1]))
    ensures Trim(s, drop) == s
  {
  }

  /** Trimming twice is trimming once. */
  lemma TrimIdempotent(s: string, drop: CharClass)
    ensures Trim(Trim(s, drop), drop) == Trim(s, drop)
  {
    TrimSpec(s, drop);
    TrimFixed(Trim(s, drop), drop);
  }

  // ---------------------------------------------------------------------
  // `s.split(sep)[-1]`: the piece after the last separator

  /** The last element of `s.split(sep)`, found as Python does: scanning from
      the left for non-overlapping occurrences of `sep`; `start` is where the
      current piece began and `i` is the scan position. */
  function LastPieceFrom(s: string, sep: string, start: nat, i: nat): (r: string)
    requires |sep| > 0 && start <= i <= |s|
    ensures |r| <= |s| - start && r == s[|s| - |r|..]
    decreases |s| - i
  {
    if i + |sep| > |s| then
      s[start..]
    else if s[i..i + |sep|] == sep then
      LastPieceFrom(s, sep, i + |sep|, i + |sep|)
    else
      LastPieceFrom(s, sep, start, i + 1)
  }

  function LastPiece(s: string, sep: string): (r: string)
    requires |sep| > 0
  {
    LastPieceFrom(s, sep, 0, 0)
  }

  /** With no occurrence left from `i` on, the scan returns the current
      piece. */
  lemma {:induction false} LastPieceFromNone(s: string, sep: string, start: nat, i: nat)
    requires |sep| > 0 && start <= i <= |s|
    requires forall k :: i <= k ==> !OccursAt(s, sep, k)
    ensures LastPieceFrom(s, sep, start, i) == s[start..]
    decreases |s| - i
  {
    if i + |sep| <= |s| {
      assert !OccursAt(s, sep, i);
      LastPieceFromNone(s, sep, start, i + 1);
    }
  }

  /** An occurrence inside a suffix is an occurrence in the whole string. */
  lemma OccursInSuffix(s: string, p: string, start: nat, k: int)
    requires start <= |s| && OccursAt(s[start..], p, k)
    ensures OccursAt(s, p, start + k)
  {
    assert s[start + k..start + k + |p|] == s[start..][k..k + |p|];
  }

  /** The scan's invariant: the current piece began at 0 or right after an
      occurrence of `sep`, and holds no occurrence before the scan position. */
  predicate ScanInvariant(s: string, sep: string, start: nat, i: nat)
  {
    && |sep| > 0 && start <= i <= |s|
    && (start == 0 || OccursAt(s, sep, start - |sep|))
    && (forall k :: start <= k < i ==> !OccursAt(s, sep, k))
  }

  predicate IsLastPiece(s: string, sep: string, r: string)
    requires |r| <= |s|
  {
    && !Contains(r, sep)
    && (|r| < |s| ==> OccursAt(s, sep, |s| - |r| - |sep|))
    && (|r| == |s| ==> !Contains(s, sep))
  }

  lemma {:induction false} LastPieceFromShape(s: string, sep: string, start: nat, i: nat)
    requires ScanInvariant(s, sep, start, i)
    ensures IsLastPiece(s, sep, LastPieceFrom(s, sep, start, i))
    decreases |s| - i
  {
    if i + |sep| > |s| {
      assert LastPieceFrom(s, sep, start, i) == s[start..];
      LastPieceScanDone(s, sep, start, i);
    } else if s[i..i + |sep|] == sep {
      LastPieceAfterMatch(s, sep, start, i);
    } else {
      assert !OccursAt(s, sep, i);
      LastPieceFromShape(s, sep, start, i + 1);
    }
  }

  lemma {:induction false} LastPieceAfterMatch(s: string, sep: string, start: nat, i: nat)
    requires ScanInvariant(s, sep, start, i)
    requires i + |sep| <= |s| && s[i..i + |sep|] == sep
    ensures IsLastPiece(s, sep, LastPieceFrom(s, sep, start, i))
    decreases |s| - i, 0
  {
    var next := i + |sep|;
    assert OccursAt(s, sep, next - |sep|);
    assert ScanInvariant(s, sep, next, next);
    assert LastPieceFrom(s, sep, start, i) == LastPieceFrom(s, sep, next, next);
    LastPieceFromShape(s, sep, next, next);
  }

  lemma LastPieceScanDone(s: string, sep: string, start: nat, i: nat)
    requires ScanInvariant(s, sep, start, i) && i + |sep| > |s|
    ensures IsLastPiece(s, sep, s[start..])
  {
    var r := s[start..];
    forall k | OccursAt(r, sep, k) ensures false {
      OccursInSuffix(s, sep, start, k);
    }
    ContainsSpec(r, sep);
    ContainsSpec(s, sep);
    assert start == 0 ==> r == s;
  }

  lemma LastPieceShape(s: string, sep: string)
    requires |sep| > 0
    ensures var r := LastPiece(s, sep);
      && !Contains(r, sep)
      && (!Contains(s, sep) ==> r == s)
      && (Contains(s, sep) ==> |r| + |sep| <= |s| && s == s[..|s| - |r| - |sep|] + sep + r)
  {
    assert ScanInvariant(s, sep, 0, 0);
    LastPieceFromShape(s, sep, 0, 0);
    var r := LastPiece(s, sep);
    ContainsSpec(s, sep);
    if Contains(s, sep) {
      var n := |s| - |r| - |sep|;
      assert OccursAt(s, sep, n);
      assert s == s[..n] + s[n..n + |sep|] + s[n + |sep|..];
    }
  }

  // ---------------------------------------------------------------------
  // Decimal numbers: `int(digits)` and `str(n)`

  function DigitValue(c: char): (d: nat)
    requires IsDigit(c)
    ensures d < 10
  {
    (c as int - '0' as int) as nat
  }

  function DigitChar(d: nat): (c: char)
    requires d < 10
    ensures IsDigit(c) && DigitValue(c) == d
  {
    ('0' as int + d) as char
  }

  /** `int(s)` for a string of decimal digits. */
  function DecimalValue(s: string): nat
    requires AllDigits(s)
  {
    if s == [] then 0 else 10 * DecimalValue(s[..|s| - 1]) + DigitValue(s[|s| - 1])
  }

  /** `str(n)` for a non-negative integer: its shortest decimal spelling. */
  function NatToString(n: nat): (r: string)
    ensures |r| > 0 && AllDigits(r)
    ensures r[0] == '0' ==> n == 0 && r == "0"
    decreases n
  {
    if n < 10 then [DigitChar(n)] else NatToString(n / 10) + [DigitChar(n % 10)]
  }

  /** Reading back the decimal spelling of a count gives the count. */
  lemma {:induction false} DecimalRoundTrip(n: nat)
    ensures DecimalValue(NatToString(n)) == n
    decreases n
  {
    var r := NatToString(n);
    if n >= 10 {
      DecimalRoundTrip(n / 10);
      assert r[..|r| - 1] == NatToString(n / 10);
    }
  }

  // ---------------------------------------------------------------------
  // `sep.join(parts)` and `str.capitalize()`

  function Join(parts: seq<string>, sep: string): (r: string)
  {
    if |parts| == 0 then ""
    else if |parts| == 1 then parts[0]
    else Join(parts[..|parts| - 1], sep) + sep + parts[|parts| - 1]
  }

  /** A joined string starts with its first part. */
  lemma {:induction false} JoinStartsWithFirst(parts: seq<string>, sep: string)
    requires |parts| > 0
    ensures var r := Join(parts, sep); |parts[0]| <= |r| && r[..|parts[0]|] == parts[0]
  {
    if |parts| > 1 {
      JoinStartsWithFirst(parts[..|parts| - 1], sep);
    }
  }

  function ToUpper(c: char): char
  {
    if 'a' <= c <= 'z' then (c as int - 32) as char else c
  }

  function ToLower(c: char): char
  {
    if 'A' <= c <= 'Z' then (c as int + 32) as char else c
  }

  /** `s.capitalize()`: first character upper-cased, the rest lower-cased
      (ASCII letters only). */
  function Capitalize(s: string): (r: string)
    ensures |r| == |s|
    ensures |s| > 0 ==> r[0] == ToUpper(s[0])
    ensures forall k :: 0 < k < |s| ==> r[k] == ToLower(s[k])
  {
    if s == [] then [] else [ToUpper(s[0])] + seq(|s| - 1, k requires 0 <= k < |s| - 1 => ToLower(s[k + 1]))
  }
}
