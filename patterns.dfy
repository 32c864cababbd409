/**
 * The two regular expressions of the parser, written out by hand:
 * the caption pattern `\d+\W+(.+)$` applied with `re.match` (anchored at
 * the first character), and `re.findall(r'\d+', ...)`.
 * `\d` and `\w` are read as their ASCII classes; `.` is any character but
 * a newline, and `$` matches at the end or just before a final newline.
 */
module Patterns {
  import opened Wrappers
  import opened Strings

  /** `t` has no newline: `.` accepts each of its characters. */
  predicate NoNewline(t: string)
  {
    t == [] || (t[0] != '\n' && NoNewline(t[1..]))
  }

  lemma {:induction false} NoNewlineSpec(t: string)
    ensures NoNewline(t) <==> forall k :: 0 <= k < |t| ==> t[k] != '\n'
  {
    if t != [] {
      NoNewlineSpec(t[1..]);
      assert forall k :: 1 <= k < |t| ==> t[k] == t[1..][k - 1];
    }
  }

  // ---------------------------------------------------------------------
  // Caption pattern `\d+\W+(.+)$`

  /** `(.+)$` matched against the whole remainder `t`: the captured group,
      if there is one. `.+` is greedy and cannot cross a newline; `$` also
      accepts a single newline at the very end. */
  function DotPlusEnd(t: string): Option<string>
  {
    if |t| > 0 && NoNewline(t) then Some(t)
    else if |t| > 1 && t[|t| - 1] == '\n' && NoNewline(t[..|t| - 1]) then Some(t[..|t| - 1])
    else None
  }

  /** The group is a non-empty run without newlines that is all of `t`, or
      all of it but a final newline; and there is one whenever `t` has that
      shape. */
  lemma DotPlusEndSpec(t: string)
    ensures var g := DotPlusEnd(t);
      && (g.Some? ==> |g.value| > 0 && NoNewline(g.value) && (t == g.value || t == g.value + "\n"))
      && (g.None? <==> forall u :: |u| > 0 && NoNewline(u) ==> t != u && t != u + "\n")
  {
    var g := DotPlusEnd(t);
    if g.Some? && t != g.value {
      assert t == t[..|t| - 1] + "\n";
    }
    forall u | |u| > 0 && NoNewline(u) && t == u + "\n" ensures g.Some? {
      assert t[..|t| - 1] == u;
    }
  }

  /** One way the whole pattern can match `t`: digits `t[..i]`, non-word
      characters `t[i..j]`, and `(.+)$` on `t[j..]`. */
  ghost predicate CaptionSplit(t: string, i: int, j: int)
  {
    && 0 < i < j <= |t|
    && (forall k :: 0 <= k < i ==> IsDigit(t[k]))
    && (forall k :: i <= k < j ==> !IsWordChar(t[k]))
    && GroupAt(t, j)
  }

  /** `(.+)$` matches the remainder of `t` from `m` on. */
  predicate GroupAt(t: string, m: nat)
    requires m <= |t|
  {
    DotPlusEnd(t[m..]).Some?
  }

  /** Backtracking over the `\W+` run: try the split points from `j` down to
      `i + 1`, longest first, as the regex engine does. */
  function TryGroupFrom(t: string, i: nat, j: nat): (g: Option<string>)
    requires i < j <= |t|
    decreases j
  {
    match DotPlusEnd(t[j..])
    case Some(g) => Some(g)
    case None => if j == i + 1 then None else TryGroupFrom(t, i, j - 1)
  }

  /** The split point the backtracking search stops at. */
  function LastGroupPoint(t: string, i: nat, j: nat): Option<nat>
    requires i < j <= |t|
    decreases j
  {
    if GroupAt(t, j) then Some(j)
    else if j == i + 1 then None
    else LastGroupPoint(t, i, j - 1)
  }

  /** `re.match(r'\d+\W+(.+)$', t)`, giving `group(1)`. */
  function MatchCaption(t: string): (g: Option<string>)
  {
    var i := SpanEnd(t, Digit, 0);
    if i == 0 then None
    else
      var j := SpanEnd(t, NonWord, i);
      if j == i then None else TryGroupFrom(t, i, j)
  }

  /** The search yields the group at the split point it stops at. */
  lemma {:induction false} TryGroupFromPoint(t: string, i: nat, j: nat)
    requires i < j <= |t|
    ensures var p := LastGroupPoint(t, i, j);
      && (p.None? ==> TryGroupFrom(t, i, j).None?)
      && (p.Some? ==> p.value <= |t| && TryGroupFrom(t, i, j) == DotPlusEnd(t[p.value..]))
    decreases j
  {
    if !GroupAt(t, j) && j > i + 1 {
      TryGroupFromPoint(t, i, j - 1);
    }
  }

  /** The point it stops at is the largest in `(i, j]` at which `(.+)$`
      matches, and there is none exactly when no point matches. */
  lemma {:induction false} LastGroupPointLargest(t: string, i: nat, j: nat)
    requires i < j <= |t|
    ensures var p := LastGroupPoint(t, i, j);
      && (p.None? ==> forall m :: i < m <= j ==> !GroupAt(t, m))
      && (p.Some? ==> i < p.value <= j && GroupAt(t, p.value)
                      && forall m :: p.value < m <= j ==> !GroupAt(t, m))
    decreases j
  {
    if !GroupAt(t, j) && j > i + 1 {
      LastGroupPointLargest(t, i, j - 1);
    }
  }

  /** The backtracking search finds the largest split point in `(i, j]` at
      which `(.+)$` matches, and nothing if there is none. */
  lemma TryGroupFromLargest(t: string, i: nat, j: nat)
    requires i < j <= |t|
    ensures var g := TryGroupFrom(t, i, j);
      && (g.None? <==> forall m :: i < m <= j ==> !GroupAt(t, m))
      && (g.Some? ==> exists m :: i < m <= j && g == DotPlusEnd(t[m..])
                               && forall m' :: m < m' <= j ==> !GroupAt(t, m'))
  {
    TryGroupFromPoint(t, i, j);
    LastGroupPointLargest(t, i, j);
    var p := LastGroupPoint(t, i, j);
    if p.Some? {
      assert i < p.value <= j && TryGroupFrom(t, i, j) == DotPlusEnd(t[p.value..]);
    }
  }

  /** The pattern matches exactly when some split exists, and the group it
      captures is the one after the longest `\W+` run that still leaves a
      match for `(.+)$`. */
  lemma CaptionMatchSpec(t: string)
    ensures MatchCaption(t).None? <==> forall i, j :: !CaptionSplit(t, i, j)
    ensures MatchCaption(t).Some? ==>
      exists i, j :: CaptionSplit(t, i, j) && MatchCaption(t) == DotPlusEnd(t[j..])
                     && forall j' :: CaptionSplit(t, i, j') ==> j' <= j
  {
    var i := SpanEnd(t, Digit, 0);
    var e := if i == 0 then 0 else SpanEnd(t, NonWord, i);
    // Any split starts its `\W+` run at `i` and ends it by `e`.
    forall i', j' | CaptionSplit(t, i', j') ensures i' == i && i < j' <= e {
      assert !IsDigit(t[i']);
      SpanEndUnique(t, Digit, 0, i');
      SpanEndAtLeast(t, NonWord, i, j');
    }
    if i > 0 && e > i {
      TryGroupFromLargest(t, i, e);
      var g := TryGroupFrom(t, i, e);
      if g.Some? {
        var m :| i < m <= e && g == DotPlusEnd(t[m..])
                 && forall m' :: m < m' <= e ==> !GroupAt(t, m');
        assert CaptionSplit(t, i, m);
      }
    }
  }

  // ---------------------------------------------------------------------
  // `re.findall(r'\d+', s)`

  /** The maximal runs of digits of `s`, left to right. */
  function DigitRuns(s: string): (r: seq<string>)
    ensures forall k :: 0 <= k < |r| ==> |r[k]| > 0 && AllDigits(r[k])
    decreases |s|
  {
    if s == [] then []
    else if !IsDigit(s[0]) then DigitRuns(s[1..])
    else
      var n := SpanEnd(s, Digit, 0);
      [s[..n]] + DigitRuns(s[n..])
  }

  /** The digits of `s`, in order. */
  function DigitsOf(s: string): (d: string)
  {
    if s == [] then [] else (if IsDigit(s[0]) then [s[0]] else []) + DigitsOf(s[1..])
  }

  function Concat(parts: seq<string>): string
  {
    if parts == [] then [] else parts[0] + Concat(parts[1..])
  }

  lemma {:induction false} DigitsOfAllDigits(s: string)
    requires AllDigits(s)
    ensures DigitsOf(s) == s
  {
    if s != [] {
      DigitsOfAllDigits(s[1..]);
    }
  }

  lemma {:induction false} DigitsOfAppend(a: string, b: string)
    ensures DigitsOf(a + b) == DigitsOf(a) + DigitsOf(b)
  {
    if a != [] {
      var head := if IsDigit(a[0]) then [a[0]] else [];
      assert (a + b)[0] == a[0];
      assert (a + b)[1..] == a[1..] + b;
      assert DigitsOf(a + b) == head + DigitsOf(a[1..] + b);
      DigitsOfAppend(a[1..], b);
      assert DigitsOf(a) == head + DigitsOf(a[1..]);
    } else {
      assert a + b == b;
    }
  }

  /** No digit is lost or invented: the runs spell out the string's digits. */
  lemma {:induction false} DigitRunsCoverDigits(s: string)
    ensures Concat(DigitRuns(s)) == DigitsOf(s)
    decreases |s|
  {
    if s != [] {
      if !IsDigit(s[0]) {
        DigitRunsCoverDigits(s[1..]);
      } else {
        var n := SpanEnd(s, Digit, 0);
        DigitRunsCoverDigits(s[n..]);
        assert s == s[..n] + s[n..];
        DigitsOfAppend(s[..n], s[n..]);
        DigitsOfAllDigits(s[..n]);
      }
    }
  }

  /** A string without digits has no runs; its runs are empty only then. */
  lemma {:induction false} DigitRunsEmpty(s: string)
    ensures DigitRuns(s) == [] <==> forall k :: 0 <= k < |s| ==> !IsDigit(s[k])
    decreases |s|
  {
    if s != [] && !IsDigit(s[0]) {
      DigitRunsEmpty(s[1..]);
      assert forall k :: 1 <= k < |s| ==> s[k] == s[1..][k - 1];
    }
  }

  /** A non-empty string of digits is one run: runs are never split. */
  lemma DigitRunsOfDigits(s: string)
    requires |s| > 0 && AllDigits(s)
    ensures DigitRuns(s) == [s]
  {
    SpanEndUnique(s, Digit, 0, |s|);
    assert s[..|s|] == s;
  }

  /** A non-digit separates runs: the runs of `a + [c] + b` are those of
      `a` followed by those of `b`. */
  lemma {:induction false} DigitRunsSplit(a: string, c: char, b: string)
    requires !IsDigit(c)
    ensures DigitRuns(a + [c] + b) == DigitRuns(a) + DigitRuns(b)
    decreases |a|
  {
    var s := a + [c] + b;
    if a == [] {
      assert s[1..] == b;
    } else if !IsDigit(a[0]) {
      assert s[1..] == a[1..] + [c] + b;
      DigitRunsSplit(a[1..], c, b);
    } else {
      var n := SpanEnd(a, Digit, 0);
      assert forall k :: 0 <= k < n ==> s[k] == a[k];
      assert n < |a| ==> s[n] == a[n];
      assert n == |a| ==> s[n] == c;
      SpanEndUnique(s, Digit, 0, n);
      assert s[..n] == a[..n];
      assert s[n..] == a[n..] + [c] + b;
      DigitRunsSplit(a[n..], c, b);
    }
  }
}
