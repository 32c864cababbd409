/**
 * The comparison both tracking modes share: the records of the current
 * extraction whose value is not in the set built from the previous one,
 * kept in current order and tagged with their country.
 */
module Diff {
  import opened Parser

  /** A `(country, loss)` pair of the reported difference. */
  datatype Tagged = Tagged(country: string, loss: Loss)

  /** `set(records)`. */
  function Elems(s: seq<Loss>): (r: set<Loss>)
    ensures forall x :: x in r <==> x in s
  {
    set x | x in s
  }

  /** `[item for item in current if item not in previous]`. */
  function NewLosses(previous: set<Loss>, current: seq<Loss>): seq<Loss>
  {
    if current == [] then []
    else
      var last := current[|current| - 1];
      NewLosses(previous, current[..|current| - 1]) + (if last in previous then [] else [last])
  }

  /** Every item tagged with the country. */
  function TagAll(country: string, items: seq<Loss>): (r: seq<Tagged>)
    ensures |r| == |items|
    ensures forall k :: 0 <= k < |r| ==> r[k] == Tagged(country, items[k])
  {
    seq(|items|, k requires 0 <= k < |items| => Tagged(country, items[k]))
  }

  /** The loop `for item in new: if item not in previous:
      diff_losses.append((country, item))` over one country's records. */
  method ReportNew(country: string, previous: set<Loss>, current: seq<Loss>) returns (diff: seq<Tagged>)
    ensures diff == TagAll(country, NewLosses(previous, current))
  {
    diff := [];
    for i := 0 to |current|
      invariant diff == TagAll(country, NewLosses(previous, current[..i]))
    {
      assert current[..i + 1][..i] == current[..i];
      if current[i] !in previous {
        diff := diff + [Tagged(country, current[i])];
      }
    }
    assert current[..|current|] == current;
  }

  // ---------------------------------------------------------------------
  // What the difference contains

  /** The difference keeps the order of `current`: it distributes over
      concatenation, one record at a time. */
  lemma {:induction false} NewLossesAppend(previous: set<Loss>, a: seq<Loss>, b: seq<Loss>)
    ensures NewLosses(previous, a + b) == NewLosses(previous, a) + NewLosses(previous, b)
    decreases |b|
  {
    if b == [] {
      assert a + b == a;
    } else {
      var b' := b[..|b| - 1];
      assert (a + b)[..|a + b| - 1] == a + b';
      assert (a + b)[|a + b| - 1] == b[|b| - 1];
      NewLossesAppend(previous, a, b');
    }
  }

  /** A record absent from the previous set is reported as often as it
      occurs in `current`; one present there is never reported. */
  lemma {:induction false} NewLossesCount(previous: set<Loss>, current: seq<Loss>)
    ensures forall x :: multiset(NewLosses(previous, current))[x]
                        == if x in previous then 0 else multiset(current)[x]
  {
    if current != [] {
      var init := current[..|current| - 1];
      var last := current[|current| - 1];
      NewLossesCount(previous, init);
      assert current == init + [last];
      assert multiset(current) == multiset(init) + multiset{last};
    }
  }

  /** Membership: a record is reported exactly when it is current and not
      previous. */
  lemma NewLossesMembers(previous: set<Loss>, current: seq<Loss>)
    ensures forall x :: x in NewLosses(previous, current) <==> x in current && x !in previous
  {
    NewLossesCount(previous, current);
    forall x ensures x in NewLosses(previous, current) <==> x in current && x !in previous {
      assert x in NewLosses(previous, current) <==> multiset(NewLosses(previous, current))[x] > 0;
      assert x in current <==> multiset(current)[x] > 0;
    }
  }

  /** Comparing a list with itself reports nothing. */
  lemma SelfDiffEmpty(s: seq<Loss>)
    ensures NewLosses(Elems(s), s) == []
  {
    AllPresentNothingNew(Elems(s), s);
  }

  /** Against an empty baseline every record is new, in order. */
  lemma {:induction false} EmptyBaselineReportsAll(s: seq<Loss>)
    ensures NewLosses({}, s) == s
  {
    if s != [] {
      EmptyBaselineReportsAll(s[..|s| - 1]);
    }
  }

  /** A baseline missing exactly one record `s[i]` that occurs nowhere else
      in `s` makes the difference exactly that record. */
  lemma RemovedRecordReported(s: seq<Loss>, i: nat)
    requires i < |s| && s[i] !in s[..i] + s[i + 1..]
    ensures NewLosses(Elems(s[..i] + s[i + 1..]), s) == [s[i]]
  {
    var rest := s[..i] + s[i + 1..];
    forall k | 0 <= k < |s| && k != i ensures s[k] in Elems(rest) {
      if k < i {
        assert s[k] == rest[k];
      } else {
        assert s[k] == rest[k - 1];
      }
    }
    OnlyMissingReported(Elems(rest), s, i);
  }

  /** When every record but `s[i]` is present, `s[i]` is the whole
      difference. */
  lemma OnlyMissingReported(p: set<Loss>, s: seq<Loss>, i: nat)
    requires i < |s| && s[i] !in p
    requires forall k :: 0 <= k < |s| && k != i ==> s[k] in p
    ensures NewLosses(p, s) == [s[i]]
  {
    var before, after := s[..i], s[i + 1..];
    assert s == before + [s[i]] + after;
    NewLossesAppend(p, before + [s[i]], after);
    NewLossesAppend(p, before, [s[i]]);
    assert NewLosses(p, [s[i]]) == [s[i]] by {
      assert [s[i]][..0] == [];
    }
    AllPresentNothingNew(p, before);
    assert forall k :: 0 <= k < |after| ==> after[k] == s[i + 1 + k];
    AllPresentNothingNew(p, after);
  }

  /** Records that are all in the previous set contribute nothing. */
  lemma {:induction false} AllPresentNothingNew(previous: set<Loss>, s: seq<Loss>)
    requires forall k :: 0 <= k < |s| ==> s[k] in previous
    ensures NewLosses(previous, s) == []
  {
    if s != [] {
      AllPresentNothingNew(previous, s[..|s| - 1]);
    }
  }

  /** Tagging distributes over concatenation. */
  lemma TagAllAppend(country: string, a: seq<Loss>, b: seq<Loss>)
    ensures TagAll(country, a + b) == TagAll(country, a) + TagAll(country, b)
  {
  }
}
