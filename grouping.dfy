/**
 * `itertools.groupby` without a prior sort: a sequence cut into its
 * maximal runs of consecutive elements with the same key.
 */
module Grouping {

  /** The runs of `xs` under `key`, in order. */
  function Runs<T, K(==)>(xs: seq<T>, key: T -> K): (r: seq<seq<T>>)
    ensures forall i :: 0 <= i < |r| ==> r[i] != []
    ensures xs != [] ==> r != [] && r[0][0] == xs[0]
    ensures xs == [] ==> r == []
  {
    if xs == [] then []
    else
      var rest := Runs(xs[1..], key);
      if rest != [] && key(rest[0][0]) == key(xs[0]) then [[xs[0]] + rest[0]] + rest[1..]
      else [[xs[0]]] + rest
  }

  /** The runs laid end to end. */
  function Flatten<T>(runs: seq<seq<T>>): seq<T>
  {
    if runs == [] then [] else runs[0] + Flatten(runs[1..])
  }

  /** The runs of `xs` are a partition of `xs` into non-empty blocks of
      consecutive elements, each block sharing one key, and two adjacent
      blocks always having different keys (so each block is maximal). */
  lemma RunsSpec<T, K>(xs: seq<T>, key: T -> K)
    ensures Flatten(Runs(xs, key)) == xs
    ensures forall i, j :: 0 <= i < |Runs(xs, key)| && 0 <= j < |Runs(xs, key)[i]| ==>
      key(Runs(xs, key)[i][j]) == key(Runs(xs, key)[i][0])
    ensures forall i :: 0 <= i < |Runs(xs, key)| - 1 ==> key(Runs(xs, key)[i][0]) != key(Runs(xs, key)[i + 1][0])
  {
    RunsFlatten(xs, key);
    RunsShareKey(xs, key);
    RunsMaximal(xs, key);
  }

  /** Laid end to end, the runs give back the sequence. */
  lemma {:induction false} RunsFlatten<T, K>(xs: seq<T>, key: T -> K)
    ensures Flatten(Runs(xs, key)) == xs
    decreases |xs|
  {
    if xs != [] {
      var rest := Runs(xs[1..], key);
      RunsFlatten(xs[1..], key);
      var r := Runs(xs, key);
      if rest != [] && key(rest[0][0]) == key(xs[0]) {
        assert r[1..] == rest[1..];
        assert Flatten(rest) == rest[0] + Flatten(rest[1..]);
        assert Flatten(r) == ([xs[0]] + rest[0]) + Flatten(rest[1..]);
      } else {
        assert r[1..] == rest;
      }
      assert xs == [xs[0]] + xs[1..];
    }
  }

  /** Every element of a run has the run's key. */
  lemma {:induction false} RunsShareKey<T, K>(xs: seq<T>, key: T -> K)
    ensures forall i, j :: 0 <= i < |Runs(xs, key)| && 0 <= j < |Runs(xs, key)[i]| ==>
      key(Runs(xs, key)[i][j]) == key(Runs(xs, key)[i][0])
    decreases |xs|
  {
    if xs != [] {
      var rest := Runs(xs[1..], key);
      RunsShareKey(xs[1..], key);
      var r := Runs(xs, key);
      if rest != [] && key(rest[0][0]) == key(xs[0]) {
        forall j | 0 <= j < |r[0]| ensures key(r[0][j]) == key(r[0][0]) {
          if j > 0 {
            assert r[0][j] == rest[0][j - 1];
          }
        }
        assert forall i :: 1 <= i < |r| ==> r[i] == rest[i];
      } else {
        assert forall i :: 1 <= i < |r| ==> r[i] == rest[i - 1];
      }
    }
  }

  /** Two adjacent runs have different keys. */
  lemma {:induction false} RunsMaximal<T, K>(xs: seq<T>, key: T -> K)
    ensures forall i :: 0 <= i < |Runs(xs, key)| - 1 ==> key(Runs(xs, key)[i][0]) != key(Runs(xs, key)[i + 1][0])
    decreases |xs|
  {
    if xs != [] {
      var rest := Runs(xs[1..], key);
      RunsMaximal(xs[1..], key);
      var r := Runs(xs, key);
      if rest != [] && key(rest[0][0]) == key(xs[0]) {
        forall i | 1 <= i < |r| - 1 ensures key(r[i][0]) != key(r[i + 1][0]) {
          assert r[i] == rest[i] && r[i + 1] == rest[i + 1];
        }
      } else {
        assert r[1..] == rest;
      }
    }
  }

  /** The lengths of the runs add up to the length of the sequence. */
  lemma RunLengths<T, K>(xs: seq<T>, key: T -> K)
    ensures SumLengths(Runs(xs, key)) == |xs|
  {
    RunsSpec(xs, key);
    FlattenLength(Runs(xs, key));
  }

  /** The total length of some runs. */
  function SumLengths<T>(runs: seq<seq<T>>): nat
  {
    if runs == [] then 0 else |runs[0]| + SumLengths(runs[1..])
  }

  lemma {:induction false} FlattenLength<T>(runs: seq<seq<T>>)
    ensures |Flatten(runs)| == SumLengths(runs)
  {
    if runs != [] {
      FlattenLength(runs[1..]);
    }
  }

  /** A sequence whose elements all share one key is a single run. */
  lemma {:induction false} ConstantKeyOneRun<T, K>(xs: seq<T>, key: T -> K)
    requires xs != []
    requires forall j :: 0 <= j < |xs| ==> key(xs[j]) == key(xs[0])
    ensures Runs(xs, key) == [xs]
    decreases |xs|
  {
    if |xs| > 1 {
      var tail := xs[1..];
      assert forall j :: 0 <= j < |tail| ==> tail[j] == xs[j + 1];
      ConstantKeyOneRun(tail, key);
      assert key(tail[0]) == key(xs[0]);
      assert [xs[0]] + tail == xs;
    } else {
      assert xs[1..] == [] && [xs[0]] == xs;
    }
  }
}
