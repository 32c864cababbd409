/**
 * Baseline mode, the part both main programs share: for each tracked page
 * in `URLS` order, rebuild the country's previous records from the stored
 * baseline, parse the current page, report the current records that are
 * not among the previous ones, and keep the current list as the country's
 * next baseline.
 */
module Tracking {
  import opened Wrappers
  import opened Html
  import opened Parser
  import opened Records
  import opened Diff
  import opened Effects
  import opened Seqs

  /** What a pass over the countries gives: the tagged difference, and
      each country's full current list, in `URLS` order. */
  datatype Outcome = Outcome(diff: seq<Tagged>, current: seq<seq<Loss>>)

  /** One turn of the loop: the previous set (lookup and rebuild first),
      then the page's records, then the country's new records. */
  function CountryStep(last: Json, lookup: Lookup, country: string, doc: Node): Result<(seq<Tagged>, seq<Loss>), Fault>
  {
    match PreviousRecords(last, country, lookup)
    case Err(e) => Err(BaselineFault(e))
    case Ok(previous) =>
      match ParseDocument(doc)
      case Err(e) => Err(ParseFault(e))
      case Ok(current) => Ok((TagAll(country, NewLosses(Elems(previous), current)), current))
  }

  /** The loop over `zip(bodies, URLS.values())`: countries in order, the
      first failure aborting the pass. */
  function Compared(last: Json, lookup: Lookup, countries: seq<string>, docs: seq<Node>): (r: Result<Outcome, Fault>)
    requires |countries| == |docs|
    ensures r.Ok? ==> |r.value.current| == |countries|
  {
    if countries == [] then Ok(Outcome([], []))
    else
      var n := |countries| - 1;
      match Compared(last, lookup, countries[..n], docs[..n])
      case Err(e) => Err(e)
      case Ok(o) =>
        match CountryStep(last, lookup, countries[n], docs[n])
        case Err(e) => Err(e)
        case Ok(step) => Ok(Outcome(o.diff + step.0, o.current + [step.1]))
  }

  /** The loop itself: `previous = set(...)`, `new = list(parse_losses(body))`,
      `new_losses.append(...)`, and the inner loop appending to
      `diff_losses`. */
  method CompareCountries(last: Json, lookup: Lookup, countries: seq<string>, docs: seq<Node>)
    returns (r: Result<Outcome, Fault>)
    requires |countries| == |docs|
    ensures r == Compared(last, lookup, countries, docs)
  {
    var diffLosses: seq<Tagged> := [];
    var newLosses: seq<seq<Loss>> := [];
    for i := 0 to |countries|
      invariant Compared(last, lookup, countries[..i], docs[..i]) == Ok(Outcome(diffLosses, newLosses))
    {
      ComparedNext(last, lookup, countries, docs, i);
      var previous := PreviousRecords(last, countries[i], lookup);
      if previous.Err? {
        ComparedStopsAtError(last, lookup, countries, docs, i + 1);
        return Err(BaselineFault(previous.error));
      }
      var parsed := ParseLosses(docs[i]);
      if parsed.Err? {
        ComparedStopsAtError(last, lookup, countries, docs, i + 1);
        return Err(ParseFault(parsed.error));
      }
      newLosses := newLosses + [parsed.value];
      var diff := ReportNew(countries[i], Elems(previous.value), parsed.value);
      diffLosses := diffLosses + diff;
    }
    assert countries[..|countries|] == countries && docs[..|docs|] == docs;
    r := Ok(Outcome(diffLosses, newLosses));
  }

  /** One more country after the first `i`. */
  lemma ComparedNext(last: Json, lookup: Lookup, countries: seq<string>, docs: seq<Node>, i: nat)
    requires |countries| == |docs| && i < |countries|
    ensures Compared(last, lookup, countries[..i + 1], docs[..i + 1]) ==
      match Compared(last, lookup, countries[..i], docs[..i])
      case Err(e) => Err(e)
      case Ok(o) =>
        match CountryStep(last, lookup, countries[i], docs[i])
        case Err(e) => Err(e)
        case Ok(step) => Ok(Outcome(o.diff + step.0, o.current + [step.1]))
  {
    assert countries[..i + 1][..i] == countries[..i] && docs[..i + 1][..i] == docs[..i];
  }

  /** Once a country fails, the countries after it are not looked at. */
  lemma {:induction false} ComparedStopsAtError(last: Json, lookup: Lookup, countries: seq<string>, docs: seq<Node>, n: nat)
    requires |countries| == |docs| && n <= |countries|
    requires Compared(last, lookup, countries[..n], docs[..n]).Err?
    ensures Compared(last, lookup, countries, docs) == Compared(last, lookup, countries[..n], docs[..n])
    decreases |countries| - n
  {
    if n < |countries| {
      assert countries[..n + 1][..n] == countries[..n] && docs[..n + 1][..n] == docs[..n];
      ComparedStopsAtError(last, lookup, countries, docs, n + 1);
    } else {
      assert countries[..n] == countries && docs[..n] == docs;
    }
  }

  // ---------------------------------------------------------------------
  // What a pass computes

  /** The reference result: each country's current records that are not
      among its previous ones, tagged, countries in order. */
  function NewPerCountry(countries: seq<string>, previous: seq<seq<Loss>>, current: seq<seq<Loss>>): seq<Tagged>
    requires |countries| == |previous| == |current|
  {
    if countries == [] then []
    else
      var n := |countries| - 1;
      NewPerCountry(countries[..n], previous[..n], current[..n])
        + TagAll(countries[n], NewLosses(Elems(previous[n]), current[n]))
  }

  /** When every country's previous records can be rebuilt and every page
      parses, the pass succeeds; its difference is the per-country
      difference against the previous records, and its current lists are
      the pages' records, which become the next baseline. */
  lemma {:induction false} ComparedSpec(last: Json, lookup: Lookup, countries: seq<string>, docs: seq<Node>,
                                        previous: seq<seq<Loss>>, current: seq<seq<Loss>>)
    requires |countries| == |docs| == |previous| == |current|
    requires forall i :: 0 <= i < |countries| ==> PreviousRecords(last, countries[i], lookup) == Ok(previous[i])
    requires forall i :: 0 <= i < |docs| ==> ParseDocument(docs[i]) == Ok(current[i])
    ensures Compared(last, lookup, countries, docs) == Ok(Outcome(NewPerCountry(countries, previous, current), current))
    decreases |countries|
  {
    if countries != [] {
      var n := |countries| - 1;
      assert forall i :: 0 <= i < n ==> countries[..n][i] == countries[i] && previous[..n][i] == previous[i];
      assert forall i :: 0 <= i < n ==> docs[..n][i] == docs[i] && current[..n][i] == current[i];
      ComparedSpec(last, lookup, countries[..n], docs[..n], previous[..n], current[..n]);
      assert CountryStep(last, lookup, countries[n], docs[n])
        == Ok((TagAll(countries[n], NewLosses(Elems(previous[n]), current[n])), current[n]));
      LastSplit(current);
    }
  }

  /** A pass fails only when some country's previous records cannot be
      rebuilt or some page cannot be parsed. */
  lemma {:induction false} ComparedFails(last: Json, lookup: Lookup, countries: seq<string>, docs: seq<Node>)
    requires |countries| == |docs|
    ensures Compared(last, lookup, countries, docs).Err? ==>
      exists i :: 0 <= i < |countries| &&
        (PreviousRecords(last, countries[i], lookup).Err? || ParseDocument(docs[i]).Err?)
    decreases |countries|
  {
    if countries != [] {
      var n := |countries| - 1;
      ComparedFails(last, lookup, countries[..n], docs[..n]);
      if Compared(last, lookup, countries[..n], docs[..n]).Err? {
        var i :| 0 <= i < n && (PreviousRecords(last, countries[..n][i], lookup).Err? || ParseDocument(docs[..n][i]).Err?);
        assert countries[..n][i] == countries[i] && docs[..n][i] == docs[i];
      }
    }
  }

  /** A pass that succeeds could rebuild every country's previous records,
      and its current lists are the pages' parsed records. */
  lemma {:induction false} ComparedOk(last: Json, lookup: Lookup, countries: seq<string>, docs: seq<Node>)
    requires |countries| == |docs|
    ensures Compared(last, lookup, countries, docs).Ok? ==>
      forall i :: 0 <= i < |countries| ==>
        && PreviousRecords(last, countries[i], lookup).Ok?
        && ParseDocument(docs[i]) == Ok(Compared(last, lookup, countries, docs).value.current[i])
    decreases |countries|
  {
    if countries != [] && Compared(last, lookup, countries, docs).Ok? {
      var n := |countries| - 1;
      ComparedOk(last, lookup, countries[..n], docs[..n]);
      forall i | 0 <= i < n
        ensures PreviousRecords(last, countries[i], lookup).Ok?
        ensures ParseDocument(docs[i]) == Ok(Compared(last, lookup, countries, docs).value.current[i])
      {
        assert countries[..n][i] == countries[i] && docs[..n][i] == docs[i];
      }
    }
  }

  /** Storing the current lists as the baseline and running again on the
      same pages reports nothing and stores the same lists: for distinct
      countries, each record survives the round trip through the store
      unchanged. */
  lemma RerunNoDiff(last: Json, lookup: Lookup, next: Lookup, countries: seq<string>, docs: seq<Node>)
    requires |countries| == |docs|
    requires forall a, b :: 0 <= a < b < |countries| ==> countries[a] != countries[b]
    requires Compared(last, lookup, countries, docs).Ok?
    ensures var current := Compared(last, lookup, countries, docs).value.current;
      Compared(DumpBaseline(countries, current), next, countries, docs) == Ok(Outcome([], current))
  {
    var current := Compared(last, lookup, countries, docs).value.current;
    ComparedOk(last, lookup, countries, docs);
    var stored := DumpBaseline(countries, current);
    forall i | 0 <= i < |countries| ensures PreviousRecords(stored, countries[i], next) == Ok(current[i]) {
      BaselineRoundTrip(countries, current, next, i);
    }
    ComparedSpec(stored, next, countries, docs, current, current);
    NoChangeNoDiff(countries, current);
  }

  /** Nothing new is reported when nothing was previously known to be
      missing: previous lists equal to the current ones give no
      difference. */
  lemma {:induction false} NoChangeNoDiff(countries: seq<string>, current: seq<seq<Loss>>)
    requires |countries| == |current|
    ensures NewPerCountry(countries, current, current) == []
  {
    if countries != [] {
      var n := |countries| - 1;
      NoChangeNoDiff(countries[..n], current[..n]);
      SelfDiffEmpty(current[n]);
    }
  }

  /** Against empty previous lists everything current is reported, each
      record tagged with its country, countries in order. */
  lemma {:induction false} NothingKnownAllNew(countries: seq<string>, current: seq<seq<Loss>>)
    requires |countries| == |current|
    ensures NewPerCountry(countries, Nothing(|countries|), current) == AllTagged(countries, current)
  {
    if countries != [] {
      var n := |countries| - 1;
      assert Nothing(|countries|)[..n] == Nothing(n);
      NothingKnownAllNew(countries[..n], current[..n]);
      EmptyBaselineReportsAll(current[n]);
      assert Elems([]) == {};
    }
  }

  /** A baseline that knows nothing of any country (every lookup gives
      an empty list) reports every current record. */
  lemma FreshBaselineReportsAll(last: Json, lookup: Lookup, countries: seq<string>, docs: seq<Node>, current: seq<seq<Loss>>)
    requires |countries| == |docs| == |current|
    requires forall i :: 0 <= i < |countries| ==> PreviousRecords(last, countries[i], lookup) == Ok([])
    requires forall i :: 0 <= i < |docs| ==> ParseDocument(docs[i]) == Ok(current[i])
    ensures Compared(last, lookup, countries, docs) == Ok(Outcome(AllTagged(countries, current), current))
  {
    ComparedSpec(last, lookup, countries, docs, Nothing(|countries|), current);
    NothingKnownAllNew(countries, current);
  }

  /** A stored record whose number was written as a string still rebuilds,
      but into a record no parsed one equals: the pass goes on, and the
      current record it stood for is reported as new. */
  lemma MistypedRecordReported(country: string, lookup: Lookup, doc: Node, l: Loss, s: string)
    requires ParseDocument(doc) == Ok([l])
    ensures var stored := JObject(map[country := JList([JObject(AsDict(l).fields["number" := JStr(s)])])]);
      CountryStep(stored, lookup, country, doc) == Ok((TagAll(country, [l]), [l]))
  {
    var stored := JObject(map[country := JList([JObject(AsDict(l).fields["number" := JStr(s)])])]);
    MistypedNumberMatchesNothing(l, s);
    assert PreviousRecords(stored, country, lookup) == Ok([]);
    EmptyBaselineReportsAll([l]);
    assert Elems([]) == {};
  }

  /** `n` empty lists of records. */
  function Nothing(n: nat): (r: seq<seq<Loss>>)
    ensures |r| == n && forall k :: 0 <= k < n ==> r[k] == []
  {
    seq(n, _ => [])
  }

  /** Every current record, tagged with its country, countries in order. */
  function AllTagged(countries: seq<string>, current: seq<seq<Loss>>): seq<Tagged>
    requires |countries| == |current|
  {
    if countries == [] then []
    else
      var n := |countries| - 1;
      AllTagged(countries[..n], current[..n]) + TagAll(countries[n], current[n])
  }
}
