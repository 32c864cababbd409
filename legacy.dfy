/**
 * The baseline cycle of main.py, `compare_with_last`: the stored baseline
 * is read first (a missing object standing for an empty list per
 * country, any other storage error propagating), the pages are fetched
 * live, each country's previous records are looked up strictly with
 * `last_data[country]`, and the baseline is replaced with the current
 * lists before the difference is returned.
 */
module LegacyMain {
  import opened Wrappers
  import opened Html
  import opened Parser
  import opened Records
  import opened Diff
  import opened Effects
  import opened Snapshots
  import opened Tracking

  /** `{k: [] for k in URLS.values()}`. */
  function EmptyBaseline(countries: seq<string>): (j: Json)
    ensures j.JObject? && forall c :: c in j.fields <==> c in countries
    ensures forall c :: c in j.fields ==> j.fields[c] == JList([])
  {
    JObject(map c | c in countries :: JList([]))
  }

  /** What the `try`/`except ClientError` around the read leaves in
      `last_data`, or the error it re-raises. */
  function StartingBaseline(stored: Result<Json, string>, countries: seq<string>): (r: Result<Json, Fault>)
    ensures r.Err? <==> stored.Err? && stored.error != "NoSuchKey"
  {
    match stored
    case Ok(v) => Ok(v)
    case Err(code) => if code == "NoSuchKey" then Ok(EmptyBaseline(countries)) else Err(StoreFault(code))
  }

  /** `compare_with_last` given what reading the baseline key gives: the
      baseline, then the live pages, then the comparison with strict
      lookup. */
  function WithLast(stored: Result<Json, string>, sources: seq<Source>, web: Web): Result<Outcome, Fault>
  {
    match StartingBaseline(stored, Countries(sources))
    case Err(e) => Err(e)
    case Ok(last) =>
      match Gather(web, LiveJobs(sources))
      case Err(e) => Err(e)
      case Ok(bodies) => Compared(last, Subscript, Countries(sources), Docs(bodies))
  }

  /** `compare_with_last(s3)` against the store held by `w` under `key`:
      on success the key holds the current lists (whatever the
      difference) and that write is the only effect; on failure nothing
      is written. */
  method CompareWithLast(w: World, key: string, sources: seq<Source>, web: Web) returns (r: Result<seq<Tagged>, Fault>)
    modifies w
    ensures w.faults == old(w.faults)
    ensures var spec := WithLast(old(w.Read(key)), sources, web);
      spec.Ok? ==>
        var baseline := DumpBaseline(Countries(sources), spec.value.current);
        && r == Ok(spec.value.diff)
        && w.objects == old(w.objects)[key := baseline]
        && w.events == old(w.events) + [Stored(key, baseline)]
    ensures var spec := WithLast(old(w.Read(key)), sources, web);
      spec.Err? ==> r == Err(spec.error) && w.objects == old(w.objects) && w.events == old(w.events)
  {
    var stored := w.Read(key);
    var last: Json;
    match stored {
      case Ok(v) =>
        last := v;
      case Err(code) =>
        if code == "NoSuchKey" {
          last := EmptyBaseline(Countries(sources));
        } else {
          return Err(StoreFault(code));
        }
    }
    var bodies := Gather(web, LiveJobs(sources));
    if bodies.Err? {
      return Err(bodies.error);
    }
    var outcome := CompareCountries(last, Subscript, Countries(sources), Docs(bodies.value));
    if outcome.Err? {
      return Err(outcome.error);
    }
    w.Put(key, DumpBaseline(Countries(sources), outcome.value.current));
    r := Ok(outcome.value.diff);
  }

  // ---------------------------------------------------------------------
  // What a cycle computes

  /** A storage error other than a missing key aborts the cycle before
      anything is fetched. */
  lemma StoreErrorAborts(code: string, sources: seq<Source>, web: Web)
    requires code != "NoSuchKey"
    ensures WithLast(Err(code), sources, web) == Err(StoreFault(code))
  {
  }

  /** The first cycle, with no stored baseline: every current record is
      reported, tagged with its country, countries in `URLS` order, and the
      current lists become the baseline. */
  lemma FirstCycleReportsAll(sources: seq<Source>, web: Web, current: seq<seq<Loss>>)
    requires |current| == |sources|
    requires forall i :: 0 <= i < |sources| ==>
      var page := UrlSnapshot(web, Job(sources[i].url, None));
      page.Ok? && ParseDocument(page.value.doc) == Ok(current[i])
    ensures WithLast(Err("NoSuchKey"), sources, web) == Ok(Outcome(AllTagged(Countries(sources), current), current))
  {
    var countries := Countries(sources);
    LiveDocs(web, sources);
    var docs := Docs(Gather(web, LiveJobs(sources)).value);
    EmptyBaselineKnowsNothing(countries);
    FreshBaselineReportsAll(EmptyBaseline(countries), Subscript, countries, docs, current);
  }

  /** The empty baseline names every country, each with no records. */
  lemma EmptyBaselineKnowsNothing(countries: seq<string>)
    ensures forall i :: 0 <= i < |countries| ==> PreviousRecords(EmptyBaseline(countries), countries[i], Subscript) == Ok([])
  {
    forall i | 0 <= i < |countries| ensures PreviousRecords(EmptyBaseline(countries), countries[i], Subscript) == Ok([]) {
      assert countries[i] in countries;
    }
  }

  /** The cycle after a successful one, on unchanged pages, reports
      nothing and stores the same lists again. */
  lemma SecondCycleQuiet(stored: Result<Json, string>, sources: seq<Source>, web: Web)
    requires forall a, b :: 0 <= a < b < |sources| ==> sources[a].country != sources[b].country
    requires WithLast(stored, sources, web).Ok?
    ensures var current := WithLast(stored, sources, web).value.current;
      WithLast(Ok(DumpBaseline(Countries(sources), current)), sources, web) == Ok(Outcome([], current))
  {
    var bodies := Gather(web, LiveJobs(sources)).value;
    var last := StartingBaseline(stored, Countries(sources)).value;
    RerunNoDiff(last, Subscript, Subscript, Countries(sources), Docs(bodies));
  }

  /** The strict lookup: a cycle can only succeed on a stored baseline
      that is an object naming every tracked country (a `KeyError`
      otherwise). */
  lemma EveryCountryRequired(v: Json, sources: seq<Source>, web: Web)
    requires WithLast(Ok(v), sources, web).Ok?
    ensures forall i :: 0 <= i < |sources| ==> v.JObject? && sources[i].country in v.fields
  {
    var bodies := Gather(web, LiveJobs(sources)).value;
    ComparedOk(v, Subscript, Countries(sources), Docs(bodies));
  }
}
