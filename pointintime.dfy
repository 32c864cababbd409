/**
 * Point-in-time mode, `compare_against_date` (the same code in main.py and
 * oryxbot/main.py): for every tracked page, the archive's snapshot for the
 * chosen day and the live page are fetched, interleaved (old, new) per
 * page; each pair is parsed and the new records not among the old ones
 * are reported, countries in order, together with the earliest timestamp of
 * all fetched bodies.
 */
module PointInTime {
  import opened Wrappers
  import opened Html
  import opened Parser
  import opened Diff
  import opened Effects
  import opened Snapshots
  import opened Tracking

  /** The fetch jobs of `product(URLS.keys(), [from_dt, None])`: for each
      page, its archived snapshot for `day`, then its live version. */
  function Jobs(urls: seq<string>, day: int): (jobs: seq<Job>)
    ensures |jobs| == 2 * |urls|
    ensures forall i :: 0 <= i < |urls| ==> jobs[2 * i] == Job(urls[i], Some(day)) && jobs[2 * i + 1] == Job(urls[i], None)
  {
    if urls == [] then []
    else
      var n := |urls| - 1;
      var init := Jobs(urls[..n], day);
      assert forall i :: 0 <= i < n ==> urls[..n][i] == urls[i];
      init + [Job(urls[n], Some(day)), Job(urls[n], None)]
  }

  /** The loop appending one job per element of the product. */
  method BuildJobs(urls: seq<string>, day: int) returns (jobs: seq<Job>)
    ensures jobs == Jobs(urls, day)
  {
    jobs := [];
    for i := 0 to |urls|
      invariant jobs == Jobs(urls[..i], day)
    {
      assert urls[..i + 1][..i] == urls[..i];
      jobs := jobs + [Job(urls[i], Some(day))];
      jobs := jobs + [Job(urls[i], None)];
    }
    assert urls[..|urls|] == urls;
  }

  /** `parts`: the bodies taken two by two, (old, new). */
  function Parts(bodies: seq<Snapshot>): (parts: seq<(Node, Node)>)
    ensures |parts| == |bodies| / 2
    ensures forall i :: 0 <= i < |parts| ==> parts[i] == (bodies[2 * i].doc, bodies[2 * i + 1].doc)
  {
    seq(|bodies| / 2, i requires 0 <= i < |bodies| / 2 => (bodies[2 * i].doc, bodies[2 * i + 1].doc))
  }

  /** The loop over `zip(URLS.values(), parts)`: the old document is parsed
      in full first, then the new one; the first failure aborts. */
  function PairDiff(countries: seq<string>, parts: seq<(Node, Node)>): Result<seq<Tagged>, Fault>
    requires |countries| == |parts|
  {
    if countries == [] then Ok([])
    else
      var n := |countries| - 1;
      match PairDiff(countries[..n], parts[..n])
      case Err(e) => Err(e)
      case Ok(d) =>
        match ParseDocument(parts[n].0)
        case Err(e) => Err(ParseFault(e))
        case Ok(before) =>
          match ParseDocument(parts[n].1)
          case Err(e) => Err(ParseFault(e))
          case Ok(after) => Ok(d + TagAll(countries[n], NewLosses(Elems(before), after)))
  }

  /** `min(map(lambda x: x[1], bodies))`. */
  function Earliest(bodies: seq<Snapshot>): (t: int)
    requires bodies != []
    ensures forall k :: 0 <= k < |bodies| ==> t <= bodies[k].time
    ensures exists k :: 0 <= k < |bodies| && t == bodies[k].time
  {
    if |bodies| == 1 then bodies[0].time
    else
      var rest := Earliest(bodies[1..]);
      assert forall k :: 1 <= k < |bodies| ==> bodies[k] == bodies[1..][k - 1];
      if bodies[0].time <= rest then bodies[0].time else rest
  }

  /** What `compare_against_date` returns: the difference and the time it
      is measured from. */
  datatype Comparison = Comparison(diff: seq<Tagged>, since: int)

  /** `compare_against_date(from_dt)`: gather, pair, diff, and the earliest
      timestamp (with no pages at all, `min` of nothing raises). */
  function CompareAgainstDate(web: Web, sources: seq<Source>, day: int): Result<Comparison, Fault>
  {
    match Gather(web, Jobs(Urls(sources), day))
    case Err(e) => Err(e)
    case Ok(bodies) =>
      match PairDiff(Countries(sources), Parts(bodies))
      case Err(e) => Err(e)
      case Ok(diff) =>
        if bodies == [] then Err(NoTimestamps) else Ok(Comparison(diff, Earliest(bodies)))
  }

  /** The function body as statements: the job loop, the gather, the
      pairing loop, then the minimum. */
  method CompareAgainstDateRun(web: Web, sources: seq<Source>, day: int) returns (r: Result<Comparison, Fault>)
    ensures r == CompareAgainstDate(web, sources, day)
  {
    var jobs := BuildJobs(Urls(sources), day);
    var bodies := Gather(web, jobs);
    if bodies.Err? {
      return Err(bodies.error);
    }
    var parts := Parts(bodies.value);
    var diff := DiffPairs(Countries(sources), parts);
    if diff.Err? {
      return Err(diff.error);
    }
    if bodies.value == [] {
      return Err(NoTimestamps);
    }
    r := Ok(Comparison(diff.value, Earliest(bodies.value)));
  }

  /** `old, new = list(map(parse_losses, data))`, `old = set(old)` and
      the comprehension extending `diff_losses`, for each country in turn. */
  method DiffPairs(countries: seq<string>, parts: seq<(Node, Node)>) returns (r: Result<seq<Tagged>, Fault>)
    requires |countries| == |parts|
    ensures r == PairDiff(countries, parts)
  {
    var diffLosses: seq<Tagged> := [];
    for i := 0 to |countries|
      invariant PairDiff(countries[..i], parts[..i]) == Ok(diffLosses)
    {
      PairDiffNext(countries, parts, i);
      var before := ParseLosses(parts[i].0);
      if before.Err? {
        PairDiffStopsAtError(countries, parts, i + 1);
        return Err(ParseFault(before.error));
      }
      var after := ParseLosses(parts[i].1);
      if after.Err? {
        PairDiffStopsAtError(countries, parts, i + 1);
        return Err(ParseFault(after.error));
      }
      var d := ReportNew(countries[i], Elems(before.value), after.value);
      diffLosses := diffLosses + d;
    }
    assert countries[..|countries|] == countries && parts[..|parts|] == parts;
    r := Ok(diffLosses);
  }

  /** One more pair after the first `i`. */
  lemma PairDiffNext(countries: seq<string>, parts: seq<(Node, Node)>, i: nat)
    requires |countries| == |parts| && i < |countries|
    ensures PairDiff(countries[..i + 1], parts[..i + 1]) ==
      match PairDiff(countries[..i], parts[..i])
      case Err(e) => Err(e)
      case Ok(d) =>
        match ParseDocument(parts[i].0)
        case Err(e) => Err(ParseFault(e))
        case Ok(before) =>
          match ParseDocument(parts[i].1)
          case Err(e) => Err(ParseFault(e))
          case Ok(after) => Ok(d + TagAll(countries[i], NewLosses(Elems(before), after)))
  {
    assert countries[..i + 1][..i] == countries[..i] && parts[..i + 1][..i] == parts[..i];
  }

  /** Once a pair fails to parse, the pairs after it are not looked at. */
  lemma {:induction false} PairDiffStopsAtError(countries: seq<string>, parts: seq<(Node, Node)>, n: nat)
    requires |countries| == |parts| && n <= |countries|
    requires PairDiff(countries[..n], parts[..n]).Err?
    ensures PairDiff(countries, parts) == PairDiff(countries[..n], parts[..n])
    decreases |countries| - n
  {
    if n < |countries| {
      assert countries[..n + 1][..n] == countries[..n] && parts[..n + 1][..n] == parts[..n];
      PairDiffStopsAtError(countries, parts, n + 1);
    } else {
      assert countries[..n] == countries && parts[..n] == parts;
    }
  }

  // ---------------------------------------------------------------------
  // What a comparison computes

  /** When every pair parses, the difference is the per-country difference
      of the new records against the old ones: the same computation as
      the baseline mode with the old snapshot as the baseline. */
  lemma {:induction false} PairDiffSpec(countries: seq<string>, parts: seq<(Node, Node)>, olds: seq<seq<Loss>>, news: seq<seq<Loss>>)
    requires |countries| == |parts| == |olds| == |news|
    requires forall i :: 0 <= i < |parts| ==> ParseDocument(parts[i].0) == Ok(olds[i]) && ParseDocument(parts[i].1) == Ok(news[i])
    ensures PairDiff(countries, parts) == Ok(NewPerCountry(countries, olds, news))
    decreases |countries|
  {
    if countries != [] {
      var n := |countries| - 1;
      PairDiffSpec(countries[..n], parts[..n], olds[..n], news[..n]);
    }
  }

  /** When every fetch succeeds and every body parses, the comparison
      succeeds (provided there is a page), reports for each page the live
      records not among the archived ones, and is measured from the
      earliest of all fetched timestamps. */
  lemma CompareAgainstDateSpec(web: Web, sources: seq<Source>, day: int, olds: seq<seq<Loss>>, news: seq<seq<Loss>>)
    requires |olds| == |news| == |sources| > 0
    requires forall i :: 0 <= i < |sources| ==>
      var before := UrlSnapshot(web, Job(sources[i].url, Some(day)));
      before.Ok? && ParseDocument(before.value.doc) == Ok(olds[i])
    requires forall i :: 0 <= i < |sources| ==>
      var after := UrlSnapshot(web, Job(sources[i].url, None));
      after.Ok? && ParseDocument(after.value.doc) == Ok(news[i])
    ensures CompareAgainstDate(web, sources, day).Ok?
    ensures CompareAgainstDate(web, sources, day).value.diff == NewPerCountry(Countries(sources), olds, news)
  {
    PartsParse(web, sources, day, olds, news);
    var bodies := Gather(web, Jobs(Urls(sources), day)).value;
    PairDiffSpec(Countries(sources), Parts(bodies), olds, news);
  }

  /** Under the same conditions, gathering succeeds and pair `i` parses
      to the archived and the live records of page `i`. */
  lemma PartsParse(web: Web, sources: seq<Source>, day: int, olds: seq<seq<Loss>>, news: seq<seq<Loss>>)
    requires |olds| == |news| == |sources|
    requires forall i :: 0 <= i < |sources| ==>
      var before := UrlSnapshot(web, Job(sources[i].url, Some(day)));
      before.Ok? && ParseDocument(before.value.doc) == Ok(olds[i])
    requires forall i :: 0 <= i < |sources| ==>
      var after := UrlSnapshot(web, Job(sources[i].url, None));
      after.Ok? && ParseDocument(after.value.doc) == Ok(news[i])
    ensures Gather(web, Jobs(Urls(sources), day)).Ok?
    ensures var parts := Parts(Gather(web, Jobs(Urls(sources), day)).value);
      && |parts| == |sources|
      && forall i :: 0 <= i < |parts| ==> ParseDocument(parts[i].0) == Ok(olds[i]) && ParseDocument(parts[i].1) == Ok(news[i])
  {
    GatherPairs(web, sources, day);
  }

  /** A successful comparison is measured from no later than either
      version of any page. */
  lemma SinceBoundsPages(web: Web, sources: seq<Source>, day: int)
    requires CompareAgainstDate(web, sources, day).Ok?
    ensures forall i :: 0 <= i < |sources| ==>
      var c := CompareAgainstDate(web, sources, day).value.since;
      && UrlSnapshot(web, Job(sources[i].url, Some(day))).Ok?
      && UrlSnapshot(web, Job(sources[i].url, None)).Ok?
      && c <= UrlSnapshot(web, Job(sources[i].url, Some(day))).value.time
      && c <= UrlSnapshot(web, Job(sources[i].url, None)).value.time
  {
    var jobs := Jobs(Urls(sources), day);
    SinceIsEarliest(web, sources, day);
    forall i | 0 <= i < |sources|
      ensures jobs[2 * i] == Job(sources[i].url, Some(day)) && jobs[2 * i + 1] == Job(sources[i].url, None)
    {
    }
  }

  /** When every fetch succeeds, gathering succeeds and gives, for page
      `i`, the archived snapshot at `2i` and the live page at `2i + 1`. */
  lemma GatherPairs(web: Web, sources: seq<Source>, day: int)
    requires forall i :: 0 <= i < |sources| ==>
      UrlSnapshot(web, Job(sources[i].url, Some(day))).Ok? && UrlSnapshot(web, Job(sources[i].url, None)).Ok?
    ensures Gather(web, Jobs(Urls(sources), day)).Ok?
    ensures forall i :: 0 <= i < |sources| ==>
      && Gather(web, Jobs(Urls(sources), day)).value[2 * i] == UrlSnapshot(web, Job(sources[i].url, Some(day))).value
      && Gather(web, Jobs(Urls(sources), day)).value[2 * i + 1] == UrlSnapshot(web, Job(sources[i].url, None)).value
  {
    var jobs := Jobs(Urls(sources), day);
    forall k | 0 <= k < |jobs| ensures UrlSnapshot(web, jobs[k]).Ok? {
      var i := k / 2;
      assert k == 2 * i || k == 2 * i + 1;
      assert jobs[2 * i] == Job(sources[i].url, Some(day));
    }
    GatherSpec(web, jobs);
  }

  /** The reported time is one of the fetched timestamps and none of them
      is earlier. */
  lemma SinceIsEarliest(web: Web, sources: seq<Source>, day: int)
    requires CompareAgainstDate(web, sources, day).Ok?
    ensures var jobs := Jobs(Urls(sources), day);
      var since := CompareAgainstDate(web, sources, day).value.since;
      && (forall k :: 0 <= k < |jobs| ==> UrlSnapshot(web, jobs[k]).Ok? && since <= UrlSnapshot(web, jobs[k]).value.time)
      && (exists k :: 0 <= k < |jobs| && since == UrlSnapshot(web, jobs[k]).value.time)
  {
    var jobs := Jobs(Urls(sources), day);
    SinceOfGathered(web, sources, day);
    EarliestFetched(web, jobs);
  }

  /** A successful comparison gathered a non-empty list of bodies and is
      measured from the earliest of them. */
  lemma SinceOfGathered(web: Web, sources: seq<Source>, day: int)
    requires CompareAgainstDate(web, sources, day).Ok?
    ensures var bodies := Gather(web, Jobs(Urls(sources), day));
      && bodies.Ok? && bodies.value != []
      && CompareAgainstDate(web, sources, day).value.since == Earliest(bodies.value)
  {
  }

  /** The earliest gathered timestamp is one of the fetched ones and none
      of them is earlier. */
  lemma EarliestFetched(web: Web, jobs: seq<Job>)
    requires Gather(web, jobs).Ok? && jobs != []
    ensures forall k :: 0 <= k < |jobs| ==>
      UrlSnapshot(web, jobs[k]).Ok? && Earliest(Gather(web, jobs).value) <= UrlSnapshot(web, jobs[k]).value.time
    ensures exists k :: 0 <= k < |jobs| && Earliest(Gather(web, jobs).value) == UrlSnapshot(web, jobs[k]).value.time
  {
    GatherSpec(web, jobs);
    var bodies := Gather(web, jobs).value;
    var k :| 0 <= k < |bodies| && Earliest(bodies) == bodies[k].time;
    assert UrlSnapshot(web, jobs[k]).value.time == Earliest(bodies);
  }

  /** A page whose archived snapshot for the day has a status other than
      "200", or whose archive answer has no status, makes the comparison
      fail. */
  lemma NonOkSnapshotFails(web: Web, sources: seq<Source>, day: int, i: nat)
    requires i < |sources|
    requires (sources[i].url, day) in web.archive
    requires web.archive[(sources[i].url, day)].status != Some("200")
    ensures CompareAgainstDate(web, sources, day).Err?
  {
    var jobs := Jobs(Urls(sources), day);
    GatherSpec(web, jobs);
    assert jobs[2 * i] == Job(sources[i].url, Some(day));
    assert UrlSnapshot(web, jobs[2 * i]).Err?;
  }

  /** A page that has not changed since the archived snapshot contributes
      nothing: when each page's live records equal its archived ones, the
      difference is empty. */
  lemma UnchangedPagesNoDiff(web: Web, sources: seq<Source>, day: int, records: seq<seq<Loss>>)
    requires |records| == |sources| > 0
    requires forall i :: 0 <= i < |sources| ==>
      var before := UrlSnapshot(web, Job(sources[i].url, Some(day)));
      before.Ok? && ParseDocument(before.value.doc) == Ok(records[i])
    requires forall i :: 0 <= i < |sources| ==>
      var after := UrlSnapshot(web, Job(sources[i].url, None));
      after.Ok? && ParseDocument(after.value.doc) == Ok(records[i])
    ensures CompareAgainstDate(web, sources, day).Ok?
    ensures CompareAgainstDate(web, sources, day).value.diff == []
  {
    CompareAgainstDateSpec(web, sources, day, records, records);
    NoChangeNoDiff(Countries(sources), records);
  }

  /** With no pages there is nothing to take the minimum of. */
  lemma NoSourcesNoTimestamps(web: Web, day: int)
    ensures CompareAgainstDate(web, [], day) == Err(NoTimestamps)
  {
    assert Jobs(Urls([]), day) == [];
  }
}
