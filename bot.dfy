/**
 * oryxbot/main.py: the baseline cycle `compare_with_last_and_publish`
 * (fetch the pages, read the baseline through the storage helper, which
 * turns a missing object into an empty mapping, look countries up with
 * `.get(country, [])`, store the current lists, and only when something
 * is new publish the new losses and store them as a delta), and the
 * program's entry point choosing between the delta-days summary and the
 * baseline cycle with its follow-up summaries.
 */
module BotMain {
  import opened Wrappers
  import opened Html
  import opened Parser
  import opened Records
  import opened Diff
  import opened TextImage
  import opened Effects
  import opened Snapshots
  import opened Tracking
  import opened PointInTime
  import opened Summary
  import opened Seqs

  /** The storage helper's `_get`: the stored value, `{}` for a missing
      object, or the storage error. */
  function StoredOrEmpty(stored: Result<Json, string>): (r: Result<Json, Fault>)
    ensures r.Err? <==> stored.Err? && stored.error != "NoSuchKey"
  {
    match stored
    case Ok(v) => Ok(v)
    case Err(code) => if code == "NoSuchKey" then Ok(JObject(map[])) else Err(StoreFault(code))
  }

  /** `compare_with_last_and_publish` given what reading the baseline key
      gives: the live pages first, then the baseline, then the comparison
      with the lenient lookup. */
  function WithLastBot(stored: Result<Json, string>, sources: seq<Source>, web: Web): Result<Outcome, Fault>
  {
    match Gather(web, LiveJobs(sources))
    case Err(e) => Err(e)
    case Ok(bodies) =>
      match StoredOrEmpty(stored)
      case Err(e) => Err(e)
      case Ok(last) => Compared(last, GetOrEmpty, Countries(sources), Docs(bodies))
  }

  /** `list(map(lambda x: [x[0], asdict(x[1])], diff_losses))`. */
  function DumpDelta(diff: seq<Tagged>): (j: Json)
    ensures j.JList? && |j.items| == |diff|
  {
    JList(seq(|diff|, k requires 0 <= k < |diff| => JList([JStr(diff[k].country), AsDict(diff[k].loss)])))
  }

  /** Each delta entry is a pair of the country and a record that rebuilds
      into the reported loss. */
  lemma DeltaEntries(diff: seq<Tagged>, k: nat)
    requires k < |diff|
    ensures var e := DumpDelta(diff).items[k];
      && e.JList? && |e.items| == 2
      && e.items[0] == JStr(diff[k].country)
      && FromDict(e.items[1]) == Ok(Some(diff[k].loss))
  {
    RecordRoundTrip(diff[k].loss);
  }

  /** The effects of a successful cycle: the baseline write, then, only
      when something is new, one look-up per new loss and the delta write. */
  function CycleEvents(lastKey: string, deltaKey: string, countries: seq<string>, o: Outcome, resolves: string -> bool)
    : seq<Event>
  {
    var baseline := [Stored(lastKey, DumpBaseline(countries, o.current))];
    if o.diff == [] then baseline
    else baseline + Resolutions(o.diff, resolves) + [Stored(deltaKey, DumpDelta(o.diff))]
  }

  /** The baseline write comes first and always happens; it is the only
      effect exactly when nothing is new; otherwise the look-ups of the new
      losses, in order, come between it and the delta write. */
  lemma CycleEventsShape(lastKey: string, deltaKey: string, countries: seq<string>, o: Outcome, resolves: string -> bool)
    ensures var events := CycleEvents(lastKey, deltaKey, countries, o, resolves);
      && |events| >= 1 && events[0] == Stored(lastKey, DumpBaseline(countries, o.current))
      && (|events| == 1 <==> o.diff == [])
      && (o.diff != [] ==>
            && events[1..|events| - 1] == Resolutions(o.diff, resolves)
            && events[|events| - 1] == Stored(deltaKey, DumpDelta(o.diff)))
  {
    var events := CycleEvents(lastKey, deltaKey, countries, o, resolves);
    if o.diff != [] {
      assert events[1..|events| - 1] == Resolutions(o.diff, resolves);
    }
  }

  /** What the store holds after a successful cycle. */
  function CycleObjects(objects: map<string, Json>, lastKey: string, deltaKey: string, countries: seq<string>, o: Outcome)
    : map<string, Json>
  {
    var afterLast := objects[lastKey := DumpBaseline(countries, o.current)];
    if o.diff == [] then afterLast else afterLast[deltaKey := DumpDelta(o.diff)]
  }

  /** `compare_with_last_and_publish()` against the store held by `w`; a
      loss's image look-up is `resolves(link)`, false when it raises. */
  method CompareWithLastAndPublish(w: World, lastKey: string, deltaKey: string, sources: seq<Source>, web: Web,
                                   resolves: string -> bool)
    returns (r: Result<seq<Tagged>, Fault>)
    modifies w
    ensures w.faults == old(w.faults)
    ensures var spec := WithLastBot(old(w.Read(lastKey)), sources, web);
      spec.Ok? ==>
        && r == Ok(spec.value.diff)
        && w.objects == CycleObjects(old(w.objects), lastKey, deltaKey, Countries(sources), spec.value)
        && w.events == old(w.events) + CycleEvents(lastKey, deltaKey, Countries(sources), spec.value, resolves)
    ensures var spec := WithLastBot(old(w.Read(lastKey)), sources, web);
      spec.Err? ==> r == Err(spec.error) && w.objects == old(w.objects) && w.events == old(w.events)
  {
    var outcome := WithLastBotRun(w.Read(lastKey), sources, web);
    if outcome.Err? {
      return Err(outcome.error);
    }
    PublishCycle(w, lastKey, deltaKey, Countries(sources), outcome.value, resolves);
    r := Ok(outcome.value.diff);
  }

  /** The reads and the comparison of `compare_with_last_and_publish`:
      the pages are fetched before the baseline is looked at. */
  method WithLastBotRun(stored: Result<Json, string>, sources: seq<Source>, web: Web) returns (r: Result<Outcome, Fault>)
    ensures r == WithLastBot(stored, sources, web)
  {
    var bodies := Gather(web, LiveJobs(sources));
    if bodies.Err? {
      return Err(bodies.error);
    }
    var lastData := StoredOrEmpty(stored);
    if lastData.Err? {
      return Err(lastData.error);
    }
    r := CompareCountries(lastData.value, GetOrEmpty, Countries(sources), Docs(bodies.value));
  }

  /** The writes of a successful cycle: the new baseline, then, when
      something is new, the look-ups and the delta. */
  method PublishCycle(w: World, lastKey: string, deltaKey: string, countries: seq<string>, o: Outcome, resolves: string -> bool)
    modifies w
    ensures w.faults == old(w.faults)
    ensures w.objects == CycleObjects(old(w.objects), lastKey, deltaKey, countries, o)
    ensures w.events == old(w.events) + CycleEvents(lastKey, deltaKey, countries, o, resolves)
  {
    w.Put(lastKey, DumpBaseline(countries, o.current));
    if o.diff != [] {
      PublishLosses(w, o.diff, resolves);
      w.Put(deltaKey, DumpDelta(o.diff));
    }
  }

  // ---------------------------------------------------------------------
  // What a cycle computes

  /** The first cycle, with no stored baseline: every current record is
      reported, tagged with its country, countries in `URLS` order. */
  lemma FirstCycleReportsAll(sources: seq<Source>, web: Web, current: seq<seq<Loss>>)
    requires |current| == |sources|
    requires forall i :: 0 <= i < |sources| ==>
      var page := UrlSnapshot(web, Job(sources[i].url, None));
      page.Ok? && ParseDocument(page.value.doc) == Ok(current[i])
    ensures WithLastBot(Err("NoSuchKey"), sources, web) == Ok(Outcome(AllTagged(Countries(sources), current), current))
  {
    var countries := Countries(sources);
    LiveDocs(web, sources);
    var docs := Docs(Gather(web, LiveJobs(sources)).value);
    FreshBaselineReportsAll(JObject(map[]), GetOrEmpty, countries, docs, current);
  }

  /** A country the stored baseline does not name counts as having no
      previous records: all its current records are new. */
  lemma NewCountryAllNew(fields: map<string, Json>, sources: seq<Source>, web: Web, i: nat)
    requires i < |sources| && sources[i].country !in fields
    requires WithLastBot(Ok(JObject(fields)), sources, web).Ok?
    ensures var docs := Docs(Gather(web, LiveJobs(sources)).value);
      ParseDocument(docs[i]).Ok?
      && PreviousRecords(JObject(fields), sources[i].country, GetOrEmpty) == Ok([])
  {
    var docs := Docs(Gather(web, LiveJobs(sources)).value);
    ComparedOk(JObject(fields), GetOrEmpty, Countries(sources), docs);
    AbsentCountry(fields, sources[i].country);
  }

  /** The cycle after a successful one, on unchanged pages, reports
      nothing, so it publishes nothing and writes no delta. */
  lemma SecondCycleQuiet(stored: Result<Json, string>, sources: seq<Source>, web: Web,
                         lastKey: string, deltaKey: string, resolves: string -> bool)
    requires forall a, b :: 0 <= a < b < |sources| ==> sources[a].country != sources[b].country
    requires WithLastBot(stored, sources, web).Ok?
    ensures var current := WithLastBot(stored, sources, web).value.current;
      var next := WithLastBot(Ok(DumpBaseline(Countries(sources), current)), sources, web);
      && next == Ok(Outcome([], current))
      && CycleEvents(lastKey, deltaKey, Countries(sources), next.value, resolves)
           == [Stored(lastKey, DumpBaseline(Countries(sources), current))]
  {
    var bodies := Gather(web, LiveJobs(sources)).value;
    var last := StoredOrEmpty(stored).value;
    RerunNoDiff(last, GetOrEmpty, GetOrEmpty, Countries(sources), Docs(bodies));
  }

  // ---------------------------------------------------------------------
  // The entry point

  /** How the program ends: normally, or with an exception escaping. */
  datatype Exit = Finished | Crashed(fault: Fault)

  /** 2023-06-05 as a day number from 1970-01-01. */
  const LongBaselineDay: int := 19513

  /** The day `n` days before `today`. */
  function DaysBefore(today: int, n: int): int
  {
    today - n
  }

  /** The days the follow-up summaries compare against: a day, a week, and
      2023-06-05. */
  function FollowUpDays(today: int): seq<int>
  {
    [DaysBefore(today, 1), DaysBefore(today, 7), LongBaselineDay]
  }

  /** `save_url` for every page, in `URLS` order. */
  function Archives(urls: seq<string>): (events: seq<Event>)
    ensures |events| == |urls| && forall k :: 0 <= k < |urls| ==> events[k] == Archived(urls[k])
  {
    seq(|urls|, k requires 0 <= k < |urls| => Archived(urls[k]))
  }

  /** The summary part of the delta-days branch: the summary since the
      earliest snapshot compared; a failed comparison is only logged. */
  function DeltaSummary(c: Result<Comparison, Fault>, title: int -> string, measure: string -> Size): seq<Event>
  {
    match c
    case Err(_) => [FailureLogged]
    case Ok(v) => SummaryEvents(v.diff, title(v.since), measure)
  }

  /** What comparing against each of `days` gives, in order. */
  function Comparisons(web: Web, sources: seq<Source>, days: seq<int>): (results: seq<Result<Comparison, Fault>>)
    ensures |results| == |days|
    ensures forall k :: 0 <= k < |days| ==> results[k] == CompareAgainstDate(web, sources, days[k])
  {
    seq(|days|, k requires 0 <= k < |days| => CompareAgainstDate(web, sources, days[k]))
  }

  /** What `publish_date_diff` posts after a successful comparison. */
  function PostsFor(c: Result<Comparison, Fault>, title: int -> string, measure: string -> Size): seq<Event>
  {
    if c.Ok? then SummaryEvents(c.value.diff, title(c.value.since), measure) else []
  }

  /** What each successful comparison posts. */
  function Posts(results: seq<Result<Comparison, Fault>>, title: int -> string, measure: string -> Size)
    : (posts: seq<seq<Event>>)
    ensures |posts| == |results|
    ensures forall k :: 0 <= k < |results| ==> posts[k] == PostsFor(results[k], title, measure)
  {
    seq(|results|, k requires 0 <= k < |results| => PostsFor(results[k], title, measure))
  }

  /** The follow-up summaries for comparisons made in order, `posts[k]`
      being what comparison `k` posts when it succeeds; the first failing
      comparison ends the program, and the later ones are never made. */
  function FollowUps(results: seq<Result<Comparison, Fault>>, posts: seq<seq<Event>>): (seq<Event>, Exit)
    requires |posts| == |results|
  {
    if results == [] then ([], Finished)
    else
      var n := |results| - 1;
      var before := FollowUps(results[..n], posts[..n]);
      if before.1.Crashed? then before
      else if results[n].Err? then (before.0, Crashed(results[n].error))
      else (before.0 + posts[n], Finished)
  }

  /** The follow-ups on `days`. */
  function FollowUpsOn(web: Web, sources: seq<Source>, days: seq<int>, title: int -> string, measure: string -> Size)
    : (seq<Event>, Exit)
  {
    var results := Comparisons(web, sources, days);
    FollowUps(results, Posts(results, title, measure))
  }

  /** The follow-ups finish exactly when every comparison succeeds. */
  lemma {:induction false} FollowUpsFinish(results: seq<Result<Comparison, Fault>>, posts: seq<seq<Event>>)
    requires |posts| == |results|
    ensures FollowUps(results, posts).1 == Finished <==> forall k :: 0 <= k < |results| ==> results[k].Ok?
    decreases |results|
  {
    if results != [] {
      var n := |results| - 1;
      var prefix := results[..n];
      FollowUpsFinish(prefix, posts[..n]);
      assert forall k :: 0 <= k < n ==> prefix[k] == results[k];
      if FollowUps(prefix, posts[..n]).1.Crashed? {
        var k :| 0 <= k < n && !prefix[k].Ok?;
        assert !results[k].Ok?;
      }
    }
  }

  /** A crash is the failure of the first comparison that fails, and
      nothing is posted for it or any later one. */
  lemma {:induction false} FollowUpsCrash(results: seq<Result<Comparison, Fault>>, posts: seq<seq<Event>>)
    requires |posts| == |results|
    requires FollowUps(results, posts).1.Crashed?
    ensures exists k :: (0 <= k < |results|
      && results[k] == Err(FollowUps(results, posts).1.fault)
      && (forall j :: 0 <= j < k ==> results[j].Ok?)
      && FollowUps(results, posts).0 == FollowUps(results[..k], posts[..k]).0)
    decreases |results|
  {
    var n := |results| - 1;
    var before := FollowUps(results[..n], posts[..n]);
    if before.1.Crashed? {
      FollowUpsCrash(results[..n], posts[..n]);
      var k :| 0 <= k < n
        && results[..n][k] == Err(before.1.fault)
        && (forall j :: 0 <= j < k ==> results[..n][j].Ok?)
        && before.0 == FollowUps(results[..n][..k], posts[..n][..k]).0;
      assert results[..n][..k] == results[..k] && posts[..n][..k] == posts[..k];
      assert forall j :: 0 <= j < k ==> results[..n][j] == results[j];
    } else {
      FollowUpsFinish(results[..n], posts[..n]);
      assert forall j :: 0 <= j < n ==> results[..n][j] == results[j];
    }
  }

  /** When every comparison succeeds, the posts are laid end to end in
      order. */
  lemma {:induction false} FollowUpsAllPosted(results: seq<Result<Comparison, Fault>>, posts: seq<seq<Event>>)
    requires |posts| == |results|
    requires forall k :: 0 <= k < |results| ==> results[k].Ok?
    ensures FollowUps(results, posts) == (Concat(posts), Finished)
    decreases |results|
  {
    if results != [] {
      var n := |results| - 1;
      assert forall k :: 0 <= k < n ==> results[..n][k] == results[k];
      FollowUpsAllPosted(results[..n], posts[..n]);
    }
  }

  /** Some event lists laid end to end. */
  function Concat(posts: seq<seq<Event>>): seq<Event>
  {
    if posts == [] then [] else Concat(posts[..|posts| - 1]) + posts[|posts| - 1]
  }

  /** A successful comparison posts one summary exactly when it found
      something new, and nothing otherwise. */
  lemma PostsOne(c: Result<Comparison, Fault>, title: int -> string, measure: string -> Size)
    requires c.Ok?
    ensures c.value.diff == [] ==> PostsFor(c, title, measure) == []
    ensures c.value.diff != [] ==> |PostsFor(c, title, measure)| == 1 && PostsFor(c, title, measure)[0].Posted?
  {
    SummaryPostedIffLosses(c.value.diff, title(c.value.since), measure);
  }

  /** Three follow-ups, spelled out. */
  lemma FollowUpsThree(results: seq<Result<Comparison, Fault>>, posts: seq<seq<Event>>)
    requires |results| == 3 && |posts| == 3
    ensures FollowUps(results, posts) ==
      if results[0].Err? then ([], Crashed(results[0].error))
      else if results[1].Err? then (posts[0], Crashed(results[1].error))
      else if results[2].Err? then (posts[0] + posts[1], Crashed(results[2].error))
      else (posts[0] + posts[1] + posts[2], Finished)
  {
    assert results[..1][..0] == [] && posts[..1][..0] == [];
    assert results[..1][0] == results[0] && posts[..1][0] == posts[0];
    assert FollowUps(results[..1][..0], posts[..1][..0]) == ([], Finished);
    var one := FollowUps(results[..1], posts[..1]);
    assert one == if results[0].Err? then ([], Crashed(results[0].error)) else ([] + posts[0], Finished);
    assert [] + posts[0] == posts[0];
    assert results[..2][..1] == results[..1] && posts[..2][..1] == posts[..1];
    assert results[..2][1] == results[1] && posts[..2][1] == posts[1];
    var two := FollowUps(results[..2], posts[..2]);
    assert two == if results[0].Err? then ([], Crashed(results[0].error))
      else if results[1].Err? then (posts[0], Crashed(results[1].error))
      else (posts[0] + posts[1], Finished);
    assert results[..3] == results && posts[..3] == posts;
  }

  /** One follow-up: the comparison against `day` and, when it succeeds,
      its summary. A failed comparison is left to the caller, which
      stops. */
  method FollowUp(w: World, web: Web, sources: seq<Source>, day: int, title: int -> string, measure: string -> Size)
    returns (c: Result<Comparison, Fault>)
    modifies w
    ensures c == CompareAgainstDate(web, sources, day)
    ensures w.objects == old(w.objects) && w.faults == old(w.faults)
    ensures w.events == old(w.events) + PostsFor(c, title, measure)
  {
    c := CompareAgainstDateRun(web, sources, day);
    if c.Ok? {
      PublishDateDiff(w, c.value.diff, title(c.value.since), measure);
    }
  }

  /** The three follow-ups after a cycle that found something new: a day
      back, a week back, and against 2023-06-05; an exception in any of
      them ends the program. */
  method RunFollowUps(w: World, web: Web, sources: seq<Source>, today: int, title: int -> string, measure: string -> Size)
    returns (exit: Exit)
    modifies w
    ensures w.objects == old(w.objects) && w.faults == old(w.faults)
    ensures w.events == old(w.events) + FollowUpsOn(web, sources, FollowUpDays(today), title, measure).0
    ensures exit == FollowUpsOn(web, sources, FollowUpDays(today), title, measure).1
  {
    ghost var results := Comparisons(web, sources, FollowUpDays(today));
    ghost var posts := Posts(results, title, measure);
    FollowUpsThree(results, posts);
    ghost var start := w.events;
    var c := FollowUp(w, web, sources, DaysBefore(today, 1), title, measure);
    assert c == results[0];
    if c.Err? {
      return Crashed(c.error);
    }
    assert w.events == start + posts[0];
    c := FollowUp(w, web, sources, DaysBefore(today, 7), title, measure);
    assert c == results[1];
    if c.Err? {
      return Crashed(c.error);
    }
    AppendAssoc(start, posts[0], posts[1]);
    c := FollowUp(w, web, sources, LongBaselineDay, title, measure);
    assert c == results[2];
    if c.Err? {
      return Crashed(c.error);
    }
    AppendAssoc(start, posts[0] + posts[1], posts[2]);
    exit := Finished;
  }

  /** The effects of the delta-days branch for `day`: the summary, then
      every page saved to the archive whatever happened before. */
  ghost predicate DeltaRan(before: seq<Event>, after: seq<Event>, web: Web, sources: seq<Source>, day: int,
                           title: int -> string, measure: string -> Size)
  {
    after == before + DeltaSummary(CompareAgainstDate(web, sources, day), title, measure) + Archives(Urls(sources))
  }

  /** The effects of the baseline branch, given what reading the baseline
      key gave: a failed cycle changes nothing and crashes; a successful
      one makes its writes, and when it found something new the follow-up
      summaries decide how the program ends. */
  ghost predicate CycleRan(stored: Result<Json, string>, objects: map<string, Json>, before: seq<Event>,
                           objectsAfter: map<string, Json>, after: seq<Event>, exit: Exit,
                           today: int, lastKey: string, deltaKey: string, sources: seq<Source>, web: Web,
                           resolves: string -> bool, title: int -> string, measure: string -> Size)
  {
    var spec := WithLastBot(stored, sources, web);
    && (spec.Err? ==> exit == Crashed(spec.error) && objectsAfter == objects && after == before)
    && (spec.Ok? ==>
          var cycle := before + CycleEvents(lastKey, deltaKey, Countries(sources), spec.value, resolves);
          && objectsAfter == CycleObjects(objects, lastKey, deltaKey, Countries(sources), spec.value)
          && (spec.value.diff == [] ==> exit == Finished && after == cycle)
          && (spec.value.diff != [] ==>
                var follow := FollowUpsOn(web, sources, FollowUpDays(today), title, measure);
                exit == follow.1 && after == cycle + follow.0))
  }

  /** The `__main__` block. `deltaDays` is the `--delta-days` argument,
      `today` the current day, `title` the summary title for a comparison
      measured from a given time. The delta-days branch is taken when the
      argument is given and not 0, and always finishes; otherwise the
      baseline cycle runs, and the three follow-up summaries only when it
      found something new. */
  method Run(w: World, deltaDays: Option<int>, today: int, lastKey: string, deltaKey: string,
             sources: seq<Source>, web: Web, resolves: string -> bool, title: int -> string, measure: string -> Size)
    returns (exit: Exit)
    modifies w
    ensures w.faults == old(w.faults)
    ensures deltaDays.Some? && deltaDays.value != 0 ==>
      && exit == Finished
      && w.objects == old(w.objects)
      && DeltaRan(old(w.events), w.events, web, sources, DaysBefore(today, deltaDays.value), title, measure)
    ensures !(deltaDays.Some? && deltaDays.value != 0) ==>
      CycleRan(old(w.Read(lastKey)), old(w.objects), old(w.events), w.objects, w.events, exit,
               today, lastKey, deltaKey, sources, web, resolves, title, measure)
  {
    if deltaDays.Some? && deltaDays.value != 0 {
      RunDelta(w, sources, web, DaysBefore(today, deltaDays.value), title, measure);
      exit := Finished;
    } else {
      exit := RunCycle(w, today, lastKey, deltaKey, sources, web, resolves, title, measure);
    }
  }

  /** The baseline cycle and, when it found something new, the follow-up
      summaries. */
  method RunCycle(w: World, today: int, lastKey: string, deltaKey: string,
                  sources: seq<Source>, web: Web, resolves: string -> bool, title: int -> string, measure: string -> Size)
    returns (exit: Exit)
    modifies w
    ensures w.faults == old(w.faults)
    ensures CycleRan(old(w.Read(lastKey)), old(w.objects), old(w.events), w.objects, w.events, exit,
                     today, lastKey, deltaKey, sources, web, resolves, title, measure)
  {
    var losses := CompareWithLastAndPublish(w, lastKey, deltaKey, sources, web, resolves);
    if losses.Err? {
      return Crashed(losses.error);
    }
    if losses.value != [] {
      exit := RunFollowUps(w, web, sources, today, title, measure);
    } else {
      exit := Finished;
    }
  }

  /** The delta-days branch against the store held by `w`. */
  method RunDelta(w: World, sources: seq<Source>, web: Web, day: int, title: int -> string, measure: string -> Size)
    modifies w
    ensures w.objects == old(w.objects) && w.faults == old(w.faults)
    ensures DeltaRan(old(w.events), w.events, web, sources, day, title, measure)
  {
    var c := CompareAgainstDateRun(web, sources, day);
    PublishComparison(w, c, title, measure);
    SaveUrls(w, Urls(sources));
  }

  /** The `try`/`except` around the delta-days summary. */
  method PublishComparison(w: World, c: Result<Comparison, Fault>, title: int -> string, measure: string -> Size)
    modifies w
    ensures w.objects == old(w.objects) && w.faults == old(w.faults)
    ensures w.events == old(w.events) + DeltaSummary(c, title, measure)
  {
    if c.Err? {
      w.Log(FailureLogged);
    } else {
      PublishDateDiff(w, c.value.diff, title(c.value.since), measure);
    }
  }

  /** `list(map(save_url, URLS.keys()))`. */
  method SaveUrls(w: World, urls: seq<string>)
    modifies w
    ensures w.objects == old(w.objects) && w.faults == old(w.faults)
    ensures w.events == old(w.events) + Archives(urls)
  {
    for i := 0 to |urls|
      invariant w.objects == old(w.objects) && w.faults == old(w.faults)
      invariant w.events == old(w.events) + Archives(urls[..i])
    {
      w.Log(Archived(urls[i]));
      assert Archives(urls[..i + 1]) == Archives(urls[..i]) + [Archived(urls[i])];
    }
    assert urls[..|urls|] == urls;
  }
}
