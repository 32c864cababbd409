/**
 * Fetching pages: the live page now, or the web archive's closest
 * snapshot of it for a day (the `_get` helper of main.py and
 * `url_snapshot` in oryxbot/archiveutil.py). The network is an input: the
 * pages it serves now and the archive's answers, each with the time it
 * stands for. A request the input has no answer for is a transport fault.
 */
module Snapshots {
  import opened Wrappers
  import opened Html
  import opened Effects

  /** A fetched body and its timestamp: `utcnow()` for a live fetch, the
      parsed `closest['timestamp']` for an archived one. */
  datatype Snapshot = Snapshot(doc: Node, time: int)

  /** The archive's availability answer for a url and a day: the
      `status` of `archived_snapshots.closest` (None when it has no such
      key, as when the archive has no snapshot) and the snapshot that
      fetching `closest['url']` gives. */
  datatype ArchiveAnswer = ArchiveAnswer(status: Option<string>, snapshot: Snapshot)

  /** The network as one run sees it. Days are numbered from 1970-01-01. */
  datatype Web = Web(live: map<string, Snapshot>, archive: map<(string, int), ArchiveAnswer>)

  /** One fetch: a url, and the day to look it up in the archive for, or
      None for the live page. */
  datatype Job = Job(url: string, day: Option<int>)

  /** One `_get(url, dt)`: the live page, or the archive's closest snapshot
      provided its status is "200". */
  function UrlSnapshot(web: Web, job: Job): (r: Result<Snapshot, Fault>)
    ensures job.day.None? ==> r == (if job.url in web.live then Ok(web.live[job.url]) else Err(FetchFault(job.url)))
    ensures job.day.Some? && r.Ok? ==>
      (job.url, job.day.value) in web.archive && web.archive[(job.url, job.day.value)].status == Some("200")
      && r.value == web.archive[(job.url, job.day.value)].snapshot
  {
    match job.day
    case None =>
      if job.url in web.live then Ok(web.live[job.url]) else Err(FetchFault(job.url))
    case Some(day) =>
      if (job.url, day) !in web.archive then Err(FetchFault(job.url))
      else
        var answer := web.archive[(job.url, day)];
        match answer.status
        case None => Err(NoSnapshot(job.url))
        case Some(status) =>
          if status != "200" then Err(SnapshotUnavailable(job.url, status))
          else Ok(answer.snapshot)
  }

  /** `asyncio.gather(*jobs)`: every result in job order, or a failure of
      one of them (the first in job order, in this model). */
  function Gather(web: Web, jobs: seq<Job>): (r: Result<seq<Snapshot>, Fault>)
    ensures r.Ok? ==> |r.value| == |jobs|
  {
    if jobs == [] then Ok([])
    else
      match Gather(web, jobs[..|jobs| - 1])
      case Err(e) => Err(e)
      case Ok(init) =>
        match UrlSnapshot(web, jobs[|jobs| - 1])
        case Err(e) => Err(e)
        case Ok(s) => Ok(init + [s])
  }

  /** Gathering succeeds exactly when every job does, and then gives each
      job's own result at its position; otherwise it reports the failure
      of the first job that fails. */
  lemma {:induction false} GatherSpec(web: Web, jobs: seq<Job>)
    ensures Gather(web, jobs).Ok? <==> forall k :: 0 <= k < |jobs| ==> UrlSnapshot(web, jobs[k]).Ok?
    ensures Gather(web, jobs).Ok? ==>
      forall k :: 0 <= k < |jobs| ==> Gather(web, jobs).value[k] == UrlSnapshot(web, jobs[k]).value
    ensures Gather(web, jobs).Err? ==>
      exists k :: 0 <= k < |jobs| && UrlSnapshot(web, jobs[k]) == Err(Gather(web, jobs).error)
                  && forall j :: 0 <= j < k ==> UrlSnapshot(web, jobs[j]).Ok?
    decreases |jobs|
  {
    if jobs != [] {
      var init := jobs[..|jobs| - 1];
      GatherSpec(web, init);
      assert forall k :: 0 <= k < |init| ==> init[k] == jobs[k];
    }
  }

  /** The live fetches of the pages (`gather(*[_get(url) for url in URLS])`). */
  function LiveJobs(sources: seq<Source>): (jobs: seq<Job>)
    ensures |jobs| == |sources|
    ensures forall i :: 0 <= i < |sources| ==> jobs[i] == Job(sources[i].url, None)
  {
    seq(|sources|, i requires 0 <= i < |sources| => Job(sources[i].url, None))
  }

  /** When every page fetches, the live gather succeeds and its documents
      are the pages' own, in `URLS` order. */
  lemma LiveDocs(web: Web, sources: seq<Source>)
    requires forall i :: 0 <= i < |sources| ==> UrlSnapshot(web, Job(sources[i].url, None)).Ok?
    ensures Gather(web, LiveJobs(sources)).Ok?
    ensures forall i :: 0 <= i < |sources| ==>
      Docs(Gather(web, LiveJobs(sources)).value)[i] == UrlSnapshot(web, Job(sources[i].url, None)).value.doc
  {
    GatherSpec(web, LiveJobs(sources));
  }

  /** The documents of fetched snapshots. */
  function Docs(snaps: seq<Snapshot>): (docs: seq<Node>)
    ensures |docs| == |snaps|
    ensures forall i :: 0 <= i < |snaps| ==> docs[i] == snaps[i].doc
  {
    seq(|snaps|, i requires 0 <= i < |snaps| => snaps[i].doc)
  }
}
