# oryxbot loss-record engine, modelled in Dafny

oryxbot watches two pages of the Oryx blog. One page documents Ukrainian
equipment losses and the other Russian ones. The bot turns every captioned
link on a page, such as `(1, 2, destroyed)`, into `Loss` records. Each
record has a type, a status, a number and a link. The bot then compares the
records with an earlier state and publishes what is new. This project
models the core of that engine:

- **Extraction** (`parser.py`, modules `Parser`, `Html`, `Patterns`,
  `Strings`). The loop over the `<a>` elements of a document works in
  these steps:
  - the candidate filter;
  - the climb to the enclosing `<li>`;
  - `_extract_tails`;
  - the anchored caption pattern `\d+\W+(.+)$`;
  - the status picked by the first substring match in enum order;
  - one record per digit run;
  - the link normalised on its last `http`.

  A document is an already-built element tree. The two regular
  expressions are hand-written scanners, each proved against a
  declarative description of what the pattern matches.
- **Baseline mode.**
  - `main.py` `compare_with_last` is `LegacyMain`. It looks countries up
    strictly with `last_data[country]`.
  - `oryxbot/main.py` `compare_with_last_and_publish` is `BotMain`. It
    looks them up with `.get(country, [])`.

  Both share the per-country comparison (`Tracking`), the set-difference
  diff (`Diff`) and the JSON form of records and baselines (`Records`).
  A stored record is rebuilt as Python rebuilds it. The dataclass does
  not check field types, so a mis-typed field still loads, as a record
  that no parsed record equals (a boolean number equals 1 or 0). Only a
  list or dict value fails, when `set(...)` hashes the record.
  The object store and the log of visible effects form a `World` object
  (`Effects`). Store writes, image look-ups of published losses, summary
  posts, logged failures and archive saves happen in that object's log.
- **Point-in-time mode** (`compare_against_date`, `PointInTime`).
  - For each URL there is an archive fetch and then a live fetch. The
    fetch is `Snapshots`, which covers `url_snapshot` and the snapshot
    status check.
  - Each (old, new) pair of pages is diffed.
  - The earliest timestamp is returned.
- **The entry point** of `oryxbot/main.py` (`BotMain.Run`).
  - The delta-days summary is followed by archiving every page.
  - Otherwise the baseline cycle runs. The three follow-up summaries (one
    day, seven days, 2023-06-05) run only when the cycle found something
    new.
- **Summary layout** (`oryxbot/twitter_util.py` is `Summary`, with
  `Grouping` and `Sorting`; `oryxbot/txt2image.py` is `TextImage`).
  - Run grouping: country, then type, then status.
  - Per-country lines.
  - Sorted columns, transposed as `zip_longest` does.
  - The column layout of the picture: offsets, width and height.

The font's measurement of a text is a function parameter `measure`.
Fetched pages are a `Web` value: live pages by URL and archive answers by
(URL, day). Days are numbered from 1970-01-01.

## Model

| member | source | states |
|---|---|---|
| `Parser.ParseDocument` | parser.py:35-59 | The records of every candidate link in document order, the first fault aborting (characterised by `Parser.SiteLossesSpec` and `Parser.ParseSitesAppend`). |
| `Parser.ExtractTails` | parser.py:26-32 | The tails of the list item's nodes in document order, empty without one (characterised by `Parser.TailsInDocumentOrder`). |
| `Parser.ParseLosses` | parser.py:35-59 | The generator run to completion yields exactly `ParseDocument(doc)`: the records of the links of `findall(".//a")` in document order, or the first failure. |
| `Parser.LinkLosses` | parser.py:39-59 | One loop iteration (candidate filter, climb, tails, caption match, digit fan-out) yields exactly `SiteLosses(site)`. |
| `Parser.ClimbToListItem` | parser.py:43-45 | The parent-pointer `while` loop stops at the nearest `li` among the link and its ancestors, or at None when there is none. |
| `Parser.EmitRecords` | parser.py:52-59 | The inner loop over digit runs yields `EmitSpec`: nothing without digits; otherwise the missing status is reported first, then the missing `href`, else one record per run. |
| `Parser.FirstTagged` | parser.py:43-45 | None exactly when no element of the chain has the tag; otherwise the result is an element of the chain with that tag. |
| `Parser.FirstTaggedAt` | parser.py:43-45 | The first element with the tag is found at the first index that has it. |
| `Parser.SiteLossesSpec` | parser.py:40-59 | A link yields records or fails only if it is a candidate with an `li` ancestor and a matching caption. It fails only when its text has digits, and the error is NoStatus exactly when no status is mentioned. Otherwise it yields one record per digit run, sharing the stripped type, the status and the normalised link, with the run's decimal value as the number. |
| `Parser.SiteLossesComplete` | parser.py:52-59 | A matched candidate with digits, a status and an `href` yields as many records as digit runs. |
| `Parser.NonCandidateSkipped` | parser.py:40-41 | A link whose text is empty, or does not start with `(` and end with `)`, yields nothing. |
| `Parser.NoListItemNoCaption` | parser.py:43-50 | Without an `li` ancestor the tails are `''`, the caption does not match, and the link yields nothing without fault. |
| `Parser.NoDigitsNoFault` | parser.py:52-53 | A link text without digits yields nothing and no fault, even without a status. |
| `Parser.RecordsOf` | parser.py:52-59 | One record per digit run. |
| `Parser.ParseSitesStopsAtError` | parser.py:39-59 | Once a link fails, later links change nothing: the failure is the document's result. |
| `Parser.ParseSitesAppend` | parser.py:39-59 | The records of consecutive link lists are concatenated in document order, the first failure winning. |
| `Parser.ThenAssociative` | parser.py:39-59 | Sequencing extraction steps is associative. |
| `Parser.TailsInDocumentOrder` | parser.py:26-32 | `_extract_tails` of an element is its own tail followed by the tails of all its descendants in document order; no `.text` is included. |
| `Parser.ChildTailsInDocumentOrder` | parser.py:29-31 | The tails collected from a list of children are the tails of their subtrees in document order. |
| `Parser.SiteTailsAppend` | parser.py:29-31 | Collected tails distribute over concatenation of subtrees. |
| `Parser.PickStatusSpec` | parser.py:9-15 | No status exactly when no status value is a substring of the text; otherwise the chosen status is mentioned and no status earlier in declaration order is. |
| `Parser.FirstMentionedSpec` | parser.py:53 | The first status of an order that the text mentions: None iff none is mentioned, otherwise a mentioned status with every earlier one unmentioned. |
| `Parser.Rank` | parser.py:9-15 | Each status has its position in the declaration order. |
| `Parser.StatusByEnumOrder` | parser.py:9-15 | `(1, captured, destroyed)` is destroyed: enum order, not text order, decides. |
| `Parser.StatusCaseSensitive` | parser.py:53 | `(1, Sunk)` mentions no status: the match is case-sensitive. |
| `Parser.StripColonsKeepsSpaces` | parser.py:55 | `strip(':')` removes only colons: `": T-64BV :"` becomes `" T-64BV "`. |
| `Parser.NormalizeLinkShape` | parser.py:58 | The normalised link starts with `http` and contains no further `http`; without `http` in the stripped `href` it is `http` + the stripped `href`. |
| `Parser.NormalizeLinkIdempotent` | parser.py:58 | Normalising a normalised link changes nothing. |
| `Parser.LastPieceAfterHttp` | parser.py:58 | Splitting `http` + r, with r free of `http`, on `http` leaves r as the last piece. |
| `Parser.HttpOccurrences` | parser.py:58 | Past the leading `http`, the occurrences of `http` in `http` + r are exactly those of r. |
| `Html.FindAll` | parser.py:37 | Every element found has the requested tag. |
| `Html.FindAllMembers` | parser.py:37 | An element is found exactly when it is a descendant of the root with the tag. |
| `Html.FindAllRooted` | parser.py:37 | Every found element's parent path leads up to the root. |
| `Html.Filter` | parser.py:37 | Filtering by tag keeps only elements with that tag. |
| `Html.FilterMembers` | parser.py:37 | Filtering keeps exactly the elements with the tag. |
| `Html.DescendantsUnder` | parser.py:37 | Each descendant is recorded with the chain of its ancestors. |
| `Html.ChildSitesUnder` | parser.py:37 | The same, for the subtrees of a list of children. |
| `Patterns.MatchCaption` | parser.py:48 | `re.match(r'\d+\W+(.+)$', t)`: group 1, or no match (characterised by `Patterns.CaptionMatchSpec`). |
| `Patterns.CaptionMatchSpec` | parser.py:48-50 | The scanner for `\d+\W+(.+)$` anchored at the start fails exactly when no split into digits, non-word characters and a newline-free group exists. Otherwise it returns the group at the split with the longest non-word run, as a backtracking engine does. |
| `Patterns.TryGroupFromLargest` | parser.py:48 | Backtracking over the `\W+` run chooses the largest end at which `(.+)$` matches. |
| `Patterns.TryGroupFromPoint` | parser.py:48 | The group taken is `.+$` on the text after the chosen end. |
| `Patterns.LastGroupPointLargest` | parser.py:48 | The chosen end is the largest at which the group can match. |
| `Patterns.DotPlusEndSpec` | parser.py:48 | `(.+)$` matches a non-empty newline-free text, optionally followed by one final newline, and nothing else. |
| `Patterns.NoNewlineSpec` | parser.py:48 | `.` accepts exactly the non-newline characters. |
| `Patterns.DigitRuns` | parser.py:52 | `re.findall(r'\d+')` yields non-empty all-digit runs. |
| `Patterns.DigitRunsCoverDigits` | parser.py:52 | The runs, concatenated, are exactly the digits of the text in order. |
| `Patterns.DigitRunsEmpty` | parser.py:52 | There are no runs exactly when the text has no digit. |
| `Patterns.DigitRunsSplit` | parser.py:52 | A non-digit separates runs: the runs of `a + [c] + b` are those of a then those of b. |
| `Patterns.DigitRunsOfDigits` | parser.py:52 | A non-empty all-digit text is one run. |
| `Patterns.DigitsOfAppend` | parser.py:52 | The digits of a concatenation are the concatenated digits. |
| `Patterns.DigitsOfAllDigits` | parser.py:52 | An all-digit text is its own digits. |
| `Strings.ContainsSpec` | parser.py:53 | `p in s` holds exactly when p occurs in s at some index. |
| `Strings.NotContainsByFirstChar` | parser.py:53 | A text without the pattern's first character does not contain it. |
| `Strings.TrimSpec` | parser.py:47 | `strip` keeps an infix, removes only characters of the class, and leaves neither end on one. |
| `Strings.TrimStartSpec` | parser.py:47 | Leading strip removes exactly the maximal prefix of the class. |
| `Strings.TrimEndSpec` | parser.py:47 | Trailing strip removes exactly the maximal suffix of the class. |
| `Strings.TrimFixed` | parser.py:55 | A text that neither starts nor ends with a stripped character is unchanged. |
| `Strings.TrimIdempotent` | parser.py:47 | Stripping twice is stripping once. |
| `Strings.SpanEnd` | parser.py:48 | The end of the maximal run of a character class from a position. |
| `Strings.SpanEndUnique` | parser.py:48 | That end is the only position that fits the run. |
| `Strings.LastPieceShape` | parser.py:58 | `split(sep)[-1]` contains no separator; it is the whole text when there is no separator, otherwise the text is a prefix, the separator and the piece. |
| `Strings.LastPieceFrom` | parser.py:58 | The piece is a suffix of the text. |
| `Strings.LastPieceFromShape` | parser.py:58 | The left-to-right scan for separators ends on the last piece. |
| `Strings.NatToString` | oryxbot/twitter_util.py:26-28 | `str(n)` is a non-empty digit string without a leading zero unless n is 0. |
| `Strings.DecimalRoundTrip` | parser.py:57 | `int(str(n)) == n`. |
| `Strings.JoinStartsWithFirst` | oryxbot/twitter_util.py:29 | A joined line starts with its first part. |
| `Strings.Capitalize` | oryxbot/twitter_util.py:34 | Same length, first character upper-cased, the rest lower-cased. |
| `Records.AsDict` | main.py:51 | `asdict` of a record has exactly the four field names. |
| `Records.FromDict` | main.py:49 | `Loss(**x)` then the hash `set(...)` takes: only a dict with the four field names loads, and a loaded record equal to a parsed one has fields equal to it in Python's sense. |
| `Records.LoadedEquals` | oryxbot/main.py:38-43 | A stored value loads as a record equal to `l` exactly when it is a dict with the four names whose values equal `l`'s fields (a boolean number equalling 1 or 0). |
| `Records.LoadFailures` | oryxbot/main.py:38 | Loading fails exactly on a non-dict, wrong field names, or a list or dict among the values; mis-typed scalar values load. |
| `Records.BooleanNumberLoads` | parser.py:18-23 | A stored `"number": true` loads as a record equal to the one with number 1. |
| `Records.MistypedFieldsLoad` | parser.py:18-23 | A stored `"number": "4"` loads as a record no parsed one equals; a list value fails. |
| `Records.RecordRoundTrip` | main.py:49-51 | `Loss(**asdict(l))` is a record equal to `l`. |
| `Records.DumpRecords` | main.py:51 | A dumped list holds `asdict` of each record, in order. |
| `Records.DumpLoadRoundTrip` | main.py:49-51 | Loading a dumped list gives it back, record for record. |
| `Records.LoadDumped` | main.py:49 | A list of serialised records loads as those records. |
| `Records.LoadRecordsSpec` | main.py:49-55 | Loading a list succeeds exactly when every item loads, and then a parsed record is `in previous` exactly when some item loads as a record equal to it. |
| `Records.LoadRecords` | main.py:49 | `map(lambda x: Loss(**x), ...)` consumed by `set`: the first failing item aborts; at most one loaded record per item. |
| `Records.MistypedNumberMatchesNothing` | oryxbot/main.py:38 | A stored record with a string number loads but adds nothing a parsed record equals. |
| `Records.IteratedRecords` | main.py:49 | Iterating a stored value: a list gives its items, an empty string or dict nothing, a non-empty one a non-mapping error, a scalar a not-iterable error (characterised by `Records.DumpLoadRoundTrip`). |
| `Records.PreviousRecords` | oryxbot/main.py:38 | The previous records of a country under `[country]` or `.get(country, [])` (characterised by `Records.BaselineRoundTrip` and `Records.AbsentCountry`). |
| `Records.ZipDict` | main.py:60 | `dict(zip(...))` has only the given keys. |
| `Records.ZipDictLookup` | main.py:60 | For distinct keys, the dict has exactly those keys, each mapped to its value. |
| `Records.BaselineRoundTrip` | main.py:49-60 | Reading back a stored baseline, under either lookup, gives each country's records. |
| `Records.AbsentCountry` | oryxbot/main.py:38 | A country missing from the baseline has no previous records under `.get(country, [])`, but is a KeyError under `[country]` (main.py:49). |
| `Diff.NewLosses` | main.py:53-55 | The current records not in the previous set, in current order, duplicates kept (characterised by `Diff.NewLossesMembers` and `Diff.NewLossesCount`). |
| `Diff.ReportNew` | main.py:53-55 | The inner loop reports, tagged with the country, the current items not in the previous set, in current order. |
| `Diff.NewLossesMembers` | main.py:53-55 | An item is reported exactly when it is current and not previous. |
| `Diff.NewLossesCount` | main.py:53-55 | A previous item is never reported; an absent item is reported as many times as it occurs. |
| `Diff.NewLossesAppend` | main.py:53-55 | The diff of a concatenation is the concatenated diffs: order is kept. |
| `Diff.SelfDiffEmpty` | main.py:49-55 | Diffing a list against itself reports nothing. |
| `Diff.EmptyBaselineReportsAll` | main.py:35 | Diffing against an empty baseline reports the whole current list. |
| `Diff.AllPresentNothingNew` | main.py:53-55 | If every current item was known, nothing is reported. |
| `Diff.OnlyMissingReported` | main.py:53-55 | If exactly one current item is unknown, it alone is reported. |
| `Diff.RemovedRecordReported` | test/test_parser.py:6-19 | Removing one record from a parsed list and diffing the full list against the rest yields exactly that record. |
| `Diff.Elems` | main.py:49 | The set of a list has exactly its items. |
| `Diff.TagAll` | main.py:55 | Each item is paired with the country, in order. |
| `Tracking.CountryStep` | main.py:49-55 | One country: previous records, then the parsed page, then its new records (characterised by `Tracking.ComparedSpec`). |
| `Tracking.MistypedRecordReported` | oryxbot/main.py:38-44 | A stored record with a string number does not stop the pass: the current record it stood for is reported as new. |
| `Tracking.CompareCountries` | main.py:46-55 | The per-country loop gives `Compared`: the first failure, or the diff and the current lists. |
| `Tracking.Compared` | main.py:46-55 | On success there is one current list per country. |
| `Tracking.ComparedSpec` | main.py:46-55 | With each country's previous and current records known, the diff is, country by country in URL order, the tagged current items not previously present. |
| `Tracking.ComparedOk` | main.py:48-50 | Success means every lookup succeeded and every page parsed to its current list. |
| `Tracking.ComparedFails` | main.py:48-50 | A failure is the first country whose lookup or parse failed. |
| `Tracking.ComparedStopsAtError` | main.py:48-50 | A failure in a prefix of the countries is the result. |
| `Tracking.RerunNoDiff` | main.py:49-61 | Rerunning on the same pages against the baseline just written reports nothing and gives the same lists. |
| `Tracking.NoChangeNoDiff` | main.py:53-55 | Unchanged lists report nothing. |
| `Tracking.NothingKnownAllNew` | main.py:35 | With nothing known, every record is reported, tagged. |
| `Tracking.FreshBaselineReportsAll` | main.py:33-55 | A baseline with no records for any country reports every current record, tagged, countries in URL order. |
| `Tracking.Nothing` | main.py:35 | One empty list per country. |
| `LegacyMain.StartingBaseline` | main.py:29-37 | The read fails the run exactly when it fails with a code other than `NoSuchKey`; `NoSuchKey` gives the empty baseline. |
| `LegacyMain.WithLast` | main.py:28-55 | `compare_with_last` up to the write: baseline, live pages, strict-lookup comparison (characterised by `LegacyMain.FirstCycleReportsAll`, `LegacyMain.SecondCycleQuiet`, `LegacyMain.StoreErrorAborts`). |
| `LegacyMain.CompareWithLast` | main.py:28-63 | A missing baseline counts as empty; any other storage error propagates. On success the key holds the current lists, that write is the only effect, and the diff is returned. On failure nothing is written. |
| `LegacyMain.EmptyBaseline` | main.py:35 | `{k: [] for k in URLS.values()}` names every country, each with an empty list. |
| `LegacyMain.EmptyBaselineKnowsNothing` | main.py:35 | The empty baseline gives every country no previous records. |
| `LegacyMain.StoreErrorAborts` | main.py:33-37 | A storage error other than NoSuchKey aborts the cycle with that error. |
| `LegacyMain.FirstCycleReportsAll` | main.py:33-55 | With no stored baseline and readable pages, every current record is reported. |
| `LegacyMain.SecondCycleQuiet` | main.py:46-61 | The cycle after a successful one, on unchanged pages, reports nothing. |
| `LegacyMain.EveryCountryRequired` | main.py:49 | A cycle only succeeds on a stored object naming every tracked country. |
| `Snapshots.UrlSnapshot` | oryxbot/archiveutil.py:13-24 | A live job gives the live page; an archive job succeeds only on a closest snapshot with status "200" and gives that snapshot. |
| `Snapshots.GatherSpec` | main.py:86-90 | `asyncio.gather` succeeds exactly when every job does, and gives the results in job order; a failure is that of the first failing job. |
| `Snapshots.Gather` | main.py:90 | On success, one result per job. |
| `Snapshots.LiveJobs` | oryxbot/main.py:30 | One live fetch per URL, in URL order. |
| `Snapshots.LiveDocs` | oryxbot/main.py:30 | When every live page is there, the gather succeeds and gives each page's document. |
| `Snapshots.Docs` | oryxbot/main.py:37 | The document of each fetched body, in order. |
| `PointInTime.BuildJobs` | main.py:86-88 | The `product` loop builds `Jobs`. |
| `PointInTime.Jobs` | main.py:86-88 | For URL i, job 2i is the archive fetch for the day and job 2i+1 the live fetch. |
| `PointInTime.Parts` | main.py:92 | Pair i is (body 2i, body 2i+1): (old, new) for URL i. |
| `PointInTime.DiffPairs` | main.py:93-97 | The diff loop over (country, pair) gives `PairDiff`. |
| `PointInTime.PairDiff` | main.py:93-97 | Per country, the current page's records not among the snapshot's (both parsed first), the first parse failure aborting (characterised by `PointInTime.PairDiffSpec`). |
| `PointInTime.PairDiffSpec` | main.py:93-97 | When both pages of every pair parse, the diff is the new items not in the old set, tagged, in new order. |
| `PointInTime.PairDiffStopsAtError` | main.py:95 | A parse failure in a prefix of the pairs is the result. |
| `PointInTime.CompareAgainstDate` | main.py:66-99 | Gather, pair, diff, earliest timestamp (characterised by `PointInTime.CompareAgainstDateSpec`). |
| `PointInTime.CompareAgainstDateRun` | main.py:66-99 | The whole point-in-time comparison gives `CompareAgainstDate`. |
| `PointInTime.CompareAgainstDateSpec` | main.py:66-99 | With all fetches successful and all pages parsed, the comparison succeeds with the per-URL diff of new against old. |
| `PointInTime.PartsParse` | main.py:86-95 | Under those conditions the gather succeeds and pair i is (old page, new page) of URL i. |
| `PointInTime.GatherPairs` | main.py:86-92 | When every fetch succeeds, the gather gives the archive and live snapshots of each URL at 2i and 2i+1. |
| `PointInTime.Earliest` | main.py:99 | `min` of the timestamps: a lower bound of all and equal to one. |
| `PointInTime.SinceIsEarliest` | main.py:99 | The returned time is at most every fetched snapshot's time and equal to one of them. |
| `PointInTime.SinceBoundsPages` | oryxbot/main.py:74 | The returned time is at most both the old and the new page time of every URL. |
| `PointInTime.SinceOfGathered` | main.py:90-99 | A successful comparison gathered bodies and is measured from their earliest. |
| `PointInTime.EarliestFetched` | main.py:99 | The earliest of gathered bodies bounds every job's snapshot time and is one of them. |
| `PointInTime.NonOkSnapshotFails` | main.py:80-82 | An archive answer whose status is not "200" makes the comparison fail. |
| `PointInTime.UnchangedPagesNoDiff` | main.py:93-97 | Old and new pages parsing to the same records report nothing. |
| `PointInTime.NoSourcesNoTimestamps` | main.py:99 | `min` of no timestamps is an error. |
| `Effects.Urls` | main.py:22-23 | `URLS.keys()` in order. |
| `Effects.Countries` | main.py:22-23 | `URLS.values()` in order. |
| `Effects.World.constructor` | oryxbot/s3_util.py:18-34 | A store with the given objects and failing keys, and no effects yet. |
| `Effects.World.Read` | oryxbot/s3_util.py:18-27 | A read succeeds exactly on a present key that does not fail, giving its value; an absent key gives NoSuchKey. |
| `Effects.World.Put` | oryxbot/s3_util.py:29-34 | A write replaces the key's value and is logged. |
| `Effects.World.Log` | oryxbot/twitter_util.py:73-82 | An effect is appended to the log and the store is unchanged. |
| `BotMain.StoredOrEmpty` | oryxbot/s3_util.py:18-27 | The read fails exactly when it fails with a code other than `NoSuchKey`, which gives `{}`. |
| `BotMain.WithLastBot` | oryxbot/main.py:30-44 | Pages first, then the baseline with `.get(country, [])` lookup (characterised by `BotMain.FirstCycleReportsAll`, `BotMain.NewCountryAllNew`, `BotMain.SecondCycleQuiet`). |
| `BotMain.CycleEvents` | oryxbot/main.py:46-50 | The baseline write, then only when something is new the publications and the delta write (characterised by `BotMain.CycleEventsShape`). |
| `BotMain.FollowUps` | oryxbot/main.py:95-103 | The follow-ups in order, the first failed comparison ending the run (characterised by `BotMain.FollowUpsFinish`, `BotMain.FollowUpsCrash`, `BotMain.FollowUpsAllPosted`). |
| `BotMain.CompareWithLastAndPublish` | oryxbot/main.py:24-52 | The pages are fetched, then the baseline is read (missing = `{}`). On success the baseline is written first; only when the diff is non-empty do the look-ups of the new losses and then the delta write follow. On failure nothing changes. |
| `BotMain.WithLastBotRun` | oryxbot/main.py:30-44 | The reads and the comparison, pages before baseline, with `.get(country, [])`. |
| `BotMain.PublishCycle` | oryxbot/main.py:46-50 | The writes and publication of a computed cycle. |
| `BotMain.CycleEventsShape` | oryxbot/main.py:46-50 | The baseline write always comes first. It is the only effect exactly when the diff is empty; otherwise the look-ups of the new losses come in order, then the delta write. |
| `BotMain.DumpDelta` | oryxbot/main.py:50 | One delta entry per new loss. |
| `BotMain.DeltaEntries` | oryxbot/main.py:50 | Entry k is `[country, asdict(loss)]` of diff entry k, and the dict loads back to that loss. |
| `BotMain.FirstCycleReportsAll` | oryxbot/main.py:33-44 | With no stored baseline, every current record is reported. |
| `BotMain.NewCountryAllNew` | oryxbot/main.py:38 | A country the baseline does not name has no previous records, so all its records are new. |
| `BotMain.SecondCycleQuiet` | oryxbot/main.py:46-50 | The cycle after a successful one, on unchanged pages, reports nothing and its only effect is the baseline write. |
| `BotMain.Run` | oryxbot/main.py:77-103 | With a non-zero `--delta-days` the summary branch runs, always finishes, and writes nothing. Otherwise the baseline cycle runs, and the follow-ups only when it found something new. |
| `BotMain.RunDelta` | oryxbot/main.py:85-91 | The delta summary, or a logged failure, then every page saved to the archive. |
| `BotMain.RunCycle` | oryxbot/main.py:92-103 | A failed cycle crashes with no effect; a successful one makes its writes, and follow-ups run exactly when the diff is non-empty. |
| `BotMain.RunFollowUps` | oryxbot/main.py:95-103 | The 1-day, 7-day and 2023-06-05 comparisons in order, each posting its summary; the first failing one ends the program. |
| `BotMain.FollowUp` | oryxbot/main.py:96-97 | One comparison and its summary post. |
| `BotMain.FollowUpsFinish` | oryxbot/main.py:95-103 | The follow-ups finish exactly when every comparison succeeds. |
| `BotMain.FollowUpsCrash` | oryxbot/main.py:95-103 | A crash is the first failing comparison, after exactly the posts of the ones before it. |
| `BotMain.FollowUpsAllPosted` | oryxbot/main.py:95-103 | When all succeed, every comparison's posts appear in order. |
| `BotMain.FollowUpsThree` | oryxbot/main.py:95-103 | The three follow-ups case by case. |
| `BotMain.PostsOne` | oryxbot/twitter_util.py:18-19 | A successful comparison posts nothing for an empty diff and one summary otherwise. |
| `BotMain.Comparisons` | oryxbot/main.py:96-103 | Comparison k is against day k. |
| `BotMain.Posts` | oryxbot/main.py:97-103 | Posts k are what comparison k posts. |
| `BotMain.PublishComparison` | oryxbot/main.py:86-90 | The summary of a successful comparison, or the logged failure. |
| `BotMain.SaveUrls` | oryxbot/main.py:91 | One archive save per URL, in order. |
| `BotMain.Archives` | oryxbot/main.py:91 | Save k archives URL k. |
| `Summary.GroupLosses` | oryxbot/twitter_util.py:21-29 | The nested `groupby` loops build exactly the collected (country, line) pairs. |
| `Summary.AddTypeLines` | oryxbot/twitter_util.py:24-29 | The type loop appends one line per type run to the country's list. |
| `Summary.TypeLineOf` | oryxbot/twitter_util.py:25-29 | The status loop builds the type run's line. |
| `Summary.TypeLineShape` | oryxbot/twitter_util.py:25-29 | A line starts with `"<type> total: N"`, N the run length, and the status run counts sum to N. |
| `Summary.CollectSpec` | oryxbot/twitter_util.py:21-29 | A country has a list exactly when some line was added for it, and its list is all its lines in order, so non-adjacent runs share a list. |
| `Summary.CollectWellFormed` | oryxbot/twitter_util.py:21 | Countries are listed once each, in order of first appearance, each with a list. |
| `Summary.AddWellFormed` | oryxbot/twitter_util.py:29 | Appending a line keeps that shape. |
| `Summary.CollectStep` | oryxbot/twitter_util.py:29 | Collecting one more pair appends it to its country's list. |
| `Summary.TypeLinesStep` | oryxbot/twitter_util.py:24-29 | One more type run adds one line. |
| `Summary.TypeLines` | oryxbot/twitter_util.py:24-29 | One line per type run. |
| `Summary.LossesOf` | oryxbot/twitter_util.py:23 | The losses of a country run, in order. |
| `Summary.StatusParts` | oryxbot/twitter_util.py:27-28 | One part per status run. |
| `Summary.Headers` | oryxbot/twitter_util.py:34 | One header per country. |
| `Summary.Columns` | oryxbot/twitter_util.py:36 | Column k is country k's lines, sorted. |
| `Summary.ColumnsSorted` | oryxbot/twitter_util.py:36 | Each column is in order and a permutation of its country's lines. |
| `Seqs.Longest` | oryxbot/txt2image.py:13 | `max(map(len, items))` (0 for none): a bound on every length, attained by some item when there is one; also the length of the longest column `zip_longest` runs to. |
| `Summary.TransposeSpec` | oryxbot/twitter_util.py:38-39 | There are as many rows as the longest column; row j holds each column's j-th entry, or None where the column is shorter; no row is all None. |
| `Summary.BuildTable` | oryxbot/twitter_util.py:33-39 | The title, the headers, then the transposed rows. |
| `Summary.TableCell` | oryxbot/twitter_util.py:36-39 | Row 2 + j, column k is the j-th sorted line of country k or None. |
| `Summary.SummaryHeaders` | oryxbot/twitter_util.py:34 | Header k is `"<Country> losses: n"` with n the number of that country's lines (type runs), not losses. |
| `Summary.SummaryCell` | oryxbot/twitter_util.py:36-39 | Cell (2 + j, k) of the summary is the j-th of country k's sorted lines, or None. |
| `Summary.HeaderCountsLines` | oryxbot/twitter_util.py:22-39 | Two Russian tank losses, destroyed then captured, give one line `Tanks total: 2, destroyed: 1, captured: 1` under the header `Russian losses: 1`. |
| `Summary.SummaryPostedIffLosses` | oryxbot/twitter_util.py:17-19 | A summary is posted exactly when the diff is non-empty, as the table and its picture. |
| `Summary.SummaryTable` | oryxbot/twitter_util.py:21-39 | The `items` table built from the losses (characterised by `Summary.SummaryHeaders`, `Summary.SummaryCell`, `Summary.HeaderCountsLines`). |
| `Summary.SummaryEvents` | oryxbot/twitter_util.py:17-62 | Nothing for no losses, otherwise the table's image posted with the title (characterised by `Summary.SummaryPostedIffLosses`). |
| `Summary.PublishDateDiff` | oryxbot/twitter_util.py:17-62 | Nothing for an empty diff; otherwise one post of the summary table and its picture; the store is unchanged. |
| `Summary.PublishLosses` | oryxbot/twitter_util.py:65-82 | One look-up per loss, in order, each with its own outcome, whatever happened to the ones before. |
| `Summary.Resolutions` | oryxbot/twitter_util.py:73-82 | Outcome k is loss k's look-up. |
| `Grouping.RunsSpec` | oryxbot/twitter_util.py:22-28 | `groupby` without sorting: the runs partition the list into non-empty consecutive blocks, each of one key, with adjacent blocks of different keys. |
| `Grouping.Runs` | oryxbot/twitter_util.py:22 | Runs are non-empty, start with the first element, and there are none only for an empty list. |
| `Grouping.RunsFlatten` | oryxbot/twitter_util.py:22 | The runs laid end to end are the list. |
| `Grouping.RunsShareKey` | oryxbot/twitter_util.py:22 | Every element of a run has the run's key. |
| `Grouping.RunsMaximal` | oryxbot/twitter_util.py:22 | Adjacent runs have different keys. |
| `Grouping.RunLengths` | oryxbot/twitter_util.py:25-28 | Run lengths add up to the list length. |
| `Grouping.FlattenLength` | oryxbot/twitter_util.py:25-28 | The laid-out length is the sum of run lengths. |
| `Grouping.ConstantKeyOneRun` | oryxbot/twitter_util.py:22 | A list of one key is a single run. |
| `Sorting.SortSpec` | oryxbot/twitter_util.py:36 | `sorted` gives an ordered permutation. |
| `Sorting.SortSorted` | oryxbot/twitter_util.py:36 | Sorting an ordered list changes nothing. |
| `Sorting.Insert` | oryxbot/twitter_util.py:36 | Insertion adds exactly the element. |
| `Sorting.InsertSorted` | oryxbot/twitter_util.py:36 | Insertion keeps a list ordered. |
| `Sorting.LexTotal` | oryxbot/twitter_util.py:36 | String order is total. |
| `Sorting.LexTrans` | oryxbot/twitter_util.py:36 | String order is transitive. |
| `Sorting.LexAntisymmetric` | oryxbot/twitter_util.py:36 | String order is antisymmetric. |
| `TextImage.Render` | oryxbot/txt2image.py:13-39 | Fails exactly on an empty table (`max` of nothing); otherwise the measured and drawn image (characterised by `TextImage.RenderSize`). |
| `TextImage.TextToImage` | oryxbot/txt2image.py:6-39 | The layout is `Render`: no rows raise; otherwise one column per cell of the longest row, drawn at its offset. |
| `TextImage.MeasureColumns` | oryxbot/txt2image.py:16-31 | The measuring loop keeps offset i equal to 10 plus the earlier widths and gaps, the column lines, `max_x` as the last offset and `max_y` as the tallest height. |
| `TextImage.DrawColumns` | oryxbot/txt2image.py:36-38 | Column k is drawn at (offset k, 0) with its lines joined by newlines. |
| `TextImage.Column` | oryxbot/txt2image.py:22 | One line per row. |
| `TextImage.ColumnCell` | oryxbot/txt2image.py:22 | Line k of column idx is row k's cell when present and non-empty, else `''`. |
| `TextImage.OffsetClosedForm` | oryxbot/txt2image.py:18-29 | Offset i is 10 + 20i + the widths of the columns before it. |
| `TextImage.OffsetsIncrease` | oryxbot/txt2image.py:28-29 | Offsets strictly increase, by at least 20 per column. |
| `TextImage.RenderSize` | oryxbot/txt2image.py:13-33 | The layout fails exactly for no rows. The width is 10 + Σ(width + 20); every column fits 30 below the height. |
| `TextImage.MaxHeightIsMax` | oryxbot/txt2image.py:31 | `max_y` is the tallest column's height. |
| `TextImage.SingleCellImage` | test/test_txt2image.py:6-9 | `[["test"]]` is one column at 10, and a 16 by 11 text gives a 46 by 41 picture. |

## Left out

- The network and `asyncio` are not modelled. Fetched pages are a `Web`
  value. A page that cannot be fetched is a missing entry and aborts the
  comparison. `asyncio.gather` reports the first failing job in job order,
  whereas the real one reports whichever failure surfaces first.
- The S3 transport and the JSON text encoding are not modelled. The store
  holds JSON values directly, and floats and the byte encoding are left
  out.
- lxml's HTML parsing is not modelled; a document is its element tree.
  A `None` text or tail reads as `''`, since every use of them in the code
  treats the two alike.
- Python's Unicode `\d`, `\w` and `.` are read as their ASCII forms, and
  `str.capitalize` is modelled on ASCII letters only.
- Date arithmetic and `isoformat` strings are not modelled. The summary
  title is a function `title` of the earliest snapshot time. Days are day
  numbers from 1970-01-01, and 2023-06-05 is day 19513.
- PIL font loading, measurement and drawing are not modelled. `measure` is
  a parameter giving (width, height), and the picture is its size plus the
  texts drawn on it and where.
- Tweeting is not modelled: tweepy clients, media upload and the tweet
  text. A summary post is one `Posted` effect of the table and its
  picture. main.py `calc_and_publish_delta` (main.py:102-123), which only
  tweets, and main.py's `__main__` block (main.py:206-215) are not part of
  this model.
- argparse, environment variables and logging are not modelled. The
  `--delta-days` value and the store keys are parameters.
- oryxbot/image_resolver.py is not part of this model. Resolving a loss's
  images is a parameter `resolves`, false when the look-up raises.
- `save_url` (oryxbot/archiveutil.py:27-32) is modelled as always
  succeeding. Its effect is an `Archived` event.
- The duplicates in main.py of `text_to_image` and of the grouping in
  `publish_date_diff` are modelled once, in the oryxbot versions. main.py's
  copy of `publish_date_diff` has no early return for an empty difference,
  and that copy is not modelled.
- Archive timestamps are integers. The parsing of the archive's timestamp
  strings (`parse_dt`) is not modelled.
- oryxbot/main.py imports `oryxbot.archive_util` and `oryxbot.parser`, but
  the files are oryxbot/archiveutil.py and the top-level parser.py. The
  model takes the intended modules.
- Records.RecordRoundTrip: does not say that only `asdict(l)` loads as a
  record equal to `l`. The dataclass does not check field types, so a
  stored boolean number loads as a record equal to the one with number 1
  or 0. `Records.LoadedEquals` states exactly which stored values load as
  a record equal to `l`.
