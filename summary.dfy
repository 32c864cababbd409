/**
 * The summary `publish_date_diff` tweets (oryxbot/twitter_util.py, and the
 * same layout in main.py): the difference is grouped into consecutive runs
 * by country, then by type within a country, then by status within a
 * type; each type run becomes one line of counts; the lines are collected
 * per country, each country's column sorted, and the columns transposed
 * into table rows under a title row and a header row. Also
 * `publish_losses`, which looks up every reported loss's image and carries
 * on past a failure.
 */
module Summary {
  import opened Wrappers
  import opened Strings
  import opened Parser
  import opened Diff
  import opened TextImage
  import opened Effects
  import opened Grouping
  import opened Sorting
  import opened Seqs

  /** The grouping keys. */
  function CountryOf(t: Tagged): string { t.country }
  function KindOf(l: Loss): string { l.kind }
  function StatusOf(l: Loss): string { l.status }

  /** `list(map(lambda x: x[1], country_data))`. */
  function LossesOf(run: seq<Tagged>): (ls: seq<Loss>)
    ensures |ls| == |run| && forall k :: 0 <= k < |run| ==> ls[k] == run[k].loss
  {
    seq(|run|, k requires 0 <= k < |run| => run[k].loss)
  }

  // ---------------------------------------------------------------------
  // One line per type run

  /** `f"{vehicle} total: {len(vehicle_data)}"`. */
  function TotalPart(run: seq<Loss>): string
    requires run != []
  {
    run[0].kind + " total: " + NatToString(|run|)
  }

  /** `f"{status}: {len(list(status_data))}"` for each status run. */
  function StatusParts(runs: seq<seq<Loss>>): (parts: seq<string>)
    requires forall i :: 0 <= i < |runs| ==> runs[i] != []
    ensures |parts| == |runs|
  {
    seq(|runs|, i requires 0 <= i < |runs| => runs[i][0].status + ": " + NatToString(|runs[i]|))
  }

  /** The line of a type run: its total, then the count of each status run,
      joined with ", ". */
  function TypeLine(run: seq<Loss>): string
    requires run != []
  {
    Join([TotalPart(run)] + StatusParts(Runs(run, StatusOf)), ", ")
  }

  /** The innermost loop: `status_items` starts with the total and gets
      one entry per status run; the line is their join. */
  method TypeLineOf(vehicleData: seq<Loss>) returns (line: string)
    requires vehicleData != []
    ensures line == TypeLine(vehicleData)
  {
    var statusItems := [TotalPart(vehicleData)];
    var runs := Runs(vehicleData, StatusOf);
    for i := 0 to |runs|
      invariant statusItems == [TotalPart(vehicleData)] + StatusParts(runs[..i])
    {
      statusItems := statusItems + [runs[i][0].status + ": " + NatToString(|runs[i]|)];
    }
    assert runs[..|runs|] == runs;
    line := Join(statusItems, ", ");
  }

  /** A type run's line starts with `"<type> total: N"` for the run's
      length N, and its status runs' counts add up to N. */
  lemma TypeLineShape(run: seq<Loss>)
    requires run != []
    ensures var head := run[0].kind + " total: " + NatToString(|run|);
      |head| <= |TypeLine(run)| && TypeLine(run)[..|head|] == head
    ensures SumLengths(Runs(run, StatusOf)) == |run|
    ensures |StatusParts(Runs(run, StatusOf))| >= 1
  {
    JoinStartsWithFirst([TotalPart(run)] + StatusParts(Runs(run, StatusOf)), ", ");
    RunLengths(run, StatusOf);
  }

  // ---------------------------------------------------------------------
  // The lines, per country

  /** `country_items[country].append(...)` for each type run of a country
      run, in order. */
  function TypeLines(country: string, typeRuns: seq<seq<Loss>>): (lines: seq<(string, string)>)
    requires forall i :: 0 <= i < |typeRuns| ==> typeRuns[i] != []
    ensures |lines| == |typeRuns|
  {
    seq(|typeRuns|, k requires 0 <= k < |typeRuns| => (country, TypeLine(typeRuns[k])))
  }

  /** The appends of the nested `groupby` loops, for some country runs. */
  function CountryLines(countryRuns: seq<seq<Tagged>>): seq<(string, string)>
    requires forall i :: 0 <= i < |countryRuns| ==> countryRuns[i] != []
  {
    if countryRuns == [] then []
    else
      var n := |countryRuns| - 1;
      CountryLines(countryRuns[..n])
        + TypeLines(countryRuns[n][0].country, Runs(LossesOf(countryRuns[n]), KindOf))
  }

  /** Every (country, line) append, in the order the loops make them. */
  function LinesOf(losses: seq<Tagged>): seq<(string, string)>
  {
    CountryLines(Runs(losses, CountryOf))
  }

  /** `country_items`: a `defaultdict(list)`, its keys in insertion order. */
  datatype CountryItems = CountryItems(order: seq<string>, lines: map<string, seq<string>>)

  /** The keys are exactly the ordered countries, each once. */
  ghost predicate WellFormed(items: CountryItems)
  {
    && (forall c :: c in items.lines <==> c in items.order)
    && (forall a, b :: 0 <= a < b < |items.order| ==> items.order[a] != items.order[b])
  }

  /** `country_items[country].append(line)`. */
  function Add(items: CountryItems, country: string, line: string): CountryItems
  {
    if country in items.lines then CountryItems(items.order, items.lines[country := items.lines[country] + [line]])
    else CountryItems(items.order + [country], items.lines[country := [line]])
  }

  /** Appending keeps every key listed once, in insertion order. */
  lemma AddWellFormed(items: CountryItems, country: string, line: string)
    requires WellFormed(items)
    ensures WellFormed(Add(items, country, line))
  {
  }

  /** The dictionary after some appends, from empty. */
  function Collect(pairs: seq<(string, string)>): CountryItems
  {
    if pairs == [] then CountryItems([], map[])
    else
      var n := |pairs| - 1;
      Add(Collect(pairs[..n]), pairs[n].0, pairs[n].1)
  }

  /** However the appends went, every key is listed once, in insertion
      order. */
  lemma {:induction false} CollectWellFormed(pairs: seq<(string, string)>)
    ensures WellFormed(Collect(pairs))
  {
    if pairs != [] {
      var n := |pairs| - 1;
      CollectWellFormed(pairs[..n]);
      AddWellFormed(Collect(pairs[..n]), pairs[n].0, pairs[n].1);
    }
  }

  /** The lines appended for one country, in order. */
  function LinesFor(pairs: seq<(string, string)>, country: string): seq<string>
  {
    if pairs == [] then []
    else
      var n := |pairs| - 1;
      LinesFor(pairs[..n], country) + (if pairs[n].0 == country then [pairs[n].1] else [])
  }

  /** A country has an entry exactly when some line was appended for it,
      and its list holds all its lines in append order, however far apart
      its runs were. */
  lemma {:induction false} CollectSpec(pairs: seq<(string, string)>)
    ensures forall c :: c in Collect(pairs).lines <==> LinesFor(pairs, c) != []
    ensures forall c :: c in Collect(pairs).lines ==> Collect(pairs).lines[c] == LinesFor(pairs, c)
  {
    if pairs != [] {
      CollectSpec(pairs[..|pairs| - 1]);
    }
  }

  /** The nested loops of `publish_date_diff`: over the country runs, and
      within each over its type runs, appending each type run's line. */
  method GroupLosses(losses: seq<Tagged>) returns (items: CountryItems)
    ensures items == Collect(LinesOf(losses))
  {
    items := CountryItems([], map[]);
    var countryRuns := Runs(losses, CountryOf);
    for i := 0 to |countryRuns|
      invariant items == Collect(CountryLines(countryRuns[..i]))
    {
      var data := LossesOf(countryRuns[i]);
      items := AddTypeLines(items, countryRuns[i][0].country, Runs(data, KindOf), CountryLines(countryRuns[..i]));
      CountryLinesNext(countryRuns, i);
    }
    assert countryRuns[..|countryRuns|] == countryRuns;
  }

  lemma CountryLinesNext(countryRuns: seq<seq<Tagged>>, i: nat)
    requires i < |countryRuns| && forall k :: 0 <= k < |countryRuns| ==> countryRuns[k] != []
    ensures CountryLines(countryRuns[..i + 1])
      == CountryLines(countryRuns[..i]) + TypeLines(countryRuns[i][0].country, Runs(LossesOf(countryRuns[i]), KindOf))
  {
    assert countryRuns[..i + 1][..i] == countryRuns[..i];
  }

  /** The loop over one country run's type runs. */
  method AddTypeLines(items: CountryItems, country: string, typeRuns: seq<seq<Loss>>, ghost before: seq<(string, string)>)
    returns (r: CountryItems)
    requires forall i :: 0 <= i < |typeRuns| ==> typeRuns[i] != []
    requires items == Collect(before)
    ensures r == Collect(before + TypeLines(country, typeRuns))
  {
    r := items;
    assert before + TypeLines(country, typeRuns[..0]) == before;
    for j := 0 to |typeRuns|
      invariant r == Collect(before + TypeLines(country, typeRuns[..j]))
    {
      var line := TypeLineOf(typeRuns[j]);
      TypeLinesNext(before, country, typeRuns, j);
      r := Add(r, country, line);
    }
    assert typeRuns[..|typeRuns|] == typeRuns;
  }

  lemma TypeLinesNext(before: seq<(string, string)>, country: string, typeRuns: seq<seq<Loss>>, j: nat)
    requires j < |typeRuns| && forall i :: 0 <= i < |typeRuns| ==> typeRuns[i] != []
    ensures Collect(before + TypeLines(country, typeRuns[..j + 1]))
      == Add(Collect(before + TypeLines(country, typeRuns[..j])), country, TypeLine(typeRuns[j]))
  {
    var done := before + TypeLines(country, typeRuns[..j]);
    TypeLinesStep(country, typeRuns, j);
    CollectStep(done, country, TypeLine(typeRuns[j]));
    AppendAssoc(before, TypeLines(country, typeRuns[..j]), [(country, TypeLine(typeRuns[j]))]);
  }

  lemma TypeLinesStep(country: string, typeRuns: seq<seq<Loss>>, j: nat)
    requires j < |typeRuns| && forall i :: 0 <= i < |typeRuns| ==> typeRuns[i] != []
    ensures TypeLines(country, typeRuns[..j + 1]) == TypeLines(country, typeRuns[..j]) + [(country, TypeLine(typeRuns[j]))]
  {
    assert typeRuns[..j + 1][j] == typeRuns[j];
  }

  lemma CollectStep(pairs: seq<(string, string)>, country: string, line: string)
    ensures Collect(pairs + [(country, line)]) == Add(Collect(pairs), country, line)
  {
    assert (pairs + [(country, line)])[..|pairs|] == pairs;
  }

  // ---------------------------------------------------------------------
  // The table

  /** `f"{country.capitalize()} losses: {len(data)}"` per country: the
      count is the number of lines, not of losses. */
  function Headers(items: CountryItems): (row: Row)
    requires WellFormed(items)
    ensures |row| == |items.order|
  {
    seq(|items.order|, k requires 0 <= k < |items.order| =>
      Some(Capitalize(items.order[k]) + " losses: " + NatToString(|items.lines[items.order[k]]|)))
  }

  /** `sorted_by_name.values()`: each country's lines sorted, countries in
      insertion order. */
  function Columns(items: CountryItems): (cols: seq<seq<string>>)
    requires WellFormed(items)
    ensures |cols| == |items.order|
    ensures forall k :: 0 <= k < |cols| ==> cols[k] == Sort(items.lines[items.order[k]])
  {
    seq(|items.order|, k requires 0 <= k < |items.order| => Sort(items.lines[items.order[k]]))
  }

  /** `zip_longest(*cols)`: row `j` holds each column's `j`-th entry, or
      None where the column is shorter. */
  function Transpose(cols: seq<seq<string>>): (rows: seq<Row>)
  {
    seq(Longest(cols), j requires 0 <= j < Longest(cols) =>
      seq(|cols|, k requires 0 <= k < |cols| => if j < |cols[k]| then Some(cols[k][j]) else None))
  }

  /** Transposition loses nothing and invents nothing: there are as many
      rows as the longest column has entries, every row has one cell per
      column and at least one entry, and reading column `k` down the rows
      gives back `cols[k]` followed by Nones. */
  lemma TransposeSpec(cols: seq<seq<string>>)
    ensures |Transpose(cols)| == Longest(cols)
    ensures forall j :: 0 <= j < |Transpose(cols)| ==>
      |Transpose(cols)[j]| == |cols| && exists k :: 0 <= k < |cols| && Transpose(cols)[j][k].Some?
    ensures forall k, j :: 0 <= k < |cols| && 0 <= j < |Transpose(cols)| ==>
      Transpose(cols)[j][k] == (if j < |cols[k]| then Some(cols[k][j]) else None)
  {
    var rows: seq<Row> := Transpose(cols);
    forall j | 0 <= j < |rows| ensures exists k :: 0 <= k < |cols| && rows[j][k].Some? {
      var k :| 0 <= k < |cols| && |cols[k]| == Longest(cols);
      assert rows[j][k].Some?;
    }
  }

  /** The table: the title row, the header row, then the transposed
      columns. */
  function TableOf(title: string, items: CountryItems): seq<Row>
    requires WellFormed(items)
  {
    [[Some(title)], Headers(items)] + Transpose(Columns(items))
  }

  /** `items`, built by appending one row per `zip_longest` tuple. */
  method BuildTable(title: string, countryItems: CountryItems) returns (items: seq<Row>)
    requires WellFormed(countryItems)
    ensures items == TableOf(title, countryItems)
  {
    items := [[Some(title)], Headers(countryItems)];
    var rows := Transpose(Columns(countryItems));
    for j := 0 to |rows|
      invariant items == [[Some(title)], Headers(countryItems)] + rows[..j]
    {
      RowsNext([[Some(title)], Headers(countryItems)], rows, j);
      items := items + [rows[j]];
    }
    assert rows[..|rows|] == rows;
  }

  lemma RowsNext(head: seq<Row>, rows: seq<Row>, j: nat)
    requires j < |rows|
    ensures head + rows[..j + 1] == (head + rows[..j]) + [rows[j]]
  {
    assert rows[..j + 1] == rows[..j] + [rows[j]];
  }

  /** The summary table of a difference. */
  function SummaryTable(losses: seq<Tagged>, title: string): seq<Row>
  {
    CollectWellFormed(LinesOf(losses));
    TableOf(title, Collect(LinesOf(losses)))
  }

  /** The table's layout: the title alone on the first row, the header
      row, then one row per entry of the longest column. */
  lemma TableShape(title: string, items: CountryItems)
    requires WellFormed(items)
    ensures |TableOf(title, items)| == 2 + Longest(Columns(items))
    ensures TableOf(title, items)[0] == [Some(title)]
    ensures TableOf(title, items)[1] == Headers(items)
  {
  }

  /** Row `2 + j` holds the `j`-th of each country's sorted lines, or None
      where the country has fewer. */
  lemma TableCell(title: string, items: CountryItems, j: nat, k: nat)
    requires WellFormed(items)
    requires j < Longest(Columns(items)) && k < |items.order|
    ensures var col := Sort(items.lines[items.order[k]]);
      TableOf(title, items)[2 + j][k] == if j < |col| then Some(col[j]) else None
  {
    TransposeSpec(Columns(items));
    assert TableOf(title, items)[2 + j] == Transpose(Columns(items))[j];
  }

  /** The summary of a difference: one header per country, countries in
      order of first appearance, each counting that country's lines (not
      its losses). */
  lemma SummaryHeaders(losses: seq<Tagged>, title: string, k: nat)
    requires k < |Collect(LinesOf(losses)).order|
    ensures var country := Collect(LinesOf(losses)).order[k];
      SummaryTable(losses, title)[1][k]
        == Some(Capitalize(country) + " losses: " + NatToString(|LinesFor(LinesOf(losses), country)|))
  {
    var pairs := LinesOf(losses);
    CollectWellFormed(pairs);
    CollectSpec(pairs);
    TableShape(title, Collect(pairs));
  }

  /** Below the headers, row `j` of the summary holds the `j`-th of each
      country's lines in sorted order, or None where it has fewer; there
      are as many such rows as the most lines any country has. */
  lemma SummaryCell(losses: seq<Tagged>, title: string, j: nat, k: nat)
    requires k < |Collect(LinesOf(losses)).order|
    ensures WellFormed(Collect(LinesOf(losses)))
    ensures |SummaryTable(losses, title)| == 2 + Longest(Columns(Collect(LinesOf(losses))))
    ensures j < |SummaryTable(losses, title)| - 2 ==>
      var col := Sort(LinesFor(LinesOf(losses), Collect(LinesOf(losses)).order[k]));
      SummaryTable(losses, title)[2 + j][k] == if j < |col| then Some(col[j]) else None
  {
    var pairs := LinesOf(losses);
    CollectWellFormed(pairs);
    CollectSpec(pairs);
    TableShape(title, Collect(pairs));
    if j < Longest(Columns(Collect(pairs))) {
      TableCell(title, Collect(pairs), j, k);
    }
  }

  /** Two losses of one country and one type, destroyed then captured:
      a single line counting both, and a header that counts that one line,
      not the two losses. */
  lemma HeaderCountsLines()
    ensures var a := Tagged("russian", Loss("Tanks", "destroyed", 1, "http://a"));
      var b := Tagged("russian", Loss("Tanks", "captured", 2, "http://b"));
      SummaryTable([a, b], "t")
        == [[Some("t")], [Some("Russian losses: 1")], [Some("Tanks total: 2, destroyed: 1, captured: 1")]]
  {
    var a := Tagged("russian", Loss("Tanks", "destroyed", 1, "http://a"));
    var b := Tagged("russian", Loss("Tanks", "captured", 2, "http://b"));
    var line := "Tanks total: 2, destroyed: 1, captured: 1";
    ExampleLines(a, b);
    ExampleTable(line);
  }

  lemma ExampleLines(a: Tagged, b: Tagged)
    requires a == Tagged("russian", Loss("Tanks", "destroyed", 1, "http://a"))
    requires b == Tagged("russian", Loss("Tanks", "captured", 2, "http://b"))
    ensures LinesOf([a, b]) == [("russian", "Tanks total: 2, destroyed: 1, captured: 1")]
  {
    var losses := [a, b];
    ConstantKeyOneRun(losses, CountryOf);
    var data := LossesOf(losses);
    assert data == [a.loss, b.loss];
    ConstantKeyOneRun(data, KindOf);
    ExampleLine(data);
    var runs: seq<seq<Tagged>> := Runs(losses, CountryOf);
    assert runs == [losses] && runs[..0] == [];
    assert runs[0][0].country == "russian";
    assert CountryLines(runs) == TypeLines("russian", [data]);
    var lines := TypeLines("russian", [data]);
    assert |lines| == 1 && lines[0] == ("russian", TypeLine(data));
  }

  lemma ExampleLine(data: seq<Loss>)
    requires data == [Loss("Tanks", "destroyed", 1, "http://a"), Loss("Tanks", "captured", 2, "http://b")]
    ensures TypeLine(data) == "Tanks total: 2, destroyed: 1, captured: 1"
  {
    ExampleParts(data);
    assert NatToString(2) == "2";
    assert "Tanks" + " total: " + "2" == "Tanks total: 2";
    assert TotalPart(data) == "Tanks total: 2";
    ExampleJoin(["Tanks total: 2", "destroyed: 1", "captured: 1"]);
    assert [TotalPart(data)] + StatusParts(Runs(data, StatusOf)) == ["Tanks total: 2", "destroyed: 1", "captured: 1"];
  }

  lemma ExampleParts(data: seq<Loss>)
    requires data == [Loss("Tanks", "destroyed", 1, "http://a"), Loss("Tanks", "captured", 2, "http://b")]
    ensures StatusParts(Runs(data, StatusOf)) == ["destroyed: 1", "captured: 1"]
  {
    assert Runs(data, StatusOf) == [[data[0]], [data[1]]] by {
      assert data[1..] == [data[1]];
      assert Runs([data[1]], StatusOf) == [[data[1]]];
    }
    assert NatToString(1) == "1";
    assert "destroyed" + ": " + "1" == "destroyed: 1" && "captured" + ": " + "1" == "captured: 1";
    var parts := StatusParts(Runs(data, StatusOf));
    assert parts[0] == "destroyed: 1" && parts[1] == "captured: 1";
  }

  lemma ExampleJoin(all: seq<string>)
    requires all == ["Tanks total: 2", "destroyed: 1", "captured: 1"]
    ensures Join(all, ", ") == "Tanks total: 2, destroyed: 1, captured: 1"
  {
    assert all[..2] == ["Tanks total: 2", "destroyed: 1"];
    assert all[..2][..1] == ["Tanks total: 2"];
    assert Join(all[..2][..1], ", ") == "Tanks total: 2";
    assert Join(all[..2], ", ") == "Tanks total: 2" + ", " + "destroyed: 1";
    assert "Tanks total: 2" + ", " + "destroyed: 1" + ", " + "captured: 1" == "Tanks total: 2, destroyed: 1, captured: 1";
  }

  lemma ExampleTable(line: string)
    ensures Collect([("russian", line)]) == CountryItems(["russian"], map["russian" := [line]])
    ensures TableOf("t", CountryItems(["russian"], map["russian" := [line]]))
      == [[Some("t")], [Some("Russian losses: 1")], [Some(line)]]
  {
    assert [("russian", line)][..0] == [];
    var items := CountryItems(["russian"], map["russian" := [line]]);
    ExampleHeaders(items);
    ExampleColumn(items, line);
  }

  lemma ExampleHeaders(items: CountryItems)
    requires items.order == ["russian"] && items.lines.Keys == {"russian"} && |items.lines["russian"]| == 1
    ensures WellFormed(items) && Headers(items) == [Some("Russian losses: 1")]
  {
    assert Capitalize("russian") == "Russian";
    assert NatToString(1) == "1";
    assert "Russian" + " losses: " + "1" == "Russian losses: 1";
  }

  lemma ExampleColumn(items: CountryItems, line: string)
    requires items == CountryItems(["russian"], map["russian" := [line]])
    ensures WellFormed(items) && Transpose(Columns(items)) == [[Some(line)]]
  {
    assert Sort([line]) == [line];
    assert Columns(items) == [[line]];
    assert Longest([[line]]) == 1;
    var t := Transpose([[line]]);
    assert |t| == 1 && |t[0]| == 1 && t[0][0] == Some(line);
    assert t[0] == [Some(line)];
  }

  /** Each column is in order and holds exactly its country's lines. */
  lemma ColumnsSorted(items: CountryItems)
    requires WellFormed(items)
    ensures forall k :: 0 <= k < |items.order| ==>
      Sorted(Columns(items)[k]) && multiset(Columns(items)[k]) == multiset(items.lines[items.order[k]])
  {
    forall k | 0 <= k < |items.order|
      ensures Sorted(Columns(items)[k]) && multiset(Columns(items)[k]) == multiset(items.lines[items.order[k]])
    {
      SortSpec(items.lines[items.order[k]]);
    }
  }

  // ---------------------------------------------------------------------
  // Publishing

  /** What `publish_date_diff` posts: nothing for an empty difference,
      otherwise the summary table and the picture drawn from it. */
  function SummaryEvents(losses: seq<Tagged>, title: string, measure: string -> Size): seq<Event>
  {
    if losses == [] then []
    else
      var table := SummaryTable(losses, title);
      match Render(table, measure)
      case Ok(image) => [Posted(table, image)]
      case Err(_) => []
  }

  /** A summary is posted exactly when there is a difference, as one post
      of its table and that table's picture. */
  lemma SummaryPostedIffLosses(losses: seq<Tagged>, title: string, measure: string -> Size)
    ensures SummaryEvents(losses, title, measure) == [] <==> losses == []
    ensures losses != [] ==>
      SummaryEvents(losses, title, measure) == [Posted(SummaryTable(losses, title), Render(SummaryTable(losses, title), measure).value)]
  {
    RenderSize(SummaryTable(losses, title), measure);
  }

  /** `publish_date_diff(losses, date_)`: the early return, the grouping,
      the table and its picture, then the post. */
  method PublishDateDiff(w: World, losses: seq<Tagged>, title: string, measure: string -> Size)
    modifies w
    ensures w.objects == old(w.objects) && w.faults == old(w.faults)
    ensures w.events == old(w.events) + SummaryEvents(losses, title, measure)
  {
    if losses == [] {
      return;
    }
    var countryItems := GroupLosses(losses);
    CollectWellFormed(LinesOf(losses));
    var items := BuildTable(title, countryItems);
    var image := TextToImage(items, measure);
    RenderSize(items, measure);
    w.Log(Posted(items, image.value));
  }

  /** One look-up per loss, in order: each loss gets its own outcome
      whatever happened to the ones before it. */
  function Resolutions(losses: seq<Tagged>, resolves: string -> bool): (events: seq<Event>)
    ensures |events| == |losses|
    ensures forall k :: 0 <= k < |losses| ==> events[k] == Resolved(losses[k], resolves(losses[k].loss.link))
  {
    seq(|losses|, k requires 0 <= k < |losses| => Resolved(losses[k], resolves(losses[k].loss.link)))
  }

  /** A failed look-up does not stop the ones after it: the outcomes of a
      list are those of its parts, one after the other. */
  lemma ResolutionsSplit(a: seq<Tagged>, b: seq<Tagged>, resolves: string -> bool)
    ensures Resolutions(a + b, resolves) == Resolutions(a, resolves) + Resolutions(b, resolves)
  {
  }

  /** `publish_losses`: the loop over the losses, each look-up's failure
      caught and logged. */
  method PublishLosses(w: World, losses: seq<Tagged>, resolves: string -> bool)
    modifies w
    ensures w.objects == old(w.objects) && w.faults == old(w.faults)
    ensures w.events == old(w.events) + Resolutions(losses, resolves)
  {
    for i := 0 to |losses|
      invariant w.objects == old(w.objects) && w.faults == old(w.faults)
      invariant w.events == old(w.events) + Resolutions(losses[..i], resolves)
    {
      var ok := resolves(losses[i].loss.link);
      w.Log(Resolved(losses[i], ok));
      assert Resolutions(losses[..i + 1], resolves) == Resolutions(losses[..i], resolves) + [Resolved(losses[i], ok)];
    }
    assert losses[..|losses|] == losses;
  }
}
